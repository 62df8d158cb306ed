/** Laws of re-pointing: what the rewritten statements bind, and what is left to re-point. */
module FacadeLaws {
  import opened Texts
  import opened Chains
  import opened FacadeSweep

  // --- meaning -----------------------------------------------------------------------------

  /** The object a name of a module is, seen through every facade. Where facades go in a circle there is none,
      and no way to tell one such name from another: they all count as the same missing object. */
  ghost function ObjectOf(facades: Facades, t: Target): Option<Target>
  {
    if Ends(Links(facades), t) then Some(End(Links(facades), t)) else None
  }

  /** One local name an import binds, and to what. */
  datatype Bound = Bound(local: string, target: Option<Target>)

  ghost function AliasMeaning(facades: Facades, imported: string, a: Alias): Bound
  {
    Bound(Local(a), ObjectOf(facades, (imported, a.name)))
  }

  /** The bindings an import makes, in order. */
  ghost function Bounds(facades: Facades, imported: string, names: seq<Alias>): seq<Bound>
  {
    if names == [] then [] else [AliasMeaning(facades, imported, names[0])] + Bounds(facades, imported, names[1..])
  }

  /** The bindings imports make one after the other. */
  ghost function Bindings(facades: Facades, place: Place, outs: seq<Import>): seq<Bound>
  {
    if outs == [] then []
    else Bounds(facades, ImportedOf(place, outs[0]), outs[0].names) + Bindings(facades, place, outs[1..])
  }

  /** What a local name is bound to in the end: the last binding wins. */
  ghost function Latest(bs: seq<Bound>, local: string): Option<Option<Target>>
  {
    if bs == [] then None
    else
      var rest := Latest(bs[1..], local);
      if rest.Some? then rest else if bs[0].local == local then Some(bs[0].target) else None
  }

  /** An import runs if its dots climb no higher than the file's top package (Python Language Reference, section 7.11). */
  predicate Runs(package: string, out: Import) { out.level <= |Split(package, '.')| }

  ghost function Before(facades: Facades, place: Place, node: Import): seq<Bound>
  {
    Bounds(facades, ImportedOf(place, node), node.names)
  }

  function Rewritten(facades: Facades, place: Place, node: Import): seq<Import>
  {
    Replacement(place.package, node, SitesOf(facades, place, node))
  }

  ghost function After(facades: Facades, place: Place, node: Import): seq<Bound>
  {
    Bindings(facades, place, Rewritten(facades, place, node))
  }

  /** The rewritten statements all run, and leave every local name bound to the same object. */
  ghost predicate SameMeaning(facades: Facades, place: Place, node: Import)
  {
    (forall out :: out in Rewritten(facades, place, node) ==> Runs(place.package, out))
    && forall local :: Latest(After(facades, place, node), local) == Latest(Before(facades, place, node), local)
  }

  // --- what the meaning depends on ---------------------------------------------------------

  /** What the parser guarantees of a `from` statement. */
  predicate Parsed(node: Import)
  {
    (node.path.Some? ==> node.path.value != "" && node.path.value[0] != '.') && (node.level == 0 ==> node.path.Some?)
  }

  /** Every owner is a dotted module name. */
  predicate DottedOwners(sites: seq<Site>) { forall s :: s in sites ==> Dotted(s.owner.0) }

  /** The statement's relative imports stay inside the file's top package. */
  predicate Inside(facades: Facades, place: Place, node: Import)
  {
    node.level > 0 ==>
      forall s :: s in SitesOf(facades, place, node) ==> Split(place.package, '.')[0] == Split(s.owner.0, '.')[0]
  }

  /** The alias is no site, but its name is one under another alias: neither kept nor moved. */
  predicate Lost(facades: Facades, place: Place, node: Import, a: Alias)
  {
    var sites := SitesOf(facades, place, node);
    BoundName(sites, a.name) && forall s :: s in sites ==> s.alias != a
  }

  /** Which written import an alias goes to: that of its defining module, or the kept one. */
  function GroupOf(facades: Facades, place: Place, node: Import, a: Alias): string
  {
    if !BoundName(SitesOf(facades, place, node), a.name) then ""
    else match OwnerOf(facades, ImportedOf(place, node), a.name) case None => "" case Some(owner) => owner.0
  }

  /** The `k`-th alias is written before the `j`-th: in an earlier import, or earlier in the same one. */
  predicate WrittenBefore(facades: Facades, place: Place, node: Import, k: nat, j: nat)
    requires k < |node.names| && j < |node.names|
  {
    var kept, at := GroupOf(facades, place, node, node.names[k]), GroupOf(facades, place, node, node.names[j]);
    if kept == at then k < j else Le(kept, at)
  }

  /** The alias that decides its local name in the statement. */
  predicate Final(node: Import, i: nat)
  {
    i < |node.names| && forall k :: i < k < |node.names| ==> Local(node.names[k]) != Local(node.names[i])
  }

  /** Another alias that is written, for the same local name. */
  predicate Rivals(facades: Facades, place: Place, node: Import, k: nat, j: nat)
    requires k < |node.names| && j < |node.names|
  {
    k != j && Local(node.names[k]) == Local(node.names[j]) && !Lost(facades, place, node, node.names[k])
  }

  /** The alias that decides its local name in the rewritten statements. */
  predicate LastWritten(facades: Facades, place: Place, node: Import, j: nat)
  {
    j < |node.names| && !Lost(facades, place, node, node.names[j])
    && forall k :: 0 <= k < |node.names| && Rivals(facades, place, node, k, j) ==> WrittenBefore(facades, place, node, k, j)
  }

  /** The alias written last for the `i`-th alias's local name exists, and stands for the same object. */
  ghost predicate KeepsLocal(facades: Facades, place: Place, node: Import, i: nat)
    requires i < |node.names|
  {
    exists j: nat ::
      LastWritten(facades, place, node, j)
      && AliasMeaning(facades, ImportedOf(place, node), node.names[j]) == AliasMeaning(facades, ImportedOf(place, node), node.names[i])
  }

  ghost predicate KeepsLocals(facades: Facades, place: Place, node: Import)
  {
    forall i: nat :: Final(node, i) ==> KeepsLocal(facades, place, node, i)
  }

  // --- one alias at a time -----------------------------------------------------------------

  lemma {:induction false} RenamedLocal(name: string, local: string)
    ensures Local(Renamed(name, local)) == local && Renamed(name, local).name == name
  {
  }

  lemma {:induction false} WrittenNames(text: string, names: seq<Alias>)
    ensures Written(text, names).names == names
  {
  }

  /** A kept import names the same module, and is as relative. */
  lemma {:induction false} KeptModule(place: Place, node: Import, names: seq<Alias>)
    requires Parsed(node)
    ensures ImportedOf(place, Written(ModuleText(node), names)) == ImportedOf(place, node)
    ensures Written(ModuleText(node), names).level == node.level
  {
    var rest := if node.path.None? then "" else node.path.value;
    DotsRead(node.level, rest);
    hide Split, Join, Dots, ReadModule;
    assert ReadModule(ModuleText(node)) == (node.level, node.path);
  }

  lemma {:induction false} MovedModule(place: Place, node: Import, path: string, names: seq<Alias>)
    requires Dotted(path)
    ensures ImportedOf(place, Written(Spelling(place.package, path, node.level), names)) == path
  {
    hide Dotted, Imported, Spelling, ReadModule;
    SpellingResolves(place.package, path, node.level);
  }

  lemma {:induction false} OwnerSome(facades: Facades, facade: string, name: string)
    ensures OwnerOf(facades, facade, name).Some? <==> Lookup(facades, (facade, name)).Some?
  {
  }

  /** A name is the very object its owner is, though its chain goes in a circle. */
  lemma {:induction false} OwnerObject(facades: Facades, t: Target)
    requires OwnerOf(facades, t.0, t.1).Some?
    ensures ObjectOf(facades, OwnerOf(facades, t.0, t.1).value) == ObjectOf(facades, t)
  {
    hide Links;
    LinksAt(facades, t);
    var g := Links(facades);
    var k := StopFollows(g, g[t], 0, {});
    assert Follow(g, t, k + 1) == Follow(g, g[t], k);
    SameEnd(g, t, k + 1);
  }

  lemma {:induction false} SiteAlias(facades: Facades, place: Place, node: Import, s: Site)
    requires s in SitesOf(facades, place, node)
    ensures s.alias in node.names && IsSite(facades, place, ImportedOf(place, node), s.alias)
    ensures OwnerOf(facades, ImportedOf(place, node), s.alias.name) == Some(s.owner)
  {
  }

  lemma {:induction false} SiteMade(facades: Facades, place: Place, node: Import, a: Alias)
    requires a in node.names && IsSite(facades, place, ImportedOf(place, node), a)
    ensures Site(a, OwnerOf(facades, ImportedOf(place, node), a.name).value) in SitesOf(facades, place, node)
  {
    hide OwnerOf, IsMirror, Imported;
  }

  lemma {:induction false} SiteFound(facades: Facades, place: Place, node: Import, a: Alias)
    requires a in node.names && IsSite(facades, place, ImportedOf(place, node), a)
    ensures BoundName(SitesOf(facades, place, node), a.name) && !Lost(facades, place, node, a)
    ensures Some(GroupOf(facades, place, node, a)) == Some(OwnerOf(facades, ImportedOf(place, node), a.name).value.0)
  {
    SiteMade(facades, place, node, a);
    hide OwnerOf, IsMirror, Imported, SitesOf;
  }

  /** An alias whose name is moved goes to its defining module. */
  lemma {:induction false} BoundGroup(facades: Facades, place: Place, node: Import, a: Alias)
    requires DottedOwners(SitesOf(facades, place, node)) && BoundName(SitesOf(facades, place, node), a.name)
    ensures GroupOf(facades, place, node, a) != ""
    ensures GroupOf(facades, place, node, a) in SortedOwners(SitesOf(facades, place, node))
  {
    hide SitesOf, OwnerOf, ImportedOf, Dotted, SortedOwners;
    var sites := SitesOf(facades, place, node);
    var s :| s in sites && s.alias.name == a.name;
    SiteAlias(facades, place, node, s);
    DottedStart(s.owner.0);
    SortedOwnersSorted(sites);
  }

  lemma {:induction false} LostNoSite(facades: Facades, place: Place, node: Import, a: Alias)
    requires a in node.names && !IsSite(facades, place, ImportedOf(place, node), a)
    ensures !Lost(facades, place, node, a) <==> !BoundName(SitesOf(facades, place, node), a.name)
  {
    hide SitesOf, IsSite, ImportedOf;
    forall s | s in SitesOf(facades, place, node) ensures s.alias != a { SiteAlias(facades, place, node, s); }
  }

  // --- the bindings of the written imports -------------------------------------------------

  /** The aliases of `names` that go to one written import, as they bind. */
  ghost function Picked(facades: Facades, place: Place, node: Import, names: seq<Alias>, group: string): seq<Bound>
  {
    if names == [] then []
    else
      (if !Lost(facades, place, node, names[0]) && GroupOf(facades, place, node, names[0]) == group
       then [AliasMeaning(facades, ImportedOf(place, node), names[0])] else [])
      + Picked(facades, place, node, names[1..], group)
  }

  lemma {:induction false} KeptPicked(facades: Facades, place: Place, node: Import, names: seq<Alias>)
    requires DottedOwners(SitesOf(facades, place, node)) && forall a :: a in names ==> a in node.names
    ensures Bounds(facades, ImportedOf(place, node), Kept(names, SitesOf(facades, place, node))) == Picked(facades, place, node, names, "")
  {
    hide SitesOf, OwnerOf, ImportedOf, DottedOwners, BoundName, ObjectOf, Renamed, Local;
    if names != [] {
      var a, sites := names[0], SitesOf(facades, place, node);
      KeptPicked(facades, place, node, names[1..]);
      RenamedLocal(a.name, Local(a));
      if BoundName(sites, a.name) {
        BoundGroup(facades, place, node, a);
        assert Kept(names, sites) == Kept(names[1..], sites) by { assert [] + Kept(names[1..], sites) == Kept(names[1..], sites); }
        assert [] + Picked(facades, place, node, names[1..], "") == Picked(facades, place, node, names[1..], "");
      } else {
        var kept := [Renamed(a.name, Local(a))] + Kept(names[1..], sites);
        assert kept[1..] == Kept(names[1..], sites);
      }
    }
  }

  lemma {:induction false} MovedPicked(facades: Facades, place: Place, node: Import, names: seq<Alias>, path: string)
    requires path != "" && forall a :: a in names ==> a in node.names
    ensures Bounds(facades, path, Moved(SitesAmong(facades, place, ImportedOf(place, node), names), path))
         == Picked(facades, place, node, names, path)
  {
    hide SitesOf, OwnerOf, ImportedOf, DottedOwners, BoundName, ObjectOf, Renamed, Local, Lost, GroupOf, IsSite;
    if names != [] {
      var a, imported := names[0], ImportedOf(place, node);
      var rest := SitesAmong(facades, place, imported, names[1..]);
      MovedPicked(facades, place, node, names[1..], path);
      if IsSite(facades, place, imported, a) {
        MovedHead(facades, place, node, a, path, rest);
      } else {
        UnsitedGroup(facades, place, node, a);
        assert [] + rest == rest;
        assert [] + Picked(facades, place, node, names[1..], path) == Picked(facades, place, node, names[1..], path);
      }
    }
  }

  lemma {:induction false} UnsitedGroup(facades: Facades, place: Place, node: Import, a: Alias)
    requires a in node.names && !IsSite(facades, place, ImportedOf(place, node), a)
    ensures Lost(facades, place, node, a) || GroupOf(facades, place, node, a) == ""
  {
    hide SitesOf, OwnerOf, ImportedOf, BoundName, IsSite;
    LostNoSite(facades, place, node, a);
  }

  /** A site moves as the object it was. */
  lemma {:induction false} MovedMeaning(facades: Facades, imported: string, a: Alias, owner: Target)
    requires OwnerOf(facades, imported, a.name) == Some(owner)
    ensures AliasMeaning(facades, owner.0, Renamed(owner.1, Local(a))) == AliasMeaning(facades, imported, a)
  {
    OwnerObject(facades, (imported, a.name));
    hide OwnerOf, ObjectOf, Renamed, Local;
    RenamedLocal(owner.1, Local(a));
    assert (owner.0, owner.1) == owner;
  }

  lemma {:induction false} BoundsFirst(facades: Facades, imported: string, a: Alias, names: seq<Alias>)
    ensures Bounds(facades, imported, [a] + names) == [AliasMeaning(facades, imported, a)] + Bounds(facades, imported, names)
  {
    hide AliasMeaning;
    assert ([a] + names)[1..] == names;
  }

  lemma {:induction false} MovedHead(facades: Facades, place: Place, node: Import, a: Alias, path: string, rest: seq<Site>)
    requires a in node.names && IsSite(facades, place, ImportedOf(place, node), a)
    ensures !Lost(facades, place, node, a)
    ensures var s := Site(a, OwnerOf(facades, ImportedOf(place, node), a.name).value);
      Bounds(facades, path, Moved([s] + rest, path))
      == (if GroupOf(facades, place, node, a) == path then [AliasMeaning(facades, ImportedOf(place, node), a)] else [])
         + Bounds(facades, path, Moved(rest, path))
  {
    SiteFound(facades, place, node, a);
    var owner := OwnerOf(facades, ImportedOf(place, node), a.name).value;
    hide *;
    MovedFirst(Site(a, owner), rest, path);
    if owner.0 == path {
      MovedMeaning(facades, ImportedOf(place, node), a, owner);
      BoundsFirst(facades, path, Renamed(owner.1, Local(a)), Moved(rest, path));
    } else {
      assert [] + Bounds(facades, path, Moved(rest, path)) == Bounds(facades, path, Moved(rest, path));
    }
  }

  lemma {:induction false} MovedFirst(s: Site, rest: seq<Site>, path: string)
    ensures Moved([s] + rest, path)
      == if s.owner.0 == path then [Renamed(s.owner.1, Local(s.alias))] + Moved(rest, path) else Moved(rest, path)
  {
    hide Renamed, Local;
    assert ([s] + rest)[1..] == rest;
  }

  ghost function PickedAll(facades: Facades, place: Place, node: Import, groups: seq<string>): seq<Bound>
  {
    if groups == [] then [] else Picked(facades, place, node, node.names, groups[0]) + PickedAll(facades, place, node, groups[1..])
  }

  lemma {:induction false} ImportsPicked(facades: Facades, place: Place, node: Import, paths: seq<string>)
    requires forall path :: path in paths ==> Dotted(path)
    ensures Bindings(facades, place, Imports(place.package, node.level, SitesOf(facades, place, node), paths))
         == PickedAll(facades, place, node, paths)
  {
    hide Dotted, Picked, ImportedOf, Written, Spelling, Moved, SitesAmong, Bounds;
    if paths != [] {
      var path, sites := paths[0], SitesOf(facades, place, node);
      var out := Written(Spelling(place.package, path, node.level), Moved(sites, path));
      WrittenNames(Spelling(place.package, path, node.level), Moved(sites, path));
      DottedStart(path);
      MovedModule(place, node, path, Moved(sites, path));
      MovedPicked(facades, place, node, node.names, path);
      ImportsPicked(facades, place, node, paths[1..]);
      var outs := [out] + Imports(place.package, node.level, sites, paths[1..]);
      assert outs[1..] == Imports(place.package, node.level, sites, paths[1..]);
    }
  }

  lemma {:induction false} BindingsFirst(facades: Facades, place: Place, out: Import, outs: seq<Import>)
    ensures Bindings(facades, place, [out] + outs) == Bounds(facades, ImportedOf(place, out), out.names) + Bindings(facades, place, outs)
  {
    assert ([out] + outs)[1..] == outs;
  }

  /** The written imports in order: the kept one, then those of the defining modules. */
  function Groups(facades: Facades, place: Place, node: Import): seq<string>
  {
    [""] + SortedOwners(SitesOf(facades, place, node))
  }

  lemma {:induction false} AfterPicked(facades: Facades, place: Place, node: Import)
    requires Parsed(node) && DottedOwners(SitesOf(facades, place, node))
    ensures After(facades, place, node) == PickedAll(facades, place, node, Groups(facades, place, node))
  {
    hide SitesOf, Dotted, Picked, ImportedOf, Written, Bounds, Bindings, ModuleText, Imports, SortedOwners, Kept, Parsed;
    var sites := SitesOf(facades, place, node);
    var paths := SortedOwners(sites);
    SortedOwnersSorted(sites);
    ImportsPicked(facades, place, node, paths);
    KeptPicked(facades, place, node, node.names);
    var kept := Kept(node.names, sites);
    var imports := Imports(place.package, node.level, sites, paths);
    if kept == [] {
      NoBounds(facades, ImportedOf(place, node));
      assert [] + imports == imports;
    } else {
      KeptModule(place, node, kept);
      WrittenNames(ModuleText(node), kept);
      BindingsFirst(facades, place, Written(ModuleText(node), kept), imports);
    }
    assert Groups(facades, place, node)[1..] == paths;
  }

  lemma {:induction false} NoBounds(facades: Facades, imported: string)
    ensures Bounds(facades, imported, []) == []
  {
  }

  // --- which binding wins ------------------------------------------------------------------

  lemma {:induction false} LatestConcat(a: seq<Bound>, b: seq<Bound>, local: string)
    ensures Latest(a + b, local) == if Latest(b, local).Some? then Latest(b, local) else Latest(a, local)
  {
    if a == [] {
      assert a + b == b;
    } else {
      assert (a + b)[1..] == a[1..] + b;
      LatestConcat(a[1..], b, local);
    }
  }

  lemma {:induction false} LatestFirst(b: Bound, bs: seq<Bound>, local: string)
    ensures Latest([b] + bs, local)
      == if Latest(bs, local).Some? then Latest(bs, local) else if b.local == local then Some(b.target) else None
  {
    assert ([b] + bs)[1..] == bs;
  }

  /** Before the rewrite, the final alias of a local name decides it. */
  lemma {:induction false} BeforeLatest(facades: Facades, imported: string, node: Import, at: nat, local: string) returns (i: nat)
    requires at <= |node.names|
    ensures var r := Latest(Bounds(facades, imported, node.names[at..]), local);
      if r.None? then forall k :: at <= k < |node.names| ==> Local(node.names[k]) != local
      else at <= i && Final(node, i) && Local(node.names[i]) == local && r == Some(AliasMeaning(facades, imported, node.names[i]).target)
    decreases |node.names| - at
  {
    hide Latest, Local, ObjectOf;
    i := at;
    if at == |node.names| {
      assert node.names[at..] == [];
      NoLatest(local);
    } else {
      var a, rest := node.names[at], Bounds(facades, imported, node.names[at + 1..]);
      assert node.names[at..][0] == a && node.names[at..][1..] == node.names[at + 1..];
      LatestFirst(AliasMeaning(facades, imported, a), rest, local);
      var j := BeforeLatest(facades, imported, node, at + 1, local);
      if Latest(rest, local).Some? { i := j; }
    }
  }

  lemma {:induction false} NoLatest(local: string)
    ensures Latest([], local) == None
  {
  }

  /** The `k`-th alias binds `local` in the written import `group`. */
  predicate Puts(facades: Facades, place: Place, node: Import, k: int, group: string, local: string)
  {
    0 <= k < |node.names| && Local(node.names[k]) == local && !Lost(facades, place, node, node.names[k])
    && GroupOf(facades, place, node, node.names[k]) == group
  }

  lemma {:induction false} PickedLatest(facades: Facades, place: Place, node: Import, at: nat, group: string, local: string) returns (j: nat)
    requires at <= |node.names|
    ensures var r := Latest(Picked(facades, place, node, node.names[at..], group), local);
      if r.None? then forall k :: at <= k < |node.names| ==> !Puts(facades, place, node, k, group, local)
      else
        at <= j && Puts(facades, place, node, j, group, local)
        && r == Some(AliasMeaning(facades, ImportedOf(place, node), node.names[j]).target)
        && forall k :: j < k < |node.names| ==> !Puts(facades, place, node, k, group, local)
    decreases |node.names| - at
  {
    hide Latest, Local, ObjectOf, Lost, GroupOf, ImportedOf;
    j := at;
    if at == |node.names| {
      assert node.names[at..] == [];
      NoLatest(local);
    } else {
      var a, rest := node.names[at], Picked(facades, place, node, node.names[at + 1..], group);
      assert node.names[at..][0] == a && node.names[at..][1..] == node.names[at + 1..];
      LatestFirst(AliasMeaning(facades, ImportedOf(place, node), a), rest, local);
      assert [] + rest == rest;
      var i := PickedLatest(facades, place, node, at + 1, group, local);
      if Latest(rest, local).Some? { j := i; }
    }
  }

  /** Over several written imports the last that binds the name decides. */
  lemma {:induction false} AllLatest(facades: Facades, place: Place, node: Import, groups: seq<string>, local: string) returns (j: nat, at: nat)
    ensures var r := Latest(PickedAll(facades, place, node, groups), local);
      if r.None? then forall h, k :: 0 <= h < |groups| ==> !Puts(facades, place, node, k, groups[h], local)
      else
        at < |groups| && Puts(facades, place, node, j, groups[at], local)
        && r == Some(AliasMeaning(facades, ImportedOf(place, node), node.names[j]).target)
        && (forall k :: j < k ==> !Puts(facades, place, node, k, groups[at], local))
        && forall h, k :: at < h < |groups| ==> !Puts(facades, place, node, k, groups[h], local)
  {
    hide Latest, Local, ObjectOf, Lost, GroupOf, ImportedOf, Picked;
    j, at := 0, 0;
    if groups == [] {
      NoLatest(local);
    } else {
      var first, rest := Picked(facades, place, node, node.names, groups[0]), PickedAll(facades, place, node, groups[1..]);
      LatestConcat(first, rest, local);
      var i, h := AllLatest(facades, place, node, groups[1..], local);
      assert forall h :: 0 < h < |groups| ==> groups[h] == groups[1..][h - 1];
      if Latest(rest, local).Some? {
        j, at := i, h + 1;
      } else {
        assert node.names[0..] == node.names;
        j := PickedLatest(facades, place, node, 0, groups[0], local);
      }
    }
  }

  /** The groups are in strictly increasing order, and hold every alias's. */
  lemma {:induction false} GroupsSorted(facades: Facades, place: Place, node: Import)
    requires DottedOwners(SitesOf(facades, place, node))
    ensures var gs := Groups(facades, place, node);
      (forall i, j :: 0 <= i < j < |gs| ==> Le(gs[i], gs[j]) && gs[i] != gs[j])
      && forall a :: a in node.names ==> GroupOf(facades, place, node, a) in gs
  {
    hide SitesOf, OwnerOf, ImportedOf, Dotted, SortedOwners, BoundName;
    var sites := SitesOf(facades, place, node);
    var gs, owners := Groups(facades, place, node), SortedOwners(sites);
    SortedOwnersSorted(sites);
    assert gs[0] == "" && gs[1..] == owners;
    forall path | path in owners ensures path != "" {
      var s :| s in sites && s.owner.0 == path;
      DottedStart(path);
    }
    forall i, j | 0 <= i < j < |gs| ensures Le(gs[i], gs[j]) && gs[i] != gs[j] {
      assert gs[j] == owners[j - 1] && gs[j] in owners;
      if i > 0 { assert gs[i] == owners[i - 1]; }
    }
    forall a | a in node.names ensures GroupOf(facades, place, node, a) in gs {
      if BoundName(sites, a.name) {
        BoundGroup(facades, place, node, a);
        var k :| 0 <= k < |owners| && owners[k] == GroupOf(facades, place, node, a);
        assert gs[k + 1] == owners[k];
      }
    }
  }

  /** After the rewrite, the alias written last for a local name decides it. */
  lemma {:induction false} AfterLatest(facades: Facades, place: Place, node: Import, local: string) returns (j: nat)
    requires Parsed(node) && DottedOwners(SitesOf(facades, place, node))
    ensures var r := Latest(After(facades, place, node), local);
      if r.None? then forall a :: a in node.names && Local(a) == local ==> Lost(facades, place, node, a)
      else
        LastWritten(facades, place, node, j) && Local(node.names[j]) == local
        && r == Some(AliasMeaning(facades, ImportedOf(place, node), node.names[j]).target)
  {
    hide Latest, Local, ObjectOf, Lost, GroupOf, ImportedOf, Picked, PickedAll, After, Groups, Parsed, DottedOwners, SitesOf;
    AfterPicked(facades, place, node);
    GroupsSorted(facades, place, node);
    var gs, at := Groups(facades, place, node), 0;
    j, at := AllLatest(facades, place, node, gs, local);
    if Latest(After(facades, place, node), local).None? {
      forall a | a in node.names && Local(a) == local ensures Lost(facades, place, node, a) {
        var k :| 0 <= k < |node.names| && node.names[k] == a;
        var h :| 0 <= h < |gs| && gs[h] == GroupOf(facades, place, node, a);
        assert !Puts(facades, place, node, k, gs[h], local);
      }
    } else {
      forall k | 0 <= k < |node.names| && k != j && Local(node.names[k]) == local && !Lost(facades, place, node, node.names[k])
        ensures WrittenBefore(facades, place, node, k, j)
      {
        assert node.names[k] in node.names;
        var h :| 0 <= h < |gs| && gs[h] == GroupOf(facades, place, node, node.names[k]);
        assert Puts(facades, place, node, k, gs[h], local);
      }
    }
  }

  /** Only one alias of a local name is written last. */
  lemma {:induction false} LastUnique(facades: Facades, place: Place, node: Import, i: nat, j: nat)
    requires LastWritten(facades, place, node, i) && LastWritten(facades, place, node, j)
    requires Local(node.names[i]) == Local(node.names[j])
    ensures i == j
  {
    hide Local, Lost, GroupOf;
    LeTotal(GroupOf(facades, place, node, node.names[i]), GroupOf(facades, place, node, node.names[j]));
    assert i != j ==> WrittenBefore(facades, place, node, i, j);
    assert i != j ==> WrittenBefore(facades, place, node, j, i);
  }

  lemma {:induction false} FinalUnique(node: Import, i: nat, j: nat)
    requires Final(node, i) && Final(node, j) && Local(node.names[i]) == Local(node.names[j])
    ensures i == j
  {
  }

  // --- the statement -----------------------------------------------------------------------

  /** The written imports all run exactly when the moved ones stay inside the package tree. */
  lemma {:induction false} RunsExact(facades: Facades, place: Place, node: Import)
    requires Parsed(node) && Runs(place.package, node) && DottedOwners(SitesOf(facades, place, node))
    ensures (forall out :: out in Rewritten(facades, place, node) ==> Runs(place.package, out)) <==> Inside(facades, place, node)
  {
    hide SitesOf, Parsed, ModuleText, Kept, Dotted, SortedOwners, Imports, Split;
    var sites := SitesOf(facades, place, node);
    var paths := SortedOwners(sites);
    var imports := Imports(place.package, node.level, sites, paths);
    SortedOwnersSorted(sites);
    KeptModule(place, node, Kept(node.names, sites));
    forall s | s in sites ensures var out := Written(Spelling(place.package, s.owner.0, node.level), Moved(sites, s.owner.0));
      out in imports && (Runs(place.package, out) <==> (node.level > 0 ==> Split(place.package, '.')[0] == Split(s.owner.0, '.')[0]))
    {
      var out := Written(Spelling(place.package, s.owner.0, node.level), Moved(sites, s.owner.0));
      ImportsMember(place.package, node.level, sites, paths, out);
      SpelledRuns(place, s.owner.0, node.level, Moved(sites, s.owner.0));
    }
    forall out | out in imports
      ensures exists s :: s in sites && out == Written(Spelling(place.package, s.owner.0, node.level), Moved(sites, s.owner.0))
    {
      ImportsMember(place.package, node.level, sites, paths, out);
    }
  }

  lemma {:induction false} SpelledRuns(place: Place, path: string, level: nat, names: seq<Alias>)
    requires Dotted(path)
    ensures Runs(place.package, Written(Spelling(place.package, path, level), names))
      <==> (level > 0 ==> Split(place.package, '.')[0] == Split(path, '.')[0])
  {
    if level > 0 {
      SpellingInside(place.package, path, level);
    } else {
      SpellingResolves(place.package, path, level);
    }
  }

  /** Re-pointing preserves meaning exactly when the written imports stay inside the package tree, and the
      alias written last for each local name is the object the statement left it bound to. */
  lemma {:induction false} RewritePreserves(facades: Facades, place: Place, node: Import)
    requires Parsed(node) && Runs(place.package, node) && DottedOwners(SitesOf(facades, place, node))
    ensures SameMeaning(facades, place, node) <==> Inside(facades, place, node) && KeepsLocals(facades, place, node)
  {
    hide SitesOf, Parsed, DottedOwners, Runs, Inside, After, Before, Latest, LastWritten, Rewritten, ImportedOf, ObjectOf;
    RunsExact(facades, place, node);
    if forall local :: Latest(After(facades, place, node), local) == Latest(Before(facades, place, node), local) {
      forall i: nat | Final(node, i) ensures KeepsLocal(facades, place, node, i) {
        SameLocal(facades, place, node, i);
      }
    }
    if KeepsLocals(facades, place, node) {
      forall local ensures Latest(After(facades, place, node), local) == Latest(Before(facades, place, node), local) {
        LocalKept(facades, place, node, local);
      }
    }
  }

  /** The final alias of a local name is what it is bound to before. */
  lemma {:induction false} FinalBefore(facades: Facades, place: Place, node: Import, i: nat)
    requires Final(node, i)
    ensures Latest(Before(facades, place, node), Local(node.names[i]))
         == Some(AliasMeaning(facades, ImportedOf(place, node), node.names[i]).target)
  {
    hide Latest, Local, ObjectOf, ImportedOf, Bounds;
    assert node.names[0..] == node.names;
    var j := BeforeLatest(facades, ImportedOf(place, node), node, 0, Local(node.names[i]));
    FinalUnique(node, i, j);
  }

  lemma {:induction false} SameLocal(facades: Facades, place: Place, node: Import, i: nat)
    requires Parsed(node) && DottedOwners(SitesOf(facades, place, node)) && Final(node, i)
    requires Latest(After(facades, place, node), Local(node.names[i])) == Latest(Before(facades, place, node), Local(node.names[i]))
    ensures KeepsLocal(facades, place, node, i)
  {
    hide SitesOf, Parsed, DottedOwners, After, Before, Latest, LastWritten, ImportedOf, ObjectOf, Lost, Local;
    FinalBefore(facades, place, node, i);
    var j := AfterLatest(facades, place, node, Local(node.names[i]));
  }

  lemma {:induction false} LocalKept(facades: Facades, place: Place, node: Import, local: string)
    requires Parsed(node) && DottedOwners(SitesOf(facades, place, node)) && KeepsLocals(facades, place, node)
    ensures Latest(After(facades, place, node), local) == Latest(Before(facades, place, node), local)
  {
    hide SitesOf, Parsed, DottedOwners, After, Latest, ImportedOf, ObjectOf, Lost, Local, Bounds, GroupOf;
    assert node.names[0..] == node.names;
    var i := BeforeLatest(facades, ImportedOf(place, node), node, 0, local);
    var j := AfterLatest(facades, place, node, local);
    if Latest(Before(facades, place, node), local).Some? {
      assert KeepsLocal(facades, place, node, i);
      var m: nat :| LastWritten(facades, place, node, m)
        && AliasMeaning(facades, ImportedOf(place, node), node.names[m]) == AliasMeaning(facades, ImportedOf(place, node), node.names[i]);
      LastNotLost(facades, place, node, m);
      if Latest(After(facades, place, node), local).Some? { LastUnique(facades, place, node, j, m); }
    } else if Latest(After(facades, place, node), local).Some? {
      LastNotLost(facades, place, node, j);
    }
  }

  lemma {:induction false} LastNotLost(facades: Facades, place: Place, node: Import, j: nat)
    requires LastWritten(facades, place, node, j)
    ensures j < |node.names| && node.names[j] in node.names && !Lost(facades, place, node, node.names[j])
  {
  }

  /** A local name is left unbound exactly when every alias of it is lost. */
  lemma {:induction false} AliasLost(facades: Facades, place: Place, node: Import, local: string)
    requires Parsed(node) && DottedOwners(SitesOf(facades, place, node))
    ensures Latest(After(facades, place, node), local).None?
      <==> forall a :: a in node.names && Local(a) == local ==> Lost(facades, place, node, a)
  {
    hide SitesOf, Parsed, DottedOwners, After, Latest, ImportedOf, ObjectOf, Lost, Local, LastWritten;
    var j := AfterLatest(facades, place, node, local);
    if Latest(After(facades, place, node), local).Some? { LastNotLost(facades, place, node, j); }
  }

  predicate DistinctLocals(node: Import)
  {
    forall a, b :: a in node.names && b in node.names && Local(a) == Local(b) ==> a == b
  }

  /** A statement that binds no local name twice keeps its meaning exactly when no alias is lost. */
  lemma {:induction false} DistinctPreserves(facades: Facades, place: Place, node: Import)
    requires Parsed(node) && Runs(place.package, node) && DottedOwners(SitesOf(facades, place, node)) && DistinctLocals(node)
    ensures SameMeaning(facades, place, node)
      <==> Inside(facades, place, node) && forall a :: a in node.names ==> !Lost(facades, place, node, a)
  {
    RewritePreserves(facades, place, node);
    hide SitesOf, Parsed, DottedOwners, Runs, Inside, SameMeaning, ImportedOf, ObjectOf, Lost, Local, GroupOf, Before;
    if KeepsLocals(facades, place, node) {
      forall a | a in node.names ensures !Lost(facades, place, node, a) {
        assert node.names[0..] == node.names;
        var i := BeforeLatest(facades, ImportedOf(place, node), node, 0, Local(a));
        var k :| 0 <= k < |node.names| && node.names[k] == a;
        assert KeepsLocal(facades, place, node, i);
        var j: nat :| LastWritten(facades, place, node, j)
          && AliasMeaning(facades, ImportedOf(place, node), node.names[j]) == AliasMeaning(facades, ImportedOf(place, node), node.names[i]);
        assert node.names[j] in node.names;
      }
    }
    if forall a :: a in node.names ==> !Lost(facades, place, node, a) {
      forall i: nat | Final(node, i) ensures KeepsLocal(facades, place, node, i) {
        forall k | 0 <= k < |node.names| && k != i && Local(node.names[k]) == Local(node.names[i])
          ensures WrittenBefore(facades, place, node, k, i)
        {
          assert node.names[k] in node.names && node.names[i] in node.names;
        }
        assert node.names[i] in node.names;
        assert LastWritten(facades, place, node, i);
      }
    }
  }

  /** It is enough that each local name's final alias stays the last written; where the aliases of one
      local name are different objects, it is also needed. */
  lemma {:induction false} StaysLastPreserves(facades: Facades, place: Place, node: Import)
    requires Parsed(node) && Runs(place.package, node) && DottedOwners(SitesOf(facades, place, node))
    ensures Inside(facades, place, node) && StaysLast(facades, place, node) ==> SameMeaning(facades, place, node)
    ensures DistinctObjects(facades, place, node) && SameMeaning(facades, place, node)
      ==> Inside(facades, place, node) && StaysLast(facades, place, node)
  {
    RewritePreserves(facades, place, node);
    hide SitesOf, Parsed, DottedOwners, Runs, Inside, SameMeaning, ImportedOf, ObjectOf, Lost, Local, GroupOf;
    if StaysLast(facades, place, node) {
      forall i: nat | Final(node, i) ensures KeepsLocal(facades, place, node, i) {
        assert LastWritten(facades, place, node, i);
      }
    }
    if DistinctObjects(facades, place, node) && KeepsLocals(facades, place, node) {
      forall i: nat | Final(node, i) ensures LastWritten(facades, place, node, i) {
        assert KeepsLocal(facades, place, node, i);
      }
    }
  }

  predicate StaysLast(facades: Facades, place: Place, node: Import)
  {
    forall i :: 0 <= i < |node.names| && Final(node, i) ==> LastWritten(facades, place, node, i)
  }

  ghost predicate DistinctObjects(facades: Facades, place: Place, node: Import)
  {
    forall i, k ::
      0 <= i < |node.names| && 0 <= k < |node.names|
      && AliasMeaning(facades, ImportedOf(place, node), node.names[i]) == AliasMeaning(facades, ImportedOf(place, node), node.names[k])
      ==> i == k
  }
}
