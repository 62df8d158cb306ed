/** Re-pointing imports that go through a facade at the module that defines the name. */
module FacadeSweep {
  import opened Texts
  import opened Chains

  /** A module and a name in it. */
  type Target = (string, string)

  /** Each facade's lazy table; a submodule entry has no target. */
  type Facades = map<string, map<string, Option<Target>>>

  function Links(facades: Facades): map<Target, Target>
  {
    map path, name | path in facades && name in facades[path] && facades[path][name].Some?
      :: (path, name) := facades[path][name].value
  }

  /** `facades.get(path, {}).get(name)` */
  function Lookup(facades: Facades, t: Target): Option<Target>
  {
    if t.0 in facades && t.1 in facades[t.0] then facades[t.0][t.1] else None
  }

  /** Where following facades from `t` stops: at the end, or at the first target met twice. */
  function StopOf(g: map<Target, Target>, t: Target, seen: set<Target>): Target
    requires seen <= g.Keys
    decreases |g.Keys - seen|
  {
    if t !in g || t in seen then t
    else
      Fewer(g.Keys - (seen + {t}), g.Keys - seen, t);
      StopOf(g, g[t], seen + {t})
  }

  /** Where a facade's name comes from in the end, if the facade binds it. */
  function OwnerOf(facades: Facades, facade: string, name: string): Option<Target>
  {
    var binding := Lookup(facades, (facade, name));
    if binding.None? then None else Some(StopOf(Links(facades), binding.value, {}))
  }

  lemma {:induction false} LinksAt(facades: Facades, t: Target)
    ensures t in Links(facades) <==> Lookup(facades, t).Some?
    ensures t in Links(facades) ==> Links(facades)[t] == Lookup(facades, t).value
  {
  }

  /** The loop of `owner`. */
  method Owner(facades: Facades, facade: string, name: string) returns (r: Option<Target>)
    requires facade in facades
    ensures r == OwnerOf(facades, facade, name)
  {
    hide Links;
    if name !in facades[facade] || facades[facade][name].None? {
      return None;
    }
    var binding := facades[facade][name].value;
    var seen: set<Target> := {};
    ghost var g := Links(facades);
    ghost var answer := StopOf(g, binding, {});
    while binding.0 in facades && binding.1 in facades[binding.0]
      invariant seen <= g.Keys && answer == StopOf(g, binding, seen)
      decreases |g.Keys - seen|
    {
      LinksAt(facades, binding);
      if binding in seen {
        return Some(binding);
      }
      var following := facades[binding.0][binding.1];
      if following.None? {
        return Some(binding);
      }
      Fewer(g.Keys - (seen + {binding}), g.Keys - seen, binding);
      seen, binding := seen + {binding}, following.value;
    }
    LinksAt(facades, binding);
    return Some(binding);
  }

  lemma {:induction false} StopFollows(g: map<Target, Target>, t: Target, k: nat, seen: set<Target>) returns (stop: nat)
    requires seen <= g.Keys
    requires forall e :: e in seen ==> Met(g, t, k, e)
    ensures StopOf(g, Follow(g, t, k), seen) == Follow(g, t, stop)
    ensures Follow(g, t, stop) in g ==> !Ends(g, t)
    decreases |g.Keys - seen|
  {
    var at := Follow(g, t, k);
    stop := k;
    if at in g {
      if at in seen {
        var j: nat :| j < k && Follow(g, t, j) == at;
        CycleNeverEnds(g, t, j, k);
      } else {
        Fewer(g.Keys - (seen + {at}), g.Keys - seen, at);
        FollowMore(g, t, k, 1);
        assert Follow(g, at, 1) == Follow(g, g[at], 0);
        forall e | e in seen + {at} ensures Met(g, t, k + 1, e) {
          if e in seen { var j: nat :| j < k && Follow(g, t, j) == e; }
        }
        stop := StopFollows(g, t, k + 1, seen + {at});
      }
    }
  }

  /** The owner is the end of the chain of facades, or lies on a chain that never ends. */
  lemma {:induction false} OwnerEnds(facades: Facades, facade: string, name: string)
    requires Lookup(facades, (facade, name)).Some?
    ensures var g, t := Links(facades), (facade, name);
      t in g && OwnerOf(facades, facade, name).Some?
      && (if Ends(g, t) then OwnerOf(facades, facade, name) == Some(End(g, t)) else OwnerOf(facades, facade, name).value in g)
  {
    var g, t := Links(facades), (facade, name);
    var first := g[t];
    SameEnd(g, t, 1);
    assert Follow(g, t, 1) == Follow(g, first, 0);
    var stop := StopFollows(g, first, 0, {});
    if Follow(g, first, stop) !in g { EndUnique(g, first, stop); }
  }

  // --- statements --------------------------------------------------------------------------

  datatype Alias = Alias(name: string, asname: Option<string>)

  /** The local name an alias binds. */
  function Local(a: Alias): string
  {
    match a.asname case None => a.name case Some(local) => local
  }

  /** `from <dots><path> import <names>` */
  datatype Import = Import(level: nat, path: Option<string>, names: seq<Alias>)

  /** The prefix `parts[:n]` of Python, where a negative `n` counts from the end. */
  function Prefix(parts: seq<string>, n: int): (r: seq<string>)
    ensures r <= parts
    ensures |r| == if 0 <= n <= |parts| then n else if n > |parts| then |parts| else if |parts| + n > 0 then |parts| + n else 0
  {
    var at := if n >= 0 then n else |parts| + n;
    if at <= 0 then [] else if at >= |parts| then parts else parts[..at]
  }

  /** The module an import names, resolved against the file's package. */
  function Imported(package: string, level: nat, path: Option<string>): string
  {
    var rest := if path.None? || path.value == "" then [] else [path.value];
    if level == 0 then (if path.None? then "" else path.value)
    else
      var parts := Split(package, '.');
      Join(Prefix(parts, |parts| - level + 1) + rest, '.')
  }

  function CommonPrefix(a: seq<string>, b: seq<string>): (r: nat)
    ensures r <= |a| && r <= |b| && a[..r] == b[..r]
  {
    if a == [] || b == [] || a[0] != b[0] then 0
    else
      var r := CommonPrefix(a[1..], b[1..]);
      assert a[..r + 1] == [a[0]] + a[1..][..r] && b[..r + 1] == [b[0]] + b[1..][..r];
      r + 1
  }

  function Dots(n: nat): (r: string)
    ensures |r| == n && forall c :: c in r ==> c == '.'
  {
    if n == 0 then "" else ['.'] + Dots(n - 1)
  }

  /** How a `from` statement of this level spells the module. */
  function Spelling(package: string, path: string, level: nat): string
  {
    if level == 0 then path
    else
      var here, target := Split(package, '.'), Split(path, '.');
      var common := CommonPrefix(here, target);
      Dots(|here| - common + 1) + Join(target[common..], '.')
  }

  /** Reading what stands between `from` and `import`: the leading dots, and the rest if any. */
  function ReadModule(text: string): (nat, Option<string>)
  {
    if text == "" then (0, None)
    else if text[0] == '.' then
      var (n, rest) := ReadModule(text[1..]);
      (n + 1, rest)
    else (0, Some(text))
  }

  /** A dotted name: no part is empty. */
  predicate Dotted(path: string) { "" !in Split(path, '.') }

  lemma {:induction false} DotsRead(n: nat, rest: string)
    requires rest == "" || rest[0] != '.'
    ensures ReadModule(Dots(n) + rest) == (n, if rest == "" then None else Some(rest))
  {
    if n > 0 {
      assert (Dots(n) + rest)[1..] == Dots(n - 1) + rest;
      DotsRead(n - 1, rest);
    } else {
      assert Dots(0) + rest == rest;
    }
  }

  lemma {:induction false} JoinStart(parts: seq<string>)
    requires "" !in parts && (forall part :: part in parts ==> '.' !in part)
    ensures Join(parts, '.') == "" <==> parts == []
    ensures parts != [] ==> Join(parts, '.')[0] != '.'
  {
    if parts != [] {
      assert parts[0] in parts;
      assert Join(parts, '.')[0] == parts[0][0];
      assert parts[0][0] in parts[0];
    }
  }

  lemma {:induction false} DottedStart(path: string)
    requires Dotted(path)
    ensures path != "" && path[0] != '.'
  {
    JoinSplit(path, '.');
    JoinStart(Split(path, '.'));
  }

  lemma {:induction false} JoinConcat(a: seq<string>, b: seq<string>)
    requires b != []
    ensures Join(a + [Join(b, '.')], '.') == Join(a + b, '.')
  {
    if a == [] {
      assert a + [Join(b, '.')] == [Join(b, '.')] && a + b == b;
    } else {
      JoinConcat(a[1..], b);
      assert (a + [Join(b, '.')])[1..] == a[1..] + [Join(b, '.')];
      assert (a + b)[1..] == a[1..] + b;
    }
  }

  lemma {:induction false} Cut(parts: seq<string>, k: nat)
    requires k <= |parts|
    ensures parts == parts[..k] + parts[k..]
    ensures forall part :: part in parts[k..] ==> part in parts
  {
  }

  /** How many packages a file's package shares with a module, and the module's path below them. */
  function Shared(package: string, path: string): (r: nat)
    ensures r <= |Split(package, '.')| && r <= |Split(path, '.')|
  {
    CommonPrefix(Split(package, '.'), Split(path, '.'))
  }

  function Below(package: string, path: string): seq<string> { Split(path, '.')[Shared(package, path)..] }

  lemma {:induction false} SharedThenBelow(package: string, path: string)
    ensures Split(path, '.') == Split(package, '.')[..Shared(package, path)] + Below(package, path)
  {
    hide CommonPrefix, Split;
    Cut(Split(path, '.'), Shared(package, path));
  }

  lemma {:induction false} BelowJoin(package: string, path: string)
    requires Dotted(path)
    ensures var tail := Below(package, path);
      (Join(tail, '.') == "" <==> tail == []) && (tail != [] ==> Join(tail, '.')[0] != '.')
  {
    hide Split, Join, Shared;
    Cut(Split(path, '.'), Shared(package, path));
    JoinStart(Below(package, path));
  }

  /** A relative spelling reads as the dots up to the shared packages, and the path below them. */
  lemma {:induction false} SpelledReads(package: string, path: string, level: nat)
    requires Dotted(path) && level > 0
    ensures var tail := Below(package, path);
      ReadModule(Spelling(package, path, level))
      == (|Split(package, '.')| - Shared(package, path) + 1, if tail == [] then None else Some(Join(tail, '.')))
  {
    hide Split, Join, ReadModule, Dots, CommonPrefix, Dotted;
    BelowJoin(package, path);
    DotsRead(|Split(package, '.')| - Shared(package, path) + 1, Join(Below(package, path), '.'));
  }

  lemma {:induction false} ImportedRelative(package: string, common: nat, tail: seq<string>)
    requires common <= |Split(package, '.')| && (Join(tail, '.') == "" <==> tail == [])
    ensures var here := Split(package, '.');
      Imported(package, |here| - common + 1, if tail == [] then None else Some(Join(tail, '.'))) == Join(here[..common] + tail, '.')
  {
    hide Split, Join;
    var here := Split(package, '.');
    assert Prefix(here, common) == here[..common];
    if tail != [] { JoinConcat(here[..common], tail); }
  }

  /** A spelled module reads back, and resolves to the module. */
  lemma {:induction false} SpellingResolves(package: string, path: string, level: nat)
    requires Dotted(path)
    ensures var (n, rest) := ReadModule(Spelling(package, path, level));
      Imported(package, n, rest) == path && (n == 0 <==> level == 0)
  {
    DottedStart(path);
    hide Split, Join, CommonPrefix, Shared, Below;
    if level == 0 {
      DotsRead(0, path);
      assert Dots(0) + path == path;
    } else {
      hide Dotted, ReadModule, Imported;
      SpelledReads(package, path, level);
      BelowJoin(package, path);
      SharedThenBelow(package, path);
      ImportedRelative(package, Shared(package, path), Below(package, path));
      JoinSplit(path, '.');
    }
  }

  /** A relative spelling stays inside the package tree exactly when the two share their top package. */
  lemma {:induction false} SpellingInside(package: string, path: string, level: nat)
    requires Dotted(path) && level > 0
    ensures ReadModule(Spelling(package, path, level)).0 <= |Split(package, '.')|
      <==> Split(package, '.')[0] == Split(path, '.')[0]
  {
    hide Split, Join, Dotted, ReadModule, Spelling;
    SpelledReads(package, path, level);
  }

  // --- finding and rewriting ---------------------------------------------------------------

  /** An alias to re-point, and what to point it at. */
  datatype Site = Site(alias: Alias, owner: Target)

  /** What the finder knows of a statement's surroundings: the file's package, the file's own lazy
      table if it is a facade, and whether the statement mirrors that table for type checkers. */
  datatype Place = Place(package: string, own: map<string, Option<Target>>, mirror: bool)

  function ImportedOf(place: Place, node: Import): string { Imported(place.package, node.level, node.path) }

  /** The alias repeats an entry of the file's own lazy table. */
  predicate IsMirror(place: Place, imported: string, a: Alias)
  {
    place.mirror && Local(a) in place.own && place.own[Local(a)] == Some((imported, a.name))
  }

  predicate IsSite(facades: Facades, place: Place, imported: string, a: Alias)
  {
    imported in facades && OwnerOf(facades, imported, a.name).Some? && !IsMirror(place, imported, a)
  }

  function SitesAmong(facades: Facades, place: Place, imported: string, names: seq<Alias>): (r: seq<Site>)
    ensures forall s :: s in r <==>
      (s.alias in names && IsSite(facades, place, imported, s.alias)
       && s.owner == OwnerOf(facades, imported, s.alias.name).value)
  {
    if names == [] then []
    else
      (if IsSite(facades, place, imported, names[0])
       then [Site(names[0], OwnerOf(facades, imported, names[0].name).value)] else [])
      + SitesAmong(facades, place, imported, names[1..])
  }

  /** The statement's names that go through a facade. */
  function SitesOf(facades: Facades, place: Place, node: Import): seq<Site>
  {
    SitesAmong(facades, place, ImportedOf(place, node), node.names)
  }

  /** The loop of `visit_ImportFrom`. */
  method FindSites(facades: Facades, place: Place, node: Import) returns (sites: seq<Site>)
    ensures sites == SitesOf(facades, place, node)
    // each name a lazy table binds is found, with its owner, unless it repeats an entry of the file's own table
    ensures forall s :: s in sites <==>
      s.alias in node.names && ImportedOf(place, node) in facades
      && OwnerOf(facades, ImportedOf(place, node), s.alias.name) == Some(s.owner)
      && !(place.mirror && Local(s.alias) in place.own && place.own[Local(s.alias)] == Some((ImportedOf(place, node), s.alias.name)))
  {
    SitesExact(facades, place, node);
    hide OwnerOf, IsMirror, SitesAmong, Imported;
    var imported := ImportedOf(place, node);
    sites := [];
    if imported !in facades {
      NoSites(facades, place, imported, node.names);
      return;
    }
    for i := 0 to |node.names|
      invariant SitesOf(facades, place, node) == sites + SitesAmong(facades, place, imported, node.names[i..])
    {
      var alias := node.names[i];
      var binding := Owner(facades, imported, alias.name);
      SitesStep(facades, place, imported, node.names, i);
      if binding.Some? && !IsMirror(place, imported, alias) {
        var site := Site(alias, binding.value);
        Assoc(sites, [site], SitesAmong(facades, place, imported, node.names[i + 1..]));
        sites := sites + [site];
      } else {
        Assoc(sites, [], SitesAmong(facades, place, imported, node.names[i + 1..]));
      }
    }
    assert node.names[|node.names|..] == [];
    NoSites(facades, place, imported, []);
    assert sites + [] == sites;
  }

  lemma {:induction false} SitesExact(facades: Facades, place: Place, node: Import)
    ensures forall s :: s in SitesOf(facades, place, node) <==>
      s.alias in node.names && ImportedOf(place, node) in facades
      && OwnerOf(facades, ImportedOf(place, node), s.alias.name) == Some(s.owner)
      && !(place.mirror && Local(s.alias) in place.own && place.own[Local(s.alias)] == Some((ImportedOf(place, node), s.alias.name)))
  {
    hide OwnerOf, Imported, Local;
  }

  lemma {:induction false} SitesStep(facades: Facades, place: Place, imported: string, names: seq<Alias>, i: nat)
    requires i < |names|
    ensures SitesAmong(facades, place, imported, names[i..]) ==
      (if IsSite(facades, place, imported, names[i])
       then [Site(names[i], OwnerOf(facades, imported, names[i].name).value)] else [])
      + SitesAmong(facades, place, imported, names[i + 1..])
  {
    var rest := names[i..];
    assert rest != [] && rest[0] == names[i] && rest[1..] == names[i + 1..];
  }

  lemma {:induction false} NoSites(facades: Facades, place: Place, imported: string, names: seq<Alias>)
    requires forall a :: a in names ==> !IsSite(facades, place, imported, a)
    ensures SitesAmong(facades, place, imported, names) == []
  {
    if names != [] { NoSites(facades, place, imported, names[1..]); }
  }

  /** `name`, or `name as asname` where that differs. */
  function Renamed(name: string, local: string): (r: Alias)
    ensures r.name == name && Local(r) == local && (r.asname.Some? <==> local != name)
  {
    Alias(name, if local == name then None else Some(local))
  }

  predicate BoundName(sites: seq<Site>, name: string) { exists s :: s in sites && s.alias.name == name }

  /** The aliases that stay with the facade. */
  function Kept(names: seq<Alias>, sites: seq<Site>): (r: seq<Alias>)
    ensures forall a :: a in r <==> exists b :: b in names && !BoundName(sites, b.name) && a == Renamed(b.name, Local(b))
  {
    if names == [] then []
    else
      (if BoundName(sites, names[0].name) then [] else [Renamed(names[0].name, Local(names[0]))]) + Kept(names[1..], sites)
  }

  /** The aliases that move to `path`. */
  function Moved(sites: seq<Site>, path: string): (r: seq<Alias>)
    ensures forall a :: a in r <==> exists s :: s in sites && s.owner.0 == path && a == Renamed(s.owner.1, Local(s.alias))
  {
    if sites == [] then []
    else
      (if sites[0].owner.0 == path then [Renamed(sites[0].owner.1, Local(sites[0].alias))] else []) + Moved(sites[1..], path)
  }

  /** The sites' defining modules, one for each site. */
  function OwnerPaths(sites: seq<Site>): seq<string> { seq(|sites|, i requires 0 <= i < |sites| => sites[i].owner.0) }

  /** The defining modules, sorted. */
  function SortedOwners(sites: seq<Site>): seq<string> { SortTexts(Dedupe(OwnerPaths(sites))) }

  /** Each defining module once, in strictly increasing order. */
  lemma {:induction false} SortedOwnersSorted(sites: seq<Site>)
    ensures forall path :: path in SortedOwners(sites) <==> exists s :: s in sites && s.owner.0 == path
    ensures var r := SortedOwners(sites); forall i, j :: 0 <= i < j < |r| ==> Le(r[i], r[j]) && r[i] != r[j]
  {
    var paths := OwnerPaths(sites);
    SortTextsSorts(Dedupe(paths));
    SortTextsDistinct(Dedupe(paths));
    forall s | s in sites ensures s.owner.0 in paths {
      var i :| 0 <= i < |sites| && sites[i] == s;
      assert paths[i] == s.owner.0;
    }
  }

  /** The import the text `from <text> import <names>` is. */
  function Written(text: string, names: seq<Alias>): Import
  {
    var (level, path) := ReadModule(text);
    Import(level, path, names)
  }

  /** The statement's own module text. */
  function ModuleText(node: Import): string { Dots(node.level) + (if node.path.None? then "" else node.path.value) }

  /** The imports of the moved aliases, one for each of `paths`. */
  function Imports(package: string, level: nat, sites: seq<Site>, paths: seq<string>): seq<Import>
  {
    if paths == [] then []
    else [Written(Spelling(package, paths[0], level), Moved(sites, paths[0]))] + Imports(package, level, sites, paths[1..])
  }

  function KeptImport(node: Import, sites: seq<Site>): seq<Import>
  {
    var kept := Kept(node.names, sites);
    if kept == [] then [] else [Written(ModuleText(node), kept)]
  }

  /** What is written for `node`, in order: the import that keeps names, if any, then the moved ones. */
  function Replacement(package: string, node: Import, sites: seq<Site>): seq<Import>
  {
    KeptImport(node, sites) + Imports(package, node.level, sites, SortedOwners(sites))
  }

  /** One of the written imports is the kept one, or that of a defining module. */
  lemma {:induction false} ImportsMember(package: string, level: nat, sites: seq<Site>, paths: seq<string>, out: Import)
    ensures out in Imports(package, level, sites, paths)
      <==> exists path :: path in paths && out == Written(Spelling(package, path, level), Moved(sites, path))
  {
    hide Written, Spelling, Moved;
    if paths != [] {
      ImportsMember(package, level, sites, paths[1..], out);
      assert paths == [paths[0]] + paths[1..];
    }
  }

  lemma {:induction false} MovedMore(sites: seq<Site>, s: Site, path: string)
    ensures Moved(sites + [s], path) ==
      Moved(sites, path) + (if s.owner.0 == path then [Renamed(s.owner.1, Local(s.alias))] else [])
  {
    hide Renamed, Local;
    if sites == [] {
      assert sites + [s] == [s];
    } else {
      MovedMore(sites[1..], s, path);
      assert (sites + [s])[1..] == sites[1..] + [s];
    }
  }

  lemma {:induction false} MovedNone(sites: seq<Site>, path: string)
    requires forall s :: s in sites ==> s.owner.0 != path
    ensures Moved(sites, path) == []
  {
    if sites != [] { MovedNone(sites[1..], path); }
  }

  lemma {:induction false} DedupeMore(xs: seq<string>, i: nat)
    requires i < |xs|
    ensures var before := Dedupe(xs[..i]);
      Dedupe(xs[..i + 1]) == if xs[i] in xs[..i] then before else before + [xs[i]]
  {
    assert xs[..i + 1][..i] == xs[..i];
  }

  lemma {:induction false} DedupeNone(xs: seq<string>)
    ensures Dedupe(xs[..0]) == [] && Dedupe(xs[..|xs|]) == Dedupe(xs)
  {
    assert xs[..|xs|] == xs;
  }

  lemma {:induction false} OwnerPathsAt(sites: seq<Site>)
    ensures |OwnerPaths(sites)| == |sites| && forall i :: 0 <= i < |sites| ==> OwnerPaths(sites)[i] == sites[i].owner.0
  {
  }

  /** The aliases `path` gets from the first `i` sites. */
  function MovedBy(sites: seq<Site>, i: nat, path: string): seq<Alias>
    requires i <= |sites|
  {
    Moved(sites[..i], path)
  }

  lemma {:induction false} MovedByMore(sites: seq<Site>, i: nat, path: string)
    requires i < |sites|
    ensures MovedBy(sites, i + 1, path) == MovedBy(sites, i, path)
      + (if sites[i].owner.0 == path then [Renamed(sites[i].owner.1, Local(sites[i].alias))] else [])
    ensures path !in OwnerPaths(sites)[..i] ==> MovedBy(sites, i, path) == []
  {
    hide Renamed, Local, Moved;
    assert sites[..i + 1] == sites[..i] + [sites[i]];
    MovedMore(sites[..i], sites[i], path);
    if path !in OwnerPaths(sites)[..i] {
      forall t | t in sites[..i] ensures t.owner.0 != path {
        var k :| 0 <= k < i && sites[k] == t;
        assert OwnerPaths(sites)[..i][k] == t.owner.0;
      }
      MovedNone(sites[..i], path);
    }
  }

  /** The grouping loop of `rewrite_statement`: the aliases each defining module gets, and the modules in
      the order they were first met. */
  method GroupSites(sites: seq<Site>) returns (groups: map<string, seq<Alias>>, keys: seq<string>)
    ensures keys == Dedupe(OwnerPaths(sites))
    ensures forall path :: path in groups <==> path in keys
    ensures forall path :: path in groups ==> groups[path] == Moved(sites, path)
  {
    hide *;
    groups, keys := map[], [];
    ghost var paths := OwnerPaths(sites);
    OwnerPathsAt(sites);
    DedupeNone(paths);
    for i := 0 to |sites|
      invariant keys == Dedupe(paths[..i])
      invariant forall path :: path in groups <==> path in keys
      invariant forall path :: path in groups ==> groups[path] == MovedBy(sites, i, path)
    {
      var s := sites[i];
      DedupeMore(paths, i);
      forall path | path in groups || path == s.owner.0
        ensures MovedBy(sites, i + 1, path) == MovedBy(sites, i, path)
          + (if s.owner.0 == path then [Renamed(s.owner.1, Local(s.alias))] else [])
      {
        MovedByMore(sites, i, path);
      }
      MovedByMore(sites, i, s.owner.0);
      if s.owner.0 !in groups {
        keys := keys + [s.owner.0];
      }
      var group := if s.owner.0 in groups then groups[s.owner.0] else [];
      groups := groups[s.owner.0 := group + [Renamed(s.owner.1, Local(s.alias))]];
    }
    forall path ensures MovedBy(sites, |sites|, path) == Moved(sites, path) { MovedByAll(sites, path); }
  }

  lemma {:induction false} MovedByAll(sites: seq<Site>, path: string)
    ensures MovedBy(sites, |sites|, path) == Moved(sites, path)
  {
    assert sites[..|sites|] == sites;
  }

  /** Writes them: the import that keeps names, if any, then one per defining module in turn. */
  method RewriteStatement(package: string, node: Import, sites: seq<Site>) returns (outs: seq<Import>)
    ensures outs == Replacement(package, node, sites)
  {
    hide Kept, Moved, Written, Spelling, ModuleText;
    var groups, keys := GroupSites(sites);
    var kept := Kept(node.names, sites);
    outs := if kept == [] then [] else [Written(ModuleText(node), kept)];
    var paths := SortTexts(keys);
    SortTextsSorts(keys);
    for i := 0 to |paths|
      invariant Replacement(package, node, sites) == outs + Imports(package, node.level, sites, paths[i..])
    {
      var path := paths[i];
      assert paths[i..][0] == path && paths[i..][1..] == paths[i + 1..];
      var out := Written(Spelling(package, path, node.level), groups[path]);
      Assoc(outs, [out], Imports(package, node.level, sites, paths[i + 1..]));
      outs := outs + [out];
    }
    assert paths[|paths|..] == [] && outs + [] == outs;
  }
}
