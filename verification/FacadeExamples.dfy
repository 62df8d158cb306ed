/** Statements whose meaning re-pointing changes. */
module FacadeExamples {
  import opened Texts
  import opened Chains
  import opened FacadeSweep
  import opened FacadeLaws

  /** The facade `q` defines `a` in `q.m`; the facade `p` re-exports it as `b`. */
  function TwoFacades(): Facades
  {
    map["q" := map["a" := Some(("q.m", "a"))], "p" := map["b" := Some(("q", "a"))]]
  }

  lemma {:induction false} OneHop(facades: Facades, t: Target, owner: Target)
    requires Lookup(facades, t) == Some(owner) && Lookup(facades, owner) == None
    ensures OwnerOf(facades, t.0, t.1) == Some(owner) && ObjectOf(facades, t) == Some(owner)
  {
    hide Links, Lookup;
    var g := Links(facades);
    LinksAt(facades, t);
    LinksAt(facades, owner);
    assert Follow(g, t, 1) == Follow(g, owner, 0);
    EndUnique(g, t, 1);
  }

  lemma {:induction false} NoHop(facades: Facades, t: Target)
    requires Lookup(facades, t) == None
    ensures OwnerOf(facades, t.0, t.1) == None && ObjectOf(facades, t) == Some(t)
  {
    hide Links, Lookup;
    LinksAt(facades, t);
    assert Follow(Links(facades), t, 0) == t;
    EndUnique(Links(facades), t, 0);
  }

  lemma {:induction false} TwoLookups()
    ensures Lookup(TwoFacades(), ("q", "a")) == Some(("q.m", "a")) && Lookup(TwoFacades(), ("q", "c")) == None
    ensures Lookup(TwoFacades(), ("q.m", "a")) == None && "q" in TwoFacades()
  {
    assert |"q.m"| == 3;
    assert "q" != "p" by { assert "q"[0] != "p"[0]; }
    assert "a" != "c" by { assert "a"[0] != "c"[0]; }
  }

  lemma {:induction false} SubmoduleDotted()
    ensures Dotted("q.m") && "q.m" != "q"
  {
    SplitConcat("q", "m", '.');
    SplitWhole("m", '.');
    assert "q" + (['.'] + "m") == "q.m";
    hide Split;
    assert |"q"| == 1 && |"m"| == 1 && |""| == 0;
    assert |"q.m"| == 3;
  }

  /** Where a statement's only site is `a`, from `q`. */
  lemma {:induction false} OnlySite(place: Place, node: Import)
    requires ImportedOf(place, node) == "q" && Alias("a", None) in node.names && !IsMirror(place, "q", Alias("a", None))
    requires forall a :: a in node.names && a != Alias("a", None) ==> a.name == "c" || IsMirror(place, "q", a)
    ensures var sites := SitesOf(TwoFacades(), place, node);
      Site(Alias("a", None), ("q.m", "a")) in sites && DottedOwners(sites)
      && forall s :: s in sites ==> s == Site(Alias("a", None), ("q.m", "a"))
  {
    TwoLookups();
    SubmoduleDotted();
    var facades := TwoFacades();
    hide TwoFacades, Lookup, Dotted, IsMirror, Links, OwnerOf, Imported, Local;
    OneHop(facades, ("q", "a"), ("q.m", "a"));
    NoHop(facades, ("q", "c"));
    assert IsSite(facades, place, "q", Alias("a", None));
    forall s | s in SitesOf(facades, place, node) ensures s == Site(Alias("a", None), ("q.m", "a")) {
      SiteAlias(facades, place, node, s);
    }
  }

  // --- a mirrored alias is lost ------------------------------------------------------------

  /** `p`'s own type-checking block, importing one name twice: to use it, and to mirror its table. */
  function MirrorPlace(): Place { Place("p", map["b" := Some(("q", "a"))], true) }

  function MirrorImport(): Import { Import(0, Some("q"), [Alias("a", None), Alias("a", Some("b"))]) }

  lemma {:induction false} MirrorShape()
    ensures Parsed(MirrorImport()) && ImportedOf(MirrorPlace(), MirrorImport()) == "q"
    ensures IsMirror(MirrorPlace(), "q", Alias("a", Some("b"))) && !IsMirror(MirrorPlace(), "q", Alias("a", None))
    ensures var names := MirrorImport().names; names == [Alias("a", None), Alias("a", Some("b"))]
    ensures "a" != "b"
  {
    assert "a" != "b" by { assert "a"[0] != "b"[0]; }
  }

  /** There the local name `b`, which the statement binds, is left unbound. */
  lemma {:induction false} MirroredAliasDropped()
    ensures Latest(Before(TwoFacades(), MirrorPlace(), MirrorImport()), "b") == Some(Some(("q.m", "a")))
    ensures Latest(After(TwoFacades(), MirrorPlace(), MirrorImport()), "b") == None
    ensures !SameMeaning(TwoFacades(), MirrorPlace(), MirrorImport())
  {
    var facades, place, node := TwoFacades(), MirrorPlace(), MirrorImport();
    MirrorShape();
    TwoLookups();
    assert node.names[0] == Alias("a", None) && node.names[1] == Alias("a", Some("b"));
    hide *;
    OnlySite(place, node);
    OneHop(facades, ("q", "a"), ("q.m", "a"));
    MirrorLost(SitesOf(facades, place, node));
    MirrorFinal(facades, place, node);
    AliasLost(facades, place, node, "b");
  }

  lemma {:induction false} MirrorLost(sites: seq<Site>)
    requires sites == SitesOf(TwoFacades(), MirrorPlace(), MirrorImport())
    requires var first := Site(Alias("a", None), ("q.m", "a")); first in sites && forall s :: s in sites ==> s == first
    ensures forall a :: a in MirrorImport().names && Local(a) == "b" ==> Lost(TwoFacades(), MirrorPlace(), MirrorImport(), a)
  {
    MirrorShape();
    hide MirrorImport, MirrorPlace, TwoFacades, SitesOf;
  }

  lemma {:induction false} MirrorFinal(facades: Facades, place: Place, node: Import)
    requires node.names == [Alias("a", None), Alias("a", Some("b"))]
    requires ImportedOf(place, node) == "q" && ObjectOf(facades, ("q", "a")) == Some(("q.m", "a"))
    ensures Latest(Before(facades, place, node), "b") == Some(Some(("q.m", "a")))
    ensures Latest(After(facades, place, node), "b") == None ==> !SameMeaning(facades, place, node)
  {
    hide ImportedOf, ObjectOf, After, Before, Latest;
    FinalBefore(facades, place, node, 1);
  }

  // --- the order of the bindings changes ---------------------------------------------------

  function OrderPlace(): Place { Place("t", map[], false) }

  /** `from q import a, c as a`: the last alias keeps the local name, and stays with the facade. */
  function OrderImport(): Import { Import(0, Some("q"), [Alias("a", None), Alias("c", Some("a"))]) }

  lemma {:induction false} OrderShape()
    ensures Parsed(OrderImport()) && Runs("t", OrderImport()) && ImportedOf(OrderPlace(), OrderImport()) == "q"
    ensures !IsMirror(OrderPlace(), "q", Alias("a", None)) && OrderPlace().package == "t"
    ensures var names := OrderImport().names; names == [Alias("a", None), Alias("c", Some("a"))]
    ensures "a" != "c"
  {
    assert "a" != "c" by { assert "a"[0] != "c"[0]; }
  }

  /** No alias is lost there, yet `a`, which was `q`'s `c`, ends up as the `a` of `q.m`: the kept
      import is written first. */
  lemma {:induction false} LastBindingOvertaken()
    ensures var facades, place, node := TwoFacades(), OrderPlace(), OrderImport();
      (forall a :: a in node.names ==> !Lost(facades, place, node, a))
      && Latest(Before(facades, place, node), "a") == Some(Some(("q", "c")))
      && Latest(After(facades, place, node), "a") == Some(Some(("q.m", "a")))
      && Inside(facades, place, node) && !SameMeaning(facades, place, node)
  {
    var facades, place, node := TwoFacades(), OrderPlace(), OrderImport();
    OrderShape();
    TwoLookups();
    SubmoduleDotted();
    assert node.level == 0 && node.names[0] == Alias("a", None) && node.names[1] == Alias("c", Some("a"));
    hide Links, Lookup, OwnerOf, SitesOf, After, Before, Latest, LastWritten, Dotted, Parsed, ImportedOf, ObjectOf;
    OnlySite(place, node);
    OneHop(facades, ("q", "a"), ("q.m", "a"));
    NoHop(facades, ("q", "c"));
    OrderGroups(facades, place, node);
    OrderFinal(facades, place, node);
  }

  lemma {:induction false} OrderGroups(facades: Facades, place: Place, node: Import)
    requires node.names == [Alias("a", None), Alias("c", Some("a"))]
    requires Site(Alias("a", None), ("q.m", "a")) in SitesOf(facades, place, node)
    requires forall s :: s in SitesOf(facades, place, node) ==> s == Site(Alias("a", None), ("q.m", "a"))
    requires OwnerOf(facades, ImportedOf(place, node), "a") == Some(("q.m", "a"))
    ensures forall a :: a in node.names ==> !Lost(facades, place, node, a)
    ensures !LastWritten(facades, place, node, 1)
  {
    assert "a" != "c" by { assert "a"[0] != "c"[0]; }
    hide OwnerOf, SitesOf, ImportedOf;
    var sites := SitesOf(facades, place, node);
    assert BoundName(sites, "a") && !BoundName(sites, "c");
    assert GroupOf(facades, place, node, node.names[0]) == "q.m" && GroupOf(facades, place, node, node.names[1]) == "";
    assert Rivals(facades, place, node, 0, 1) && !WrittenBefore(facades, place, node, 0, 1);
  }

  lemma {:induction false} OrderFinal(facades: Facades, place: Place, node: Import)
    requires Parsed(node) && DottedOwners(SitesOf(facades, place, node))
    requires node.names == [Alias("a", None), Alias("c", Some("a"))] && ImportedOf(place, node) == "q"
    requires ObjectOf(facades, ("q", "a")) == Some(("q.m", "a")) && ObjectOf(facades, ("q", "c")) == Some(("q", "c"))
    requires !LastWritten(facades, place, node, 1) && forall a :: a in node.names ==> !Lost(facades, place, node, a)
    ensures Latest(Before(facades, place, node), "a") == Some(Some(("q", "c")))
    ensures Latest(After(facades, place, node), "a") == Some(Some(("q.m", "a")))
    ensures !SameMeaning(facades, place, node)
  {
    SubmoduleDotted();
    hide ImportedOf, ObjectOf, After, Before, Latest, SitesOf, Parsed, DottedOwners, Dotted, Lost, GroupOf;
    FinalBefore(facades, place, node, 1);
    var j := AfterLatest(facades, place, node, "a");
    assert node.names[0] in node.names;
  }
}
