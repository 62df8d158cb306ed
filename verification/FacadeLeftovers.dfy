/** What is left to re-point after re-pointing. */
module FacadeLeftovers {
  import opened Chains
  import opened FacadeSweep
  import opened FacadeLaws

  /** No chain of facades from a re-pointed name goes in a circle. */
  ghost predicate Acyclic(facades: Facades, place: Place, node: Import)
  {
    forall s :: s in SitesOf(facades, place, node) ==> Ends(Links(facades), (ImportedOf(place, node), s.alias.name))
  }

  /** A re-pointed name is itself imported through a facade exactly when its chain goes in a circle. */
  lemma {:induction false} LeftoverExact(facades: Facades, place: Place, node: Import, s: Site)
    requires s in SitesOf(facades, place, node)
    ensures OwnerOf(facades, s.owner.0, s.owner.1).Some? <==> !Ends(Links(facades), (ImportedOf(place, node), s.alias.name))
  {
    hide Links, OwnerOf, Imported;
    var g, t := Links(facades), (ImportedOf(place, node), s.alias.name);
    SiteAlias(facades, place, node, s);
    OwnerSome(facades, t.0, t.1);
    OwnerEnds(facades, t.0, t.1);
    OwnerSome(facades, s.owner.0, s.owner.1);
    LinksAt(facades, s.owner);
  }

  lemma {:induction false} KeptNotSites(facades: Facades, place: Place, node: Import, sites: seq<Site>)
    requires Parsed(node) && sites == SitesOf(facades, place, node)
    ensures SitesOf(facades, place, Written(ModuleText(node), Kept(node.names, sites))) == []
  {
    hide OwnerOf, IsMirror, Imported, SitesAmong, BoundName, ModuleText, ReadModule;
    var out := Written(ModuleText(node), Kept(node.names, sites));
    KeptModule(place, node, Kept(node.names, sites));
    forall c | c in out.names ensures !IsSite(facades, place, ImportedOf(place, out), c) {
      var a :| a in node.names && !BoundName(sites, a.name) && c == Renamed(a.name, Local(a));
      RenamedLocal(a.name, Local(a));
      NotSite(facades, place, node, a);
      SameSite(facades, place, ImportedOf(place, node), a, c);
    }
    NoSites(facades, place, ImportedOf(place, out), out.names);
  }

  lemma {:induction false} NotSite(facades: Facades, place: Place, node: Import, a: Alias)
    requires a in node.names && !BoundName(SitesOf(facades, place, node), a.name)
    ensures !IsSite(facades, place, ImportedOf(place, node), a)
  {
    hide OwnerOf, IsMirror, Imported;
    if IsSite(facades, place, ImportedOf(place, node), a) {
      SiteFound(facades, place, node, a);
    }
  }

  lemma {:induction false} SameSite(facades: Facades, place: Place, imported: string, a: Alias, b: Alias)
    requires a.name == b.name && Local(a) == Local(b)
    ensures IsSite(facades, place, imported, a) <==> IsSite(facades, place, imported, b)
  {
    hide OwnerOf, Local;
  }

  lemma {:induction false} MovedNotSites(facades: Facades, place: Place, node: Import, sites: seq<Site>, path: string)
    requires sites == SitesOf(facades, place, node) && DottedOwners(sites) && Acyclic(facades, place, node)
    requires exists s :: s in sites && s.owner.0 == path
    ensures SitesOf(facades, place, Written(Spelling(place.package, path, node.level), Moved(sites, path))) == []
  {
    hide OwnerOf, IsMirror, Imported, SitesAmong, Dotted, Spelling, ReadModule, Links;
    var out := Written(Spelling(place.package, path, node.level), Moved(sites, path));
    MovedModule(place, node, path, Moved(sites, path));
    forall c | c in out.names ensures !IsSite(facades, place, path, c) {
      var s :| s in sites && s.owner.0 == path && c == Renamed(s.owner.1, Local(s.alias));
      RenamedLocal(s.owner.1, Local(s.alias));
      LeftoverExact(facades, place, node, s);
    }
    NoSites(facades, place, path, out.names);
  }

  /** After re-pointing, the finder finds nothing in what replaced the statement. */
  lemma {:induction false} NothingLeft(facades: Facades, place: Place, node: Import, out: Import)
    requires Parsed(node) && Acyclic(facades, place, node) && DottedOwners(SitesOf(facades, place, node))
    requires out in Rewritten(facades, place, node)
    ensures SitesOf(facades, place, out) == []
  {
    hide SitesOf, Parsed, Acyclic, DottedOwners, ModuleText, Spelling, Written, Kept, Moved, SortedOwners;
    var sites := SitesOf(facades, place, node);
    var paths := SortedOwners(sites);
    SortedOwnersSorted(sites);
    if out in Imports(place.package, node.level, sites, paths) {
      ImportsMember(place.package, node.level, sites, paths, out);
      var path :| path in paths && out == Written(Spelling(place.package, path, node.level), Moved(sites, path));
      MovedNotSites(facades, place, node, sites, path);
    } else {
      KeptNotSites(facades, place, node, sites);
    }
  }
}
