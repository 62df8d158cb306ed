/** Resolving an export to its static defining site, through re-exports that may be cyclic. */
module StaticSites {
  import opened Texts
  import opened Chains

  /** What one top-level name of a module is bound to; `Undecided` where the run decides. */
  datatype Binding = From(source: string, attr: string) | ModuleObject(path: string) | Here | Undecided

  /** A module's eager bindings, and the targets of its lazy tables. */
  datatype Tables = Tables(eager: map<string, Binding>, deferred: map<string, Binding>)

  /** The modules with a source file, and the tables of those that parse. */
  datatype Tree = Tree(files: set<string>, tables: map<string, Tables>)

  type Export = (string, string)

  function HeadOf(dotted: string): string { Split(dotted, '.')[0] }

  datatype Outcome = Done(site: Option<string>) | Next(target: Export)

  function BindingOf(t: Tables, name: string): Option<Binding>
  {
    if name in t.eager then Some(t.eager[name])
    else if name in t.deferred then Some(t.deferred[name])
    else None
  }

  /** One turn of the loop: an answer, or the export this one re-exports. */
  function Step(tree: Tree, e: Export): Outcome
  {
    var (path, name) := e;
    if path !in tree.tables then Done(None)
    else
      match BindingOf(tree.tables[path], name)
      case None =>
        var sub := path + ("." + name);
        Done(if sub in tree.files then Some("module:" + sub) else None)
      case Some(Undecided) => Done(None)
      case Some(Here) => Done(Some(path + (":" + name)))
      case Some(ModuleObject(target)) => Done(Some("module:" + target))
      case Some(From(source, attr)) =>
        if HeadOf(source) !in tree.files then Done(Some(path + (":" + name))) else Next((source, attr))
  }

  /** `b` is what the module `path` says of `name`: an eager binding hides the lazy tables. */
  ghost predicate Says(tree: Tree, path: string, name: string, b: Binding)
  {
    && path in tree.tables
    && var t := tree.tables[path];
       (name in t.eager && t.eager[name] == b) || (name !in t.eager && name in t.deferred && t.deferred[name] == b)
  }

  ghost predicate Silent(tree: Tree, path: string, name: string)
  {
    path in tree.tables && name !in tree.tables[path].eager && name !in tree.tables[path].deferred
  }

  /** The part of a dotted name before its first dot. */
  ghost predicate FirstPart(head: string, dotted: string)
  {
    head <= dotted && '.' !in head && (head == dotted || dotted[|head|] == '.')
  }

  lemma {:induction false} HeadExact(dotted: string, head: string)
    ensures FirstPart(head, dotted) <==> head == HeadOf(dotted)
  {
    if dotted != "" && dotted[0] != '.' {
      HeadExact(dotted[1..], if head == "" then "" else head[1..]);
      if head != "" {
        assert head == [head[0]] + head[1..];
      }
    }
  }

  /** What each binding answers, and which are followed: a name imported from a file of the tree, and no other. */
  lemma {:induction false} StepExact(tree: Tree, path: string, name: string)
    ensures path !in tree.tables ==> Step(tree, (path, name)) == Done(None)
    ensures Silent(tree, path, name) && path + "." + name in tree.files ==>
      Step(tree, (path, name)) == Done(Some("module:" + path + "." + name))
    ensures Silent(tree, path, name) && path + "." + name !in tree.files ==> Step(tree, (path, name)) == Done(None)
    ensures Says(tree, path, name, Undecided) ==> Step(tree, (path, name)) == Done(None)
    ensures Says(tree, path, name, Here) ==> Step(tree, (path, name)) == Done(Some(path + ":" + name))
    ensures forall target :: Says(tree, path, name, ModuleObject(target)) ==>
      Step(tree, (path, name)) == Done(Some("module:" + target))
    ensures forall source, attr, head :: Says(tree, path, name, From(source, attr)) && FirstPart(head, source) ==>
      Step(tree, (path, name)) == if head in tree.files then Next((source, attr)) else Done(Some(path + ":" + name))
  {
    assert path + "." + name == path + ("." + name) && path + ":" + name == path + (":" + name);
    assert "module:" + path + "." + name == "module:" + (path + ("." + name));
    forall source, attr, head | Says(tree, path, name, From(source, attr)) && FirstPart(head, source)
      ensures Step(tree, (path, name)) == if head in tree.files then Next((source, attr)) else Done(Some(path + ":" + name))
    {
      HeadExact(source, head);
    }
  }

  /** The names some table binds. */
  function Exports(tree: Tree): set<Export>
  {
    set path, name | path in tree.tables && name in tree.tables[path].eager.Keys + tree.tables[path].deferred.Keys
      :: (path, name)
  }

  /** Each re-export inside the tree, with what it re-exports. */
  function Links(tree: Tree): map<Export, Export>
  {
    map e | e in Exports(tree) && Step(tree, e).Next? :: Step(tree, e).target
  }

  lemma {:induction false} LinksExact(tree: Tree, e: Export)
    ensures e in Links(tree) <==> Step(tree, e).Next?
    ensures e in Links(tree) ==> Links(tree)[e] == Step(tree, e).target
  {
    if Step(tree, e).Next? {
      assert e in Exports(tree);
    }
  }

  /** The defining site: the answer at the end of the re-exports, or none if they never end. */
  ghost function SiteOf(tree: Tree, e: Export): Option<string>
  {
    if Ends(Links(tree), e) then AnswerAt(tree, End(Links(tree), e)) else None
  }

  function AnswerAt(tree: Tree, e: Export): Option<string>
    requires e !in Links(tree)
  {
    LinksExact(tree, e);
    Step(tree, e).site
  }

  /** The site does not depend on where along the re-exports one starts. */
  lemma {:induction false} PathIndependent(tree: Tree, e: Export)
    requires Step(tree, e).Next?
    ensures SiteOf(tree, e) == SiteOf(tree, Step(tree, e).target)
  {
    hide Step, Exports, Links;
    LinksExact(tree, e);
    SameEnd(Links(tree), e, 1);
    assert Follow(Links(tree), e, 1) == Follow(Links(tree), Links(tree)[e], 0);
  }

  /** The re-exports from `e` meet one of their own again. */
  ghost predicate LeadsIntoCycle(tree: Tree, e: Export)
  {
    exists i: nat, j: nat :: i < j && Follow(Links(tree), e, i) == Follow(Links(tree), e, j) && Follow(Links(tree), e, i) in Links(tree)
  }

  /** An export that leads into a cycle has no site; any other has the answer its last re-export gives. */
  lemma {:induction false} SiteExact(tree: Tree, e: Export)
    ensures LeadsIntoCycle(tree, e) ==> SiteOf(tree, e) == None
    ensures !LeadsIntoCycle(tree, e) ==>
      exists k: nat :: Step(tree, Follow(Links(tree), e, k)) == Done(SiteOf(tree, e))
  {
    hide Step, Exports, Links;
    var g := Links(tree);
    if i: nat, j: nat :| i < j && Follow(g, e, i) == Follow(g, e, j) && Follow(g, e, i) in g {
      CycleNeverEnds(g, e, i, j);
    } else {
      if !Ends(g, e) { var i, j := NoEndCycles(g, e); }
      var k: nat :| EndsAt(g, e, k, End(g, e));
      assert Follow(g, e, k) == End(g, e);
      LinksExact(tree, End(g, e));
    }
  }

  class Resolver {
    const tree: Tree
    var cache: map<string, Option<Tables>>

    constructor (tree: Tree)
      ensures this.tree == tree && Valid()
    {
      this.tree, cache := tree, map[];
    }

    function Scan(path: string): Option<Tables>
    {
      if path in tree.tables then Some(tree.tables[path]) else None
    }

    /** What is cached is what a scan finds. */
    ghost predicate Valid()
      reads this
    {
      forall path :: path in cache ==> cache[path] == Scan(path)
    }

    method Bindings(path: string) returns (t: Option<Tables>)
      requires Valid()
      modifies this
      ensures Valid() && t == Scan(path)
    {
      if path !in cache {
        cache := cache[path := Scan(path)];
      }
      return cache[path];
    }

    /** The body of the resolver's loop. */
    method Turn(path: string, name: string) returns (outcome: Outcome)
      requires Valid()
      modifies this
      ensures Valid() && outcome == Step(tree, (path, name))
    {
      var tables := Bindings(path);
      if tables.None? {
        return Done(None);
      }
      var eager, deferred := tables.value.eager, tables.value.deferred;
      var binding;
      if name in eager {
        binding := eager[name];
      } else if name in deferred {
        binding := deferred[name];
      } else {
        var sub := path + ("." + name);
        return Done(if sub in tree.files then Some("module:" + sub) else None);
      }
      match binding
      case Undecided => return Done(None);
      case Here => return Done(Some(path + (":" + name)));
      case ModuleObject(target) => return Done(Some("module:" + target));
      case From(source, attr) =>
        if HeadOf(source) !in tree.files {
          return Done(Some(path + (":" + name)));
        }
        return Next((source, attr));
    }

    /** Return the static defining site of an export. */
    method Site(path: string, name: string) returns (site: Option<string>)
      requires Valid()
      modifies this
      ensures Valid() && site == SiteOf(tree, (path, name))
    {
      hide Links, Exports, Step, Valid;
      var at, seen: set<Export> := (path, name), {};
      ghost var start, turn, g := at, 0, Links(tree);
      while at !in seen
        invariant Valid() && at == Follow(g, start, turn)
        invariant seen <= g.Keys
        invariant forall e :: e in seen ==> exists j: nat :: j < turn && Follow(g, start, j) == e
        decreases |g.Keys - seen|
      {
        LinksExact(tree, at);
        var outcome := Turn(at.0, at.1);
        if outcome.Done? {
          EndUnique(g, start, turn);
          return outcome.site;
        }
        FollowMore(g, start, turn, 1);
        assert Follow(g, at, 1) == Follow(g, g[at], 0);
        Fewer(g.Keys - (seen + {at}), g.Keys - seen, at);
        seen, at, turn := seen + {at}, outcome.target, turn + 1;
      }
      ghost var j: nat :| j < turn && Follow(g, start, j) == at;
      CycleNeverEnds(g, start, j, turn);
      return None;
    }
  }
}
