/** Both columns hold exactly the lines the kept changes ask for. */
module GateExact {
  import opened Texts
  import opened GateScope
  import opened GateSpec
  import opened GateLaws
  import opened GateFields

  // --- what is collected -------------------------------------------------------------------

  lemma {:induction false} Released(r: Rules, c: Change)
    requires r.releaseOwned(c)
    ensures AddedBy(r, c) == Nothing().(classes := {NoClass})
  {
  }

  lemma {:induction false} CollectedClasses(r: Rules, changes: seq<Change>, cls: Class)
    requires cls != NoClass
    ensures cls in Collected(r, changes).classes <==> SomeClassed(r, changes, cls)
  {
    ClassesUnion(r, changes);
    hide Collected;
    forall c | c in changes ensures cls in AddedBy(r, c).classes <==> !r.releaseOwned(c) && Classed(r, c, cls) {
      if r.releaseOwned(c) { Released(r, c); } else { ChangeFields(r, c); ClassesExact(r, c); }
    }
    hide AddedBy, Classed;
  }

  lemma {:induction false} CollectedRoots(r: Rules, changes: seq<Change>, root: string)
    ensures root in Collected(r, changes).quick <==> AskedRoot(r, changes, root)
  {
    ClassesUnion(r, changes);
    hide Collected;
    forall c | c in changes ensures root in AddedBy(r, c).quick <==> !r.releaseOwned(c) && AsksRoot(r, c, root) {
      if r.releaseOwned(c) { Released(r, c); } else { ChangeFields(r, c); RootsExact(r, c); }
    }
    hide AddedBy, AsksRoot;
  }

  lemma {:induction false} GuardsOf(r: Rules, c: Change)
    ensures forall path :: path in AddedBy(r, c).guards <==> !r.releaseOwned(c) && AsksGuard(r, c, path)
  {
    if r.releaseOwned(c) { Released(r, c); } else { ChangeFields(r, c); GuardsExact(r, c); }
    hide AddedBy, AsksGuard, ClassAcc;
  }

  lemma {:induction false} CollectedGuards(r: Rules, changes: seq<Change>)
    ensures Collected(r, changes).guards != {} <==> exists c, path :: Kept(r, changes, c) && AsksGuard(r, c, path)
  {
    GuardsUnion(r, changes);
    hide Collected, AddedBy, AsksGuard;
    if Collected(r, changes).guards != {} {
      var path :| path in Collected(r, changes).guards;
      var c :| c in changes && path in AddedBy(r, c).guards;
      GuardsOf(r, c);
      assert Kept(r, changes, c) && AsksGuard(r, c, path);
    }
    if c, path :| Kept(r, changes, c) && AsksGuard(r, c, path) {
      GuardsOf(r, c);
      assert path in AddedBy(r, c).guards;
      assert path in Collected(r, changes).guards;
    }
  }

  lemma {:induction false} CollectedPackages(r: Rules, changes: seq<Change>)
    ensures Collected(r, changes).packages == PackagesOf(r, changes)
  {
    GuardsUnion(r, changes);
    hide Collected;
    forall c, key | c in changes ensures key in AddedBy(r, c).packages <==> !r.releaseOwned(c) && OfPackage(r, c, key) {
      if r.releaseOwned(c) { Released(r, c); } else { ChangeFields(r, c); PackagesExact(r, c); }
    }
    hide AddedBy;
    forall key ensures key in Collected(r, changes).packages <==> key in PackagesOf(r, changes) {
      if key in Collected(r, changes).packages {
        var c :| c in changes && key in AddedBy(r, c).packages;
        assert OfPackage(r, c, key);
      }
      if key in PackagesOf(r, changes) {
        var c :| c in changes && Kept(r, changes, c) && OfPackage(r, c, r.srcKey(c.path)) && r.srcKey(c.path) == key;
        assert key in AddedBy(r, c).packages;
      }
    }
  }

  lemma {:induction false} CollectedPaths(r: Rules, changes: seq<Change>, path: string)
    ensures path in Collected(r, changes).paths <==> exists c :: Kept(r, changes, c) && c.path == path
  {
    PathsUnion(r, changes);
    hide Collected;
    forall c | c in changes ensures path in AddedBy(r, c).paths <==> !r.releaseOwned(c) && path == c.path {
      if r.releaseOwned(c) { Released(r, c); } else { ChangeLines(r, c); PlainFields(r, c); }
    }
    hide AddedBy;
  }

  lemma {:induction false} CollectedSpecial(r: Rules, changes: seq<Change>, line: string)
    ensures line in Collected(r, changes).special <==> exists c :: Kept(r, changes, c) && CommitLane(r, c, line)
  {
    PathsUnion(r, changes);
    hide Collected;
    forall c | c in changes ensures line in AddedBy(r, c).special <==> !r.releaseOwned(c) && CommitLane(r, c, line) {
      if r.releaseOwned(c) { Released(r, c); } else { SpecialLines(r, c, line); }
    }
    hide AddedBy, CommitLane;
  }

  lemma {:induction false} LanesOf(r: Rules, c: Change, line: string)
    ensures CommitLane(r, c, line) <==>
      (exists lane :: lane in r.owning(c.path) && !lane.full && line in lane.atCommit)
      || (IsTest(r, c) && r.special(c).Some? && !r.special(c).value.full && line in r.special(c).value.atCommit)
    ensures TipLane(r, c, line) <==>
      line in r.captures(c.path) || (exists lane :: lane in r.owning(c.path) && line in lane.atTip)
      || (IsTest(r, c) && r.special(c).Some? && line in r.special(c).value.atTip)
  {
    hide IsTest;
    if IsTest(r, c) && r.special(c).Some? { assert HasLane(r, c, r.special(c).value); }
    assert forall lane :: lane in r.owning(c.path) ==> HasLane(r, c, lane);
  }

  lemma {:induction false} SpecialLines(r: Rules, c: Change, line: string)
    requires !r.releaseOwned(c)
    ensures line in AddedBy(r, c).special <==> CommitLane(r, c, line)
  {
    ChangeLines(r, c);
    LinesExact(r, c);
    LanesFields(c.path, r.owning(c.path));
    LanesOf(r, c, line);
    hide *;
  }

  lemma {:induction false} TipLinesOf(r: Rules, c: Change, line: string)
    requires !r.releaseOwned(c)
    ensures line in AddedBy(r, c).specialTip <==> TipLane(r, c, line)
  {
    ChangeLines(r, c);
    LinesExact(r, c);
    LanesFields(c.path, r.owning(c.path));
    LanesOf(r, c, line);
    assert line in Items(r.captures(c.path)) <==> line in r.captures(c.path);
    hide *;
  }

  lemma {:induction false} CollectedTip(r: Rules, changes: seq<Change>, line: string)
    ensures line in Collected(r, changes).specialTip <==> exists c :: Kept(r, changes, c) && TipLane(r, c, line)
    ensures line in Collected(r, changes).bed <==> exists c :: Kept(r, changes, c) && BedLane(r, c, line)
  {
    LanesUnion(r, changes);
    hide Collected;
    forall c | c in changes
      ensures line in AddedBy(r, c).specialTip <==> !r.releaseOwned(c) && TipLane(r, c, line)
      ensures line in AddedBy(r, c).bed <==> !r.releaseOwned(c) && BedLane(r, c, line)
    {
      if r.releaseOwned(c) { Released(r, c); } else { TipLinesOf(r, c, line); ChangeLines(r, c); PlainFields(r, c); }
    }
    hide AddedBy, TipLane, BedLane;
  }

  lemma {:induction false} CollectedFull(r: Rules, changes: seq<Change>)
    ensures Collected(r, changes).full != {} <==> exists c :: Kept(r, changes, c) && AsksFull(r, c)
  {
    ReasonsUnion(r, changes);
    hide Collected;
    forall c | c in changes ensures AddedBy(r, c).full != {} <==> !r.releaseOwned(c) && AsksFull(r, c) {
      if r.releaseOwned(c) { Released(r, c); } else { FullExact(r, c); }
    }
    hide AddedBy, AsksFull;
    if Collected(r, changes).full != {} {
      var x :| x in Collected(r, changes).full;
      var c :| c in changes && x in AddedBy(r, c).full;
      assert Kept(r, changes, c) && AsksFull(r, c);
    }
    if c :| Kept(r, changes, c) && AsksFull(r, c) {
      var x :| x in AddedBy(r, c).full;
    }
  }

  lemma {:induction false} BedHalfOf(r: Rules, c: Change)
    ensures AddedBy(r, c).bedModules == if !r.releaseOwned(c) && IsTest(r, c) && r.bedHalf(c) then {c.path} else {}
  {
    if r.releaseOwned(c) { Released(r, c); } else { ChangeFields(r, c); PlainFields(r, c); }
    hide AddedBy, ClassAcc, IsTest;
  }

  lemma {:induction false} CollectedBedHalf(r: Rules, changes: seq<Change>)
    ensures Collected(r, changes).bedModules != {} <==> exists c :: Kept(r, changes, c) && IsTest(r, c) && r.bedHalf(c)
  {
    ReasonsUnion(r, changes);
    hide Collected, AddedBy, IsTest;
    if Collected(r, changes).bedModules != {} {
      var x :| x in Collected(r, changes).bedModules;
      var c :| c in changes && x in AddedBy(r, c).bedModules;
      BedHalfOf(r, c);
      assert Kept(r, changes, c) && IsTest(r, c) && r.bedHalf(c);
    }
    if c :| Kept(r, changes, c) && IsTest(r, c) && r.bedHalf(c) {
      BedHalfOf(r, c);
      assert c.path in AddedBy(r, c).bedModules;
      assert c.path in Collected(r, changes).bedModules;
    }
  }

  // --- the scope ---------------------------------------------------------------------------

  lemma {:induction false} EscalatedExact(acc: Acc)
    ensures var e, wide := Escalated(acc), |acc.packages| > 2;
      e == acc.(classes := e.classes, full := e.full)
      && (forall cls :: cls in e.classes <==>
            (cls in acc.classes || (cls == Escalate && wide)) && !(cls == SrcLeaf && wide)
            && !(cls == TestsLeaf && TestsStructural in acc.classes))
      && (e.full != {} <==> acc.full != {} || wide)
  {
    if |acc.packages| > 2 { assert ("", TooManyPackages) in Escalated(acc).full; }
  }

  /** A package is counted for a source or an escalating change. */
  lemma {:induction false} PackageClassed(r: Rules, changes: seq<Change>)
    requires Wide(r, changes)
    ensures exists c :: Kept(r, changes, c) && (Classed(r, c, SrcLeaf) || Classed(r, c, Escalate) || Classed(r, c, Full))
  {
    var key :| key in PackagesOf(r, changes);
    var c :| c in changes && Kept(r, changes, c) && OfPackage(r, c, r.srcKey(c.path)) && r.srcKey(c.path) == key;
    assert Classed(r, c, SrcLeaf) || Classed(r, c, Escalate) || Classed(r, c, Full);
  }

  /** What the scope holds of the classes the tip and the full gate look at. */
  lemma {:induction false} ScopeClasses(r: Rules, changes: seq<Change>, cls: Class)
    requires cls != NoClass
    ensures cls in Classify(r, changes).acc.classes <==>
      (SomeClassed(r, changes, cls) || (cls == Escalate && Wide(r, changes))) && !(cls == SrcLeaf && Wide(r, changes))
      && !(cls == TestsLeaf && SomeClassed(r, changes, TestsStructural))
  {
    EscalatedExact(Collected(r, changes));
    CollectedClasses(r, changes, cls);
    CollectedClasses(r, changes, TestsStructural);
    CollectedPackages(r, changes);
    hide Escalated, Collected, SomeClassed, PackagesOf, FullGate, Outermost, Present;
  }

  lemma {:induction false} ScopeFull(r: Rules, changes: seq<Change>)
    ensures Classify(r, changes).acc.full != {} <==> Wide(r, changes) || exists c :: Kept(r, changes, c) && AsksFull(r, c)
  {
    EscalatedExact(Collected(r, changes));
    CollectedFull(r, changes);
    CollectedPackages(r, changes);
    hide Escalated, Collected, PackagesOf, FullGate, Outermost, Present, AsksFull;
  }

  /** The commit column is the full gate exactly when some kept change, or their number of packages, asks for it. */
  lemma {:induction false} FullGateExact(r: Rules, changes: seq<Change>)
    ensures FullGate(Classify(r, changes).acc) <==> TakesFull(r, changes)
  {
    ScopeClasses(r, changes, Escalate);
    ScopeClasses(r, changes, Full);
    ScopeFull(r, changes);
    hide Classify, Wide, Classed, AsksFull;
  }

  lemma {:induction false} ScopeFields(r: Rules, changes: seq<Change>)
    ensures var s, acc := Classify(r, changes), Collected(r, changes);
      s.acc == acc.(classes := s.acc.classes, full := s.acc.full) && s.present == Present(r, changes)
      && s.quickPaths == if FullGate(s.acc) then {} else Outermost(acc.quick)
  {
    EscalatedExact(Collected(r, changes));
    hide Escalated, Collected, Present, FullGate, Outermost;
  }

  // --- the tip -----------------------------------------------------------------------------

  /** Some class the static lanes check is among the scope's, exactly when a kept change has one. */
  lemma {:induction false} PythonClasses(r: Rules, changes: seq<Change>)
    ensures (exists cls :: cls in Classify(r, changes).acc.classes && IsPython(cls)) <==>
      exists c, cls :: Kept(r, changes, c) && IsPython(cls) && Classed(r, c, cls)
  {
    var classes := Classify(r, changes).acc.classes;
    hide Classify, Classed;
    if cls :| cls in classes && IsPython(cls) {
      ScopeClasses(r, changes, cls);
      if Wide(r, changes) { PackageClassed(r, changes); }
    }
    hide Wide;
    if c, cls :| Kept(r, changes, c) && IsPython(cls) && Classed(r, c, cls) {
      assert SomeClassed(r, changes, cls);
      ScopeClasses(r, changes, cls);
      ScopeClasses(r, changes, Escalate);
      ScopeClasses(r, changes, TestsStructural);
      hide SomeClassed;
      assert IsPython(Escalate) && IsPython(TestsStructural);
    }
  }

  lemma {:induction false} StaticExact(r: Rules, changes: seq<Change>)
    ensures StaticReach(Classify(r, changes)) <==> exists c :: Kept(r, changes, c) && WantsStatic(r, c)
  {
    var s := Classify(r, changes);
    PythonClasses(r, changes);
    ScopeFields(r, changes);
    hide Classify, Classed, EndsInPy;
    assert StaticReach(s) <==> (exists cls :: cls in s.acc.classes && IsPython(cls)) || exists p :: p in s.acc.paths && EndsInPy(p);
    hide StaticReach, IsPython;
    if p :| p in s.acc.paths && EndsInPy(p) { CollectedPaths(r, changes, p); }
    if c :| Kept(r, changes, c) && EndsInPy(c.path) { CollectedPaths(r, changes, c.path); }
  }

  /** The bed half is reached exactly when some kept change wants it. */
  lemma {:induction false} BedExact(r: Rules, changes: seq<Change>)
    ensures BedReach(r, Classify(r, changes)) <==> exists c :: Kept(r, changes, c) && WantsBed(r, c)
  {
    var s := Classify(r, changes);
    ScopeClasses(r, changes, SrcLeaf);
    ScopeClasses(r, changes, Escalate);
    ScopeClasses(r, changes, Full);
    ScopeFull(r, changes);
    ScopeFields(r, changes);
    CollectedBedHalf(r, changes);
    hide Classify, Classed, AsksFull, IsTest;
    if Wide(r, changes) { PackageClassed(r, changes); }
    hide Wide;
    if p :| p in s.acc.paths && r.bedScripts(p) { CollectedPaths(r, changes, p); }
    if c :| Kept(r, changes, c) && r.bedScripts(c.path) { CollectedPaths(r, changes, c.path); }
  }

  /** The lines of the tip, before their ranges. */
  lemma {:induction false} TipLinesExact(r: Rules, changes: seq<Change>, line: string)
    ensures Text(line) in {Text("make check-breaking")} + TipLines(r, Classify(r, changes)) <==> AtTip(r, changes, line)
  {
    var s := Classify(r, changes);
    StaticExact(r, changes);
    BedExact(r, changes);
    CollectedTip(r, changes, line);
    ScopeFields(r, changes);
    hide Classify, StaticReach, BedReach, WantsStatic, WantsBed, BedLane, TipLane, Collected;
  }

  lemma {:induction false} TipPlain(r: Rules, s: Scope)
    ensures forall line :: line in TipLines(r, s) ==> line.Text?
  {
    hide StaticReach, BedReach;
  }

  /** The tip column is exactly the lines its changes ask for, each with its range. */
  lemma {:induction false} TipExact(r: Rules, changes: seq<Change>, x: Line)
    ensures x in Commands(r, Classify(r, changes), true) <==>
      x.Text? && exists line :: AtTip(r, changes, line) && x.text == r.decorate(line)
  {
    var s := Classify(r, changes);
    TipPlain(r, s);
    hide TipLines, Classify, AtTip;
    if x in Commands(r, s, true) {
      var l :| l in {Text("make check-breaking")} + TipLines(r, s) && x == Decorated(r, l);
      TipLinesExact(r, changes, l.text);
    }
    if x.Text? {
      if line :| AtTip(r, changes, line) && x.text == r.decorate(line) {
        TipLinesExact(r, changes, line);
        assert x == Decorated(r, Text(line));
      }
    }
  }

  // --- the commit column -------------------------------------------------------------------

  lemma {:induction false} OutermostExact(roots: set<string>, root: string)
    ensures root in Outermost(roots) <==> root in roots && forall other :: other in roots && root != other ==> !(other + "/" <= root)
  {
  }

  lemma {:induction false} QuickRootsExact(r: Rules, changes: seq<Change>)
    requires !TakesFull(r, changes)
    ensures forall root :: root in Classify(r, changes).quickPaths <==> QuickRoot(r, changes, root)
  {
    FullGateExact(r, changes);
    ScopeFields(r, changes);
    var roots := Collected(r, changes).quick;
    forall root ensures root in roots <==> AskedRoot(r, changes, root) { CollectedRoots(r, changes, root); }
    hide Classify, Collected, FullGate, TakesFull, AskedRoot, Outermost;
    forall root ensures root in Outermost(roots) <==> QuickRoot(r, changes, root) { OutermostExact(roots, root); }
  }

  lemma {:induction false} PresentExact(r: Rules, changes: seq<Change>, path: string)
    ensures path in Present(r, changes) && EndsInPy(path) <==> StillPython(r, changes, path)
  {
    hide EndsInPy;
  }

  /** The classes the commit column looks at, short of the full gate. */
  lemma {:induction false} CommitClasses(r: Rules, changes: seq<Change>)
    ensures var classes := Classify(r, changes).acc.classes;
      (Docs in classes <==> SomeClassed(r, changes, Docs)) && (Web in classes <==> SomeClassed(r, changes, Web))
      && (Scripts in classes <==> SomeClassed(r, changes, Scripts))
      && (TestsStructural in classes <==> SomeClassed(r, changes, TestsStructural))
      && (!Wide(r, changes) ==> (SrcLeaf in classes <==> SomeClassed(r, changes, SrcLeaf)))
      && (!Wide(r, changes) ==> (Running(classes) <==> RunsTests(r, changes)))
  {
    ScopeClasses(r, changes, Docs);
    ScopeClasses(r, changes, Web);
    ScopeClasses(r, changes, Scripts);
    ScopeClasses(r, changes, TestsStructural);
    ScopeClasses(r, changes, SrcLeaf);
    ScopeClasses(r, changes, TestsLeaf);
    hide Classify, SomeClassed, Wide;
  }

  /** The full gate's part of the column. */
  ghost predicate FullPart(r: Rules, changes: seq<Change>, line: string)
  {
    line in {"make check-python", "make check-ts", "make docs", "make coverage-bed"}
    || (exists c :: Kept(r, changes, c) && BedLane(r, c, line))
    || (line == "make quick-guards" && exists c :: Kept(r, changes, c) && r.buildFiles(c.path))
  }

  ghost predicate PythonPart(r: Rules, changes: seq<Change>, line: string)
  {
    exists path ::
      StillPython(r, changes, path)
      && ((line == "uv run ruff check " + path && (RunsTests(r, changes) || SomeClassed(r, changes, Scripts)))
          || (!("tests/" <= path) && (SomeClassed(r, changes, SrcLeaf) || SomeClassed(r, changes, Scripts))
              && line == if "scripts/" <= path then "uv run ty check --extra-search-path . " + path else "uv run ty check " + path))
  }

  ghost predicate LightPart(r: Rules, changes: seq<Change>, line: string)
  {
    (line == "make lint-arch" && RunsTests(r, changes)) || (line == "make quick-guards" && WantsGuards(r, changes))
    || PythonPart(r, changes, line)
  }

  ghost predicate CommonPart(r: Rules, changes: seq<Change>, line: string)
  {
    (line == "make docs" && SomeClassed(r, changes, Docs))
    || (line in {"make check-ts", "make test-ts"} && SomeClassed(r, changes, Web))
    || (exists c :: Kept(r, changes, c) && CommitLane(r, c, line))
  }

  lemma {:induction false} CommitParts(r: Rules, changes: seq<Change>, line: string)
    ensures AtCommit(r, changes, line) <==>
      line == "make check-breaking"
      || (if TakesFull(r, changes) then FullPart(r, changes, line) else LightPart(r, changes, line))
      || CommonPart(r, changes, line)
  {
    hide TakesFull, RunsTests, WantsGuards, SomeClassed, StillPython, CommitLane, BedLane, Kept;
  }

  /** The column's own parts, as `_commit_lines` builds them. */
  function FullLines(r: Rules, s: Scope): set<Line>
  {
    Lines(FULL_LINES) + Lines(s.acc.bed)
    + (if exists p :: p in s.acc.paths && r.buildFiles(p) then {Text("make quick-guards")} else {})
  }

  function PythonLines(s: Scope): set<Line>
  {
    var classes, python := s.acc.classes, set p | p in s.present && EndsInPy(p);
    (if SrcLeaf in classes || Scripts in classes then set p | p in python && !IsTestPath(p) :: Text(TyLine(p)) else {})
    + (if Running(classes) || Scripts in classes then set p | p in python :: Text("uv run ruff check " + p) else {})
  }

  function LightLines(s: Scope): set<Line>
  {
    var classes := s.acc.classes;
    (if Running(classes) && s.quickPaths != {} then {Quick(s.quickPaths)} else {}) + PythonLines(s)
    + (if Running(classes) then {Text("make lint-arch")} else {})
    + (if s.acc.guards != {} || TestsStructural in classes || SrcLeaf in classes || Scripts in classes
       then {Text("make quick-guards")} else {})
  }

  function CommonLines(s: Scope): set<Line>
  {
    (if Docs in s.acc.classes then {Text("make docs")} else {})
    + (if Web in s.acc.classes then {Text("make check-ts"), Text("make test-ts")} else {})
    + Lines(s.acc.special)
  }

  lemma {:induction false} CommitUnion(r: Rules, s: Scope)
    ensures forall x :: x in CommitLines(r, s) <==>
      x in (if FullGate(s.acc) then FullLines(r, s) else LightLines(s)) || x in CommonLines(s)
  {
    hide FullGate, Running, TyLine, Lines, EndsInPy, IsTestPath;
  }

  lemma {:induction false} TextIn(ts: set<string>, line: string)
    ensures Text(line) in Lines(ts) <==> line in ts
  {
  }

  lemma {:induction false} FullText(r: Rules, s: Scope, line: string)
    ensures Text(line) in FullLines(r, s) <==>
      line in FULL_LINES || line in s.acc.bed || (line == "make quick-guards" && exists p :: p in s.acc.paths && r.buildFiles(p))
  {
    TextIn(FULL_LINES, line);
    TextIn(s.acc.bed, line);
    hide Lines;
  }

  lemma {:induction false} BuildExact(r: Rules, changes: seq<Change>)
    ensures (exists p :: p in Classify(r, changes).acc.paths && r.buildFiles(p)) <==>
      exists c :: Kept(r, changes, c) && r.buildFiles(c.path)
  {
    var s := Classify(r, changes);
    ScopeFields(r, changes);
    hide Classify, Collected;
    if p :| p in s.acc.paths && r.buildFiles(p) { CollectedPaths(r, changes, p); }
    if c :| Kept(r, changes, c) && r.buildFiles(c.path) { CollectedPaths(r, changes, c.path); }
  }

  lemma {:induction false} FullPartExact(r: Rules, changes: seq<Change>, line: string)
    ensures Text(line) in FullLines(r, Classify(r, changes)) <==> FullPart(r, changes, line)
  {
    CollectedTip(r, changes, line);
    ScopeFields(r, changes);
    FullText(r, Classify(r, changes), line);
    BuildExact(r, changes);
    hide Classify, BedLane, Collected, Kept, FullLines;
  }

  lemma {:induction false} CommonPartExact(r: Rules, changes: seq<Change>, line: string)
    ensures Text(line) in CommonLines(Classify(r, changes)) <==> CommonPart(r, changes, line)
  {
    CommitClasses(r, changes);
    CollectedSpecial(r, changes, line);
    ScopeFields(r, changes);
    hide Classify, CommitLane, Collected, Kept, SomeClassed, RunsTests, Running, Wide;
  }

  lemma {:induction false} TypeLines(s: Scope, line: string)
    ensures Text(line) in PythonLines(s) <==>
      exists path ::
        (path in s.present && EndsInPy(path))
        && ((line == "uv run ruff check " + path && (Running(s.acc.classes) || Scripts in s.acc.classes))
            || (!IsTestPath(path) && (SrcLeaf in s.acc.classes || Scripts in s.acc.classes) && line == TyLine(path)))
  {
    hide Running, TyLine, EndsInPy, IsTestPath;
  }

  lemma {:induction false} PythonPartExact(r: Rules, changes: seq<Change>, line: string)
    requires !TakesFull(r, changes)
    ensures Text(line) in PythonLines(Classify(r, changes)) <==> PythonPart(r, changes, line)
  {
    var s := Classify(r, changes);
    CommitClasses(r, changes);
    ScopeFields(r, changes);
    TypeLines(s, line);
    assert !Wide(r, changes);
    forall path ensures path in s.present && EndsInPy(path) <==> StillPython(r, changes, path) { PresentExact(r, changes, path); }
    hide Classify, Collected, Kept, SomeClassed, RunsTests, Running, EndsInPy, StillPython, PythonLines, TakesFull, Wide;
  }

  lemma {:induction false} LightText(s: Scope, line: string)
    ensures Text(line) in LightLines(s) <==>
      Text(line) in PythonLines(s) || (line == "make lint-arch" && Running(s.acc.classes))
      || (line == "make quick-guards"
          && (s.acc.guards != {} || TestsStructural in s.acc.classes || SrcLeaf in s.acc.classes || Scripts in s.acc.classes))
  {
    hide PythonLines, Running;
  }

  lemma {:induction false} LightPartExact(r: Rules, changes: seq<Change>, line: string)
    requires !TakesFull(r, changes)
    ensures Text(line) in LightLines(Classify(r, changes)) <==> LightPart(r, changes, line)
  {
    CommitClasses(r, changes);
    PythonPartExact(r, changes, line);
    CollectedGuards(r, changes);
    ScopeFields(r, changes);
    LightText(Classify(r, changes), line);
    assert !Wide(r, changes);
    hide Classify, Collected, Kept, SomeClassed, RunsTests, Running, AsksGuard, PythonPart, PythonLines, LightLines, TakesFull, Wide;
  }

  lemma {:induction false} CommitLinesExact(r: Rules, changes: seq<Change>, line: string)
    ensures Text(line) in {Text("make check-breaking")} + CommitLines(r, Classify(r, changes)) <==> AtCommit(r, changes, line)
  {
    hide *;
    CommitParts(r, changes, line);
    CommitUnion(r, Classify(r, changes));
    FullGateExact(r, changes);
    CommonPartExact(r, changes, line);
    if TakesFull(r, changes) { FullPartExact(r, changes, line); } else { LightPartExact(r, changes, line); }
  }

  lemma {:induction false} QuickAlone(r: Rules, s: Scope, paths: set<string>)
    ensures Quick(paths) in CommitLines(r, s) <==> !FullGate(s.acc) && Running(s.acc.classes) && paths != {} && paths == s.quickPaths
  {
    hide FullGate, Running, TyLine, EndsInPy, IsTestPath;
  }

  lemma {:induction false} QuickLine(r: Rules, changes: seq<Change>, paths: set<string>)
    ensures Quick(paths) in CommitLines(r, Classify(r, changes)) <==>
      !TakesFull(r, changes) && RunsTests(r, changes) && paths != {} && paths == Classify(r, changes).quickPaths
  {
    FullGateExact(r, changes);
    CommitClasses(r, changes);
    QuickAlone(r, Classify(r, changes), paths);
    assert TakesFull(r, changes) || !Wide(r, changes);
    hide *;
  }

  /**
   * The commit column is exactly the fixed lines its changes ask for, each with its range, and quick over the
   * outermost of the roots they ask for.
   */
  lemma {:induction false} CommitExact(r: Rules, changes: seq<Change>, x: Line)
    ensures x in Commands(r, Classify(r, changes), false) <==>
      match x
      case Text(text) => exists line :: AtCommit(r, changes, line) && text == r.decorate(line)
      case Quick(paths) =>
        !TakesFull(r, changes) && RunsTests(r, changes) && paths != {}
        && forall root :: root in paths <==> QuickRoot(r, changes, root)
  {
    var s := Classify(r, changes);
    hide CommitLines, Classify, AtCommit, TakesFull, RunsTests, QuickRoot;
    if x.Quick? {
      QuickLine(r, changes, x.paths);
      if !TakesFull(r, changes) { QuickRootsExact(r, changes); }
      assert x in Commands(r, s, false) <==> x in CommitLines(r, s) by { QuickStays(r, s, x); }
    } else {
      if x in Commands(r, s, false) {
        var l :| l in {Text("make check-breaking")} + CommitLines(r, s) && x == Decorated(r, l);
        CommitLinesExact(r, changes, l.text);
      }
      if line :| AtCommit(r, changes, line) && x.text == r.decorate(line) {
        CommitLinesExact(r, changes, line);
        assert x == Decorated(r, Text(line));
      }
    }
  }

  lemma {:induction false} QuickStays(r: Rules, s: Scope, x: Line)
    requires x.Quick?
    ensures x in Commands(r, s, false) <==> x in CommitLines(r, s)
  {
    hide CommitLines;
    if x in CommitLines(r, s) { assert x == Decorated(r, x); }
  }
}
