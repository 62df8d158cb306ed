/** Laws of gate selection: nothing escapes the commit column, and the tip only grows. */
module GateLaws {
  import opened Texts
  import opened GateScope

  // --- paths -------------------------------------------------------------------------------

  lemma {:induction false} JoinMore(a: seq<string>, b: seq<string>)
    requires a != [] && b != []
    ensures Join(a + b, '/') == Join(a, '/') + (['/'] + Join(b, '/'))
  {
    if |a| == 1 {
      assert (a + b)[1..] == b;
    } else {
      assert (a + b)[1..] == a[1..] + b;
      JoinMore(a[1..], b);
      Assoc(a[0], ['/'] + Join(a[1..], '/'), ['/'] + Join(b, '/'));
      Assoc(['/'], Join(a[1..], '/'), ['/'] + Join(b, '/'));
    }
  }

  /** A path lies within its own first parts. */
  lemma {:induction false} WithinFirst(path: string, n: nat)
    requires n > 0
    ensures Within(path, FirstParts(path, n))
  {
    hide Split, Join;
    var parts := Split(path, '/');
    JoinSplit(path, '/');
    if |parts| > n {
      assert parts == parts[..n] + parts[n..];
      JoinMore(parts[..n], parts[n..]);
      var root, rest := Join(parts[..n], '/'), Join(parts[n..], '/');
      Assoc(root, "/", rest);
      assert path == (root + "/") + rest;
    }
  }

  lemma {:induction false} SurvivingWithin(r: Rules, path: string)
    requires SurvivingRoot(r, path).Some?
    ensures Within(path, SurvivingRoot(r, path).value) && Runnable(r, SurvivingRoot(r, path).value)
  {
    hide FirstParts, FirstRunnable;
    WithinFirst(path, 1);
    WithinFirst(path, 2);
    WithinFirst(path, 3);
  }

  lemma {:induction false} WithinTrans(a: string, b: string, c: string)
    requires Within(a, b) && Within(b, c)
    ensures Within(a, c)
  {
    if a != b && b != c {
      assert a[..|c| + 1] == (b + "/")[..|c| + 1] == b[..|c| + 1];
    }
  }

  /** Every root lies within an outermost one. */
  lemma {:induction false} OutermostCovers(roots: set<string>, root: string) returns (outer: string)
    requires root in roots
    ensures outer in Outermost(roots) && Within(root, outer)
    decreases |root|
  {
    if root in Outermost(roots) {
      outer := root;
    } else {
      var other :| other in roots && Under(root, other);
      outer := OutermostCovers(roots, other);
      WithinTrans(root, other, outer);
    }
  }

  /** No outermost root lies within another, and all are among the roots. */
  lemma {:induction false} OutermostAntichain(roots: set<string>)
    ensures Outermost(roots) <= roots
    ensures forall a, b :: a in Outermost(roots) && b in Outermost(roots) && a != b ==> !Within(a, b)
  {
  }

  // --- what is collected -------------------------------------------------------------------

  /** Everything in `a` is in `b`. */
  predicate Inside(a: Acc, b: Acc)
  {
    a.classes <= b.classes && a.quick <= b.quick && a.guards <= b.guards && a.packages <= b.packages && a.paths <= b.paths
    && a.special <= b.special && a.specialTip <= b.specialTip && a.bed <= b.bed && a.unknown <= b.unknown
    && a.full <= b.full && a.bedModules <= b.bedModules
  }

  lemma {:induction false} MergeInside(a: Acc, b: Acc, c: Acc)
    ensures Inside(a, Merge(a, b)) && Inside(b, Merge(a, b))
    ensures Inside(a, c) && Inside(b, c) ==> Inside(Merge(a, b), c)
  {
  }

  lemma {:induction false} InsideTrans(a: Acc, b: Acc, c: Acc)
    requires Inside(a, b) && Inside(b, c)
    ensures Inside(a, c)
  {
  }

  /** What a change adds to the collection. */
  function AddedBy(r: Rules, c: Change): Acc
  {
    if r.releaseOwned(c) then Nothing().(classes := {NoClass}) else ChangeAcc(r, c)
  }

  lemma {:induction false} AddedInside(r: Rules, changes: seq<Change>, c: Change)
    requires c in changes
    ensures Inside(AddedBy(r, c), Collected(r, changes))
  {
    hide ChangeAcc, Merge, Inside;
    var last := |changes| - 1;
    MergeInside(Collected(r, changes[..last]), AddedBy(r, changes[last]), Nothing());
    if changes[last] != c {
      assert changes == changes[..last] + [changes[last]];
      AddedInside(r, changes[..last], c);
      InsideTrans(AddedBy(r, c), Collected(r, changes[..last]), Collected(r, changes));
    }
  }

  lemma {:induction false} NothingInside(a: Acc)
    ensures Inside(Nothing(), a)
  {
  }

  /** More changes collect more. */
  lemma {:induction false} CollectedGrows(r: Rules, few: seq<Change>, many: seq<Change>)
    requires forall c :: c in few ==> c in many
    ensures Inside(Collected(r, few), Collected(r, many))
  {
    hide ChangeAcc, Merge, Inside;
    if few == [] {
      NothingInside(Collected(r, many));
    } else {
      var last := |few| - 1;
      CollectedGrows(r, few[..last], many);
      AddedInside(r, many, few[last]);
      MergeInside(Collected(r, few[..last]), AddedBy(r, few[last]), Collected(r, many));
    }
  }

  // --- the tip -----------------------------------------------------------------------------

  lemma {:induction false} EscalatedKeeps(acc: Acc)
    ensures Escalated(acc) == acc.(classes := Escalated(acc).classes, full := Escalated(acc).full)
    ensures acc.full <= Escalated(acc).full
    ensures |acc.packages| > MAX_SRC_PACKAGES ==> Escalate in Escalated(acc).classes && Escalated(acc).full != {}
    ensures forall cls :: cls in acc.classes ==>
      (cls in Escalated(acc).classes || (cls == SrcLeaf && Escalate in Escalated(acc).classes)
       || (cls == TestsLeaf && TestsStructural in Escalated(acc).classes))
    ensures forall cls :: cls in Escalated(acc).classes ==> cls in acc.classes || (cls == Escalate && |acc.packages| > MAX_SRC_PACKAGES)
  {
  }

  lemma {:induction false} ReachGrows(r: Rules, few: Scope, many: Scope, a: Acc, b: Acc)
    requires Inside(a, b) && few.acc == Escalated(a) && many.acc == Escalated(b)
    ensures StaticReach(few) ==> StaticReach(many)
    ensures BedReach(r, few) ==> BedReach(r, many)
  {
    EscalatedKeeps(a);
    EscalatedKeeps(b);
    SubsetSize(a.packages, b.packages);
    hide Escalated;
    if BedReach(r, few) && few.acc.bedModules != {} {
      var p :| p in few.acc.bedModules;
      assert p in many.acc.bedModules;
    }
    if few.acc.full != {} {
      FullGrows(a, b);
    }
  }

  lemma {:induction false} FullGrows(a: Acc, b: Acc)
    requires Inside(a, b)
    ensures Escalated(a).full != {} ==> Escalated(b).full != {}
  {
    SubsetSize(a.packages, b.packages);
    if a.full != {} {
      var x :| x in a.full;
      assert x in b.full;
    }
  }

  /** Adding changed paths never removes a line from the tip. */
  lemma {:induction false} TipMonotone(r: Rules, few: seq<Change>, many: seq<Change>)
    requires forall c :: c in few ==> c in many
    ensures Commands(r, Classify(r, few), true) <= Commands(r, Classify(r, many), true)
  {
    CollectedGrows(r, few, many);
    var a, b := Collected(r, few), Collected(r, many);
    var s, t := Classify(r, few), Classify(r, many);
    EscalatedKeeps(a);
    EscalatedKeeps(b);
    ReachGrows(r, s, t, a, b);
    hide Escalated, StaticReach, BedReach, Collected, Decorated;
    assert TipLines(r, s) <= TipLines(r, t);
  }

  // --- quick paths -------------------------------------------------------------------------

  /** Every collected quick root is one quick can run. */
  predicate AllRunnable(r: Rules, quick: set<string>) { forall root :: root in quick ==> Runnable(r, root) }

  lemma {:induction false} RootRuns(r: Rules, path: string)
    ensures AllRunnable(r, RootAcc(r, path).quick)
  {
    if SurvivingRoot(r, path).Some? { SurvivingWithin(r, path); }
  }

  lemma {:induction false} LanesQuick(path: string, lanes: seq<Lane>)
    ensures LanesAcc(path, lanes).quick == {}
  {
    if lanes != [] { LanesQuick(path, lanes[..|lanes| - 1]); }
  }

  lemma {:induction false} ReadersRun(r: Rules, readers: seq<string>)
    ensures AllRunnable(r, ReadersAcc(r, readers).quick)
  {
    hide RootAcc;
    if readers != [] {
      ReadersRun(r, readers[..|readers| - 1]);
      RootRuns(r, readers[|readers| - 1]);
    }
  }

  lemma {:induction false} TestRuns(r: Rules, c: Change)
    ensures AllRunnable(r, TestAcc(r, c).quick)
  {
    RootRuns(r, c.path);
    hide RootAcc;
  }

  lemma {:induction false} ClassRuns(r: Rules, c: Change)
    ensures AllRunnable(r, ClassAcc(r, c).quick)
  {
    TestRuns(r, c);
    if r.readers(c.path).Some? { ReadersRun(r, r.readers(c.path).value); }
    hide TestAcc, ReadersAcc;
  }

  lemma {:induction false} ChangeRuns(r: Rules, c: Change)
    ensures AllRunnable(r, ChangeAcc(r, c).quick)
  {
    LanesQuick(c.path, r.owning(c.path));
    ClassRuns(r, c);
    hide ClassAcc, LanesAcc, AllRunnable;
    QuickOf(r, c);
  }

  lemma {:induction false} QuickOf(r: Rules, c: Change)
    ensures LanesAcc(c.path, r.owning(c.path)).quick == {} ==> ChangeAcc(r, c).quick == ClassAcc(r, c).quick
  {
    hide ClassAcc, LanesAcc;
  }

  lemma {:induction false} CollectedRuns(r: Rules, changes: seq<Change>)
    ensures AllRunnable(r, Collected(r, changes).quick)
  {
    hide ChangeAcc;
    if changes != [] {
      CollectedRuns(r, changes[..|changes| - 1]);
      ChangeRuns(r, changes[|changes| - 1]);
    }
  }

  /** Every root lies within one of the paths. */
  ghost predicate Covers(paths: set<string>, roots: set<string>)
  {
    forall root :: root in roots ==> exists outer :: outer in paths && Within(root, outer)
  }

  /** Every quick path holds a test module quick selects from, none lies within another, and short of the full
      gate they cover every root the changes collected. */
  lemma {:induction false} QuickPaths(r: Rules, changes: seq<Change>)
    ensures var s := Classify(r, changes);
      (forall root :: root in s.quickPaths ==> exists m :: QuickRuns(r, m, root))
      && (forall a, b :: a in s.quickPaths && b in s.quickPaths && a != b ==> !Within(a, b))
      && (!FullGate(s.acc) ==> Covers(s.quickPaths, Collected(r, changes).quick))
  {
    CollectedRuns(r, changes);
    var acc := Collected(r, changes);
    EscalatedKeeps(acc);
    hide Escalated, Collected, FullGate, QuickRuns;
    OutermostAntichain(acc.quick);
    forall root | root in Outermost(acc.quick) ensures exists m :: QuickRuns(r, m, root) {
      assert Runnable(r, root);
    }
    forall root | root in acc.quick ensures exists outer :: outer in Outermost(acc.quick) && Within(root, outer) {
      var outer := OutermostCovers(acc.quick, root);
    }
  }

  // --- nothing escapes ---------------------------------------------------------------------

  /** A kept change to a test module that no measured matrix row covers. */
  predicate IsTestChange(r: Rules, c: Change)
  {
    !r.releaseOwned(c) && r.classOf(c.path) == Some(TestsLeaf) && r.readers(c.path).None?
  }

  /** Its lane leaves some of the module's tests to quick. */
  predicate LeftForQuick(r: Rules, c: Change)
  {
    r.special(c).Some? && (r.special(c).value.kind.File? || r.special(c).value.kind.Marker?) && r.leftForQuick(c)
  }

  /** Quick is to run the module itself: it has no lane and is no guard, or its lane leaves tests over. */
  predicate WantsQuick(r: Rules, c: Change) { if r.special(c).Some? then LeftForQuick(r, c) else !r.family(c) }

  predicate HasRoot(quick: set<string>, path: string) { exists root :: root in quick && Within(path, root) }

  /** How a test change is run by what it adds: its lane's lines, and all the rest or the full gate. */
  predicate Routed(r: Rules, c: Change, a: Acc)
  {
    (TestsLeaf in a.classes || TestsStructural in a.classes)
    && (r.special(c).Some? && !r.special(c).value.full ==> Items(r.special(c).value.atCommit) <= a.special)
    && (a.full == {} ==>
          (r.special(c).Some? ==> !r.special(c).value.full)
          && (r.special(c).None? && r.family(c) ==> c.path in a.guards)
          && (WantsQuick(r, c) ==> HasRoot(a.quick, c.path)))
  }

  lemma {:induction false} RootRouted(r: Rules, path: string)
    ensures RootAcc(r, path).full != {} || HasRoot(RootAcc(r, path).quick, path)
  {
    if SurvivingRoot(r, path).Some? {
      SurvivingWithin(r, path);
      assert SurvivingRoot(r, path).value in RootAcc(r, path).quick;
    } else {
      assert (path, NoRoot) in RootAcc(r, path).full;
    }
  }

  lemma {:induction false} TestRouted(r: Rules, c: Change)
    ensures Routed(r, c, TestAcc(r, c))
  {
    RootRouted(r, c.path);
    hide RootAcc, Within;
    var lane := r.special(c);
    if lane.Some? && lane.value.full { assert (c.path, LaneIsFull) in LaneAcc(c.path, lane.value).full; }
  }

  lemma {:induction false} RoutedInside(r: Rules, c: Change, a: Acc, b: Acc)
    requires Routed(r, c, a) && Inside(a, b)
    ensures Routed(r, c, b)
  {
    hide Within, Items;
    if a.full != {} {
      var x :| x in a.full;
      assert x in b.full;
    }
  }

  lemma {:induction false} TestInside(r: Rules, c: Change)
    requires IsTestChange(r, c)
    ensures Inside(TestAcc(r, c), AddedBy(r, c))
  {
    var left := Merge(Nothing().(paths := {c.path}, bed := if r.isSrc(c.path) then Items(r.bedLanes(r.srcKey(c.path))) else {},
                                 specialTip := Items(r.captures(c.path))),
                      LanesAcc(c.path, r.owning(c.path)));
    MergeInside(left, TestAcc(r, c), Nothing());
    hide TestAcc, LanesAcc, Inside, Merge;
  }

  /** Quick runs over a root the path lies under, and there selects from a test module. */
  ghost predicate RunByQuick(r: Rules, s: Scope, path: string, lines: set<Line>)
  {
    Quick(s.quickPaths) in lines
    && exists root, m :: root in s.quickPaths && Within(path, root) && QuickRuns(r, m, root)
  }

  /** The commit column runs the change: its lane's lines, and the full gate or all of: the guards for a
      guard, quick over a root of its own for what no lane runs. */
  ghost predicate RunAtCommit(r: Rules, s: Scope, c: Change, lines: set<Line>)
  {
    (r.special(c).Some? && !r.special(c).value.full ==> Lines(Items(r.special(c).value.atCommit)) <= lines)
    && (Lines(FULL_LINES) <= lines
        || ((r.special(c).Some? ==> !r.special(c).value.full)
            && (r.special(c).None? && r.family(c) ==> c.path in s.acc.guards && Text("make quick-guards") in lines)
            && (WantsQuick(r, c) ==> RunByQuick(r, s, c.path, lines))))
  }

  /** What the commit column holds: the full gate with the bed lanes, or the lines the classes ask for;
      docs, web and lane lines either way. */
  lemma {:induction false} CommitHolds(r: Rules, s: Scope)
    ensures FullGate(s.acc) ==> Lines(FULL_LINES) + Lines(s.acc.bed) <= CommitLines(r, s)
    ensures FullGate(s.acc) && (exists p :: p in s.acc.paths && r.buildFiles(p)) ==> Text("make quick-guards") in CommitLines(r, s)
    ensures !FullGate(s.acc) && s.acc.guards != {} ==> Text("make quick-guards") in CommitLines(r, s)
    ensures !FullGate(s.acc) && Running(s.acc.classes) && s.quickPaths != {} ==> Quick(s.quickPaths) in CommitLines(r, s)
    ensures !FullGate(s.acc) && Running(s.acc.classes) ==> Text("make lint-arch") in CommitLines(r, s)
    ensures !FullGate(s.acc) && (TestsStructural in s.acc.classes || SrcLeaf in s.acc.classes || Scripts in s.acc.classes)
      ==> Text("make quick-guards") in CommitLines(r, s)
    ensures Docs in s.acc.classes ==> Text("make docs") in CommitLines(r, s)
    ensures Web in s.acc.classes ==> {Text("make check-ts"), Text("make test-ts")} <= CommitLines(r, s)
    ensures Lines(s.acc.special) <= CommitLines(r, s)
  {
    hide FullGate, Running, TyLine, Lines, EndsInPy, IsTestPath;
  }

  /** Short of the full gate, every Python file still present is linted, and a source or a script type-checked. */
  lemma {:induction false} PythonChecked(r: Rules, s: Scope, path: string)
    requires path in s.present && EndsInPy(path) && !FullGate(s.acc)
    ensures Running(s.acc.classes) || Scripts in s.acc.classes ==> Text("uv run ruff check " + path) in CommitLines(r, s)
    ensures (SrcLeaf in s.acc.classes || Scripts in s.acc.classes) && !IsTestPath(path) ==> Text(TyLine(path)) in CommitLines(r, s)
  {
    hide FullGate, Running, TyLine, Lines, EndsInPy, IsTestPath;
    assert path in set p | p in s.present && EndsInPy(p);
  }

  lemma {:induction false} LinesGrow(few: set<string>, many: set<string>)
    requires few <= many
    ensures Lines(few) <= Lines(many)
  {
  }

  /** No kept test change escapes the commit column. */
  lemma {:induction false} NothingEscapes(r: Rules, changes: seq<Change>, c: Change)
    requires c in changes && IsTestChange(r, c)
    ensures RunAtCommit(r, Classify(r, changes), c, CommitLines(r, Classify(r, changes)))
  {
    hide *;
    var acc, s := Collected(r, changes), Classify(r, changes);
    TestRouted(r, c);
    TestInside(r, c);
    AddedInside(r, changes, c);
    InsideTrans(TestAcc(r, c), AddedBy(r, c), acc);
    RoutedInside(r, c, TestAcc(r, c), acc);
    CommitHolds(r, s);
    RoutedRuns(r, changes, c);
  }

  lemma {:induction false} RoutedRuns(r: Rules, changes: seq<Change>, c: Change)
    requires Routed(r, c, Collected(r, changes))
    ensures RunAtCommit(r, Classify(r, changes), c, CommitLines(r, Classify(r, changes)))
  {
    var acc, s := Collected(r, changes), Classify(r, changes);
    EscalatedKeeps(acc);
    CommitHolds(r, s);
    hide Escalated, Collected, Within, CommitLines, Items, Outermost, Lines, LeftForQuick, WantsQuick, RunByQuick;
    if r.special(c).Some? && !r.special(c).value.full {
      LinesGrow(Items(r.special(c).value.atCommit), s.acc.special);
    }
    if !FullGate(s.acc) && HasRoot(acc.quick, c.path) { CollectedByQuick(r, changes, c.path); }
  }

  /** A path with a collected root is run by quick, short of the full gate. */
  lemma {:induction false} CollectedByQuick(r: Rules, changes: seq<Change>, path: string)
    requires var s := Classify(r, changes); !FullGate(s.acc) && Running(s.acc.classes)
    requires HasRoot(Collected(r, changes).quick, path)
    ensures RunByQuick(r, Classify(r, changes), path, CommitLines(r, Classify(r, changes)))
  {
    var acc, s := Collected(r, changes), Classify(r, changes);
    EscalatedKeeps(acc);
    CommitHolds(r, s);
    QuickPaths(r, changes);
    hide Escalated, Collected, Within, CommitLines, Outermost, Lines, QuickRuns, FullGate;
    var root :| root in acc.quick && Within(path, root);
    var outer := OutermostCovers(acc.quick, root);
    WithinTrans(path, root, outer);
    var m :| QuickRuns(r, m, outer);
  }

  // --- measured matrices -------------------------------------------------------------------

  /** What the readers' loop adds runs each of them: as a guard, or under a root of its own. */
  predicate ReaderRouted(r: Rules, reader: string, a: Acc)
  {
    if r.readerFamily(reader) then reader in a.guards else a.full != {} || HasRoot(a.quick, reader)
  }

  lemma {:induction false} ReadersRouted(r: Rules, readers: seq<string>)
    ensures forall reader :: reader in readers ==> ReaderRouted(r, reader, ReadersAcc(r, readers))
  {
    hide RootAcc, Within;
    if readers != [] {
      var last := readers[|readers| - 1];
      ReadersRouted(r, readers[..|readers| - 1]);
      RootRouted(r, last);
      assert readers == readers[..|readers| - 1] + [last];
      var before := ReadersAcc(r, readers[..|readers| - 1]);
      var added := if r.readerFamily(last) then Nothing().(guards := {last}) else RootAcc(r, last);
      MergeInside(before, added, Nothing());
      forall reader | reader in readers ensures ReaderRouted(r, reader, ReadersAcc(r, readers)) {
        if reader in readers[..|readers| - 1] {
          ReaderInside(r, reader, before, ReadersAcc(r, readers));
        } else {
          ReaderInside(r, reader, added, ReadersAcc(r, readers));
        }
      }
    }
  }

  lemma {:induction false} ReaderInside(r: Rules, reader: string, a: Acc, b: Acc)
    requires ReaderRouted(r, reader, a) && Inside(a, b)
    ensures ReaderRouted(r, reader, b)
  {
    hide Within;
    if a.full != {} {
      var x :| x in a.full;
      assert x in b.full;
    }
  }

  lemma {:induction false} MeasuredInside(r: Rules, c: Change)
    requires !r.releaseOwned(c) && r.classOf(c.path).Some? && r.readers(c.path).Some?
    ensures var readers := r.readers(c.path).value;
      Inside(ReadersAcc(r, readers), AddedBy(r, c)) && TestsLeaf in AddedBy(r, c).classes && (readers == [] ==> AddedBy(r, c).full != {})
  {
    var readers := r.readers(c.path).value;
    var left := Merge(Nothing().(paths := {c.path}, bed := if r.isSrc(c.path) then Items(r.bedLanes(r.srcKey(c.path))) else {},
                                 specialTip := Items(r.captures(c.path))),
                      LanesAcc(c.path, r.owning(c.path)));
    var marks := Nothing().(classes := {TestsLeaf}, full := if readers == [] then {(c.path, NoReader)} else {});
    var routed := Merge(ReadersAcc(r, readers), marks);
    assert readers == [] ==> (c.path, NoReader) in marks.full;
    assert AddedBy(r, c) == Merge(left, routed) by { hide ReadersAcc, LanesAcc, Merge; }
    MergeInside(left, routed, Nothing());
    MergeInside(ReadersAcc(r, readers), marks, Nothing());
    InsideTrans(ReadersAcc(r, readers), routed, AddedBy(r, c));
    InsideTrans(marks, routed, AddedBy(r, c));
    hide ReadersAcc, LanesAcc, AddedBy, Merge;
  }

  /** A change to a measured matrix runs every reader of it that survives, or the full gate; without one, the
      full gate. */
  lemma {:induction false} MeasuredRuns(r: Rules, changes: seq<Change>, c: Change)
    requires c in changes && !r.releaseOwned(c) && r.classOf(c.path).Some? && r.readers(c.path).Some?
    ensures var (s, readers) := (Classify(r, changes), r.readers(c.path).value);
      var lines := CommitLines(r, s);
      Lines(FULL_LINES) <= lines
      || (readers != [] && forall reader :: reader in readers ==>
            if r.readerFamily(reader) then reader in s.acc.guards && Text("make quick-guards") in lines
            else RunByQuick(r, s, reader, lines))
  {
    hide *;
    var acc, s, readers := Collected(r, changes), Classify(r, changes), r.readers(c.path).value;
    MeasuredInside(r, c);
    AddedInside(r, changes, c);
    InsideTrans(ReadersAcc(r, readers), AddedBy(r, c), acc);
    ReadersRouted(r, readers);
    CommitHolds(r, s);
    MeasuredCollected(r, changes, AddedBy(r, c));
    if !FullGate(s.acc) {
      forall reader | reader in readers
        ensures if r.readerFamily(reader) then reader in s.acc.guards && Text("make quick-guards") in CommitLines(r, s)
                else RunByQuick(r, s, reader, CommitLines(r, s))
      {
        ReaderInside(r, reader, ReadersAcc(r, readers), acc);
        ReaderRuns(r, changes, reader);
      }
    }
  }

  lemma {:induction false} MeasuredCollected(r: Rules, changes: seq<Change>, a: Acc)
    requires Inside(a, Collected(r, changes)) && TestsLeaf in a.classes
    ensures var s := Classify(r, changes);
      !FullGate(s.acc) ==> Running(s.acc.classes) && a.full == {} && Collected(r, changes).full == {}
  {
    var acc := Collected(r, changes);
    EscalatedKeeps(acc);
    hide Escalated, Collected;
    if a.full != {} {
      var x :| x in a.full;
      assert x in acc.full;
    }
    if acc.full != {} {
      var x :| x in acc.full;
      assert x in Escalated(acc).full;
    }
  }

  lemma {:induction false} ReaderRuns(r: Rules, changes: seq<Change>, reader: string)
    requires var s := Classify(r, changes); !FullGate(s.acc) && Running(s.acc.classes)
    requires Collected(r, changes).full == {} && ReaderRouted(r, reader, Collected(r, changes))
    ensures var (s, lines) := (Classify(r, changes), CommitLines(r, Classify(r, changes)));
      if r.readerFamily(reader) then reader in s.acc.guards && Text("make quick-guards") in lines else RunByQuick(r, s, reader, lines)
  {
    EscalatedKeeps(Collected(r, changes));
    CommitHolds(r, Classify(r, changes));
    hide Escalated, Collected, CommitLines, Outermost, Lines, RunByQuick, FullGate, Running;
    if !r.readerFamily(reader) { CollectedByQuick(r, changes, reader); }
  }

  // --- sources -----------------------------------------------------------------------------

  lemma {:induction false} SrcInside(r: Rules, c: Change)
    requires !r.releaseOwned(c) && r.classOf(c.path) == Some(SrcLeaf) && r.readers(c.path).None?
    ensures Inside(SrcAcc(r, c.path), AddedBy(r, c))
  {
    var left := Merge(Nothing().(paths := {c.path}, bed := if r.isSrc(c.path) then Items(r.bedLanes(r.srcKey(c.path))) else {},
                                 specialTip := Items(r.captures(c.path))),
                      LanesAcc(c.path, r.owning(c.path)));
    MergeInside(left, SrcAcc(r, c.path), Nothing());
    hide SrcAcc, LanesAcc, Inside, Merge;
  }

  /** A source change of a known package runs all its surviving test trees, or the full gate. */
  lemma {:induction false} SourceCovered(r: Rules, changes: seq<Change>, c: Change, tree: string)
    requires c in changes && !r.releaseOwned(c) && r.classOf(c.path) == Some(SrcLeaf) && r.readers(c.path).None?
    requires r.unitTrees(r.srcKey(c.path)).Some? && tree in r.unitTrees(r.srcKey(c.path)).value && Runnable(r, tree)
    ensures var s := Classify(r, changes);
      Lines(FULL_LINES) <= CommitLines(r, s) || RunByQuick(r, s, tree, CommitLines(r, s))
  {
    var acc, s := Collected(r, changes), Classify(r, changes);
    assert tree in SrcAcc(r, c.path).quick && SrcLeaf in SrcAcc(r, c.path).classes;
    SrcInside(r, c);
    AddedInside(r, changes, c);
    EscalatedKeeps(acc);
    CommitHolds(r, s);
    hide Escalated, Collected, AddedBy, SrcAcc, CommitLines, Outermost, Lines, RunByQuick;
    if !FullGate(s.acc) {
      assert Within(tree, tree) && tree in acc.quick;
      CollectedByQuick(r, changes, tree);
    }
  }
}
