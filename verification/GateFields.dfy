/** What classifying collects, field by field, is what the kept changes ask for. */
module GateFields {
  import opened Texts
  import opened GateScope
  import opened GateSpec
  import opened GateLaws

  // --- the union over changes --------------------------------------------------------------

  lemma {:induction false} AddedLast(r: Rules, changes: seq<Change>)
    requires changes != []
    ensures var last := |changes| - 1;
      Collected(r, changes) == Merge(Collected(r, changes[..last]), AddedBy(r, changes[last]))
      && changes == changes[..last] + [changes[last]]
  {
    hide ChangeAcc, Merge;
  }

  lemma {:induction false} ClassesUnion(r: Rules, changes: seq<Change>)
    ensures forall x :: x in Collected(r, changes).classes <==> exists c :: c in changes && x in AddedBy(r, c).classes
    ensures forall x :: x in Collected(r, changes).quick <==> exists c :: c in changes && x in AddedBy(r, c).quick
  {
    if changes != [] {
      ClassesUnion(r, changes[..|changes| - 1]);
      AddedLast(r, changes);
      hide AddedBy, Collected;
    }
  }

  lemma {:induction false} GuardsUnion(r: Rules, changes: seq<Change>)
    ensures forall x :: x in Collected(r, changes).guards <==> exists c :: c in changes && x in AddedBy(r, c).guards
    ensures forall x :: x in Collected(r, changes).packages <==> exists c :: c in changes && x in AddedBy(r, c).packages
  {
    if changes != [] {
      GuardsUnion(r, changes[..|changes| - 1]);
      AddedLast(r, changes);
      hide AddedBy, Collected;
    }
  }

  lemma {:induction false} PathsUnion(r: Rules, changes: seq<Change>)
    ensures forall x :: x in Collected(r, changes).paths <==> exists c :: c in changes && x in AddedBy(r, c).paths
    ensures forall x :: x in Collected(r, changes).special <==> exists c :: c in changes && x in AddedBy(r, c).special
  {
    if changes != [] {
      PathsUnion(r, changes[..|changes| - 1]);
      AddedLast(r, changes);
      hide AddedBy, Collected;
    }
  }

  lemma {:induction false} LanesUnion(r: Rules, changes: seq<Change>)
    ensures forall x :: x in Collected(r, changes).specialTip <==> exists c :: c in changes && x in AddedBy(r, c).specialTip
    ensures forall x :: x in Collected(r, changes).bed <==> exists c :: c in changes && x in AddedBy(r, c).bed
  {
    if changes != [] {
      LanesUnion(r, changes[..|changes| - 1]);
      AddedLast(r, changes);
      hide AddedBy, Collected;
    }
  }

  lemma {:induction false} ReasonsUnion(r: Rules, changes: seq<Change>)
    ensures forall x :: x in Collected(r, changes).full <==> exists c :: c in changes && x in AddedBy(r, c).full
    ensures forall x :: x in Collected(r, changes).bedModules <==> exists c :: c in changes && x in AddedBy(r, c).bedModules
  {
    if changes != [] {
      ReasonsUnion(r, changes[..|changes| - 1]);
      AddedLast(r, changes);
      hide AddedBy, Collected;
    }
  }

  // --- lanes and readers -------------------------------------------------------------------

  lemma {:induction false} LanesFields(path: string, lanes: seq<Lane>)
    ensures var a := LanesAcc(path, lanes);
      a.classes == {} && a.quick == {} && a.guards == {} && a.packages == {} && a.paths == {} && a.bed == {} && a.bedModules == {}
      && (forall x :: x in a.special <==> exists lane :: lane in lanes && !lane.full && x in lane.atCommit)
      && (forall x :: x in a.specialTip <==> exists lane :: lane in lanes && x in lane.atTip)
      && (a.full != {} <==> exists lane :: lane in lanes && lane.full)
  {
    if lanes != [] {
      var last := lanes[|lanes| - 1];
      LanesFields(path, lanes[..|lanes| - 1]);
      assert lanes == lanes[..|lanes| - 1] + [last];
      LaneFields(path, last);
      assert LanesAcc(path, lanes) == Merge(LanesAcc(path, lanes[..|lanes| - 1]), LaneAcc(path, last));
      hide LanesAcc, LaneAcc;
    }
  }

  lemma {:induction false} LaneFields(path: string, lane: Lane)
    ensures var a := LaneAcc(path, lane);
      a.classes == {} && a.quick == {} && a.guards == {} && a.packages == {} && a.paths == {} && a.bed == {} && a.bedModules == {}
      && (forall x :: x in a.special <==> !lane.full && x in lane.atCommit)
      && (forall x :: x in a.specialTip <==> x in lane.atTip)
      && (a.full != {} <==> lane.full)
  {
  }

  lemma {:induction false} SurvivingNear(r: Rules, path: string)
    ensures forall x :: SurvivingRoot(r, path) == Some(x) <==> Nearest(r, path, x)
    ensures SurvivingRoot(r, path).None? <==> NoneNear(r, path)
  {
    var a, b, c := FirstParts(path, 3), FirstParts(path, 2), FirstParts(path, 1);
    hide Runnable, FirstParts;
    assert Candidates(path) == [a, b, c] && [a, b, c][1..] == [b, c] && [b, c][1..] == [c] && [c][1..] == [];
    assert FirstRunnable(r, [c]) == if Runnable(r, c) then Some(c) else None;
    assert FirstRunnable(r, [b, c]) == if Runnable(r, b) then Some(b) else FirstRunnable(r, [c]);
    assert FirstRunnable(r, [a, b, c]) == if Runnable(r, a) then Some(a) else FirstRunnable(r, [b, c]);
  }

  lemma {:induction false} RootFields(r: Rules, path: string)
    ensures var a := RootAcc(r, path);
      a.classes == {} && a.guards == {} && a.packages == {} && a.paths == {} && a.bed == {} && a.bedModules == {}
      && a.special == {} && a.specialTip == {}
      && (forall x :: x in a.quick <==> Nearest(r, path, x))
      && (a.full != {} <==> NoneNear(r, path))
  {
    SurvivingNear(r, path);
    hide SurvivingRoot, Nearest, NoneNear;
    if SurvivingRoot(r, path).None? { assert (path, NoRoot) in RootAcc(r, path).full; }
  }

  /** What one reader adds. */
  function ReaderAcc(r: Rules, reader: string): Acc
  {
    if r.readerFamily(reader) then Nothing().(guards := {reader}) else RootAcc(r, reader)
  }

  lemma {:induction false} ReaderFields(r: Rules, reader: string)
    ensures var a := ReaderAcc(r, reader);
      a.classes == {} && a.packages == {} && a.paths == {} && a.bed == {} && a.bedModules == {} && a.special == {} && a.specialTip == {}
      && (forall x :: x in a.guards <==> x == reader && r.readerFamily(x))
      && (forall x :: x in a.quick <==> !r.readerFamily(reader) && Nearest(r, reader, x))
      && (a.full != {} <==> !r.readerFamily(reader) && NoneNear(r, reader))
  {
    RootFields(r, reader);
    hide RootAcc, Nearest, NoneNear;
  }

  lemma {:induction false} ReadersLast(r: Rules, readers: seq<string>)
    requires readers != []
    ensures var last := |readers| - 1;
      readers == readers[..last] + [readers[last]]
      && ReadersAcc(r, readers) == Merge(ReadersAcc(r, readers[..last]), ReaderAcc(r, readers[last]))
  {
    hide RootAcc, Merge;
  }

  lemma {:induction false} ReadersBlank(r: Rules, readers: seq<string>)
    ensures var a := ReadersAcc(r, readers);
      a.classes == {} && a.packages == {} && a.paths == {} && a.bed == {} && a.bedModules == {} && a.special == {} && a.specialTip == {}
      && (forall x :: x in a.guards <==> x in readers && r.readerFamily(x))
  {
    if readers != [] {
      ReadersBlank(r, readers[..|readers| - 1]);
      ReadersLast(r, readers);
      ReaderFields(r, readers[|readers| - 1]);
      hide ReadersAcc, ReaderAcc, Nearest, NoneNear;
    }
  }

  lemma {:induction false} ReadersRoots(r: Rules, readers: seq<string>)
    ensures forall x :: x in ReadersAcc(r, readers).quick <==>
      exists reader :: reader in readers && !r.readerFamily(reader) && Nearest(r, reader, x)
  {
    if readers != [] {
      ReadersRoots(r, readers[..|readers| - 1]);
      ReadersLast(r, readers);
      ReaderFields(r, readers[|readers| - 1]);
      hide ReadersAcc, ReaderAcc, Nearest, NoneNear;
    }
  }

  lemma {:induction false} ReadersFull(r: Rules, readers: seq<string>)
    ensures ReadersAcc(r, readers).full != {} <==> exists reader :: reader in readers && !r.readerFamily(reader) && NoneNear(r, reader)
  {
    if readers != [] {
      var last := |readers| - 1;
      ReadersFull(r, readers[..last]);
      ReadersLast(r, readers);
      ReaderFields(r, readers[last]);
      hide ReadersAcc, ReaderAcc, Nearest, NoneNear;
      assert ReadersAcc(r, readers).full != {} <==> ReadersAcc(r, readers[..last]).full != {} || ReaderAcc(r, readers[last]).full != {};
    }
  }

  // --- one change --------------------------------------------------------------------------

  /** What every kept change adds, whatever its class. */
  function FirstAcc(r: Rules, c: Change): Acc
  {
    Nothing().(paths := {c.path}, bed := if r.isSrc(c.path) then Items(r.bedLanes(r.srcKey(c.path))) else {},
               specialTip := Items(r.captures(c.path)))
  }

  lemma {:induction false} ChangeParts(r: Rules, c: Change)
    requires !r.releaseOwned(c)
    ensures AddedBy(r, c) == Merge(Merge(FirstAcc(r, c), LanesAcc(c.path, r.owning(c.path))), ClassAcc(r, c))
  {
    hide Merge, LanesAcc, ClassAcc, Items;
  }

  predicate Bare(a: Acc)
  {
    a.classes == {} && a.quick == {} && a.guards == {} && a.packages == {} && a.bedModules == {}
  }

  lemma {:induction false} FirstFields(r: Rules, c: Change)
    ensures Bare(FirstAcc(r, c))
  {
    hide Items;
  }

  lemma {:induction false} FieldsOfParts(first: Acc, lanes: Acc, last: Acc)
    requires Bare(first) && Bare(lanes)
    ensures var a := Merge(Merge(first, lanes), last);
      a.classes == last.classes && a.quick == last.quick && a.guards == last.guards && a.packages == last.packages
      && a.bedModules == last.bedModules
  {
  }

  /** The parts a kept change's contribution is made of. */
  lemma {:induction false} ChangeFields(r: Rules, c: Change)
    requires !r.releaseOwned(c)
    ensures var a, k := AddedBy(r, c), ClassAcc(r, c);
      a.classes == k.classes && a.quick == k.quick && a.guards == k.guards && a.packages == k.packages && a.bedModules == k.bedModules
  {
    ChangeParts(r, c);
    LanesFields(c.path, r.owning(c.path));
    assert Bare(LanesAcc(c.path, r.owning(c.path))) by { hide LanesAcc; }
    FirstFields(r, c);
    hide *;
    FieldsOfParts(FirstAcc(r, c), LanesAcc(c.path, r.owning(c.path)), ClassAcc(r, c));
  }

  lemma {:induction false} ChangeLines(r: Rules, c: Change)
    requires !r.releaseOwned(c)
    ensures var a, l, k := AddedBy(r, c), LanesAcc(c.path, r.owning(c.path)), ClassAcc(r, c);
      a.paths == {c.path} + k.paths && a.special == l.special + k.special && a.full == l.full + k.full
      && a.specialTip == Items(r.captures(c.path)) + l.specialTip + k.specialTip
      && a.bed == (if r.isSrc(c.path) then Items(r.bedLanes(r.srcKey(c.path))) else {}) + k.bed
  {
    ChangeParts(r, c);
    LanesFields(c.path, r.owning(c.path));
    hide AddedBy, LanesAcc, ClassAcc, Items;
  }

  /** What a test's own routing adds beside its class. */
  function TestRouting(r: Rules, c: Change): Acc
  {
    var lane := r.special(c);
    if lane.Some? then
      Merge(LaneAcc(c.path, lane.value),
            if (lane.value.kind.File? || lane.value.kind.Marker?) && r.leftForQuick(c) then RootAcc(r, c.path) else Nothing())
    else if r.family(c) then Nothing().(guards := {c.path})
    else RootAcc(r, c.path)
  }

  lemma {:induction false} TestParts(r: Rules, c: Change)
    ensures var a, t := TestAcc(r, c), TestRouting(r, c);
      a.classes == t.classes + {if r.structural(c) then TestsStructural else TestsLeaf} && a.quick == t.quick && a.guards == t.guards
      && a.packages == t.packages && a.paths == t.paths && a.special == t.special && a.specialTip == t.specialTip && a.bed == t.bed
      && a.full == t.full && a.bedModules == t.bedModules + (if r.bedHalf(c) then {c.path} else {})
  {
    hide LaneAcc, RootAcc;
  }

  lemma {:induction false} RoutingFields(r: Rules, c: Change)
    ensures var a, lane := TestRouting(r, c), r.special(c);
      a.classes == {} && a.packages == {} && a.paths == {} && a.bed == {} && a.bedModules == {}
      && (forall x :: x in a.guards <==> x == c.path && lane.None? && r.family(c))
      && (forall x :: x in a.special <==> lane.Some? && !lane.value.full && x in lane.value.atCommit)
      && (forall x :: x in a.specialTip <==> lane.Some? && x in lane.value.atTip)
  {
    RootFields(r, c.path);
    if r.special(c).Some? { LaneFields(c.path, r.special(c).value); }
    hide RootAcc, LaneAcc, Nearest, NoneNear;
  }

  /** Whether quick is to run a changed test. */
  predicate QuickTest(r: Rules, c: Change)
  {
    if r.special(c).Some? then r.special(c).value.kind in {File, Marker} && r.leftForQuick(c) else !r.family(c)
  }

  lemma {:induction false} RoutingRoots(r: Rules, c: Change)
    ensures var a, lane := TestRouting(r, c), r.special(c);
      (forall x :: x in a.quick <==> QuickTest(r, c) && Nearest(r, c.path, x))
      && (a.full != {} <==> (lane.Some? && lane.value.full) || (QuickTest(r, c) && NoneNear(r, c.path)))
  {
    RootFields(r, c.path);
    if r.special(c).Some? { LaneFields(c.path, r.special(c).value); }
    hide RootAcc, LaneAcc, Nearest, NoneNear;
  }

  // --- field by field ----------------------------------------------------------------------

  /** The parts a class adds: none but a test's routing, a matrix's readers or a source's trees. */
  lemma {:induction false} ClassesExact(r: Rules, c: Change)
    ensures forall cls :: cls in ClassAcc(r, c).classes <==> Classed(r, c, cls)
  {
    if r.readers(c.path).Some? { ReadersBlank(r, r.readers(c.path).value); }
    TestParts(r, c);
    RoutingFields(r, c);
    hide ReadersAcc, TestAcc, TestRouting, Alive;
  }

  lemma {:induction false} PlainFields(r: Rules, c: Change)
    ensures ClassAcc(r, c).paths == {} && ClassAcc(r, c).bed == {}
    ensures ClassAcc(r, c).bedModules == if IsTest(r, c) && r.bedHalf(c) then {c.path} else {}
  {
    if r.readers(c.path).Some? { ReadersBlank(r, r.readers(c.path).value); }
    TestParts(r, c);
    RoutingFields(r, c);
    hide ReadersAcc, TestAcc, TestRouting, Alive;
  }

  lemma {:induction false} PackagesExact(r: Rules, c: Change)
    ensures forall key :: key in ClassAcc(r, c).packages <==> OfPackage(r, c, key)
  {
    if r.readers(c.path).Some? { ReadersBlank(r, r.readers(c.path).value); }
    TestParts(r, c);
    RoutingFields(r, c);
    hide ReadersAcc, TestAcc, TestRouting, Alive;
  }

  lemma {:induction false} LinesExact(r: Rules, c: Change)
    ensures forall x :: x in ClassAcc(r, c).special <==>
      IsTest(r, c) && r.special(c).Some? && !r.special(c).value.full && x in r.special(c).value.atCommit
    ensures forall x :: x in ClassAcc(r, c).specialTip <==> IsTest(r, c) && r.special(c).Some? && x in r.special(c).value.atTip
  {
    if r.readers(c.path).Some? { ReadersBlank(r, r.readers(c.path).value); }
    TestParts(r, c);
    RoutingFields(r, c);
    hide ReadersAcc, TestAcc, TestRouting, Alive;
  }

  lemma {:induction false} GuardsExact(r: Rules, c: Change)
    ensures forall x :: x in ClassAcc(r, c).guards <==> AsksGuard(r, c, x)
  {
    if r.readers(c.path).Some? { ReadersBlank(r, r.readers(c.path).value); }
    TestParts(r, c);
    RoutingFields(r, c);
    hide ReadersAcc, TestAcc, TestRouting, Alive;
  }

  lemma {:induction false} ForQuickExact(r: Rules, c: Change)
    ensures IsTest(r, c) ==> forall path :: ForQuick(r, c, path) <==> path == c.path && QuickTest(r, c)
    ensures r.classOf(c.path).Some? && r.readers(c.path).Some? ==>
      forall path :: ForQuick(r, c, path) <==> path in r.readers(c.path).value && !r.readerFamily(path)
    ensures r.classOf(c.path).None? || (r.readers(c.path).None? && r.classOf(c.path) != Some(TestsLeaf)) ==> forall path :: !ForQuick(r, c, path)
  {
  }

  lemma {:induction false} RootsExact(r: Rules, c: Change)
    ensures forall x :: x in ClassAcc(r, c).quick <==> AsksRoot(r, c, x)
  {
    ForQuickExact(r, c);
    if r.readers(c.path).Some? { ReadersRoots(r, r.readers(c.path).value); }
    TestParts(r, c);
    RoutingRoots(r, c);
    if IsSource(r, c) { SourceRoots(r, c); }
    hide ReadersAcc, TestAcc, TestRouting, Nearest, ForQuick, QuickTest, SrcAcc;
  }

  lemma {:induction false} SourceRoots(r: Rules, c: Change)
    ensures var trees := r.unitTrees(r.srcKey(c.path));
      (forall x :: x in SrcAcc(r, c.path).quick <==> trees.Some? && Runnable(r, x) && (x in trees.value || x in r.riders))
      && (SrcAcc(r, c.path).full != {} <==> trees.None? || forall tree :: tree in trees.value ==> !Runnable(r, tree))
  {
    hide Runnable;
    var trees := r.unitTrees(r.srcKey(c.path));
    if trees.None? {
      assert (c.path, NoRow) in SrcAcc(r, c.path).full;
    } else if forall tree :: tree in trees.value ==> !Runnable(r, tree) {
      assert Alive(r, trees.value) == {};
      assert (c.path, NoTree) in SrcAcc(r, c.path).full;
    } else {
      var tree :| tree in trees.value && Runnable(r, tree);
      assert tree in Alive(r, trees.value);
    }
  }

  /** The reasons a class gives. */
  predicate ClassFull(r: Rules, c: Change)
  {
    Unknown(r, c)
    || (IsTest(r, c) && r.special(c).Some? && r.special(c).value.full)
    || (exists path :: path in [c.path] + (if r.readers(c.path).Some? then r.readers(c.path).value else [])
                       && ForQuick(r, c, path) && NoneNear(r, path))
    || (r.classOf(c.path).Some? && r.readers(c.path) == Some([]))
    || (IsSource(r, c) && r.unitTrees(r.srcKey(c.path)).Some?
        && forall tree :: tree in r.unitTrees(r.srcKey(c.path)).value ==> !Runnable(r, tree))
  }

  lemma {:induction false} MatrixFull(r: Rules, c: Change)
    requires r.classOf(c.path).Some? && r.readers(c.path).Some?
    ensures ClassAcc(r, c).full != {} <==>
      r.readers(c.path) == Some([]) || exists reader :: reader in r.readers(c.path).value && !r.readerFamily(reader) && NoneNear(r, reader)
  {
    var readers := r.readers(c.path).value;
    ReadersFull(r, readers);
    hide ReadersAcc, NoneNear;
    if readers == [] { assert (c.path, NoReader) in ClassAcc(r, c).full; }
  }

  lemma {:induction false} TestFull(r: Rules, c: Change)
    requires IsTest(r, c)
    ensures ClassAcc(r, c).full != {} <==>
      (r.special(c).Some? && r.special(c).value.full) || (QuickTest(r, c) && NoneNear(r, c.path))
  {
    TestParts(r, c);
    RoutingRoots(r, c);
    hide TestAcc, TestRouting, NoneNear, QuickTest;
  }

  lemma {:induction false} ClassFullExact(r: Rules, c: Change)
    ensures ClassAcc(r, c).full != {} <==> ClassFull(r, c)
  {
    ForQuickExact(r, c);
    if r.classOf(c.path).None? {
      assert (c.path, NoRow) in ClassAcc(r, c).full;
    } else if r.readers(c.path).Some? {
      MatrixFull(r, c);
      hide ClassAcc, NoneNear, ForQuick;
    } else if IsTest(r, c) {
      TestFull(r, c);
      hide ClassAcc, NoneNear, ForQuick, QuickTest;
      assert forall path :: ForQuick(r, c, path) ==> path in [c.path];
    } else {
      SourceRoots(r, c);
      hide SrcAcc, NoneNear, ForQuick;
    }
  }

  lemma {:induction false} FullExact(r: Rules, c: Change)
    requires !r.releaseOwned(c)
    ensures AddedBy(r, c).full != {} <==> AsksFull(r, c)
  {
    ChangeLines(r, c);
    LanesFields(c.path, r.owning(c.path));
    ClassFullExact(r, c);
    hide AddedBy, LanesAcc, ClassAcc, ForQuick, NoneNear, Runnable, Unknown;
    var l, k := LanesAcc(c.path, r.owning(c.path)).full, ClassAcc(r, c).full;
    assert AddedBy(r, c).full != {} <==> l != {} || k != {};
    LanesAsk(r, c);
  }

  lemma {:induction false} LanesAsk(r: Rules, c: Change)
    ensures (exists lane :: lane in r.owning(c.path) + (if r.special(c).Some? then [r.special(c).value] else []) && HasLane(r, c, lane) && lane.full)
      <==> (exists lane :: lane in r.owning(c.path) && lane.full) || (IsTest(r, c) && r.special(c).Some? && r.special(c).value.full)
  {
    if IsTest(r, c) && r.special(c).Some? && r.special(c).value.full {
      var lane := r.special(c).value;
      assert lane in r.owning(c.path) + [lane] && HasLane(r, c, lane);
    }
    if lane :| lane in r.owning(c.path) && lane.full {
      assert HasLane(r, c, lane);
    }
  }
}
