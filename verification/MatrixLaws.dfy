/** Laws of collation: idempotent, independent of record order, and no verdict without its evidence. */
module MatrixLaws {
  import opened Texts
  import opened MatrixSpec

  // --- only the axes matter ----------------------------------------------------------------

  predicate SameAxes(a: Matrix, b: Matrix)
  {
    a.contracts == b.contracts && a.controls == b.controls && a.profiles == b.profiles
  }

  lemma {:induction false} SameDropped(a: Matrix, b: Matrix, rec: Record)
    requires SameAxes(a, b)
    ensures Dropped(rec, a) == Dropped(rec, b)
  {
  }

  lemma {:induction false} SameCounting(a: Matrix, b: Matrix, records: seq<Record>, place: Place, kind: string)
    requires SameAxes(a, b)
    ensures Counting(records, a, place, kind) == Counting(records, b, place, kind)
  {
    hide Dropped;
    if records != [] {
      SameDropped(a, b, records[0]);
      SameCounting(a, b, records[1..], place, kind);
    }
  }

  lemma {:induction false} SameEvidence(a: Matrix, b: Matrix, records: seq<Record>, place: Place)
    requires SameAxes(a, b)
    ensures EvidenceFor(records, a, place) == EvidenceFor(records, b, place)
  {
    hide Counting, Sort, Items;
    SameCounting(a, b, records, place, "observation");
    SameCounting(a, b, records, place, "domain-exclusion");
    SameCounting(a, b, records, place, "control");
  }

  lemma {:induction false} SameVerdict(a: Matrix, b: Matrix, place: Place, e: Evidence)
    requires SameAxes(a, b) && place.0 in a.contracts && place.0 in a.controls && place.1 in a.profiles
    ensures Verdict(a, place, e) == Verdict(b, place, e)
  {
    hide Elements, Excluded, PassedControls, Unbacked, Routes, ObservableOf, NotPassed, Collect, Latest;
  }

  lemma {:induction false} CellAgain(m: Matrix, records: seq<Record>, place: Place)
    requires WellFormed(m) && place in m.cells
    ensures WellFormed(Collated(m, records)) && CellAfter(Collated(m, records), records, place) == CellAfter(m, records, place)
  {
    hide Verdict, EvidenceFor;
    SameEvidence(m, Collated(m, records), records, place);
    SameVerdict(m, Collated(m, records), place, EvidenceFor(records, m, place));
  }

  /** Collating the same records again changes nothing. */
  lemma {:induction false} CollateIdempotent(m: Matrix, records: seq<Record>)
    requires WellFormed(m)
    ensures WellFormed(Collated(m, records)) && Collated(Collated(m, records), records) == Collated(m, records)
  {
    hide CellAfter;
    forall place | place in m.cells
      ensures WellFormed(Collated(m, records)) && CellAfter(Collated(m, records), records, place) == CellAfter(m, records, place)
    {
      CellAgain(m, records, place);
    }
    assert Collated(m, records).cells.Keys == m.cells.Keys;
  }

  // --- order -------------------------------------------------------------------------------

  /** Records counting for one cell as one kind of evidence carry different labels. */
  ghost predicate DistinctLabels(records: seq<Record>, m: Matrix)
  {
    forall i, j, place, kind :: 0 <= i < j < |records| && CountsFor(records[i], m, place, kind) && CountsFor(records[j], m, place, kind)
      ==> records[i].cellLabel != records[j].cellLabel
  }

  lemma {:induction false} CountingDistinct(records: seq<Record>, m: Matrix, place: Place, kind: string)
    requires DistinctLabels(records, m)
    ensures DistinctKeys(Counting(records, m, place, kind))
  {
    hide CountsFor;
    if records != [] {
      var rest := records[1..];
      LabelsTail(records, m);
      CountingDistinct(rest, m, place, kind);
      if CountsFor(records[0], m, place, kind) {
        var xs := Counting(rest, m, place, kind);
        forall x | x in xs ensures x.key != [records[0].cellLabel] {
          var j :| 0 <= j < |rest| && rest[j] == x.item;
          assert CountsFor(records[j + 1], m, place, kind);
          assert [records[0].cellLabel][0] != [x.item.cellLabel][0];
        }
        DistinctFirst(Keyed([records[0].cellLabel], records[0]), xs);
      }
    }
  }

  lemma {:induction false} LabelsTail(records: seq<Record>, m: Matrix)
    requires records != [] && DistinctLabels(records, m)
    ensures DistinctLabels(records[1..], m)
  {
    hide CountsFor;
    var rest := records[1..];
    forall i, j, place, kind | 0 <= i < j < |rest| && CountsFor(rest[i], m, place, kind) && CountsFor(rest[j], m, place, kind)
      ensures rest[i].cellLabel != rest[j].cellLabel
    {
      assert rest[i] == records[i + 1] && rest[j] == records[j + 1];
    }
  }

  lemma {:induction false} DistinctFirst<T>(x: Keyed<T>, xs: seq<Keyed<T>>)
    requires DistinctKeys(xs) && forall y :: y in xs ==> y.key != x.key
    ensures DistinctKeys([x] + xs)
  {
    var all := [x] + xs;
    forall i, j | 0 <= i < j < |all| ensures all[i].key != all[j].key {
      assert all[j] == xs[j - 1] && all[j] in xs;
    }
  }

  lemma {:induction false} SortedSame(a: seq<Record>, b: seq<Record>, m: Matrix, place: Place, kind: string)
    requires DistinctLabels(a, m) && DistinctLabels(b, m) && forall rec :: rec in a <==> rec in b
    ensures Sorted(a, m, place, kind) == Sorted(b, m, place, kind)
  {
    CountingDistinct(a, m, place, kind);
    CountingDistinct(b, m, place, kind);
    hide DistinctLabels, DistinctKeys, CountsFor;
    SortSame(Counting(a, m, place, kind), Counting(b, m, place, kind));
  }

  /** The order records are read in does not matter. */
  lemma {:induction false} CollateOrderFree(m: Matrix, a: seq<Record>, b: seq<Record>)
    requires WellFormed(m) && DistinctLabels(a, m) && DistinctLabels(b, m) && forall rec :: rec in a <==> rec in b
    ensures Collated(m, a) == Collated(m, b)
  {
    hide DistinctLabels, Sorted, Verdict;
    forall place | place in m.cells ensures CellAfter(m, a, place) == CellAfter(m, b, place) {
      SortedSame(a, b, m, place, "observation");
      SortedSame(a, b, m, place, "domain-exclusion");
      SortedSame(a, b, m, place, "control");
    }
  }

  // --- no record, no change ----------------------------------------------------------------

  /** A record that counts for the cell. */
  ghost predicate Measures(rec: Record, m: Matrix, place: Place)
  {
    Dropped(rec, m).None? && rec.surface == Some(place.0) && rec.profile == Some(place.1)
  }

  lemma {:induction false} SortedMembers(records: seq<Record>, m: Matrix, place: Place, kind: string)
    ensures forall rec :: rec in Sorted(records, m, place, kind) <==> rec in records && CountsFor(rec, m, place, kind)
  {
    hide CountsFor, Sort, Counting;
    var xs := Counting(records, m, place, kind);
    SortStable(xs);
    forall rec ensures rec in Sorted(records, m, place, kind) <==> rec in records && CountsFor(rec, m, place, kind) {
      if rec in Sorted(records, m, place, kind) {
        var i :| 0 <= i < |Sort(xs)| && Items(Sort(xs))[i] == rec;
        assert Sort(xs)[i] in Sort(xs);
      }
      if rec in records && CountsFor(rec, m, place, kind) {
        var x := Keyed([rec.cellLabel], rec);
        assert x in Sort(xs);
        var i :| 0 <= i < |Sort(xs)| && Sort(xs)[i] == x;
        assert Items(Sort(xs))[i] == rec;
      }
    }
  }

  lemma {:induction false} KeptKinds(rec: Record, m: Matrix)
    requires Dropped(rec, m).None?
    ensures rec.kind in ["observation", "domain-exclusion", "control"]
  {
  }

  /** A cell no kept record names is left as it was; so is a cell whose evidence is refused. */
  lemma {:induction false} Untouched(m: Matrix, records: seq<Record>, place: Place)
    requires WellFormed(m) && place in m.cells
    requires (forall rec :: rec in records ==> !Measures(rec, m, place))
      || Verdict(m, place, EvidenceFor(records, m, place)).None?
    ensures Collated(m, records).cells[place] == m.cells[place]
  {
    SortedMembers(records, m, place, "observation");
    SortedMembers(records, m, place, "domain-exclusion");
    SortedMembers(records, m, place, "control");
    hide Dropped, Sorted, Verdict;
    if forall rec :: rec in records ==> !Measures(rec, m, place) {
      var e := EvidenceFor(records, m, place);
      NoneIn(e.observations);
      NoneIn(e.exclusions);
      NoneIn(e.controls);
    }
  }

  lemma {:induction false} NoneIn(records: seq<Record>)
    ensures (forall rec :: rec !in records) ==> records == []
  {
    if records != [] { assert records[0] in records; }
  }

  /** Conversely a kept record makes the cell's evidence count. */
  lemma {:induction false} Counted(m: Matrix, records: seq<Record>, place: Place, rec: Record)
    requires rec in records && Measures(rec, m, place)
    ensures HasEvidence(EvidenceFor(records, m, place))
  {
    KeptKinds(rec, m);
    SortedMembers(records, m, place, rec.kind);
    hide Dropped, Sorted;
    assert rec in Sorted(records, m, place, rec.kind);
  }

  // --- evidence for a verdict --------------------------------------------------------------

  predicate IsOk(cell: Cell) { cell.Measured? && !cell.broken }

  /** A passed control of this surface on this very route. */
  predicate ControlPassed(controls: seq<Record>, expected: string, at: string)
  {
    exists c :: c in controls && Passed(c) && c.cellLabel == at && IsControlOf(c.nodeid, expected)
  }

  lemma {:induction false} PassedExact(expected: string, controls: seq<Record>)
    ensures PassedControls(expected, controls).Some? <==>
      forall c :: c in controls && Passed(c) ==> IsControlOf(c.nodeid, expected)
    ensures PassedControls(expected, controls).Some? ==>
      forall at :: at in PassedControls(expected, controls).value <==> ControlPassed(controls, expected, at)
  {
    hide IsControlOf, Passed;
    if controls != [] {
      var last := |controls| - 1;
      var init := controls[..last];
      assert controls == init + [controls[last]];
      PassedExact(expected, init);
      if PassedControls(expected, controls).Some? {
        forall at ensures at in PassedControls(expected, controls).value <==> ControlPassed(controls, expected, at) {
          if ControlPassed(init, expected, at) {
            var c :| c in init && Passed(c) && c.cellLabel == at && IsControlOf(c.nodeid, expected);
            assert c in controls;
          }
          assert controls[last] in controls;
        }
      }
    }
  }

  /** Everything a `measured-ok` cell must show. */
  ghost predicate Backed(m: Matrix, place: Place, e: Evidence)
    requires place.0 in m.controls && place.1 in m.profiles
  {
    var order, expected := m.profiles[place.1], m.controls[place.0];
    (exists element :: element in order && Names(e.observations, element))
    && (forall element :: element in order && Names(e.observations, element) ==> !Names(e.exclusions, element))
    && (forall rec :: rec in e.observations ==>
          Passed(rec) && rec.observable.Some? && ControlPassed(e.controls, expected, rec.cellLabel))
    && forall c :: c in e.controls && Passed(c) ==> IsControlOf(c.nodeid, expected)
  }

  lemma {:induction false} ObservedAny(order: seq<string>, records: seq<Record>)
    ensures Elements(order, records) != [] <==> exists element :: element in order && Names(records, element)
  {
    hide Names;
    if Elements(order, records) != [] {
      assert Elements(order, records)[0] in Elements(order, records);
    }
  }

  /** The tests a verdict passes on its way to `measured-ok`. */
  lemma {:induction false} OkTests(m: Matrix, place: Place, e: Evidence)
    requires place.0 in m.contracts && place.0 in m.controls && place.1 in m.profiles
    ensures var (order, controls) := (m.profiles[place.1], PassedControls(m.controls[place.0], e.controls));
      Verdict(m, place, e).Some? && IsOk(Verdict(m, place, e).value) <==>
        Elements(order, e.observations) != [] && e.observations != []
        && Disjoint(Elements(order, e.observations), Elements(order, e.exclusions))
        && controls.Some? && Unbacked(e.observations, controls.value) == {}
        && ObservableOf(e.observations).Some? && NotPassed(e.observations) == []
  {
    ObservedAny(m.profiles[place.1], e.observations);
    hide Elements, Excluded, PassedControls, Routes, ObservableOf, NotPassed, Collect, Latest, SortUnique, Passed,
      FailureSummary, WholeCellControl, Disjoint, Unbacked;
  }

  lemma {:induction false} AllPassed(records: seq<Record>)
    ensures NotPassed(records) == [] <==> forall rec :: rec in records ==> Passed(rec)
  {
    hide Passed;
    if NotPassed(records) != [] { assert NotPassed(records)[0] in NotPassed(records); }
  }

  /** A verdict is `measured-ok` exactly when every contributing observation passed, each beside a passed
      control on its own route, an observable was declared on each, and no element is also excluded. */
  lemma {:induction false} OkExact(m: Matrix, place: Place, e: Evidence)
    requires place.0 in m.contracts && place.0 in m.controls && place.1 in m.profiles
    ensures Verdict(m, place, e).Some? && IsOk(Verdict(m, place, e).value) <==> Backed(m, place, e)
  {
    hide *;
    OkTests(m, place, e);
    BackedTests(m, place, e);
  }

  lemma {:induction false} BackedTests(m: Matrix, place: Place, e: Evidence)
    requires place.0 in m.controls && place.1 in m.profiles
    ensures var (order, controls) := (m.profiles[place.1], PassedControls(m.controls[place.0], e.controls));
      Backed(m, place, e) <==>
        Elements(order, e.observations) != [] && e.observations != []
        && Disjoint(Elements(order, e.observations), Elements(order, e.exclusions))
        && controls.Some? && Unbacked(e.observations, controls.value) == {}
        && ObservableOf(e.observations).Some? && NotPassed(e.observations) == []
  {
    var order, expected := m.profiles[place.1], m.controls[place.0];
    ObservedAny(order, e.observations);
    ObservedNonempty(order, e.observations);
    PassedExact(expected, e.controls);
    AllPassed(e.observations);
    if PassedControls(expected, e.controls).Some? { BackedRoutes(e.observations, PassedControls(expected, e.controls).value); }
    hide Elements, PassedControls, ObservableOf, NotPassed, Passed, IsControlOf, ControlPassed, Names, Unbacked;
  }

  lemma {:induction false} ObservedNonempty(order: seq<string>, records: seq<Record>)
    ensures Elements(order, records) != [] ==> records != []
  {
    if Elements(order, records) != [] {
      assert Elements(order, records)[0] in Elements(order, records);
    }
  }

  lemma {:induction false} BackedRoutes(observations: seq<Record>, controls: map<string, string>)
    ensures Unbacked(observations, controls) == {} <==>
      forall rec :: rec in observations && Passed(rec) ==> rec.cellLabel in controls
  {
    hide Passed;
    if rec :| rec in observations && Passed(rec) && rec.cellLabel !in controls {
      assert rec.cellLabel in Unbacked(observations, controls);
    }
  }

  /** After a collation a cell is `measured-ok` only if it was already, or its evidence backs it. */
  lemma {:induction false} OkNeedsEvidence(m: Matrix, records: seq<Record>, place: Place)
    requires WellFormed(m) && place in m.cells && IsOk(Collated(m, records).cells[place])
    ensures Collated(m, records).cells[place] == m.cells[place] || Backed(m, place, EvidenceFor(records, m, place))
  {
    hide Verdict, EvidenceFor, Backed, IsOk;
    OkExact(m, place, EvidenceFor(records, m, place));
  }

  /** Every published route that passed cites a control that passed on it. */
  lemma {:induction false} RoutesCite(m: Matrix, place: Place, e: Evidence, route: Route)
    requires place.0 in m.contracts && place.0 in m.controls && place.1 in m.profiles
    requires Verdict(m, place, e).Some? && Verdict(m, place, e).value.Measured? && route in Verdict(m, place, e).value.routes
    ensures route.outcome == "passed" ==> route.control.Some? && ControlPassed(e.controls, m.controls[place.0], route.cellLabel)
    ensures exists rec :: rec in e.observations && rec.cellLabel == route.cellLabel && rec.outcome == route.outcome && rec.element == route.element
  {
    var order := m.profiles[place.1];
    PassedExact(m.controls[place.0], e.controls);
    var controls := PassedControls(m.controls[place.0], e.controls).value;
    hide Elements, Excluded, PassedControls, ObservableOf, NotPassed, Collect, Latest, SortUnique, FailureSummary,
      WholeCellControl, Names, ControlPassed, IsControlOf, Routes;
    BackedRoutes(e.observations, controls);
    RouteSource(Elements(order, e.observations), e.observations, controls, route);
  }

  lemma {:induction false} RouteSource(observed: seq<string>, observations: seq<Record>, controls: map<string, string>, route: Route)
    requires route in Routes(observed, observations, controls)
    ensures exists rec :: rec in observations && route == RouteOf(rec, controls)
  {
    hide RouteOf;
    var mine := OfElement(observations, observed[0]);
    if route in RoutesOf(mine, controls) {
      var i :| 0 <= i < |mine| && RoutesOf(mine, controls)[i] == route;
      assert mine[i] in mine;
    } else {
      RouteSource(observed[1..], observations, controls, route);
    }
  }
}
