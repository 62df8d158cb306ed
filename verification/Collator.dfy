/** The loops of a collation: bucketing, grouping, reading controls, and writing the cells that changed. */
module Collator {
  import opened Texts
  import opened MatrixSpec
  import MatrixLaws
  import MatrixVerdict

  // --- bucketing ---------------------------------------------------------------------------

  /** The records dropped for a reason, or kept where there is none. */
  function With(records: seq<Record>, m: Matrix, reason: Option<Reason>): seq<Record>
  {
    if records == [] then []
    else
      With(records[..|records| - 1], m, reason)
      + (if Dropped(records[|records| - 1], m) == reason then [records[|records| - 1]] else [])
  }

  lemma {:induction false} WithMore(records: seq<Record>, i: nat, m: Matrix, reason: Option<Reason>)
    requires i < |records|
    ensures With(records[..i + 1], m, reason) ==
      With(records[..i], m, reason) + (if Dropped(records[i], m) == reason then [records[i]] else [])
  {
    hide Dropped;
    assert records[..i + 1][..i] == records[..i];
  }

  /** Each record in turn: kept, or put with its first reason against it. */
  method Bucket(records: seq<Record>, m: Matrix) returns (kept: seq<Record>, discarded: map<Reason, seq<Record>>)
    ensures kept == With(records, m, None)
    ensures forall reason :: (if reason in discarded then discarded[reason] else []) == With(records, m, Some(reason))
  {
    hide Dropped, With;
    kept, discarded := [], map[];
    WithNone(m);
    for i := 0 to |records|
      invariant kept == With(records[..i], m, None)
      invariant forall reason :: (if reason in discarded then discarded[reason] else []) == With(records[..i], m, Some(reason))
    {
      var rec := records[i];
      var why := Dropped(rec, m);
      forall reason ensures With(records[..i + 1], m, reason) ==
        With(records[..i], m, reason) + (if why == reason then [rec] else [])
      {
        WithMore(records, i, m, reason);
      }
      if why.None? {
        kept := kept + [rec];
      } else {
        var bucket := if why.value in discarded then discarded[why.value] else [];
        discarded := discarded[why.value := bucket + [rec]];
      }
    }
    assert records[..|records|] == records;
  }

  lemma {:induction false} WithNone(m: Matrix)
    ensures forall reason :: With([], m, reason) == []
  {
  }

  /** Bucketing loses nothing: what is kept and what is dropped are the records. */
  lemma {:induction false} EveryRecordOnce(records: seq<Record>, m: Matrix, rec: Record)
    ensures rec in records <==> rec in With(records, m, Dropped(rec, m))
    ensures forall reason :: rec in With(records, m, reason) ==> reason == Dropped(rec, m)
  {
    hide Dropped;
    if records != [] {
      var last := |records| - 1;
      assert records == records[..last] + [records[last]];
      EveryRecordOnce(records[..last], m, rec);
    }
  }

  // --- grouping ----------------------------------------------------------------------------

  lemma {:induction false} CountingMore(records: seq<Record>, rec: Record, m: Matrix, place: Place, kind: string)
    ensures Counting(records + [rec], m, place, kind) ==
      Counting(records, m, place, kind) + (if CountsFor(rec, m, place, kind) then [Keyed([rec.cellLabel], rec)] else [])
  {
    hide CountsFor;
    if records == [] {
      assert records + [rec] == [rec] && [rec][1..] == [];
    } else {
      assert (records + [rec])[1..] == records[1..] + [rec];
      CountingMore(records[1..], rec, m, place, kind);
    }
  }

  type Slot = (Place, string)

  /** The grouped records agree with the records read so far. */
  ghost predicate Grouped(groups: map<Slot, seq<Keyed<Record>>>, records: seq<Record>, m: Matrix)
  {
    forall place, kind :: Slotted(groups, place, kind) == Counting(records, m, place, kind)
  }

  function Slotted(groups: map<Slot, seq<Keyed<Record>>>, place: Place, kind: string): seq<Keyed<Record>>
  {
    if (place, kind) in groups then groups[(place, kind)] else []
  }

  /** `_evidence`'s loop: the kept records by cell and kind. */
  method Group(records: seq<Record>, m: Matrix) returns (groups: map<Slot, seq<Keyed<Record>>>)
    ensures Grouped(groups, records, m)
    ensures forall slot :: slot in groups ==> groups[slot] != []
  {
    hide CountsFor, Counting, Dropped;
    groups := map[];
    NothingCounts(m);
    for i := 0 to |records|
      invariant Grouped(groups, records[..i], m)
      invariant forall slot :: slot in groups ==> groups[slot] != []
    {
      var rec := records[i];
      assert records[..i + 1] == records[..i] + [rec];
      forall place, kind ensures Counting(records[..i + 1], m, place, kind) ==
        Counting(records[..i], m, place, kind) + (if CountsFor(rec, m, place, kind) then [Keyed([rec.cellLabel], rec)] else [])
      {
        CountingMore(records[..i], rec, m, place, kind);
      }
      SlotOf(rec, m);
      if Dropped(rec, m).None? {
        var place := (rec.surface.value, rec.profile.value);
        groups := groups[(place, rec.kind) := Slotted(groups, place, rec.kind) + [Keyed([rec.cellLabel], rec)]];
      }
    }
    assert records[..|records|] == records;
  }

  lemma {:induction false} NothingCounts(m: Matrix)
    ensures forall place, kind :: Counting([], m, place, kind) == []
  {
  }

  /** A kept record counts for exactly one cell, as one kind of evidence. */
  lemma {:induction false} SlotOf(rec: Record, m: Matrix)
    ensures Dropped(rec, m).None? ==> rec.surface.Some? && rec.profile.Some?
    ensures forall place, kind :: CountsFor(rec, m, place, kind) <==>
      Dropped(rec, m).None? && rec.surface == Some(place.0) && rec.profile == Some(place.1) && kind == rec.kind
  {
  }

  // --- controls ----------------------------------------------------------------------------

  /** The loop of `_passed_controls`: none where a passed control is some other surface's. */
  method ReadControls(expected: string, controls: seq<Record>) returns (passed: Option<map<string, string>>)
    ensures passed == PassedControls(expected, controls)
  {
    var found: map<string, string> := map[];
    for i := 0 to |controls|
      invariant PassedControls(expected, controls[..i]) == Some(found)
    {
      var rec := controls[i];
      assert controls[..i + 1][..i] == controls[..i];
      if Passed(rec) {
        if !IsControlOf(rec.nodeid, expected) {
          Refused(expected, controls, i + 1);
          return None;
        }
        found := found[rec.cellLabel := rec.nodeid];
      }
    }
    assert controls[..|controls|] == controls;
    return Some(found);
  }

  lemma {:induction false} Refused(expected: string, controls: seq<Record>, i: nat)
    requires i <= |controls| && PassedControls(expected, controls[..i]).None?
    ensures PassedControls(expected, controls).None?
    decreases |controls| - i
  {
    if i == |controls| {
      assert controls[..i] == controls;
    } else {
      assert controls[..i + 1][..i] == controls[..i];
      Refused(expected, controls, i + 1);
    }
  }

  // --- collating ---------------------------------------------------------------------------

  /** What one collation decided. */
  datatype Collation = Collation(matrix: Matrix, changed: set<Place>, confirmed: set<Place>, refused: set<Place>)

  function Places(groups: map<Slot, seq<Keyed<Record>>>): set<Place> { set slot | slot in groups :: slot.0 }

  lemma {:induction false} PlacesMeasured(groups: map<Slot, seq<Keyed<Record>>>, records: seq<Record>, m: Matrix, place: Place)
    requires Grouped(groups, records, m) && forall slot :: slot in groups ==> groups[slot] != []
    ensures place in Places(groups) <==> HasEvidence(EvidenceFor(records, m, place))
    ensures place in Places(groups) ==> place.0 in m.contracts && place.1 in m.profiles
  {
    hide Dropped;
    if slot :| slot in groups && slot.0 == place {
      var x := groups[slot][0];
      assert Slotted(groups, place, slot.1) == Counting(records, m, place, slot.1);
      assert x in Counting(records, m, place, slot.1);
      KeptPlace(x.item, m);
      MatrixLaws.Counted(m, records, place, x.item);
    } else {
      forall kind ensures Counting(records, m, place, kind) == [] {
        assert Slotted(groups, place, kind) == Counting(records, m, place, kind);
        assert (place, kind) !in groups by { assert (place, kind).0 == place; }
      }
    }
  }

  /** A cell's evidence, read off the groups. */
  function EvidenceIn(groups: map<Slot, seq<Keyed<Record>>>, place: Place): Evidence
  {
    Evidence(
      Items(Sort(Slotted(groups, place, "observation"))), Items(Sort(Slotted(groups, place, "domain-exclusion"))),
      Items(Sort(Slotted(groups, place, "control"))))
  }

  lemma {:induction false} GroupedEvidence(groups: map<Slot, seq<Keyed<Record>>>, records: seq<Record>, m: Matrix, place: Place)
    requires Grouped(groups, records, m)
    ensures EvidenceIn(groups, place) == EvidenceFor(records, m, place)
  {
    hide Slotted, Counting, Sort, Items;
  }

  lemma {:induction false} KeptPlace(rec: Record, m: Matrix)
    requires Dropped(rec, m).None?
    ensures rec.surface.Some? && rec.profile.Some? && rec.surface.value in m.contracts && rec.profile.value in m.profiles
  {
  }

  /** Fold the records into the matrix. */
  method Collate(m: Matrix, records: seq<Record>) returns (result: Collation)
    requires WellFormed(m)
    ensures result.matrix == Collated(m, records)
    ensures forall place :: place in result.changed <==> place in m.cells && result.matrix.cells[place] != m.cells[place]
    ensures forall place :: place in result.refused <==>
      place in m.cells && HasEvidence(EvidenceFor(records, m, place)) && Verdict(m, place, EvidenceFor(records, m, place)).None?
    ensures forall place :: place in result.confirmed <==>
      place in m.cells && Verdict(m, place, EvidenceFor(records, m, place)) == Some(m.cells[place])
      && HasEvidence(EvidenceFor(records, m, place))
    ensures forall place :: place in m.cells ==>
      MatrixVerdict.Gathered(m, records, place, EvidenceFor(records, m, place))
      && MatrixVerdict.CellFits(m, place, EvidenceFor(records, m, place), m.cells[place], result.matrix.cells[place])
    ensures forall place :: place in result.refused ==> MatrixVerdict.Refuses(m, place, EvidenceFor(records, m, place))
  {
    hide MatrixVerdict.Gathered, MatrixVerdict.CellFits, MatrixVerdict.Refuses;
    hide Verdict, Dropped, EvidenceFor, EvidenceIn, Counting, HasEvidence, Grouped;
    var groups := Group(records, m);
    var places, done := Places(groups), {};
    result := Collation(m, {}, {}, {});
    forall place ensures (place in places <==> HasEvidence(EvidenceFor(records, m, place)))
      && (place in places ==> place.0 in m.contracts && place.1 in m.profiles)
    {
      PlacesMeasured(groups, records, m, place);
    }
    ghost var all := places;
    while places != {}
      invariant places !! done && places + done == all && done <= m.cells.Keys
      invariant MatrixLaws.SameAxes(m, result.matrix) && result.matrix.cells.Keys == m.cells.Keys
      invariant forall place :: place in m.cells ==>
        result.matrix.cells[place] == if place in done then CellAfter(m, records, place) else m.cells[place]
      invariant forall place :: place in result.changed <==> place in done && CellAfter(m, records, place) != m.cells[place]
      invariant forall place :: place in result.refused <==> place in done && Verdict(m, place, EvidenceFor(records, m, place)).None?
      invariant forall place :: place in result.confirmed <==>
        place in done && Verdict(m, place, EvidenceFor(records, m, place)) == Some(m.cells[place])
    {
      var place :| place in places;
      GroupedEvidence(groups, records, m, place);
      var cell := Verdict(m, place, EvidenceIn(groups, place));
      if cell.None? {
        result := result.(refused := result.refused + {place});
      } else if cell.value == m.cells[place] {
        result := result.(confirmed := result.confirmed + {place});
      } else {
        result := result.(matrix := result.matrix.(cells := result.matrix.cells[place := cell.value]),
                          changed := result.changed + {place});
      }
      places, done := places - {place}, done + {place};
    }
    assert result.matrix.cells == Collated(m, records).cells;
    forall place | place in m.cells
      ensures MatrixVerdict.Gathered(m, records, place, EvidenceFor(records, m, place))
      ensures MatrixVerdict.CellFits(m, place, EvidenceFor(records, m, place), m.cells[place], result.matrix.cells[place])
      ensures place in result.refused ==> MatrixVerdict.Refuses(m, place, EvidenceFor(records, m, place))
    {
      MatrixVerdict.CollatedFits(m, records, place);
      MatrixVerdict.GatheredExact(m, records, place);
      MatrixVerdict.RefusalOf(m, records, place);
    }
  }
}
