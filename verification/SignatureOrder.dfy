/** The order of `compare_params`'s findings: the passes one after the other, each along its list. */
module SignatureOrder {
  import opened Texts
  import opened EncodedValues
  import opened CallBinding
  import opened SignatureFindings
  import opened SignatureExact

  /** Where a finding comes from: the pass, the place in the list it goes along, and 1 if it is about a default. */
  datatype Place = Place(pass: nat, index: nat, late: nat)

  predicate NotAfter(a: Place, b: Place)
  {
    a.pass < b.pass || (a.pass == b.pass && (a.index < b.index || (a.index == b.index && a.late <= b.late)))
  }

  function Late(f: Finding): nat { if f.LostDefault? || f.DefaultChanged? then 1 else 0 }

  ghost predicate From(was: seq<Param>, now: seq<Param>, f: Finding, p: Place)
  {
    p.late == Late(f)
    && match p.pass
       case 0 => f == StarRemoved(VP)
       case 1 => f == StarRemoved(VK)
       case 2 => p.index < |Slots(was)| && SlotSaid(was, now, p.index, f)
       case 3 => f.CapturesStarArgs?
       case 4 => p.index < |was| && KeywordSaid(was[p.index], now, f)
       case 5 => f.NewRequired? && |Slots(was)| <= p.index < |Slots(now)| && Slots(now)[p.index].name == f.name
       case 6 => f.NewRequired? && p.index < |now| && now[p.index].kind == KO && now[p.index].name == f.name
       case _ => false
  }

  /** The findings can be given places in order, none before `lo` or after `hi`. */
  ghost predicate PlacedBy(was: seq<Param>, now: seq<Param>, out: seq<Finding>, places: seq<Place>, lo: Place, hi: Place)
  {
    |places| == |out|
    && (forall k :: 0 <= k < |out| ==> From(was, now, out[k], places[k]) && NotAfter(lo, places[k]) && NotAfter(places[k], hi))
    && forall j, k :: 0 <= j < k < |out| ==> NotAfter(places[j], places[k])
  }

  ghost predicate Between(was: seq<Param>, now: seq<Param>, out: seq<Finding>, lo: Place, hi: Place)
  {
    exists places :: PlacedBy(was, now, out, places, lo, hi)
  }

  /** The findings come pass by pass, and in the order of each pass's list. */
  ghost predicate InOrder(was: seq<Param>, now: seq<Param>, out: seq<Finding>)
  {
    exists places: seq<Place> ::
      |places| == |out| && (forall k :: 0 <= k < |out| ==> From(was, now, out[k], places[k]))
      && forall j, k :: 0 <= j < k < |out| ==> NotAfter(places[j], places[k])
  }

  lemma {:induction false} Joined(was: seq<Param>, now: seq<Param>, a: seq<Finding>, b: seq<Finding>, lo: Place, mid: Place, more: Place, hi: Place)
    requires Between(was, now, a, lo, mid) && Between(was, now, b, more, hi)
    requires NotAfter(lo, mid) && NotAfter(mid, more) && NotAfter(more, hi)
    ensures Between(was, now, a + b, lo, hi)
  {
    hide From;
    var ps :| PlacedBy(was, now, a, ps, lo, mid);
    var qs :| PlacedBy(was, now, b, qs, more, hi);
    assert PlacedBy(was, now, a + b, ps + qs, lo, hi);
  }

  /** At most one finding from one place. */
  lemma {:induction false} Single(was: seq<Param>, now: seq<Param>, out: seq<Finding>, p: Place)
    requires |out| <= 1 && forall f :: f in out ==> From(was, now, f, p.(late := Late(f)))
    ensures Between(was, now, out, p.(late := 0), p.(late := 1))
  {
    var places := if out == [] then [] else [p.(late := Late(out[0]))];
    hide From;
    assert PlacedBy(was, now, out, places, p.(late := 0), p.(late := 1));
  }

  /** A slot's findings: about its name, then about its default. */
  lemma {:induction false} SlotInOrder(was: seq<Param>, now: seq<Param>, i: nat)
    requires i < |Slots(was)|
    ensures Between(was, now, SlotFindings(was, now, i), Place(2, i, 0), Place(2, i, 1))
  {
    var out := SlotFindings(was, now, i);
    forall f | f in out ensures From(was, now, f, Place(2, i, Late(f))) { SlotExact(was, now, i, f); }
    hide From;
    SlotLate(was, now, i);
    var places := seq(|out|, k requires 0 <= k < |out| => Place(2, i, Late(out[k])));
    hide SlotFindings;
    assert PlacedBy(was, now, out, places, Place(2, i, 0), Place(2, i, 1));
  }

  lemma {:induction false} SlotLate(was: seq<Param>, now: seq<Param>, i: nat)
    requires i < |Slots(was)|
    ensures var out := SlotFindings(was, now, i);
      forall j, k :: 0 <= j < k < |out| ==> Late(out[j]) <= Late(out[k])
  {
    hide Slots, Named, ValuesEqual, HasKind, KeywordOnlyNames;
  }

  lemma {:induction false} SlotsInOrder(was: seq<Param>, now: seq<Param>, n: nat)
    requires n <= |Slots(was)|
    ensures Between(was, now, SlotsFindings(was, now, n), Place(2, 0, 0), Place(2, n, 0))
  {
    hide SlotFindings, Slots, Between, PlacedBy;
    if n == 0 {
      Nothing(was, now, Place(2, 0, 0), Place(2, n, 0));
    } else {
      SlotsInOrder(was, now, n - 1);
      SlotInOrder(was, now, n - 1);
      Joined(was, now, SlotsFindings(was, now, n - 1), SlotFindings(was, now, n - 1), Place(2, 0, 0), Place(2, n - 1, 0), Place(2, n - 1, 0), Place(2, n - 1, 1));
      Wider(was, now, SlotsFindings(was, now, n), Place(2, 0, 0), Place(2, n - 1, 1), Place(2, n, 0));
    }
  }

  lemma {:induction false} Nothing(was: seq<Param>, now: seq<Param>, lo: Place, hi: Place)
    ensures Between(was, now, [], lo, hi)
  {
    assert PlacedBy(was, now, [], [], lo, hi);
  }

  lemma {:induction false} Wider(was: seq<Param>, now: seq<Param>, out: seq<Finding>, lo: Place, hi: Place, further: Place)
    requires Between(was, now, out, lo, hi) && NotAfter(hi, further)
    ensures Between(was, now, out, lo, further)
  {
    hide From;
    var ps :| PlacedBy(was, now, out, ps, lo, hi);
    assert PlacedBy(was, now, out, ps, lo, further);
  }

  /** One more place's findings after those of the places before. */
  lemma {:induction false} Step(was: seq<Param>, now: seq<Param>, before: seq<Finding>, found: seq<Finding>, pass: nat, n: nat)
    requires Between(was, now, before, Place(pass, 0, 0), Place(pass, n, 0))
    requires |found| <= 1 && forall f :: f in found ==> From(was, now, f, Place(pass, n, Late(f)))
    ensures Between(was, now, before + found, Place(pass, 0, 0), Place(pass, n + 1, 0))
  {
    Single(was, now, found, Place(pass, n, 0));
    hide From, Between;
    Joined(was, now, before, found, Place(pass, 0, 0), Place(pass, n, 0), Place(pass, n, 0), Place(pass, n, 1));
    Wider(was, now, before + found, Place(pass, 0, 0), Place(pass, n, 1), Place(pass, n + 1, 0));
  }

  lemma {:induction false} KeywordsInOrder(was: seq<Param>, now: seq<Param>, n: nat)
    requires n <= |was|
    ensures Between(was, now, KeywordsFindings(was, now, n), Place(4, 0, 0), Place(4, n, 0))
  {
    hide Between;
    if n == 0 {
      Nothing(was, now, Place(4, 0, 0), Place(4, n, 0));
    } else {
      KeywordsInOrder(was, now, n - 1);
      var found := KeywordFindings(was[n - 1], now);
      forall f | f in found ensures From(was, now, f, Place(4, n - 1, Late(f))) { KeywordExact(was[n - 1], now, f); }
      hide From, Named;
      Step(was, now, KeywordsFindings(was, now, n - 1), found, 4, n - 1);
    }
  }

  lemma {:induction false} SlotsRequiredInOrder(was: seq<Param>, now: seq<Param>, n: nat)
    requires n <= |Slots(now)|
    ensures Between(was, now, SlotsRequired(was, now, n), Place(5, 0, 0), Place(5, n, 0))
  {
    hide Between, Slots;
    if n == 0 {
      Nothing(was, now, Place(5, 0, 0), Place(5, n, 0));
    } else {
      SlotsRequiredInOrder(was, now, n - 1);
      Step(was, now, SlotsRequired(was, now, n - 1), SlotRequired(was, now, n - 1), 5, n - 1);
    }
  }

  lemma {:induction false} KeywordsRequiredInOrder(was: seq<Param>, now: seq<Param>, n: nat)
    requires n <= |now|
    ensures Between(was, now, KeywordsRequired(was, now, n), Place(6, 0, 0), Place(6, n, 0))
  {
    hide Between;
    if n == 0 {
      Nothing(was, now, Place(6, 0, 0), Place(6, n, 0));
    } else {
      KeywordsRequiredInOrder(was, now, n - 1);
      Step(was, now, KeywordsRequired(was, now, n - 1), KeywordRequired(was, now[n - 1]), 6, n - 1);
    }
  }

  lemma {:induction false} StarsInOrder(was: seq<Param>, now: seq<Param>)
    ensures Between(was, now, Removed(was, now, VP) + Removed(was, now, VK), Place(0, 0, 0), Place(1, 0, 1))
    ensures Between(was, now, Captures(was, now), Place(3, 0, 0), Place(3, 0, 1))
  {
    hide HasKind, Slots;
    Single(was, now, Removed(was, now, VP), Place(0, 0, 0));
    Single(was, now, Removed(was, now, VK), Place(1, 0, 0));
    Single(was, now, Captures(was, now), Place(3, 0, 0));
    hide Between, From, Removed, Captures;
    Joined(was, now, Removed(was, now, VP), Removed(was, now, VK), Place(0, 0, 0), Place(0, 0, 1), Place(1, 0, 0), Place(1, 0, 1));
  }

  /** All passes in order. */
  lemma {:induction false} FindingsInOrder(was: seq<Param>, now: seq<Param>)
    ensures InOrder(was, now, Findings(was, now))
  {
    StarsInOrder(was, now);
    var n, m := |Slots(was)|, |Slots(now)|;
    SlotsInOrder(was, now, n);
    KeywordsInOrder(was, now, |was|);
    SlotsRequiredInOrder(was, now, m);
    KeywordsRequiredInOrder(was, now, |now|);
    hide Between, PlacedBy, From, Slots, SlotsFindings, KeywordsFindings, SlotsRequired, KeywordsRequired, Captures, Removed;
    var a := Removed(was, now, VP) + Removed(was, now, VK);
    var b := a + SlotsFindings(was, now, n);
    var c := b + Captures(was, now);
    var d := c + KeywordsFindings(was, now, |was|);
    var e := d + SlotsRequired(was, now, m);
    Joined(was, now, a, SlotsFindings(was, now, n), Place(0, 0, 0), Place(1, 0, 1), Place(2, 0, 0), Place(2, n, 0));
    Joined(was, now, b, Captures(was, now), Place(0, 0, 0), Place(2, n, 0), Place(3, 0, 0), Place(3, 0, 1));
    Joined(was, now, c, KeywordsFindings(was, now, |was|), Place(0, 0, 0), Place(3, 0, 1), Place(4, 0, 0), Place(4, |was|, 0));
    Joined(was, now, d, SlotsRequired(was, now, m), Place(0, 0, 0), Place(4, |was|, 0), Place(5, 0, 0), Place(5, m, 0));
    Joined(was, now, e, KeywordsRequired(was, now, |now|), Place(0, 0, 0), Place(5, m, 0), Place(6, 0, 0), Place(6, |now|, 0));
    assert Between(was, now, Findings(was, now), Place(0, 0, 0), Place(6, |now|, 0));
    assert InOrder(was, now, Findings(was, now)) by { BetweenInOrder(was, now, Findings(was, now), Place(0, 0, 0), Place(6, |now|, 0)); }
  }

  lemma {:induction false} BetweenInOrder(was: seq<Param>, now: seq<Param>, out: seq<Finding>, lo: Place, hi: Place)
    requires Between(was, now, out, lo, hi)
    ensures InOrder(was, now, out)
  {
    hide From;
    var ps :| PlacedBy(was, now, out, ps, lo, hi);
  }

  /** Dropping repeats keeps the order. */
  lemma {:induction false} DedupeInOrder(was: seq<Param>, now: seq<Param>, out: seq<Finding>)
    requires InOrder(was, now, out)
    ensures InOrder(was, now, Dedupe(out))
  {
    hide From;
    var ps: seq<Place> :| |ps| == |out| && (forall k :: 0 <= k < |out| ==> From(was, now, out[k], ps[k]))
      && forall j, k :: 0 <= j < k < |out| ==> NotAfter(ps[j], ps[k]);
    var qs := DedupePlaces(was, now, out, ps);
  }

  lemma {:induction false} DedupePlaces(was: seq<Param>, now: seq<Param>, out: seq<Finding>, ps: seq<Place>) returns (qs: seq<Place>)
    requires |ps| == |out| && forall k :: 0 <= k < |out| ==> From(was, now, out[k], ps[k])
    requires forall j, k :: 0 <= j < k < |out| ==> NotAfter(ps[j], ps[k])
    ensures var r := Dedupe(out);
      |qs| == |r| && (forall k :: 0 <= k < |r| ==> From(was, now, r[k], qs[k]))
      && (forall j, k :: 0 <= j < k < |r| ==> NotAfter(qs[j], qs[k]))
      && forall q :: q in qs ==> q in ps
  {
    hide From;
    if out == [] {
      qs := [];
    } else {
      var n := |out| - 1;
      assert out == out[..n] + [out[n]] && ps == ps[..n] + [ps[n]];
      qs := DedupePlaces(was, now, out[..n], ps[..n]);
      forall q | q in qs ensures NotAfter(q, ps[n]) {
        var k :| 0 <= k < n && ps[..n][k] == q;
        assert ps[k] == q;
      }
      if out[n] !in Dedupe(out[..n]) { qs := qs + [ps[n]]; }
    }
  }
}
