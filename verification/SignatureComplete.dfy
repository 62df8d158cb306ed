/** Whatever a call loses, some finding of `compare_params` names it. */
module SignatureComplete {
  import opened Texts
  import opened EncodedValues
  import opened CallBinding
  import opened SignatureFindings
  import opened SignatureLaws
  import opened SignatureExact

  /** The finding's message holds the parameter's name. */
  predicate Mentions(f: Finding, name: string)
  {
    match f
    case StarRemoved(_) => false
    case NarrowedToKeywordOnly(n, _) => n == name
    case SlotRemoved(_, n) => n == name
    case SlotRenamed(_, n, w) => n == name || w == name
    case NarrowedToPositionalOnly(n) => n == name
    case LostDefault(what) => what == ByName(name)
    case DefaultChanged(what, _, _) => what == ByName(name)
    case KeywordMovedIntoSlot(n, _) => n == name
    case KeywordBesideKwargs(n) => n == name
    case CapturesStarArgs(names) => name in names
    case KeywordRemoved(n) => n == name
    case KeywordNarrowed(n) => n == name
    case NewRequired(n) => n == name
  }

  /** It holds the slot's number. */
  predicate Locates(f: Finding, i: nat)
  {
    match f
    case SlotRemoved(slot, _) => slot == i
    case SlotRenamed(slot, _, _) => slot == i
    case LostDefault(what) => what == BySlot(i)
    case DefaultChanged(what, _, _) => what == BySlot(i)
    case KeywordMovedIntoSlot(_, slot) => slot == i
    case _ => false
  }

  ghost predicate Mentioned(was: seq<Param>, now: seq<Param>, name: string) { exists f :: Said(was, now, f) && Mentions(f, name) }

  ghost predicate Located(was: seq<Param>, now: seq<Param>, i: nat) { exists f :: Said(was, now, f) && Locates(f, i) }

  // --- old parameters ----------------------------------------------------------------------

  lemma {:induction false} SlotSays(was: seq<Param>, now: seq<Param>, i: nat, f: Finding)
    requires i < |Slots(was)| && SlotSaid(was, now, i, f)
    ensures Said(was, now, f)
  {
    hide SlotSaid, KeywordSaid, Captured, Demanded, HasKind;
  }

  lemma {:induction false} LostSlotSaid(was: seq<Param>, now: seq<Param>, i: nat)
    requires |Slots(now)| <= i < |Slots(was)|
    ensures exists f :: SlotSaid(was, now, i, f) && Mentions(f, Slots(was)[i].name)
  {
    var op := Slots(was)[i];
    var f := if KeywordNow(now, op.name) then NarrowedToKeywordOnly(op.name, op.kind) else SlotRemoved(i, op.name);
    hide KeywordNow, Slots;
    assert SlotSaid(was, now, i, f);
  }

  /** A slot is gone, and its name is said. */
  lemma {:induction false} LostSlotMentioned(was: seq<Param>, now: seq<Param>, i: nat)
    requires |Slots(now)| <= i < |Slots(was)|
    ensures Mentioned(was, now, Slots(was)[i].name)
  {
    LostSlotSaid(was, now, i);
    hide Said, Slots, SlotSaid;
    var f :| SlotSaid(was, now, i, f) && Mentions(f, Slots(was)[i].name);
    SlotSays(was, now, i, f);
  }

  /** The parameter after it is still the same one. */
  ghost predicate StillThere(op: Param, ns: seq<Param>, i: nat)
  {
    i < |ns| && ns[i].name == op.name && ns[i].kind == PK && DefaultKept(op, ns[i])
  }

  /** A default that is not kept is said under its label. */
  function DefaultFinding(what: Label, op: Param, np: Param): (f: Finding)
    requires !DefaultKept(op, np)
    ensures DefaultSaid(what, op, np, f)
  {
    if np.default.None? then LostDefault(what) else DefaultChanged(what, op.default.value, np.default.value)
  }

  /** A positional-or-keyword slot no finding mentions is still the same parameter. */
  lemma {:induction false} SlotMentioned(was: seq<Param>, now: seq<Param>, i: nat)
    requires i < |Slots(was)| && Slots(was)[i].kind == PK
    ensures Mentioned(was, now, Slots(was)[i].name) || StillThere(Slots(was)[i], Slots(now), i)
  {
    var op := Slots(was)[i];
    if i >= |Slots(now)| {
      LostSlotMentioned(was, now, i);
    } else {
      var np := Slots(now)[i];
      assert np in Slots(now);
      hide Slots, ValuesEqual, HasKind, Said, DefaultFinding;
      if np.name != op.name {
        SlotSays(was, now, i, SlotRenamed(i, np.name, op.name));
      } else if np.kind == PO {
        SlotSays(was, now, i, NarrowedToPositionalOnly(op.name));
      } else if !DefaultKept(op, np) {
        SlotSays(was, now, i, DefaultFinding(ByName(op.name), op, np));
      }
    }
  }

  lemma {:induction false} SameSlot(os: seq<Param>, ns: seq<Param>, c: Call, i: nat)
    requires i < |os| && i < |ns| && DefaultKept(os[i], ns[i]) && SlotSource(os, c, i) != Missing
    requires os[i].kind == PK ==> ns[i].kind == PK && ns[i].name == os[i].name
    requires os[i].kind != PK && ns[i].kind == PK && i >= c.positional ==> ns[i].name !in c.keywords
    ensures SameSource(SlotSource(os, c, i), SlotSource(ns, c, i))
  {
    hide ValuesEqual;
  }

  /** An old positional-or-keyword parameter is bound as before, or mentioned. */
  lemma {:induction false} NamedSlotAccounted(was: seq<Param>, now: seq<Param>, c: Call, i: nat)
    requires Accepts(was, c) && i < |Slots(was)| && Slots(was)[i].kind == PK
    ensures BoundByName(now, c, Slots(was)[i].name, SlotSource(Slots(was), c, i)) || Mentioned(was, now, Slots(was)[i].name)
  {
    SlotMentioned(was, now, i);
    hide Slots, ValuesEqual, HasKind, Mentioned, SameSource;
    if StillThere(Slots(was)[i], Slots(now), i) { SameSlot(Slots(was), Slots(now), c, i); }
  }

  // --- keyword-only parameters -------------------------------------------------------------

  lemma {:induction false} KeywordSays(was: seq<Param>, now: seq<Param>, p: Param, f: Finding)
    requires p in was && KeywordSaid(p, now, f)
    ensures Said(was, now, f)
  {
    hide SlotSaid, KeywordSaid, Captured, Demanded, HasKind, Slots;
  }

  /** A keyword-only parameter no finding mentions can still be given by keyword. */
  lemma {:induction false} KeywordMentioned(was: seq<Param>, now: seq<Param>, p: Param)
    requires p in was && p.kind == KO
    ensures Mentioned(was, now, p.name)
      || exists q :: q in now && q.name == p.name && (q.kind == PK || q.kind == KO) && DefaultKept(p, q)
  {
    NamedExact(now, p.name);
    hide Named, Said, ValuesEqual, DefaultFinding;
    if p.name !in Named(now) {
      KeywordSays(was, now, p, KeywordRemoved(p.name));
    } else {
      var q := Named(now)[p.name];
      StandingIn(now, q);
      hide StandsFor;
      if q.kind == PO {
        KeywordSays(was, now, p, KeywordNarrowed(p.name));
      } else if !DefaultKept(p, q) {
        KeywordSays(was, now, p, DefaultFinding(ByName(p.name), p, q));
      }
    }
  }

  /** A slot a keyword-only name moved into is mentioned once a call reaches it by position. */
  lemma {:induction false} ReachedMentioned(was: seq<Param>, now: seq<Param>, c: Call, name: string, i: nat)
    requires Accepts(was, c) && Shaped(was) && KeywordBefore(was, name)
    requires i < c.positional && i < |Slots(now)| && Slots(now)[i].kind == PK && Slots(now)[i].name == name
    ensures Mentioned(was, now, name)
  {
    var ns, os := Slots(now), Slots(was);
    if i >= |os| {
      CaptureMentioned(was, now, i);
    } else {
      var p :| p in was && p.kind == KO && p.name == name;
      assert os[i].name != name && (os[i].kind == PK || os[i].kind == PO);
      hide Slots, HasKind, Said, Accepts, Shaped;
      if os[i].kind == PK {
        SlotSays(was, now, i, SlotRenamed(i, name, os[i].name));
      } else {
        SlotSays(was, now, i, KeywordMovedIntoSlot(name, i));
      }
    }
  }

  lemma {:induction false} CaptureMentioned(was: seq<Param>, now: seq<Param>, i: nat)
    requires HasKind(was, VP) && |Slots(was)| <= i < |Slots(now)|
    ensures Mentioned(was, now, Slots(now)[i].name)
  {
    var names := NamesOf(Slots(now)[|Slots(was)|..]);
    assert names[i - |Slots(was)|] == Slots(now)[i].name;
    assert Captured(was, now, names);
    hide HasKind, Slots, SlotSaid, KeywordSaid, Demanded, Captured;
    assert Said(was, now, CapturesStarArgs(names));
  }

  /** An old keyword-only parameter is bound as before, or mentioned. */
  lemma {:induction false} KeywordAccounted(was: seq<Param>, now: seq<Param>, c: Call, p: Param)
    requires Accepts(was, c) && Shaped(was) && p in was && p.kind == KO
    ensures BoundByName(now, c, p.name, KeywordSource(p, c)) || Mentioned(was, now, p.name)
  {
    KeywordMentioned(was, now, p);
    if !Mentioned(was, now, p.name) {
      var q :| q in now && q.name == p.name && (q.kind == PK || q.kind == KO) && DefaultKept(p, q);
      if q.kind == KO {
        KeywordBinds(now, c, p, q);
      } else {
        var i :| 0 <= i < |Slots(now)| && Slots(now)[i] == q;
        if i < c.positional {
          ReachedMentioned(was, now, c, p.name, i);
        } else {
          hide Slots, ValuesEqual, Mentioned, HasKind, Shaped;
          assert SameSource(KeywordSource(p, c), SlotSource(Slots(now), c, i));
        }
      }
    }
  }

  // --- positional-only parameters ----------------------------------------------------------

  /** A positional-only slot no finding locates is still there, with its default. */
  lemma {:induction false} PositionLocated(was: seq<Param>, now: seq<Param>, i: nat)
    requires i < |Slots(was)| && Slots(was)[i].kind == PO
    ensures Mentioned(was, now, Slots(was)[i].name) || Located(was, now, i)
      || (i < |Slots(now)| && DefaultKept(Slots(was)[i], Slots(now)[i]))
  {
    var op := Slots(was)[i];
    if i >= |Slots(now)| {
      LostSlotMentioned(was, now, i);
    } else {
      hide Slots, Said, HasKind, DefaultFinding;
      if !DefaultKept(op, Slots(now)[i]) {
        var f := DefaultFinding(BySlot(i), op, Slots(now)[i]);
        assert SlotSaid(was, now, i, f) by { PositionSays(was, now, i, f); }
        SlotSays(was, now, i, f);
      }
    }
  }

  lemma {:induction false} PositionSays(was: seq<Param>, now: seq<Param>, i: nat, f: Finding)
    requires i < |Slots(was)| && i < |Slots(now)| && Slots(was)[i].kind == PO
    requires PositionSaid(was, Slots(was)[i], Slots(now)[i], i, f)
    ensures SlotSaid(was, now, i, f)
  {
    hide PositionSaid, Slots;
  }

  /** A name a call gave by keyword is not a positional slot's now without being mentioned. */
  lemma {:induction false} KeywordTaken(was: seq<Param>, now: seq<Param>, c: Call, i: nat)
    requires Accepts(was, c) && Shaped(now) && i < |Slots(was)| && i < |Slots(now)|
    requires Slots(was)[i].kind == PO && Slots(now)[i].kind == PK && Slots(now)[i].name in c.keywords
    ensures Mentioned(was, now, Slots(now)[i].name)
  {
    var k := Slots(now)[i].name;
    KeywordPlace(was, c, k);
    hide Said, HasKind, Accepts, Mentioned;
    if KeywordBefore(was, k) {
      PositionSays(was, now, i, KeywordMovedIntoSlot(k, i));
      SlotSays(was, now, i, KeywordMovedIntoSlot(k, i));
    } else if HasKind(was, VK) {
      PositionSays(was, now, i, KeywordBesideKwargs(k));
      SlotSays(was, now, i, KeywordBesideKwargs(k));
    } else {
      var j :| c.positional <= j < |Slots(was)| && Slots(was)[j].kind == PK && Slots(was)[j].name == k;
      SlotMentioned(was, now, j);
      assert i != j;
    }
    hide Slots;
  }

  /** An old positional-only parameter is bound as before, or a finding has its slot, its name or the name now there. */
  lemma {:induction false} PositionAccounted(was: seq<Param>, now: seq<Param>, c: Call, i: nat)
    requires Accepts(was, c) && Shaped(now) && i < |Slots(was)| && Slots(was)[i].kind == PO
    ensures Mentioned(was, now, Slots(was)[i].name) || Located(was, now, i)
      || (i < |Slots(now)|
          && (SameSource(SlotSource(Slots(was), c, i), SlotSource(Slots(now), c, i)) || Mentioned(was, now, Slots(now)[i].name)))
  {
    PositionLocated(was, now, i);
    if i < |Slots(now)| && DefaultKept(Slots(was)[i], Slots(now)[i]) {
      if Slots(now)[i].kind == PK && Slots(now)[i].name in c.keywords {
        KeywordTaken(was, now, c, i);
      } else {
        hide Slots, HasKind, Mentioned, Located, Shaped, SameSource;
        SameSlot(Slots(was), Slots(now), c, i);
      }
    }
  }

  // --- new parameters ----------------------------------------------------------------------

  lemma {:induction false} DemandSays(was: seq<Param>, now: seq<Param>, name: string)
    requires Demanded(was, now, name)
    ensures Mentioned(was, now, name)
  {
    assert Said(was, now, NewRequired(name)) by { hide SlotSaid, KeywordSaid, Captured, Demanded, HasKind, Slots; }
    hide Said;
  }

  /** What the old list called by this name is mentioned, unless the new list asks no more of it. */
  lemma {:induction false} NamedBefore(was: seq<Param>, now: seq<Param>, c: Call, q: Param)
    requires Accepts(was, c) && Shaped(was) && Shaped(now) && q in now && q.default.None? && (q.kind == KO || IsSlot(q))
    requires exists p :: p in was && p.name == q.name && (p.kind == PK || p.kind == KO)
    ensures Mentioned(was, now, q.name) || (q.kind != PO && q.name in c.keywords)
      || exists j :: 0 <= j < |Slots(was)| && j < |Slots(now)| && Slots(now)[j] == q
  {
    var p :| p in was && p.name == q.name && (p.kind == PK || p.kind == KO);
    if p.kind == KO {
      KeywordMentioned(was, now, p);
    } else {
      var j :| 0 <= j < |Slots(was)| && Slots(was)[j] == p;
      SlotMentioned(was, now, j);
      if StillThere(p, Slots(now), j) { assert Slots(now)[j] in now && Slots(now)[j] == q; }
    }
    hide Slots, Mentioned, HasKind, ValuesEqual;
  }

  /** A new slot a call leaves empty is mentioned or located. */
  lemma {:induction false} NewSlotAccounted(was: seq<Param>, now: seq<Param>, c: Call, i: nat)
    requires Accepts(was, c) && Shaped(was) && Shaped(now) && i < |Slots(now)|
    ensures SlotSource(Slots(now), c, i) != Missing || Mentioned(was, now, Slots(now)[i].name) || Located(was, now, i)
  {
    if i < |Slots(was)| {
      OldSlotAccounted(was, now, c, i);
    } else if SlotSource(Slots(now), c, i) == Missing {
      var q := Slots(now)[i];
      assert q in now;
      if exists p :: p in was && p.name == q.name && (p.kind == PK || p.kind == KO) {
        NamedBefore(was, now, c, q);
        LaterSlot(was, now, i);
      } else {
        DemandSays(was, now, q.name);
      }
      hide Slots, Mentioned, HasKind, ValuesEqual, Located;
    }
  }

  lemma {:induction false} LaterSlot(was: seq<Param>, now: seq<Param>, i: nat)
    requires Shaped(now) && |Slots(was)| <= i < |Slots(now)|
    ensures !exists j :: 0 <= j < |Slots(was)| && j < |Slots(now)| && Slots(now)[j] == Slots(now)[i]
  {
    hide Slots;
  }

  lemma {:induction false} OldSlotAccounted(was: seq<Param>, now: seq<Param>, c: Call, i: nat)
    requires Accepts(was, c) && i < |Slots(now)| && i < |Slots(was)|
    ensures SlotSource(Slots(now), c, i) != Missing || Mentioned(was, now, Slots(now)[i].name) || Located(was, now, i)
  {
    var op, np := Slots(was)[i], Slots(now)[i];
    assert op in Slots(was) && SlotSource(Slots(was), c, i) != Missing;
    hide Slots, ValuesEqual, HasKind, Said, Accepts;
    if op.kind == PK {
      SlotMentioned(was, now, i);
      if np.name != op.name { SlotSays(was, now, i, SlotRenamed(i, np.name, op.name)); }
    } else if !DefaultKept(op, np) {
      var f := DefaultFinding(BySlot(i), op, np);
      hide DefaultFinding;
      PositionSays(was, now, i, f);
      SlotSays(was, now, i, f);
    }
    hide Mentioned, Located;
  }

  /** A new keyword-only parameter a call leaves empty is mentioned. */
  lemma {:induction false} NewKeywordAccounted(was: seq<Param>, now: seq<Param>, c: Call, q: Param)
    requires Accepts(was, c) && Shaped(was) && Shaped(now) && q in now && q.kind == KO
    ensures KeywordSource(q, c) != Missing || Mentioned(was, now, q.name)
  {
    if KeywordSource(q, c) == Missing {
      hide Mentioned, HasKind, ValuesEqual, Accepts;
      if exists p :: p in was && p.name == q.name && (p.kind == PK || p.kind == KO) {
        NamedBefore(was, now, c, q);
      } else {
        DemandSays(was, now, q.name);
      }
      hide Slots;
    }
  }

  // --- the call as a whole -----------------------------------------------------------------

  /** A keyword a new slot now also gets by position is mentioned. */
  lemma {:induction false} CollisionMentioned(was: seq<Param>, now: seq<Param>, c: Call, k: string, i: nat)
    requires Accepts(was, c) && Shaped(now) && k in c.keywords
    requires i < c.positional && i < |Slots(now)| && Slots(now)[i].kind == PK && Slots(now)[i].name == k
    ensures Mentioned(was, now, k)
  {
    if i >= |Slots(was)| {
      CaptureMentioned(was, now, i);
    } else if Slots(was)[i].kind == PO {
      KeywordTaken(was, now, c, i);
    } else {
      var op := Slots(was)[i];
      assert op in Slots(was);
      KeywordPlace(was, c, k);
      assert op.name != k;
      SlotSays(was, now, i, SlotRenamed(i, k, op.name));
    }
    hide Slots, Said, Accepts, HasKind;
  }

  /** A keyword-only name the new list refuses is mentioned. */
  lemma {:induction false} KeywordRefused(was: seq<Param>, now: seq<Param>, c: Call, k: string)
    requires KeywordBefore(was, k) && !Collides(now, c, k)
    ensures NamesParam(now, c, k) || Mentioned(was, now, k)
  {
    var p :| p in was && p.kind == KO && p.name == k;
    KeywordMentioned(was, now, p);
    hide Slots, Mentioned, DefaultKept;
    if q :| q in now && q.name == k && q.kind == PK {
      var i :| 0 <= i < |Slots(now)| && Slots(now)[i] == q;
      assert c.positional <= i ==> NamesSlot(now, c, k);
    }
  }

  lemma {:induction false} SlotNameRefused(was: seq<Param>, now: seq<Param>, c: Call, k: string)
    requires NamesSlot(was, c, k)
    ensures NamesParam(now, c, k) || Mentioned(was, now, k)
  {
    var j :| c.positional <= j < |Slots(was)| && Slots(was)[j].kind == PK && Slots(was)[j].name == k;
    SlotMentioned(was, now, j);
    hide Slots, Mentioned, DefaultKept;
  }

  /** A keyword the new list refuses is mentioned, or `**kwargs` took it and is gone. */
  lemma {:induction false} RefusedAccounted(was: seq<Param>, now: seq<Param>, c: Call, k: string)
    requires Accepts(was, c) && Shaped(now) && k in c.keywords
    ensures KeywordAccepted(now, c, k) || Mentioned(was, now, k) || (HasKind(was, VK) && !HasKind(now, VK))
  {
    KeywordPlace(was, c, k);
    assert k in KeywordOnlyNames(was) ==> KeywordBefore(was, k);
    if Collides(now, c, k) {
      var i :| 0 <= i < |Slots(now)| && i < c.positional && Slots(now)[i].kind == PK && Slots(now)[i].name == k;
      CollisionMentioned(was, now, c, k, i);
    } else if KeywordBefore(was, k) {
      KeywordRefused(was, now, c, k);
    } else if NamesSlot(was, c, k) {
      SlotNameRefused(was, now, c, k);
    }
    hide Slots, Mentioned, HasKind, Accepts, Shaped, NamesParam, Collides, NamesSlot, KeywordBefore;
  }

  /** Positional arguments the new list has no place for, or collects elsewhere. */
  lemma {:induction false} CountAccounted(was: seq<Param>, now: seq<Param>, c: Call)
    requires Accepts(was, c)
    ensures c.positional <= |Slots(now)| || HasKind(now, VP) || HasKind(was, VP)
      || (|Slots(now)| < |Slots(was)| && Mentioned(was, now, Slots(was)[|Slots(now)|].name))
    ensures StarFrom(was, c) == StarFrom(now, c)
      || (|Slots(now)| < |Slots(was)| && Mentioned(was, now, Slots(was)[|Slots(now)|].name))
      || (|Slots(was)| < |Slots(now)| && Mentioned(was, now, Slots(now)[|Slots(was)|].name))
  {
    var n, m := |Slots(was)|, |Slots(now)|;
    if m < n { LostSlotMentioned(was, now, m); }
    if n < m && c.positional > n { CaptureMentioned(was, now, n); }
    hide Slots, Mentioned, HasKind;
  }

  // --- a whole report ----------------------------------------------------------------------

  ghost predicate MentionedIn(out: seq<Finding>, name: string) { exists f :: f in out && Mentions(f, name) }

  ghost predicate LocatedIn(out: seq<Finding>, i: nat) { exists f :: f in out && Locates(f, i) }

  /** The slot is there and its parameter gets what it got. */
  predicate SlotKept(was: seq<Param>, now: seq<Param>, c: Call, i: nat)
    requires i < |Slots(was)|
  {
    i < |Slots(now)| && SameSource(SlotSource(Slots(was), c, i), SlotSource(Slots(now), c, i))
  }

  /** Each old parameter is bound as before, or its name, its slot or the name now in its slot is in the report. */
  ghost predicate OldAccounted(out: seq<Finding>, was: seq<Param>, now: seq<Param>, c: Call)
  {
    (forall i :: 0 <= i < |Slots(was)| && Slots(was)[i].kind == PK ==>
       BoundByName(now, c, Slots(was)[i].name, SlotSource(Slots(was), c, i)) || MentionedIn(out, Slots(was)[i].name))
    && (forall p :: p in was && p.kind == KO ==> BoundByName(now, c, p.name, KeywordSource(p, c)) || MentionedIn(out, p.name))
    && (forall i :: 0 <= i < |Slots(was)| && Slots(was)[i].kind == PO ==>
          SlotKept(was, now, c, i) || LocatedIn(out, i) || MentionedIn(out, Slots(was)[i].name)
          || (i < |Slots(now)| && MentionedIn(out, Slots(now)[i].name)))
  }

  /** Each new parameter gets something, or is in the report. */
  ghost predicate NewAccounted(out: seq<Finding>, now: seq<Param>, c: Call)
  {
    (forall i :: 0 <= i < |Slots(now)| ==>
       SlotSource(Slots(now), c, i) != Missing || MentionedIn(out, Slots(now)[i].name) || LocatedIn(out, i))
    && (forall q :: q in now && q.kind == KO ==> KeywordSource(q, c) != Missing || MentionedIn(out, q.name))
  }

  /** Each argument has a place, or what it went to is in the report. */
  ghost predicate ArgumentsAccounted(out: seq<Finding>, was: seq<Param>, now: seq<Param>, c: Call)
  {
    (forall k :: k in c.keywords ==> KeywordAccepted(now, c, k) || MentionedIn(out, k) || StarRemoved(VK) in out)
    && (c.positional <= |Slots(now)| || HasKind(now, VP) || StarRemoved(VP) in out
        || (|Slots(now)| < |Slots(was)| && MentionedIn(out, Slots(was)[|Slots(now)|].name)))
    && (StarFrom(was, c) == StarFrom(now, c)
        || (|Slots(now)| < |Slots(was)| && MentionedIn(out, Slots(was)[|Slots(now)|].name))
        || (|Slots(was)| < |Slots(now)| && MentionedIn(out, Slots(now)[|Slots(was)|].name)))
  }

  ghost predicate Accounts(out: seq<Finding>, was: seq<Param>, now: seq<Param>, c: Call)
  {
    OldAccounted(out, was, now, c) && NewAccounted(out, now, c) && ArgumentsAccounted(out, was, now, c)
  }

  /** The report holds what there is to say, and nothing else. */
  ghost predicate Reports(out: seq<Finding>, was: seq<Param>, now: seq<Param>)
  {
    forall f :: f in out <==> Said(was, now, f)
  }

  lemma {:induction false} InReport(out: seq<Finding>, was: seq<Param>, now: seq<Param>)
    requires Reports(out, was, now)
    ensures forall name :: Mentioned(was, now, name) ==> MentionedIn(out, name)
    ensures forall i: nat :: Located(was, now, i) ==> LocatedIn(out, i)
  {
    hide Said, Mentions, Locates;
    forall name | Mentioned(was, now, name) ensures MentionedIn(out, name) {
      var f :| Said(was, now, f) && Mentions(f, name);
      assert f in out;
    }
    forall i: nat | Located(was, now, i) ensures LocatedIn(out, i) {
      var f :| Said(was, now, f) && Locates(f, i);
      assert f in out;
    }
  }

  lemma {:induction false} StarSays(was: seq<Param>, now: seq<Param>, kind: Kind)
    requires (kind == VP || kind == VK) && HasKind(was, kind) && !HasKind(now, kind)
    ensures Said(was, now, StarRemoved(kind))
  {
    hide SlotSaid, KeywordSaid, Captured, Demanded, HasKind, Slots;
  }

  lemma {:induction false} OldParameters(out: seq<Finding>, was: seq<Param>, now: seq<Param>, c: Call)
    requires Reports(out, was, now) && Shaped(was) && Shaped(now) && Accepts(was, c)
    ensures OldAccounted(out, was, now, c)
  {
    InReport(out, was, now);
    hide Reports, Shaped, Accepts, Slots, Mentioned, MentionedIn, Located, LocatedIn, BoundByName, SameSource;
    forall i | 0 <= i < |Slots(was)| && Slots(was)[i].kind == PK
      ensures BoundByName(now, c, Slots(was)[i].name, SlotSource(Slots(was), c, i)) || MentionedIn(out, Slots(was)[i].name)
    {
      NamedSlotAccounted(was, now, c, i);
    }
    forall p | p in was && p.kind == KO ensures BoundByName(now, c, p.name, KeywordSource(p, c)) || MentionedIn(out, p.name) {
      KeywordAccounted(was, now, c, p);
    }
    forall i | 0 <= i < |Slots(was)| && Slots(was)[i].kind == PO
      ensures SlotKept(was, now, c, i) || LocatedIn(out, i) || MentionedIn(out, Slots(was)[i].name)
        || (i < |Slots(now)| && MentionedIn(out, Slots(now)[i].name))
    {
      PositionAccounted(was, now, c, i);
    }
  }

  lemma {:induction false} NewParameters(out: seq<Finding>, was: seq<Param>, now: seq<Param>, c: Call)
    requires Reports(out, was, now) && Shaped(was) && Shaped(now) && Accepts(was, c)
    ensures NewAccounted(out, now, c)
  {
    InReport(out, was, now);
    hide Reports, Shaped, Accepts, Slots, Mentioned, MentionedIn, Located, LocatedIn, SlotSource, KeywordSource;
    forall i | 0 <= i < |Slots(now)|
      ensures SlotSource(Slots(now), c, i) != Missing || MentionedIn(out, Slots(now)[i].name) || LocatedIn(out, i)
    {
      NewSlotAccounted(was, now, c, i);
    }
    forall q | q in now && q.kind == KO ensures KeywordSource(q, c) != Missing || MentionedIn(out, q.name) {
      NewKeywordAccounted(was, now, c, q);
    }
  }

  lemma {:induction false} Arguments(out: seq<Finding>, was: seq<Param>, now: seq<Param>, c: Call)
    requires Reports(out, was, now) && Shaped(was) && Shaped(now) && Accepts(was, c)
    ensures ArgumentsAccounted(out, was, now, c)
  {
    InReport(out, was, now);
    if HasKind(was, VP) && !HasKind(now, VP) { StarSays(was, now, VP); }
    if HasKind(was, VK) && !HasKind(now, VK) { StarSays(was, now, VK); }
    CountAccounted(was, now, c);
    hide Said, Shaped, Accepts, Slots, Mentioned, MentionedIn, KeywordAccepted, HasKind;
    forall k | k in c.keywords ensures KeywordAccepted(now, c, k) || MentionedIn(out, k) || StarRemoved(VK) in out {
      RefusedAccounted(was, now, c, k);
    }
  }

  /** Whatever the new list takes from a call the old one accepts is in the report, by name or by slot. */
  lemma {:induction false} CallAccounted(out: seq<Finding>, was: seq<Param>, now: seq<Param>, c: Call)
    requires WellFormed(was) && WellFormed(now) && Reports(out, was, now) && Accepts(was, c)
    ensures Accounts(out, was, now, c)
  {
    ShapedList(was);
    ShapedList(now);
    hide *;
    OldParameters(out, was, now, c);
    NewParameters(out, was, now, c);
    Arguments(out, was, now, c);
    assert Accounts(out, was, now, c) by { Together(out, was, now, c); }
  }

  lemma {:induction false} Together(out: seq<Finding>, was: seq<Param>, now: seq<Param>, c: Call)
    requires OldAccounted(out, was, now, c) && NewAccounted(out, now, c) && ArgumentsAccounted(out, was, now, c)
    ensures Accounts(out, was, now, c)
  {
    hide OldAccounted, NewAccounted, ArgumentsAccounted;
  }

  // --- what a positional-only slot's own finding misses ------------------------------------

  /**
   * A positional-only parameter nothing is said of is bound otherwise by some call exactly when it may be
   * left out, and the name now in its slot is one of the old list's later keyword slots.
   */
  lemma {:induction false} SilentSlotExact(was: seq<Param>, now: seq<Param>, i: nat)
    requires WellFormed(was) && WellFormed(now) && i < |Slots(was)| && Slots(was)[i].kind == PO
    requires forall f :: !SlotSaid(was, now, i, f)
    ensures (exists c :: Accepts(was, c) && !SlotKept(was, now, c, i)) <==>
      Slots(was)[i].default.Some? && i < |Slots(now)| && Slots(now)[i].kind == PK
      && exists j :: 0 <= j < |Slots(was)| && Slots(was)[j].kind == PK && Slots(was)[j].name == Slots(now)[i].name
  {
    ShapedList(was);
    ShapedList(now);
    hide WellFormed;
    SilentSlot(was, now, i);
    if c :| Accepts(was, c) && !SlotKept(was, now, c, i) { SilentMoved(was, now, c, i); }
    if j :| 0 <= j < |Slots(was)| && Slots(was)[j].kind == PK && Slots(was)[j].name == Slots(now)[i].name {
      if Slots(was)[i].default.Some? && Slots(now)[i].kind == PK {
        var c := BorrowingCall(was, now, i, j);
      }
    }
    hide Slots, SlotSaid, Accepts, SlotKept, Shaped;
  }

  lemma {:induction false} SilentSlot(was: seq<Param>, now: seq<Param>, i: nat)
    requires i < |Slots(was)| && Slots(was)[i].kind == PO && forall f :: !SlotSaid(was, now, i, f)
    ensures i < |Slots(now)| && DefaultKept(Slots(was)[i], Slots(now)[i])
    ensures Slots(now)[i].kind == PK ==> !KeywordBefore(was, Slots(now)[i].name) && !HasKind(was, VK)
  {
    var op := Slots(was)[i];
    hide Slots, HasKind, KeywordBefore, DefaultFinding;
    if i >= |Slots(now)| {
      LostSlotSaid(was, now, i);
    } else {
      var np := Slots(now)[i];
      if !DefaultKept(op, np) { PositionSays(was, now, i, DefaultFinding(BySlot(i), op, np)); }
      if np.kind == PK && KeywordBefore(was, np.name) { PositionSays(was, now, i, KeywordMovedIntoSlot(np.name, i)); }
      if np.kind == PK && !KeywordBefore(was, np.name) && HasKind(was, VK) { PositionSays(was, now, i, KeywordBesideKwargs(np.name)); }
    }
  }

  lemma {:induction false} SilentMoved(was: seq<Param>, now: seq<Param>, c: Call, i: nat)
    requires Accepts(was, c) && i < |Slots(was)| && i < |Slots(now)| && Slots(was)[i].kind == PO
    requires DefaultKept(Slots(was)[i], Slots(now)[i]) && !SlotKept(was, now, c, i)
    requires Slots(now)[i].kind == PK ==> !KeywordBefore(was, Slots(now)[i].name) && !HasKind(was, VK)
    ensures Slots(was)[i].default.Some? && Slots(now)[i].kind == PK
    ensures exists j :: 0 <= j < |Slots(was)| && Slots(was)[j].kind == PK && Slots(was)[j].name == Slots(now)[i].name
  {
    var os, ns := Slots(was), Slots(now);
    assert SlotSource(os, c, i) != Missing;
    hide Slots, HasKind, Accepts;
    if os[i].default.None? || ns[i].kind != PK || i < c.positional || ns[i].name !in c.keywords {
      SameSlot(os, ns, c, i);
    } else {
      KeywordPlace(was, c, ns[i].name);
    }
  }

  /** Every slot before `i` by position, and the later one by its keyword. */
  lemma {:induction false} BorrowingCall(was: seq<Param>, now: seq<Param>, i: nat, j: nat) returns (c: Call)
    requires Shaped(was) && i < |Slots(was)| && i < |Slots(now)| && j < |Slots(was)|
    requires Slots(was)[i].kind == PO && Slots(was)[i].default.Some? && Slots(was)[j].kind == PK
    requires Slots(now)[i].kind == PK && Slots(now)[i].name == Slots(was)[j].name
    ensures Accepts(was, c) && !SlotKept(was, now, c, i)
  {
    var os := Slots(was);
    RequiredAreKeywordOnly(was);
    c := Witness(was, i, {os[j].name});
    assert j > i;
    assert NamesSlot(was, c, os[j].name);
    forall k | i <= k < |os| ensures os[k].default.Some? { assert k > i ==> os[k].default.Some?; }
    hide Slots, HasKind, KeywordOnlyNames, RequiredKeywords;
    AcceptsCall(was, c);
  }

  /** `(a, /, b)` followed by `(b, c)`: passing `b=` alone gives the first slot another value, and no finding tells of that slot. */
  lemma {:induction false} BorrowedName(x: Encoded, y: Encoded)
    ensures var was, now := [Param(PO, "a", Some(x)), Param(PK, "b", Some(y))], [Param(PK, "b", Some(x)), Param(PK, "c", Some(y))];
      var c := Call(0, {"b"});
      WellFormed(was) && WellFormed(now) && Findings(was, now) == [SlotRenamed(1, "c", "b")]
      && Accepts(was, c) && Slots(was)[0].kind == PO && !SlotKept(was, now, c, 0)
  {
    var was, now := [Param(PO, "a", Some(x)), Param(PK, "b", Some(y))], [Param(PK, "b", Some(x)), Param(PK, "c", Some(y))];
    var c := Call(0, {"b"});
    assert "a"[0] != "b"[0] && "b"[0] != "c"[0] && "a"[0] != "c"[0];
    AllSlots(was);
    AllSlots(now);
    OnlyRenamed(was, now, x, y);
    BorrowAccepted(was, c, x, y);
    TwoWellFormed(was);
    TwoWellFormed(now);
    BorrowMoves(was, now, c, x, y);
    hide *;
  }

  lemma {:induction false} TwoWellFormed(ps: seq<Param>)
    requires |ps| == 2 && Slots(ps) == ps && ps[0].name != ps[1].name && IsSlot(ps[0]) && ps[1].kind == PK && ps[1].default.Some?
    ensures WellFormed(ps)
  {
    hide Slots;
  }

  lemma {:induction false} BorrowMoves(was: seq<Param>, now: seq<Param>, c: Call, x: Encoded, y: Encoded)
    requires was == [Param(PO, "a", Some(x)), Param(PK, "b", Some(y))] && now == [Param(PK, "b", Some(x)), Param(PK, "c", Some(y))]
    requires Slots(was) == was && Slots(now) == now && c == Call(0, {"b"})
    ensures !SlotKept(was, now, c, 0)
  {
    hide Slots, ValuesEqual;
    assert SlotSource(was, c, 0) == Default(x) && SlotSource(now, c, 0) == Keyword("b");
  }

  lemma {:induction false} BorrowAccepted(was: seq<Param>, c: Call, x: Encoded, y: Encoded)
    requires was == [Param(PO, "a", Some(x)), Param(PK, "b", Some(y))] && Slots(was) == was && c == Call(0, {"b"})
    ensures Accepts(was, c)
  {
    hide Slots;
    assert Slots(was)[1].name == "b";
    assert NamesSlot(was, c, "b");
  }

  lemma {:induction false} OneRenamed(was: seq<Param>, now: seq<Param>, x: Encoded, y: Encoded)
    requires was == [Param(PO, "a", Some(x)), Param(PK, "b", Some(y))] && now == [Param(PK, "b", Some(x)), Param(PK, "c", Some(y))]
    requires Slots(was) == was && Slots(now) == now
    ensures SlotFindings(was, now, 0) == [] && SlotFindings(was, now, 1) == [SlotRenamed(1, "c", "b")]
  {
    hide Slots, Named;
    assert "b"[0] != "c"[0];
    assert ValuesEqual(x, x);
    hide ValuesEqual;
  }

  lemma {:induction false} NoStars(was: seq<Param>, now: seq<Param>)
    requires |was| == 2 && was[0].kind == PO && was[1].kind == PK
    ensures Removed(was, now, VP) == [] && Removed(was, now, VK) == [] && Captures(was, now) == []
  {
  }

  lemma {:induction false} NothingElse(was: seq<Param>, now: seq<Param>)
    requires |was| == |now| == |Slots(was)| == |Slots(now)| == 2
    requires was[0].kind != KO && was[1].kind != KO && now[0].kind != KO && now[1].kind != KO
    ensures KeywordsFindings(was, now, 2) == [] && SlotsRequired(was, now, 2) == [] && KeywordsRequired(was, now, 2) == []
  {
    NoKeywordFindings(was, now, 2);
    NoSlotRequired(was, now, 2);
    NoKeywordRequired(was, now, 2);
    hide Slots, KeywordsFindings, SlotsRequired, KeywordsRequired;
  }

  lemma {:induction false} OneFinding(was: seq<Param>, now: seq<Param>, f: Finding)
    requires |was| == |now| == |Slots(was)| == |Slots(now)| == 2
    requires Removed(was, now, VP) == [] && Removed(was, now, VK) == [] && Captures(was, now) == []
    requires SlotFindings(was, now, 0) == [] && SlotFindings(was, now, 1) == [f]
    requires KeywordsFindings(was, now, 2) == [] && SlotsRequired(was, now, 2) == [] && KeywordsRequired(was, now, 2) == []
    ensures Findings(was, now) == [f]
  {
    hide Slots, SlotFindings, KeywordsFindings, SlotsRequired, KeywordsRequired, Removed, Captures;
    assert SlotsFindings(was, now, 1) == SlotsFindings(was, now, 0) + SlotFindings(was, now, 0);
    assert SlotsFindings(was, now, 2) == SlotsFindings(was, now, 1) + SlotFindings(was, now, 1);
  }

  lemma {:induction false} OnlyRenamed(was: seq<Param>, now: seq<Param>, x: Encoded, y: Encoded)
    requires was == [Param(PO, "a", Some(x)), Param(PK, "b", Some(y))] && now == [Param(PK, "b", Some(x)), Param(PK, "c", Some(y))]
    requires Slots(was) == was && Slots(now) == now
    ensures Findings(was, now) == [SlotRenamed(1, "c", "b")]
  {
    hide *;
    NothingElse(was, now);
    OneRenamed(was, now, x, y);
    NoStars(was, now);
    OneFinding(was, now, SlotRenamed(1, "c", "b"));
  }

  lemma {:induction false} AllSlots(ps: seq<Param>)
    requires forall p :: p in ps ==> IsSlot(p)
    ensures Slots(ps) == ps
  {
    if ps != [] { AllSlots(ps[1..]); }
  }
}
