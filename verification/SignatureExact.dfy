/** Exactly which findings `compare_params` reports, each by its own condition on the two lists. */
module SignatureExact {
  import opened Texts
  import opened EncodedValues
  import opened CallBinding
  import opened SignatureFindings

  // --- what each finding says --------------------------------------------------------------

  /** `p` is what the name stands for: the last parameter of its name that is no star. */
  ghost predicate StandsFor(ps: seq<Param>, p: Param)
  {
    exists i ::
      0 <= i < |ps| && ps[i] == p && p.kind != VP && p.kind != VK
      && forall j :: i < j < |ps| && ps[j].name == p.name ==> ps[j].kind == VP || ps[j].kind == VK
  }

  ghost predicate KeywordNow(now: seq<Param>, name: string)
  {
    exists q :: StandsFor(now, q) && q.name == name && q.kind == KO
  }

  predicate KeywordBefore(was: seq<Param>, name: string) { exists p :: p in was && p.kind == KO && p.name == name }

  /** A default the old parameter had is gone, or is another value. */
  predicate DefaultSaid(what: Label, op: Param, np: Param, f: Finding)
  {
    match f
    case LostDefault(w) => w == what && op.default.Some? && np.default.None?
    case DefaultChanged(w, a, b) => w == what && op.default == Some(a) && np.default == Some(b) && !ValuesEqual(a, b)
    case _ => false
  }

  /** What is said of a slot both lists have, an old positional-only one. */
  predicate PositionSaid(was: seq<Param>, op: Param, np: Param, i: nat, f: Finding)
  {
    match f
    case KeywordMovedIntoSlot(name, slot) => slot == i && np.kind == PK && np.name == name && KeywordBefore(was, name)
    case KeywordBesideKwargs(name) => np.kind == PK && np.name == name && !KeywordBefore(was, name) && HasKind(was, VK)
    case _ => DefaultSaid(BySlot(i), op, np, f)
  }

  /** What is said of a slot both lists have, an old positional-or-keyword one. */
  predicate NamedSlotSaid(op: Param, np: Param, i: nat, f: Finding)
  {
    match f
    case SlotRenamed(slot, n, w) => slot == i && n == np.name && w == op.name && n != w
    case NarrowedToPositionalOnly(name) => op.name == name && np.name == name && np.kind == PO
    case _ => op.name == np.name && np.kind != PO && DefaultSaid(ByName(op.name), op, np, f)
  }

  /** What is said of a slot the new list does not have. */
  ghost predicate LostSlotSaid(now: seq<Param>, op: Param, i: nat, f: Finding)
  {
    match f
    case NarrowedToKeywordOnly(name, kind) => name == op.name && kind == op.kind && KeywordNow(now, name)
    case SlotRemoved(slot, name) => slot == i && name == op.name && !KeywordNow(now, name)
    case _ => false
  }

  ghost predicate SlotSaid(was: seq<Param>, now: seq<Param>, i: nat, f: Finding)
    requires i < |Slots(was)|
  {
    var op := Slots(was)[i];
    if i >= |Slots(now)| then LostSlotSaid(now, op, i, f)
    else if op.kind == PK then NamedSlotSaid(op, Slots(now)[i], i, f)
    else PositionSaid(was, op, Slots(now)[i], i, f)
  }

  /** What is said of an old keyword-only parameter. */
  ghost predicate KeywordSaid(op: Param, now: seq<Param>, f: Finding)
  {
    op.kind == KO
    && match f
       case KeywordRemoved(name) => name == op.name && forall q :: q in now && q.name == name ==> q.kind == VP || q.kind == VK
       case KeywordNarrowed(name) => name == op.name && exists q :: StandsFor(now, q) && q.name == name && q.kind == PO
       case _ => exists q :: StandsFor(now, q) && q.name == op.name && q.kind != PO && DefaultSaid(ByName(op.name), op, q, f)
  }

  /** A slot past the old ones has no default. */
  predicate SlotAsks(was: seq<Param>, now: seq<Param>, name: string)
  {
    exists i :: |Slots(was)| <= i < |Slots(now)| && Slots(now)[i].name == name && Slots(now)[i].default.None?
  }

  /** A keyword-only parameter has no default. */
  predicate KeywordAsks(now: seq<Param>, name: string)
  {
    exists q :: q in now && q.kind == KO && q.name == name && q.default.None?
  }

  /** Something an old call never had to give is asked for. */
  predicate Demanded(was: seq<Param>, now: seq<Param>, name: string)
  {
    (forall p :: p in was && p.name == name ==> p.kind != PK && p.kind != KO)
    && (SlotAsks(was, now, name) || KeywordAsks(now, name))
  }

  /** The slots the new list adds before a star. */
  predicate Captured(was: seq<Param>, now: seq<Param>, names: seq<string>)
  {
    HasKind(was, VP) && names != [] && |Slots(now)| == |Slots(was)| + |names|
    && forall k :: 0 <= k < |names| ==> names[k] == Slots(now)[|Slots(was)| + k].name
  }

  ghost predicate Said(was: seq<Param>, now: seq<Param>, f: Finding)
  {
    (f.StarRemoved? && (f.kind == VP || f.kind == VK) && HasKind(was, f.kind) && !HasKind(now, f.kind))
    || (exists i :: 0 <= i < |Slots(was)| && SlotSaid(was, now, i, f))
    || (f.CapturesStarArgs? && Captured(was, now, f.names))
    || (exists p :: p in was && KeywordSaid(p, now, f))
    || (f.NewRequired? && Demanded(was, now, f.name))
  }

  // --- the passes --------------------------------------------------------------------------

  lemma {:induction false} NamedExact(ps: seq<Param>, x: string)
    ensures x in Named(ps) ==> StandsFor(ps, Named(ps)[x]) && Named(ps)[x].name == x
    ensures x !in Named(ps) ==> forall p :: p in ps && p.name == x ==> p.kind == VP || p.kind == VK
    ensures forall p :: StandsFor(ps, p) && p.name == x ==> x in Named(ps) && Named(ps)[x] == p
  {
    if ps != [] {
      var before, last := ps[..|ps| - 1], ps[|ps| - 1];
      assert ps == before + [last];
      NamedExact(before, x);
      hide Named;
      NamedStep(ps, x);
      if last.name == x && last.kind != VP && last.kind != VK {
        assert ps[|ps| - 1] == last && StandsFor(ps, last);
      } else {
        StandsStep(ps, x);
      }
    }
  }

  lemma {:induction false} NamedStep(ps: seq<Param>, x: string)
    requires ps != []
    ensures var before, last := Named(ps[..|ps| - 1]), ps[|ps| - 1];
      if last.name == x && last.kind != VP && last.kind != VK then x in Named(ps) && Named(ps)[x] == last
      else (x in Named(ps) <==> x in before) && (x in before ==> Named(ps)[x] == before[x])
  {
  }

  /** A last parameter of another name, or a star, changes nothing. */
  lemma {:induction false} StandsStep(ps: seq<Param>, x: string)
    requires ps != []
    requires var last := ps[|ps| - 1]; last.name != x || last.kind == VP || last.kind == VK
    ensures forall p: Param :: p.name == x ==> (StandsFor(ps, p) <==> StandsFor(ps[..|ps| - 1], p))
  {
    var before := ps[..|ps| - 1];
    forall p: Param | p.name == x ensures StandsFor(ps, p) <==> StandsFor(before, p) {
      if StandsFor(ps, p) {
        var i :| 0 <= i < |ps| && ps[i] == p && p.kind != VP && p.kind != VK
          && forall j :: i < j < |ps| && ps[j].name == p.name ==> ps[j].kind == VP || ps[j].kind == VK;
        assert before[i] == p;
      }
      if StandsFor(before, p) {
        var i :| 0 <= i < |before| && before[i] == p
          && forall j :: i < j < |before| && before[j].name == p.name ==> before[j].kind == VP || before[j].kind == VK;
        assert ps[i] == p;
        forall j | i < j < |ps| && ps[j].name == p.name ensures ps[j].kind == VP || ps[j].kind == VK {
          if j < |before| { assert before[j] == ps[j]; }
        }
        assert StandsFor(ps, p);
      }
    }
  }

  lemma {:induction false} DefaultExact(what: Label, op: Param, np: Param, f: Finding)
    ensures f in DefaultFindings(what, op, np) <==> DefaultSaid(what, op, np, f)
  {
    hide ValuesEqual;
  }

  lemma {:induction false} LostSlotExact(was: seq<Param>, now: seq<Param>, i: nat, f: Finding)
    requires |Slots(now)| <= i < |Slots(was)|
    ensures f in SlotFindings(was, now, i) <==> SlotSaid(was, now, i, f)
  {
    NamedExact(now, Slots(was)[i].name);
    hide HasKind, Slots, DefaultFindings, Named, KeywordOnlyNames, KeywordBefore, StandsFor, ValuesEqual, DefaultSaid;
  }

  lemma {:induction false} NamedSlotExact(was: seq<Param>, now: seq<Param>, i: nat, f: Finding)
    requires i < |Slots(was)| && i < |Slots(now)| && Slots(was)[i].kind == PK
    ensures f in SlotFindings(was, now, i) <==> SlotSaid(was, now, i, f)
  {
    assert Slots(now)[i] in Slots(now);
    DefaultExact(ByName(Slots(was)[i].name), Slots(was)[i], Slots(now)[i], f);
    hide HasKind, Slots, DefaultFindings, Named, KeywordOnlyNames, KeywordBefore, StandsFor, ValuesEqual;
  }

  lemma {:induction false} PositionExact(was: seq<Param>, now: seq<Param>, i: nat, f: Finding)
    requires i < |Slots(was)| && i < |Slots(now)| && Slots(was)[i].kind != PK
    ensures f in SlotFindings(was, now, i) <==> SlotSaid(was, now, i, f)
  {
    assert Slots(now)[i].name in KeywordOnlyNames(was) <==> KeywordBefore(was, Slots(now)[i].name);
    DefaultExact(BySlot(i), Slots(was)[i], Slots(now)[i], f);
    hide HasKind, Slots, DefaultFindings, Named, KeywordOnlyNames, KeywordBefore, StandsFor, ValuesEqual;
  }

  lemma {:induction false} SlotExact(was: seq<Param>, now: seq<Param>, i: nat, f: Finding)
    requires i < |Slots(was)|
    ensures f in SlotFindings(was, now, i) <==> SlotSaid(was, now, i, f)
  {
    if i >= |Slots(now)| {
      LostSlotExact(was, now, i, f);
    } else if Slots(was)[i].kind == PK {
      NamedSlotExact(was, now, i, f);
    } else {
      PositionExact(was, now, i, f);
    }
    hide SlotFindings, SlotSaid, Slots;
  }

  lemma {:induction false} KeywordExact(op: Param, now: seq<Param>, f: Finding)
    ensures f in KeywordFindings(op, now) <==> KeywordSaid(op, now, f)
  {
    NamedExact(now, op.name);
    if op.name in Named(now) { DefaultExact(ByName(op.name), op, Named(now)[op.name], f); }
    if op.name in Named(now) { StandingIn(now, Named(now)[op.name]); }
    hide DefaultFindings, Named, StandsFor, ValuesEqual, DefaultSaid;
  }

  lemma {:induction false} StandingIn(ps: seq<Param>, p: Param)
    requires StandsFor(ps, p)
    ensures p in ps && p.kind != VP && p.kind != VK
  {
  }

  lemma {:induction false} SlotsMember(was: seq<Param>, now: seq<Param>, n: nat, f: Finding)
    requires n <= |Slots(was)|
    ensures f in SlotsFindings(was, now, n) <==> exists i :: 0 <= i < n && f in SlotFindings(was, now, i)
  {
    hide SlotFindings, Slots;
    if n > 0 { SlotsMember(was, now, n - 1, f); }
  }

  lemma {:induction false} KeywordsMember(was: seq<Param>, now: seq<Param>, n: nat, f: Finding)
    requires n <= |was|
    ensures f in KeywordsFindings(was, now, n) <==> exists i :: 0 <= i < n && f in KeywordFindings(was[i], now)
  {
    hide KeywordFindings;
    if n > 0 { KeywordsMember(was, now, n - 1, f); }
  }

  lemma {:induction false} SlotsRequiredMember(was: seq<Param>, now: seq<Param>, n: nat, f: Finding)
    requires n <= |Slots(now)|
    ensures f in SlotsRequired(was, now, n) <==> exists i :: 0 <= i < n && f in SlotRequired(was, now, i)
  {
    hide SlotRequired, Slots;
    if n > 0 { SlotsRequiredMember(was, now, n - 1, f); }
  }

  lemma {:induction false} KeywordsRequiredMember(was: seq<Param>, now: seq<Param>, n: nat, f: Finding)
    requires n <= |now|
    ensures f in KeywordsRequired(was, now, n) <==> exists i :: 0 <= i < n && f in KeywordRequired(was, now[i])
  {
    hide KeywordRequired;
    if n > 0 { KeywordsRequiredMember(was, now, n - 1, f); }
  }

  /** The pass over the slots says what is to be said of each. */
  lemma {:induction false} SlotsExact(was: seq<Param>, now: seq<Param>, f: Finding)
    ensures f in SlotsFindings(was, now, |Slots(was)|) <==> exists i :: 0 <= i < |Slots(was)| && SlotSaid(was, now, i, f)
  {
    SlotsMember(was, now, |Slots(was)|, f);
    forall i | 0 <= i < |Slots(was)| ensures f in SlotFindings(was, now, i) <==> SlotSaid(was, now, i, f) { SlotExact(was, now, i, f); }
    hide SlotsFindings, SlotFindings, SlotSaid, Slots;
  }

  lemma {:induction false} KeywordsExact(was: seq<Param>, now: seq<Param>, f: Finding)
    ensures f in KeywordsFindings(was, now, |was|) <==> exists p :: p in was && KeywordSaid(p, now, f)
  {
    KeywordsMember(was, now, |was|, f);
    forall p | p in was ensures f in KeywordFindings(p, now) <==> KeywordSaid(p, now, f) { KeywordExact(p, now, f); }
    hide KeywordsFindings, KeywordFindings, KeywordSaid;
    if p :| p in was && KeywordSaid(p, now, f) {
      var i :| 0 <= i < |was| && was[i] == p;
      assert f in KeywordFindings(was[i], now);
    }
  }

  lemma {:induction false} KeywordNamesExact(ps: seq<Param>, name: string)
    ensures name in KeywordNames(ps) <==> exists p :: p in ps && p.name == name && (p.kind == PK || p.kind == KO)
  {
  }

  lemma {:induction false} SlotsRequiredExact(was: seq<Param>, now: seq<Param>, f: Finding)
    ensures f in SlotsRequired(was, now, |Slots(now)|) <==>
      f.NewRequired? && f.name !in KeywordNames(was) && SlotAsks(was, now, f.name)
  {
    SlotsRequiredMember(was, now, |Slots(now)|, f);
    hide SlotsRequired, Slots, KeywordNames;
    if f.NewRequired? && f.name !in KeywordNames(was) && SlotAsks(was, now, f.name) {
      var i :| |Slots(was)| <= i < |Slots(now)| && Slots(now)[i].name == f.name && Slots(now)[i].default.None?;
      assert f in SlotRequired(was, now, i);
    }
  }

  lemma {:induction false} KeywordsRequiredExact(was: seq<Param>, now: seq<Param>, f: Finding)
    ensures f in KeywordsRequired(was, now, |now|) <==>
      f.NewRequired? && f.name !in KeywordNames(was) && KeywordAsks(now, f.name)
  {
    KeywordsRequiredMember(was, now, |now|, f);
    hide KeywordsRequired, KeywordNames;
    if f.NewRequired? && f.name !in KeywordNames(was) && KeywordAsks(now, f.name) {
      var q :| q in now && q.kind == KO && q.name == f.name && q.default.None?;
      var i :| 0 <= i < |now| && now[i] == q;
      assert f in KeywordRequired(was, now[i]);
    }
  }

  lemma {:induction false} RequiredExact(was: seq<Param>, now: seq<Param>, f: Finding)
    ensures f in SlotsRequired(was, now, |Slots(now)|) || f in KeywordsRequired(was, now, |now|)
      <==> f.NewRequired? && Demanded(was, now, f.name)
  {
    SlotsRequiredExact(was, now, f);
    KeywordsRequiredExact(was, now, f);
    if f.NewRequired? { KeywordNamesExact(was, f.name); }
    hide SlotsRequired, KeywordsRequired, Slots, KeywordNames, SlotAsks, KeywordAsks;
  }

  lemma {:induction false} StarsExact(was: seq<Param>, now: seq<Param>, f: Finding)
    ensures f in Removed(was, now, VP) || f in Removed(was, now, VK)
      <==> f.StarRemoved? && (f.kind == VP || f.kind == VK) && HasKind(was, f.kind) && !HasKind(now, f.kind)
    ensures f in Captures(was, now) <==> f.CapturesStarArgs? && Captured(was, now, f.names)
  {
    hide HasKind, Slots;
    if f.CapturesStarArgs? && Captured(was, now, f.names) {
      assert f.names == NamesOf(Slots(now)[|Slots(was)|..]);
    }
  }

  lemma {:induction false} InSum<T>(x: T, a: seq<T>, b: seq<T>, c: seq<T>, d: seq<T>, e: seq<T>, f: seq<T>, g: seq<T>)
    ensures x in a + b + c + d + e + f + g <==> x in a || x in b || x in c || x in d || x in e || x in f || x in g
  {
  }

  /** `compare_params` says each thing exactly when it is so. */
  lemma {:induction false} FindingExact(was: seq<Param>, now: seq<Param>, f: Finding)
    ensures f in Findings(was, now) <==> Said(was, now, f)
  {
    StarsExact(was, now, f);
    SlotsExact(was, now, f);
    KeywordsExact(was, now, f);
    RequiredExact(was, now, f);
    InSum(f, Removed(was, now, VP), Removed(was, now, VK), SlotsFindings(was, now, |Slots(was)|),
      Captures(was, now), KeywordsFindings(was, now, |was|), SlotsRequired(was, now, |Slots(now)|),
      KeywordsRequired(was, now, |now|));
    hide Slots, SlotsFindings, KeywordsFindings, SlotsRequired, KeywordsRequired, Captures, Removed, SlotSaid, KeywordSaid, Demanded, Captured;
    hide HasKind;
  }
}
