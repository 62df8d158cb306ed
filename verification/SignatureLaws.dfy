/** `compare_params` is sound and exact against Python's own argument binding. */
module SignatureLaws {
  import opened EncodedValues
  import opened CallBinding
  import opened SignatureFindings

  // --- the shape of a well-formed list -----------------------------------------------------

  lemma {:induction false} NoSlots(ps: seq<Param>)
    requires forall i :: 0 <= i < |ps| ==> !IsSlot(ps[i])
    ensures Slots(ps) == []
  {
    if ps != [] { NoSlots(ps[1..]); }
  }

  /** Slots come first. */
  lemma {:induction false} SlotsPrefix(ps: seq<Param>)
    requires KindsInOrder(ps)
    ensures |Slots(ps)| <= |ps| && Slots(ps) == ps[..|Slots(ps)|]
  {
    if ps != [] {
      assert ps == [ps[0]] + ps[1..];
      if IsSlot(ps[0]) {
        SlotsPrefix(ps[1..]);
      } else {
        forall i | 0 <= i < |ps| ensures !IsSlot(ps[i]) {
          if i > 0 { assert Order(ps[0].kind) <= Order(ps[i].kind); }
        }
        NoSlots(ps);
      }
    }
  }

  /** What the theorems use of a well-formed list. */
  ghost predicate Shaped(ps: seq<Param>)
  {
    var slots := Slots(ps);
    (forall i, j :: 0 <= i < j < |slots| ==> slots[i].name != slots[j].name)
    && (forall i, j :: 0 <= i < j < |slots| && slots[i].kind == PK ==> slots[j].kind == PK)
    && (forall i, p :: 0 <= i < |slots| && p in ps && p.kind == KO ==> slots[i].name != p.name)
    && (forall p, q :: p in ps && q in ps && p.name == q.name ==> p == q)
    && (forall i :: 0 <= i < |slots| ==> IsSlot(slots[i]) && slots[i] in ps)
    && TrailingDefaults(slots)
  }

  lemma {:induction false} ShapedList(ps: seq<Param>)
    requires WellFormed(ps)
    ensures Shaped(ps)
  {
    SlotsPrefix(ps);
    var slots := Slots(ps);
    forall i | 0 <= i < |slots| ensures IsSlot(slots[i]) && slots[i] in ps && slots[i] == ps[i] {
      assert slots[i] in slots;
    }
    forall p, q | p in ps && q in ps && p.name == q.name ensures p == q {
      var i :| 0 <= i < |ps| && ps[i] == p;
      var j :| 0 <= j < |ps| && ps[j] == q;
      assert i == j;
    }
  }

  /** The table of named parameters holds each of them under its name. */
  lemma {:induction false} NamedParams(ps: seq<Param>)
    requires DistinctNames(ps)
    ensures forall p :: p in ps && p.kind != VP && p.kind != VK ==> p.name in Named(ps) && Named(ps)[p.name] == p
    ensures forall x :: x in Named(ps) ==>
      Named(ps)[x] in ps && Named(ps)[x].name == x && Named(ps)[x].kind != VP && Named(ps)[x].kind != VK
  {
    if ps != [] {
      var before, last := ps[..|ps| - 1], ps[|ps| - 1];
      NamedParams(before);
      assert ps == before + [last];
      forall p | p in before ensures p.name != last.name {
        var i :| 0 <= i < |before| && before[i] == p;
        assert ps[i].name != ps[|ps| - 1].name;
      }
    }
  }

  // --- no finding at all -------------------------------------------------------------------

  lemma {:induction false} NoSlotFindings(was: seq<Param>, now: seq<Param>, n: nat)
    requires n <= |Slots(was)|
    ensures SlotsFindings(was, now, n) == [] <==> forall i :: 0 <= i < n ==> SlotFindings(was, now, i) == []
  {
    hide SlotFindings;
    if n > 0 { NoSlotFindings(was, now, n - 1); }
  }

  lemma {:induction false} NoKeywordFindings(was: seq<Param>, now: seq<Param>, n: nat)
    requires n <= |was|
    ensures KeywordsFindings(was, now, n) == [] <==> forall i :: 0 <= i < n ==> KeywordFindings(was[i], now) == []
  {
    hide KeywordFindings;
    if n > 0 { NoKeywordFindings(was, now, n - 1); }
  }

  lemma {:induction false} NoSlotRequired(was: seq<Param>, now: seq<Param>, n: nat)
    requires n <= |Slots(now)|
    ensures SlotsRequired(was, now, n) == [] <==> forall i :: 0 <= i < n ==> SlotRequired(was, now, i) == []
  {
    hide SlotRequired;
    if n > 0 { NoSlotRequired(was, now, n - 1); }
  }

  lemma {:induction false} NoKeywordRequired(was: seq<Param>, now: seq<Param>, n: nat)
    requires n <= |now|
    ensures KeywordsRequired(was, now, n) == [] <==> forall i :: 0 <= i < n ==> KeywordRequired(was, now[i]) == []
  {
    hide KeywordRequired;
    if n > 0 { NoKeywordRequired(was, now, n - 1); }
  }

  ghost predicate CleanStars(was: seq<Param>, now: seq<Param>)
  {
    Removed(was, now, VP) == [] && Removed(was, now, VK) == [] && Captures(was, now) == []
  }

  ghost predicate CleanSlots(was: seq<Param>, now: seq<Param>)
  {
    forall i :: 0 <= i < |Slots(was)| ==> SlotFindings(was, now, i) == []
  }

  ghost predicate CleanKeywords(was: seq<Param>, now: seq<Param>)
  {
    forall i :: 0 <= i < |was| ==> KeywordFindings(was[i], now) == []
  }

  ghost predicate CleanRequired(was: seq<Param>, now: seq<Param>)
  {
    (forall i :: 0 <= i < |Slots(now)| ==> SlotRequired(was, now, i) == [])
    && (forall i :: 0 <= i < |now| ==> KeywordRequired(was, now[i]) == [])
  }

  /** Each group of findings is empty. */
  ghost predicate Clean(was: seq<Param>, now: seq<Param>)
  {
    CleanStars(was, now) && CleanSlots(was, now) && CleanKeywords(was, now) && CleanRequired(was, now)
  }

  lemma {:induction false} EmptySum<T>(a: seq<T>, b: seq<T>, c: seq<T>, d: seq<T>, e: seq<T>, f: seq<T>, g: seq<T>)
    ensures a + b + c + d + e + f + g == [] <==>
      a == [] && b == [] && c == [] && d == [] && e == [] && f == [] && g == []
  {
    assert |a + b + c + d + e + f + g| == |a| + |b| + |c| + |d| + |e| + |f| + |g|;
  }

  lemma {:induction false} CleanMeansEmpty(was: seq<Param>, now: seq<Param>)
    ensures Findings(was, now) == [] <==> Clean(was, now)
  {
    NoSlotFindings(was, now, |Slots(was)|);
    NoKeywordFindings(was, now, |was|);
    NoSlotRequired(was, now, |Slots(now)|);
    NoKeywordRequired(was, now, |now|);
    hide SlotFindings, KeywordFindings, SlotRequired, KeywordRequired, Removed, Captures;
    hide SlotsFindings, KeywordsFindings, SlotsRequired, KeywordsRequired, Slots;
    EmptySum(Removed(was, now, VP), Removed(was, now, VK), SlotsFindings(was, now, |Slots(was)|),
      Captures(was, now), KeywordsFindings(was, now, |was|), SlotsRequired(was, now, |Slots(now)|),
      KeywordsRequired(was, now, |now|));
  }

  // --- soundness ---------------------------------------------------------------------------

  /** The facts a clean comparison gives, slot by slot and name by name. */
  ghost predicate Aligned(was: seq<Param>, now: seq<Param>)
  {
    var os, ns := Slots(was), Slots(now);
    |os| <= |ns|
    && (HasKind(was, VP) ==> HasKind(now, VP) && |ns| == |os|)
    && (HasKind(was, VK) ==> HasKind(now, VK))
    && (forall i :: 0 <= i < |os| && os[i].kind == PK ==> ns[i].kind == PK && ns[i].name == os[i].name)
    && (forall i :: 0 <= i < |os| && os[i].kind == PO && ns[i].kind == PK ==>
          ns[i].name !in KeywordOnlyNames(was) && !HasKind(was, VK))
    && (forall i :: 0 <= i < |os| ==> DefaultKept(os[i], ns[i]))
    && (forall p :: p in was && p.kind == KO ==>
          exists q :: q in now && q.name == p.name && (q.kind == PK || q.kind == KO) && DefaultKept(p, q))
    && (forall i :: |os| <= i < |ns| && ns[i].default.None? ==> ns[i].name in KeywordNames(was))
    && (forall p :: p in now && p.kind == KO && p.default.None? ==> p.name in KeywordNames(was))
  }

  predicate DefaultKept(op: Param, np: Param)
  {
    op.default.Some? ==> np.default.Some? && ValuesEqual(op.default.value, np.default.value)
  }

  lemma {:induction false} SlotAligned(was: seq<Param>, now: seq<Param>, i: nat)
    requires i < |Slots(was)| && SlotFindings(was, now, i) == []
    ensures i < |Slots(now)| && IsSlot(Slots(now)[i]) && DefaultKept(Slots(was)[i], Slots(now)[i])
    ensures Slots(was)[i].kind == PK ==>
      Slots(now)[i].kind == PK && Slots(now)[i].name == Slots(was)[i].name
    ensures Slots(was)[i].kind == PO && Slots(now)[i].kind == PK ==>
      Slots(now)[i].name !in KeywordOnlyNames(was) && !HasKind(was, VK)
  {
    hide ValuesEqual, Named, KeywordOnlyNames, HasKind, Slots;
    assert i < |Slots(now)|;
    assert Slots(now)[i] in Slots(now) && Slots(was)[i] in Slots(was);
  }

  lemma {:induction false} KeywordAligned(p: Param, now: seq<Param>)
    requires DistinctNames(now) && p.kind == KO && KeywordFindings(p, now) == []
    ensures exists q :: q in now && q.name == p.name && (q.kind == PK || q.kind == KO) && DefaultKept(p, q)
  {
    NamedParams(now);
    hide ValuesEqual, Named;
    var q := Named(now)[p.name];
    assert q in now && q.name == p.name && (q.kind == PK || q.kind == KO) && DefaultKept(p, q);
  }

  lemma {:induction false} CleanAligned(was: seq<Param>, now: seq<Param>)
    requires WellFormed(was) && WellFormed(now) && Clean(was, now)
    ensures Aligned(was, now)
  {
    var os, ns := Slots(was), Slots(now);
    forall i | 0 <= i < |os|
      ensures i < |ns| && DefaultKept(os[i], ns[i])
      ensures os[i].kind == PK ==> ns[i].kind == PK && ns[i].name == os[i].name
      ensures os[i].kind == PO && ns[i].kind == PK ==> ns[i].name !in KeywordOnlyNames(was) && !HasKind(was, VK)
    {
      SlotAligned(was, now, i);
    }
    forall p | p in was && p.kind == KO
      ensures exists q :: q in now && q.name == p.name && (q.kind == PK || q.kind == KO) && DefaultKept(p, q)
    {
      var k :| 0 <= k < |was| && was[k] == p;
      KeywordAligned(p, now);
    }
    forall i | |os| <= i < |ns| && ns[i].default.None? ensures ns[i].name in KeywordNames(was) {
      assert SlotRequired(was, now, i) == [];
    }
    forall p | p in now && p.kind == KO && p.default.None? ensures p.name in KeywordNames(was) {
      var k :| 0 <= k < |now| && now[k] == p;
      assert KeywordRequired(was, now[k]) == [];
    }
    hide SlotFindings, KeywordFindings, SlotRequired, KeywordRequired, KeywordNames, KeywordOnlyNames;
    assert |os| <= |ns| by {
      if |os| > 0 { SlotAligned(was, now, |os| - 1); }
    }
  }

  // the call, the old list accepting it, and the new list aligned with the old

  /** Where an accepted keyword goes. */
  lemma {:induction false} KeywordPlace(ps: seq<Param>, c: Call, k: string)
    requires Accepts(ps, c) && k in c.keywords
    ensures !Collides(ps, c, k)
    ensures k in KeywordOnlyNames(ps) || HasKind(ps, VK) || NamesSlot(ps, c, k)
  {
    assert KeywordAccepted(ps, c, k);
    if p :| p in ps && p.kind == KO && p.name == k {
      assert p.name in KeywordOnlyNames(ps);
    }
  }

  /** A slot that was positional-only and is now also a keyword: no accepted call uses that keyword. */
  lemma {:induction false} FreshNameUnused(was: seq<Param>, now: seq<Param>, c: Call, i: nat)
    requires Shaped(was) && Shaped(now) && Aligned(was, now) && Accepts(was, c)
    requires i < |Slots(was)| && Slots(was)[i].kind == PO && Slots(now)[i].kind == PK
    ensures Slots(now)[i].name !in c.keywords
  {
    var os, ns, k := Slots(was), Slots(now), Slots(now)[i].name;
    if k in c.keywords {
      KeywordPlace(was, c, k);
    }
    hide Accepts, DefaultKept, Slots;
    forall j | 0 <= j < |os| && os[j].kind == PK ensures os[j].name != k {
      assert ns[j].name == os[j].name && j != i;
    }
  }

  lemma {:induction false} NoNewCollision(was: seq<Param>, now: seq<Param>, c: Call, k: string)
    requires Shaped(was) && Shaped(now) && Aligned(was, now) && Accepts(was, c) && k in c.keywords
    ensures !Collides(now, c, k)
  {
    var os, ns := Slots(was), Slots(now);
    KeywordPlace(was, c, k);
    assert c.positional <= |os| || |ns| == |os|;
    forall i | 0 <= i < |ns| && i < c.positional && ns[i].kind == PK ensures ns[i].name != k {
      assert i < |os|;
      if os[i].kind == PO {
        FreshNameUnused(was, now, c, i);
      } else {
        assert os[i] in os;
      }
    }
  }

  lemma {:induction false} NoKeywordLost(was: seq<Param>, now: seq<Param>, c: Call, k: string)
    requires Shaped(was) && Shaped(now) && Aligned(was, now) && Accepts(was, c) && k in c.keywords
    ensures KeywordAccepted(now, c, k)
  {
    NoNewCollision(was, now, c, k);
    KeywordPlace(was, c, k);
    hide Accepts, DefaultKept;
    var os, ns := Slots(was), Slots(now);
    if i :| c.positional <= i < |os| && os[i].kind == PK && os[i].name == k {
      assert ns[i].kind == PK && ns[i].name == k;
    } else if k in KeywordOnlyNames(was) {
      KeywordOnlyKept(was, now, c, k);
    }
  }

  /** A keyword-only name of the old list still names a parameter no position fills. */
  lemma {:induction false} KeywordOnlyKept(was: seq<Param>, now: seq<Param>, c: Call, k: string)
    requires Aligned(was, now) && k in KeywordOnlyNames(was) && !Collides(now, c, k)
    ensures NamesParam(now, c, k)
  {
    var p :| p in was && p.kind == KO && p.name == k;
    var q :| q in now && q.name == p.name && (q.kind == PK || q.kind == KO);
    if q.kind == PK {
      assert q in Slots(now);
      var i :| 0 <= i < |Slots(now)| && Slots(now)[i] == q;
    }
  }

  /** A keyword-only parameter the call omits is not in a slot the call fills. */
  lemma {:induction false} OmittedUnfilled(was: seq<Param>, now: seq<Param>, c: Call, p: Param, i: nat)
    requires Shaped(was) && Aligned(was, now) && Accepts(was, c) && p in was && p.kind == KO
    requires i < |Slots(now)| && Slots(now)[i].kind == PK && Slots(now)[i].name == p.name
    ensures i >= c.positional
  {
    var os, ns := Slots(was), Slots(now);
    hide DefaultKept;
    assert p.name in KeywordOnlyNames(was);
    forall j | 0 <= j < |os| && ns[j].kind == PK ensures ns[j].name != p.name {
      assert IsSlot(os[j]);
      assert os[j].kind == PK ==> ns[j].name == os[j].name;
    }
    assert c.positional <= |os| || HasKind(was, VP);
  }

  lemma {:induction false} SlotBound(was: seq<Param>, now: seq<Param>, c: Call, i: nat)
    requires Shaped(was) && Shaped(now) && Aligned(was, now) && Accepts(was, c) && i < |Slots(was)|
    ensures SameSource(SlotSource(Slots(was), c, i), SlotSource(Slots(now), c, i))
  {
    hide ValuesEqual;
    var os, ns := Slots(was), Slots(now);
    assert SlotSource(os, c, i) != Missing;
    assert DefaultKept(os[i], ns[i]);
    if os[i].kind == PO && ns[i].kind == PK {
      FreshNameUnused(was, now, c, i);
    }
    assert IsSlot(os[i]);
  }

  /** An unfilled slot with the same name and a kept default is bound as the keyword parameter was. */
  lemma {:induction false} UnfilledSlotBinds(now: seq<Param>, c: Call, p: Param, i: nat)
    requires c.positional <= i < |Slots(now)| && Slots(now)[i].kind == PK && Slots(now)[i].name == p.name
    requires DefaultKept(p, Slots(now)[i]) && KeywordSource(p, c) != Missing
    ensures BoundByName(now, c, p.name, KeywordSource(p, c))
  {
    hide ValuesEqual;
    assert SameSource(KeywordSource(p, c), SlotSource(Slots(now), c, i));
  }

  lemma {:induction false} KeywordBound(was: seq<Param>, now: seq<Param>, c: Call, p: Param)
    requires Shaped(was) && Shaped(now) && Aligned(was, now) && Accepts(was, c) && p in was && p.kind == KO
    ensures BoundByName(now, c, p.name, KeywordSource(p, c))
  {
    hide ValuesEqual, SameSource, SlotSource;
    var ns := Slots(now);
    assert KeywordSource(p, c) != Missing;
    var q :| q in now && q.name == p.name && (q.kind == PK || q.kind == KO) && DefaultKept(p, q);
    if q.kind == PK {
      assert q in ns;
      var i :| 0 <= i < |ns| && ns[i] == q;
      OmittedUnfilled(was, now, c, p, i);
      UnfilledSlotBinds(now, c, p, i);
    } else {
      KeywordBinds(now, c, p, q);
    }
  }

  lemma {:induction false} KeywordBinds(now: seq<Param>, c: Call, p: Param, q: Param)
    requires q in now && q.kind == KO && q.name == p.name && DefaultKept(p, q) && KeywordSource(p, c) != Missing
    ensures BoundByName(now, c, p.name, KeywordSource(p, c))
  {
    hide ValuesEqual;
    assert SameSource(KeywordSource(p, c), KeywordSource(q, c));
  }

  /** A positional-or-keyword name of the old list stays in the old slots. */
  lemma {:induction false} SlotNameKept(was: seq<Param>, now: seq<Param>, p: Param) returns (j: nat)
    requires Aligned(was, now) && p in was && p.kind == PK
    ensures j < |Slots(was)| && Slots(now)[j].name == p.name
  {
    assert p in Slots(was);
    j :| 0 <= j < |Slots(was)| && Slots(was)[j] == p;
  }

  /** A slot only the new list has is optional, or the old list had that name. */
  lemma {:induction false} NewSlotFilled(was: seq<Param>, now: seq<Param>, c: Call, i: nat)
    requires Shaped(was) && Shaped(now) && Aligned(was, now) && Accepts(was, c)
    requires |Slots(was)| <= i < |Slots(now)|
    ensures SlotSource(Slots(now), c, i) != Missing
  {
    hide ValuesEqual, KeywordAccepted, HasKind, SameSource, Slots;
    var os, ns := Slots(was), Slots(now);
    if ns[i].default.None? && i >= c.positional {
      var p :| p in was && (p.kind == PK || p.kind == KO) && p.name == ns[i].name;
      if p.kind == PK { var j := SlotNameKept(was, now, p); }
      assert p.kind == KO;
      var q :| q in now && q.name == p.name && (q.kind == PK || q.kind == KO) && DefaultKept(p, q);
      assert q == ns[i];
      assert KeywordSource(p, c) != Missing;
    }
  }

  lemma {:induction false} NewKeywordFilled(was: seq<Param>, now: seq<Param>, c: Call, p: Param)
    requires Shaped(was) && Shaped(now) && Aligned(was, now) && Accepts(was, c) && p in now && p.kind == KO
    ensures KeywordSource(p, c) != Missing
  {
    hide ValuesEqual;
    var os, ns := Slots(was), Slots(now);
    if p.default.None? {
      var q :| q in was && (q.kind == PK || q.kind == KO) && q.name == p.name;
      if q.kind == PK { var j := SlotNameKept(was, now, q); }
      assert q.kind == KO;
      var r :| r in now && r.name == q.name && (r.kind == PK || r.kind == KO) && DefaultKept(q, r);
      assert r == p;
      assert KeywordSource(q, c) != Missing;
    }
  }

  lemma {:induction false} AlignedAccepts(was: seq<Param>, now: seq<Param>, c: Call)
    requires Shaped(was) && Shaped(now) && Aligned(was, now) && Accepts(was, c)
    ensures Accepts(now, c)
  {
    var os, ns := Slots(was), Slots(now);
    forall k | k in c.keywords ensures KeywordAccepted(now, c, k) { NoKeywordLost(was, now, c, k); }
    forall i | 0 <= i < |ns| ensures SlotSource(ns, c, i) != Missing {
      if i < |os| {
        SlotBound(was, now, c, i);
        assert SlotSource(os, c, i) != Missing;
      } else {
        NewSlotFilled(was, now, c, i);
      }
    }
    forall p | p in now && p.kind == KO ensures KeywordSource(p, c) != Missing { NewKeywordFilled(was, now, c, p); }
    assert c.positional <= |os| || HasKind(was, VP);
  }

  /** Aligned lists: whatever call the old one accepts, the new one accepts and binds alike. */
  lemma {:induction false} AlignedPreserves(was: seq<Param>, now: seq<Param>, c: Call)
    requires Shaped(was) && Shaped(now) && Aligned(was, now) && Accepts(was, c)
    ensures Preserves(was, now, c)
  {
    var os, ns := Slots(was), Slots(now);
    AlignedAccepts(was, now, c);
    forall i | 0 <= i < |os| ensures SameSource(SlotSource(os, c, i), SlotSource(ns, c, i)) {
      SlotBound(was, now, c, i);
    }
    forall p | p in was && p.kind == KO ensures BoundByName(now, c, p.name, KeywordSource(p, c)) {
      KeywordBound(was, now, c, p);
    }
    forall i | 0 <= i < |os| && os[i].kind == PK ensures BoundByName(now, c, os[i].name, SlotSource(os, c, i)) {
      assert ns[i].name == os[i].name;
    }
    assert c.positional <= |os| || HasKind(was, VP);
    hide Accepts, SlotSource, KeywordSource, SameSource, DefaultKept, Slots, BoundByName, HasKind;
  }

  /** Soundness: no finding, no broken call. */
  lemma {:induction false} NoFindingSound(was: seq<Param>, now: seq<Param>)
    requires WellFormed(was) && WellFormed(now) && Findings(was, now) == []
    ensures Compatible(was, now)
  {
    CleanMeansEmpty(was, now);
    CleanAligned(was, now);
    ShapedList(was);
    ShapedList(now);
    forall c: Call | Accepts(was, c) ensures Preserves(was, now, c) {
      AlignedPreserves(was, now, c);
    }
  }

  // --- exactness: a witness call for every finding -----------------------------------------

  /** A call the old list accepts and the new one does not bind the same way. */
  ghost predicate Breaks(was: seq<Param>, now: seq<Param>, c: Call)
  {
    Accepts(was, c) && !Preserves(was, now, c)
  }

  /** The keywords every call must pass. */
  function RequiredKeywords(ps: seq<Param>): set<string>
  {
    set p | p in ps && p.kind == KO && p.default.None? :: p.name
  }

  /** The keywords of the slots from `i` on. */
  function SlotKeywords(slots: seq<Param>, i: nat): set<string>
  {
    set j | i <= j < |slots| && slots[j].kind == PK :: slots[j].name
  }

  lemma {:induction false} RequiredAreKeywordOnly(ps: seq<Param>)
    ensures RequiredKeywords(ps) <= KeywordOnlyNames(ps) <= KeywordNames(ps)
  {
    forall k | k in RequiredKeywords(ps) ensures k in KeywordOnlyNames(ps) {
      var p :| p in ps && p.kind == KO && p.default.None? && p.name == k;
    }
  }

  /** A sufficient condition for a list to accept a call. */
  lemma {:induction false} AcceptsCall(ps: seq<Param>, c: Call)
    requires Shaped(ps) && RequiredKeywords(ps) <= c.keywords
    requires c.positional <= |Slots(ps)| || HasKind(ps, VP)
    requires forall k :: k in c.keywords ==>
      k in KeywordOnlyNames(ps) || NamesSlot(ps, c, k) || (HasKind(ps, VK) && !Collides(ps, c, k))
    requires forall i :: c.positional <= i < |Slots(ps)| ==>
      Slots(ps)[i].default.Some? || (Slots(ps)[i].kind == PK && Slots(ps)[i].name in c.keywords)
    ensures Accepts(ps, c)
  {
    hide Slots;
    forall k | k in c.keywords ensures KeywordAccepted(ps, c, k) {
      if k in KeywordOnlyNames(ps) {
        var p :| p in ps && p.kind == KO && p.name == k;
      }
    }
    forall p | p in ps && p.kind == KO ensures KeywordSource(p, c) != Missing {
      assert p.default.None? ==> p.name in RequiredKeywords(ps);
    }
  }

  /** The call that fills the first `n` slots by position and passes what it must by keyword. */
  function Witness(ps: seq<Param>, n: nat, more: set<string>): Call
  {
    Call(n, RequiredKeywords(ps) + more)
  }

  /** Every slot by position. */
  lemma {:induction false} FullCall(ps: seq<Param>, n: nat, more: set<string>)
    requires Shaped(ps) && more <= KeywordOnlyNames(ps)
    requires n == |Slots(ps)| || (n >= |Slots(ps)| && HasKind(ps, VP))
    ensures Accepts(ps, Witness(ps, n, more))
  {
    RequiredAreKeywordOnly(ps);
    AcceptsCall(ps, Witness(ps, n, more));
  }

  /** The slots before `i` by position, the optional rest left out. */
  lemma {:induction false} ShortCall(ps: seq<Param>, i: nat)
    requires Shaped(ps) && i < |Slots(ps)| && Slots(ps)[i].default.Some?
    ensures Accepts(ps, Witness(ps, i, {}))
  {
    RequiredAreKeywordOnly(ps);
    AcceptsCall(ps, Witness(ps, i, {}));
  }

  /** The slots before `i` by position, the rest by keyword. */
  lemma {:induction false} MixedCall(ps: seq<Param>, i: nat)
    requires Shaped(ps) && i < |Slots(ps)| && Slots(ps)[i].kind == PK
    ensures Accepts(ps, Witness(ps, i, SlotKeywords(Slots(ps), i)))
  {
    RequiredAreKeywordOnly(ps);
    var slots := Slots(ps);
    var c := Witness(ps, i, SlotKeywords(slots, i));
    forall j | i <= j < |slots| ensures slots[j].kind == PK && slots[j].name in c.keywords {
      assert slots[j].name in SlotKeywords(slots, i);
    }
    forall k | k in SlotKeywords(slots, i) ensures NamesSlot(ps, c, k) {
      var j :| i <= j < |slots| && slots[j].kind == PK && slots[j].name == k;
    }
    AcceptsCall(ps, c);
  }

  lemma {:induction false} StarArgsLost(was: seq<Param>, now: seq<Param>) returns (c: Call)
    requires Shaped(was) && HasKind(was, VP) && !HasKind(now, VP)
    ensures Breaks(was, now, c)
  {
    c := Witness(was, |Slots(was)| + |Slots(now)| + 1, {});
    FullCall(was, c.positional, {});
  }

  lemma {:induction false} FreshName(names: set<string>) returns (k0: string)
    ensures k0 !in names
  {
    var rest, longest: nat := names, 0;
    while rest != {}
      invariant rest <= names
      invariant forall k :: k in names && k !in rest ==> |k| <= longest
    {
      var k :| k in rest;
      longest := if |k| > longest then |k| else longest;
      rest := rest - {k};
    }
    k0 := seq(longest + 1, i => 'k');
  }

  lemma {:induction false} KwargsLost(was: seq<Param>, now: seq<Param>) returns (c: Call)
    requires Shaped(was) && HasKind(was, VK) && !HasKind(now, VK)
    ensures Breaks(was, now, c)
  {
    var k := FreshName((set p | p in was :: p.name) + (set p | p in now :: p.name));
    c := Witness(was, |Slots(was)|, {k});
    RequiredAreKeywordOnly(was);
    forall i | 0 <= i < |Slots(was)| ensures Slots(was)[i].name != k { assert Slots(was)[i] in Slots(was); }
    forall i | 0 <= i < |Slots(now)| ensures Slots(now)[i].name != k { assert Slots(now)[i] in Slots(now); }
    AcceptsCall(was, c);
    assert k in c.keywords && !KeywordAccepted(now, c, k);
  }

  lemma {:induction false} SlotLost(was: seq<Param>, now: seq<Param>) returns (c: Call)
    requires Shaped(was) && |Slots(now)| < |Slots(was)|
    ensures Breaks(was, now, c)
  {
    c := Witness(was, |Slots(was)|, {});
    FullCall(was, c.positional, {});
  }

  lemma {:induction false} SlotMisnamed(was: seq<Param>, now: seq<Param>, i: nat) returns (c: Call)
    requires Shaped(was) && i < |Slots(was)| && i < |Slots(now)| && Slots(was)[i].kind == PK
    requires Slots(now)[i].name != Slots(was)[i].name
    ensures Breaks(was, now, c)
  {
    c := Witness(was, |Slots(was)|, {});
    FullCall(was, c.positional, {});
    assert SlotSource(Slots(was), c, i) == Positional(i);
    assert !BoundByName(now, c, Slots(was)[i].name, Positional(i));
  }

  lemma {:induction false} SlotClosed(was: seq<Param>, now: seq<Param>, i: nat) returns (c: Call)
    requires Shaped(was) && Shaped(now) && i < |Slots(was)| && i < |Slots(now)| && Slots(was)[i].kind == PK
    requires Slots(now)[i].name == Slots(was)[i].name && Slots(now)[i].kind == PO
    ensures Breaks(was, now, c)
  {
    var name := Slots(was)[i].name;
    c := Witness(was, i, SlotKeywords(Slots(was), i));
    MixedCall(was, i);
    assert name in SlotKeywords(Slots(was), i);
    assert SlotSource(Slots(was), c, i) == Keyword(name);
    assert !BoundByName(now, c, name, Keyword(name));
  }

  lemma {:induction false} SlotDefault(was: seq<Param>, now: seq<Param>, i: nat) returns (c: Call)
    requires Shaped(was) && Shaped(now) && i < |Slots(was)| && i < |Slots(now)| && Slots(was)[i].kind == PK
    requires Slots(now)[i].name == Slots(was)[i].name && !DefaultKept(Slots(was)[i], Slots(now)[i])
    ensures Breaks(was, now, c)
  {
    var op := Slots(was)[i];
    c := Witness(was, i, {});
    ShortCall(was, i);
    RequiredAreKeywordOnly(was);
    assert op.name !in KeywordOnlyNames(was);
    assert SlotSource(Slots(was), c, i) == Default(op.default.value);
    assert SlotSource(Slots(now), c, i) == Unfilled(Slots(now)[i]);
    hide ValuesEqual;
    assert !BoundByName(now, c, op.name, Default(op.default.value));
  }

  lemma {:induction false} KeywordMoved(was: seq<Param>, now: seq<Param>, i: nat) returns (c: Call)
    requires Shaped(was) && i < |Slots(was)| && i < |Slots(now)|
    requires Slots(now)[i].kind == PK && Slots(now)[i].name in KeywordOnlyNames(was)
    ensures Breaks(was, now, c)
  {
    var k := Slots(now)[i].name;
    c := Witness(was, |Slots(was)|, {k});
    FullCall(was, c.positional, {k});
    assert Collides(now, c, k);
    assert k in c.keywords && !KeywordAccepted(now, c, k);
  }

  lemma {:induction false} KwargsCollide(was: seq<Param>, now: seq<Param>, i: nat) returns (c: Call)
    requires Shaped(was) && HasKind(was, VK) && i < |Slots(was)| && i < |Slots(now)|
    requires Slots(was)[i].kind == PO && Slots(now)[i].kind == PK
    ensures Breaks(was, now, c)
  {
    var os, k := Slots(was), Slots(now)[i].name;
    if j :| 0 <= j < |os| && os[j].kind == PK && os[j].name == k {
      c := Witness(was, j, SlotKeywords(os, j));
      MixedCall(was, j);
      assert k in SlotKeywords(os, j);
      assert i < j;
    } else {
      c := Witness(was, |os|, {k});
      RequiredAreKeywordOnly(was);
      assert !Collides(was, c, k);
      AcceptsCall(was, c);
    }
    assert Collides(now, c, k);
    assert k in c.keywords && !KeywordAccepted(now, c, k);
  }

  lemma {:induction false} PositionDefault(was: seq<Param>, now: seq<Param>, i: nat) returns (c: Call)
    requires Shaped(was) && i < |Slots(was)| && i < |Slots(now)| && Slots(was)[i].kind == PO
    requires !DefaultKept(Slots(was)[i], Slots(now)[i])
    ensures Breaks(was, now, c)
  {
    var op, np := Slots(was)[i], Slots(now)[i];
    if np.kind == PK && np.name in KeywordOnlyNames(was) {
      c := KeywordMoved(was, now, i);
    } else {
      c := Witness(was, i, {});
      ShortCall(was, i);
      RequiredAreKeywordOnly(was);
      assert SlotSource(Slots(was), c, i) == Default(op.default.value);
      assert SlotSource(Slots(now), c, i) == Unfilled(np);
    }
  }

  lemma {:induction false} StarArgsCaptured(was: seq<Param>, now: seq<Param>) returns (c: Call)
    requires Shaped(was) && HasKind(was, VP) && |Slots(now)| > |Slots(was)|
    ensures Breaks(was, now, c)
  {
    c := Witness(was, |Slots(was)| + 1, {});
    FullCall(was, c.positional, {});
  }

  /** No parameter of the new list takes keyword `p.name`. */
  lemma {:induction false} KeywordLost(was: seq<Param>, now: seq<Param>, p: Param) returns (c: Call)
    requires Shaped(was) && p in was && p.kind == KO
    requires forall q :: q in now && q.name == p.name ==> q.kind != PK && q.kind != KO
    ensures Breaks(was, now, c)
  {
    c := Witness(was, |Slots(was)|, {p.name});
    assert p.name in KeywordOnlyNames(was);
    FullCall(was, c.positional, {p.name});
    assert KeywordSource(p, c) == Keyword(p.name);
    forall i | 0 <= i < |Slots(now)| && Slots(now)[i].name == p.name ensures Slots(now)[i].kind == PO {
      assert Slots(now)[i] in Slots(now);
    }
    assert !BoundByName(now, c, p.name, Keyword(p.name));
  }

  lemma {:induction false} KeywordDefault(was: seq<Param>, now: seq<Param>, p: Param, q: Param) returns (c: Call)
    requires Shaped(was) && Shaped(now) && p in was && p.kind == KO && q in now && q.name == p.name
    requires !DefaultKept(p, q)
    ensures Breaks(was, now, c)
  {
    c := Witness(was, |Slots(was)|, {});
    FullCall(was, c.positional, {});
    assert p.name !in RequiredKeywords(was);
    assert KeywordSource(p, c) == Default(p.default.value);
    forall i | 0 <= i < |Slots(now)| && Slots(now)[i].name == p.name ensures Slots(now)[i] == q {
      assert Slots(now)[i] in Slots(now);
    }
    hide ValuesEqual;
    assert !BoundByName(now, c, p.name, Default(p.default.value));
  }

  lemma {:induction false} SlotDemanded(was: seq<Param>, now: seq<Param>, i: nat) returns (c: Call)
    requires Shaped(was) && |Slots(was)| <= i < |Slots(now)| && Slots(now)[i].default.None?
    requires Slots(now)[i].name !in KeywordNames(was)
    ensures Breaks(was, now, c)
  {
    c := Witness(was, |Slots(was)|, {});
    FullCall(was, c.positional, {});
    RequiredAreKeywordOnly(was);
    assert SlotSource(Slots(now), c, i) == Missing;
  }

  lemma {:induction false} KeywordDemanded(was: seq<Param>, now: seq<Param>, p: Param) returns (c: Call)
    requires Shaped(was) && p in now && p.kind == KO && p.default.None? && p.name !in KeywordNames(was)
    ensures Breaks(was, now, c)
  {
    c := Witness(was, |Slots(was)|, {});
    FullCall(was, c.positional, {});
    RequiredAreKeywordOnly(was);
    assert KeywordSource(p, c) == Missing;
  }

  // --- the findings, one by one ------------------------------------------------------------

  lemma {:induction false} SlotFindingBreaks(was: seq<Param>, now: seq<Param>, i: nat) returns (c: Call)
    requires Shaped(was) && Shaped(now) && i < |Slots(was)| && SlotFindings(was, now, i) != []
    ensures Breaks(was, now, c)
  {
    assert Slots(was)[i] in Slots(was);
    if i >= |Slots(now)| {
      c := SlotLost(was, now);
    } else {
      assert Slots(now)[i] in Slots(now);
      var op, np := Slots(was)[i], Slots(now)[i];
      if op.kind == PK {
        if np.name != op.name {
          c := SlotMisnamed(was, now, i);
        } else if np.kind == PO {
          c := SlotClosed(was, now, i);
        } else {
          c := SlotDefault(was, now, i);
        }
      } else if np.kind == PK && np.name in KeywordOnlyNames(was) {
        c := KeywordMoved(was, now, i);
      } else if np.kind == PK && HasKind(was, VK) {
        c := KwargsCollide(was, now, i);
      } else {
        c := PositionDefault(was, now, i);
      }
    }
  }

  lemma {:induction false} KeywordFindingBreaks(was: seq<Param>, now: seq<Param>, p: Param) returns (c: Call)
    requires Shaped(was) && Shaped(now) && DistinctNames(now) && p in was && KeywordFindings(p, now) != []
    ensures Breaks(was, now, c)
  {
    NamedParams(now);
    if p.name !in Named(now) || Named(now)[p.name].kind == PO {
      c := KeywordLost(was, now, p);
    } else {
      c := KeywordDefault(was, now, p, Named(now)[p.name]);
    }
  }

  lemma {:induction false} StarFindingBreaks(was: seq<Param>, now: seq<Param>) returns (c: Call)
    requires Shaped(was) && !CleanStars(was, now)
    ensures Breaks(was, now, c)
  {
    hide Shaped, Slots, Breaks, HasKind;
    if Removed(was, now, VP) != [] {
      c := StarArgsLost(was, now);
    } else if Removed(was, now, VK) != [] {
      c := KwargsLost(was, now);
    } else {
      c := StarArgsCaptured(was, now);
    }
  }

  lemma {:induction false} RequiredFindingBreaks(was: seq<Param>, now: seq<Param>) returns (c: Call)
    requires Shaped(was) && !CleanRequired(was, now)
    ensures Breaks(was, now, c)
  {
    hide Shaped, Slots, Breaks, KeywordNames;
    if i :| 0 <= i < |Slots(now)| && SlotRequired(was, now, i) != [] {
      c := SlotDemanded(was, now, i);
    } else {
      var i :| 0 <= i < |now| && KeywordRequired(was, now[i]) != [];
      c := KeywordDemanded(was, now, now[i]);
    }
  }

  /** Exactness: any finding at all comes with a call that breaks. */
  lemma {:induction false} FindingBreaks(was: seq<Param>, now: seq<Param>) returns (c: Call)
    requires WellFormed(was) && WellFormed(now) && Findings(was, now) != []
    ensures Breaks(was, now, c)
  {
    ShapedList(was);
    ShapedList(now);
    CleanMeansEmpty(was, now);
    hide Findings, SlotFindings, KeywordFindings, Shaped, Slots, Breaks, CleanStars, CleanRequired;
    if !CleanStars(was, now) {
      c := StarFindingBreaks(was, now);
    } else if !CleanSlots(was, now) {
      var i :| 0 <= i < |Slots(was)| && SlotFindings(was, now, i) != [];
      c := SlotFindingBreaks(was, now, i);
    } else if !CleanKeywords(was, now) {
      var i :| 0 <= i < |was| && KeywordFindings(was[i], now) != [];
      c := KeywordFindingBreaks(was, now, was[i]);
    } else {
      c := RequiredFindingBreaks(was, now);
    }
  }

  /** The checker is silent exactly when every call keeps working. */
  lemma {:induction false} CheckerExact(was: seq<Param>, now: seq<Param>)
    requires WellFormed(was) && WellFormed(now)
    ensures Findings(was, now) == [] <==> Compatible(was, now)
  {
    if Findings(was, now) == [] {
      NoFindingSound(was, now);
    } else {
      var c := FindingBreaks(was, now);
    }
  }
}
