/** `compare_params` itself, and what an empty list of findings means. */
module SignatureCompat {
  import opened Texts
  import opened EncodedValues
  import opened CallBinding
  import opened SignatureFindings
  import opened SignatureLaws
  import SignatureComplete
  import SignatureExact
  import SignatureOrder

  /** The pass over the old slots. */
  method CompareSlots(was: seq<Param>, now: seq<Param>) returns (out: seq<Finding>)
    ensures out == SlotsFindings(was, now, |Slots(was)|)
    ensures forall f :: f in out <==> exists i :: 0 <= i < |Slots(was)| && SignatureExact.SlotSaid(was, now, i, f)
  {
    hide SignatureExact.SlotSaid;
    hide ValuesEqual, Slots, Named, KeywordOnlyNames, HasKind, DefaultFindings;
    out := [];
    var wasSlots, nowSlots := Slots(was), Slots(now);
    var named, keywordOnly := Named(now), KeywordOnlyNames(was);
    for i := 0 to |wasSlots|
      invariant out == SlotsFindings(was, now, i)
    {
      var op, found := wasSlots[i], [];
      if i >= |nowSlots| {
        if op.name in named && named[op.name].kind == KO {
          found := [NarrowedToKeywordOnly(op.name, op.kind)];
        } else {
          found := [SlotRemoved(i, op.name)];
        }
      } else {
        var np := nowSlots[i];
        if op.kind == PK {
          if np.name != op.name {
            found := [SlotRenamed(i, np.name, op.name)];
          } else if np.kind == PO {
            found := [NarrowedToPositionalOnly(op.name)];
          } else {
            found := DefaultFindings(ByName(op.name), op, np);
          }
        } else {
          if np.kind == PK && np.name in keywordOnly {
            found := [KeywordMovedIntoSlot(np.name, i)];
          } else if np.kind == PK && HasKind(was, VK) {
            found := [KeywordBesideKwargs(np.name)];
          }
          found := found + DefaultFindings(BySlot(i), op, np);
        }
      }
      assert found == SlotFindings(was, now, i);
      out := out + found;
    }
    hide SlotFindings, SlotsFindings;
    forall f { SignatureExact.SlotsExact(was, now, f); }
  }

  /** The pass over the old keyword-only parameters. */
  method CompareKeywords(was: seq<Param>, now: seq<Param>) returns (out: seq<Finding>)
    ensures out == KeywordsFindings(was, now, |was|)
    ensures forall f :: f in out <==> exists p :: p in was && SignatureExact.KeywordSaid(p, now, f)
  {
    forall f { SignatureExact.KeywordsExact(was, now, f); }
    hide SignatureExact.KeywordSaid;
    out := [];
    var named := Named(now);
    for i := 0 to |was|
      invariant out == KeywordsFindings(was, now, i)
    {
      var op, found := was[i], [];
      if op.kind == KO {
        if op.name !in named {
          found := [KeywordRemoved(op.name)];
        } else if named[op.name].kind == PO {
          found := [KeywordNarrowed(op.name)];
        } else {
          found := DefaultFindings(ByName(op.name), op, named[op.name]);
        }
      }
      assert found == KeywordFindings(op, now);
      out := out + found;
    }
  }

  /** The two passes over what the new list demands. */
  method CompareRequired(was: seq<Param>, now: seq<Param>) returns (slots: seq<Finding>, keywords: seq<Finding>)
    ensures slots == SlotsRequired(was, now, |Slots(now)|)
    ensures keywords == KeywordsRequired(was, now, |now|)
    ensures forall f :: f in slots || f in keywords <==> f.NewRequired? && SignatureExact.Demanded(was, now, f.name)
  {
    hide Slots;
    slots, keywords := [], [];
    var wasSlots, nowSlots, names := Slots(was), Slots(now), KeywordNames(was);
    for i := 0 to |nowSlots|
      invariant slots == SlotsRequired(was, now, i)
    {
      var np := nowSlots[i];
      if np.default.None? && i >= |wasSlots| && np.name !in names {
        slots := slots + [NewRequired(np.name)];
      }
    }
    for i := 0 to |now|
      invariant keywords == KeywordsRequired(was, now, i)
    {
      var np := now[i];
      if np.kind == KO && np.default.None? && np.name !in names {
        keywords := keywords + [NewRequired(np.name)];
      }
    }
    hide SignatureExact.Demanded, SlotsRequired, KeywordsRequired;
    forall f { SignatureExact.RequiredExact(was, now, f); }
  }

  /** All passes, one after the other, and each finding once. */
  method CompareParams(was: seq<Param>, now: seq<Param>) returns (out: seq<Finding>)
    ensures out == Dedupe(Findings(was, now))
    ensures forall f :: f in out <==> SignatureExact.Said(was, now, f)
    ensures SignatureOrder.InOrder(was, now, out)
    ensures WellFormed(was) && WellFormed(now) ==> (out == [] <==> Compatible(was, now))
    ensures WellFormed(was) && WellFormed(now) ==>
      forall c :: Accepts(was, c) ==> SignatureComplete.Accounts(out, was, now, c)
  {
    hide SignatureExact.Said, SignatureOrder.InOrder, SignatureComplete.Accounts, Accepts;
    hide Slots, WellFormed, Compatible, SlotsFindings, KeywordsFindings, SlotsRequired, KeywordsRequired, HasKind, Dedupe;
    out := [];
    if HasKind(was, VP) && !HasKind(now, VP) {
      out := out + [StarRemoved(VP)];
    }
    if HasKind(was, VK) && !HasKind(now, VK) {
      out := out + [StarRemoved(VK)];
    }
    assert out == Removed(was, now, VP) + Removed(was, now, VK);
    var slots := CompareSlots(was, now);
    out := out + slots;
    if HasKind(was, VP) && |Slots(now)| > |Slots(was)| {
      out := out + [CapturesStarArgs(NamesOf(Slots(now)[|Slots(was)|..]))];
    }
    var keywords := CompareKeywords(was, now);
    var newSlots, newKeywords := CompareRequired(was, now);
    out := out + keywords + newSlots + newKeywords;
    assert out == Findings(was, now);
    out := Dedupe(out);
    DedupeEmpty(Findings(was, now));
    SignatureOrder.FindingsInOrder(was, now);
    SignatureOrder.DedupeInOrder(was, now, Findings(was, now));
    forall f ensures f in out <==> SignatureExact.Said(was, now, f) { SignatureExact.FindingExact(was, now, f); }
    if WellFormed(was) && WellFormed(now) {
      CheckerExact(was, now);
      forall c | Accepts(was, c) ensures SignatureComplete.Accounts(out, was, now, c) {
        SignatureComplete.CallAccounted(out, was, now, c);
      }
    }
  }

  lemma {:induction false} DedupeEmpty<T(!new)>(xs: seq<T>)
    ensures Dedupe(xs) == [] <==> xs == []
  {
    if xs != [] {
      assert xs[0] in Dedupe(xs);
    }
  }
}
