/** A comparison finds exactly what there is to report. */
module CompareExact {
  import opened Texts
  import opened DumpRecords
  import opened DumpText
  import opened DumpSearch
  import opened DumpCompare
  import opened CompareSpec
  import opened ChangeExact
  import RecordLaws

  // --- searching ---------------------------------------------------------------------------

  lemma {:induction false} SameIdentity(o: Record, n: Record)
    ensures Same(o, n) <==> Identity(o) == Identity(n)
  {
    if Identity(o) == Identity(n) {
      assert Identity(o)[0] == Identity(n)[0] && Identity(o)[1] == Identity(n)[1];
      assert |Identity(o)| == 3 ==> Identity(o)[2] == Identity(n)[2];
    }
  }

  /** A search finds the record that stands for `o`, if there is one. */
  lemma {:induction false} FindSame(rs: seq<Record>, o: Record)
    requires Loadable(rs) && CheckRecord(o)
    ensures var r := Find(rs, o.kind, BindingOf(o), SubOf(o));
      (if r.None? then Gone(rs, o) else r.value in rs && Same(o, r.value))
      && forall n :: n in rs && Same(o, n) ==> r == Some(n)
  {
    hide CheckRecord, DistinctIdentities, BindingOf, SubOf, Find, Identity;
    var r := Find(rs, o.kind, BindingOf(o), SubOf(o));
    if r.Some? {
      IndexDetermines(r.value, o);
      SameIdentity(o, r.value);
    }
    forall n | n in rs && Same(o, n) ensures r == Some(n) {
      SameIndex(o, n);
      FindAgain(rs, n);
    }
  }

  lemma {:induction false} SameIndex(o: Record, n: Record)
    requires Same(o, n)
    ensures BindingOf(o) == BindingOf(n) && SubOf(o) == SubOf(n) && SiteFor(o) == SiteFor(n)
  {
  }

  /** The record of a kind that has one for each binding. */
  lemma {:induction false} FindSingle(rs: seq<Record>, kind: string, key: string)
    requires Loadable(rs) && kind in ["name", "mro", "call", "abstract", "requires"]
    ensures var r := Find(rs, kind, key, "");
      (r.Some? ==> r.value in rs && r.value.kind == kind && r.value.key == key)
      && forall n :: n in rs && n.kind == kind && n.key == key ==> r == Some(n)
  {
    hide CheckRecord, DistinctIdentities, Find;
    forall n | n in rs && n.kind == kind && n.key == key ensures Find(rs, kind, key, "") == Some(n) {
      FindAgain(rs, n);
    }
  }

  // --- findings ----------------------------------------------------------------------------

  lemma {:induction false} SingleSame(o: Record, n: Record)
    requires o.kind == n.kind && o.kind in ["name", "mro", "call", "abstract", "requires"]
    ensures Same(o, n) <==> o.key == n.key
  {
  }

  lemma {:induction false} SurvivesExact(was: seq<Record>, now: seq<Record>, key: string)
    requires Loadable(was) && Loadable(now)
    ensures var w, n := Find(was, "name", key, ""), Find(now, "name", key, "");
      Survives(was, now, key) <==> w.Some? && n.Some? && FirstField(w.value) == FirstField(n.value)
  {
    var w, n := Find(was, "name", key, ""), Find(now, "name", key, "");
    FindSingle(was, "name", key);
    FindSingle(now, "name", key);
    if w.Some? && n.Some? { SingleSame(w.value, n.value); }
    if o, m :| o in was && m in now && o.kind == "name" && o.key == key && Same(o, m) && FirstField(o) == FirstField(m) {
      SameParts(o, m);
    }
    hide Loadable, Find, FirstField, Same;
  }

  /** The findings of a kind with one record for each binding. */
  lemma {:induction false} PairsExact(was: seq<Record>, now: seq<Record>, kind: string, key: string, f: Finding)
    requires Loadable(was) && Loadable(now) && kind in ["mro", "call", "abstract", "requires"]
    ensures f in PairFindings(was, now, kind, key) <==>
      exists o, n :: o in was && n in now && o.kind == kind && o.key == key && Same(o, n) && f.site == key && f.fact in Facts(o, n)
  {
    FindSingle(was, kind, key);
    FindSingle(now, kind, key);
    var w, n := Find(was, kind, key, ""), Find(now, kind, key, "");
    hide Loadable, Find;
    if w.Some? && n.Some? {
      PairSame(w.value, n.value);
      PairStep(was, now, kind, key);
    } else {
      assert PairFindings(was, now, kind, key) == {};
    }
    hide PairFindings, Facts, Same, Find;
  }

  lemma {:induction false} PairSame(o: Record, n: Record)
    requires o.kind == n.kind && o.key == n.key && o.kind in ["mro", "call", "abstract", "requires"]
    ensures Same(o, n)
  {
  }

  lemma {:induction false} PairStep(was: seq<Record>, now: seq<Record>, kind: string, key: string)
    requires kind in ["mro", "call", "abstract", "requires"]
    requires var (w, n) := (Find(was, kind, key, ""), Find(now, kind, key, ""));
      w.Some? && n.Some? && w.value.kind == kind
    ensures forall f :: f in PairFindings(was, now, kind, key) <==>
      f.site == key && f.fact in Facts(Find(was, kind, key, "").value, Find(now, kind, key, "").value)
  {
    hide Find, MroFacts, CallFacts, ObligationFacts, Callable, FirstField, CallOf, CheckRecord;
  }

  /** What is said of an old record of a kind with sub-keys: it is gone, or what changed. */
  lemma {:induction false} AboutExact(now: seq<Record>, o: Record, f: Finding)
    requires Loadable(now) && CheckRecord(o) && o.kind in ["input", "member", "enum", "format"]
    ensures f in About(o, now) <==>
      f.site == SiteFor(o)
      && ((Gone(now, o) && f.fact == if o.kind == "enum" then EnumRemoved(FirstField(o)) else Removed)
          || exists n :: n in now && Same(o, n) && f.fact in Facts(o, n))
  {
    FindSame(now, o);
    var again := Find(now, o.kind, BindingOf(o), SubOf(o));
    hide AllChecked, DistinctIdentities, Find, CheckRecord, BindingOf, SubOf, FirstField, Same, SplitList, Field, SameValue, AccessorFacts;
    hide CallFacts, Callable;
    if again.Some? { assert Facts(o, again.value) == LaterFacts(o, again) by { LaterSame(o, again.value); } }
    AboutLater(now, o, f);
    LaterGone(o);
  }

  /** The facts about an old record given what stands for it. */
  function LaterFacts(o: Record, again: Option<Record>): set<Fact>
  {
    match o.kind
    case "input" => InputFacts(o, again)
    case "member" => MemberFacts(o, again)
    case "enum" => EnumFacts(o, again)
    case "format" => FormatFacts(o, again)
    case _ => {}
  }

  lemma {:induction false} LaterSame(o: Record, n: Record)
    requires o.kind in ["input", "member", "enum", "format"]
    ensures LaterFacts(o, Some(n)) == Facts(o, n)
  {
    hide InputFacts, MemberFacts, EnumFacts, FormatFacts;
  }

  lemma {:induction false} LaterGone(o: Record)
    requires o.kind in ["input", "member", "enum", "format"]
    ensures LaterFacts(o, None) == {if o.kind == "enum" then EnumRemoved(FirstField(o)) else Removed}
  {
  }

  lemma {:induction false} AboutLater(now: seq<Record>, o: Record, f: Finding)
    requires o.kind in ["input", "member", "enum", "format"]
    ensures f in About(o, now) <==> f.site == SiteFor(o) && f.fact in LaterFacts(o, Find(now, o.kind, BindingOf(o), SubOf(o)))
  {
    hide InputFacts, MemberFacts, EnumFacts, FormatFacts, Find, BindingOf, SubOf;
  }

  // --- every finding -----------------------------------------------------------------------

  /** What is found about a binding that survives. */
  ghost predicate FoundWithin(was: seq<Record>, now: seq<Record>, key: string, f: Finding)
  {
    (exists kind :: kind in ["mro", "call", "abstract", "requires"] && f in PairFindings(was, now, kind, key))
    || (exists kind :: kind in ["input", "member", "enum"] && f in Gather(was, now, kind, key))
    || f in NewInputFindings(was, now, key)
  }

  lemma {:induction false} WithinUnion(was: seq<Record>, now: seq<Record>, key: string, f: Finding)
    ensures FoundWithin(was, now, key, f) <==>
      f in PairFindings(was, now, "mro", key) + PairFindings(was, now, "call", key)
           + Gather(was, now, "input", key) + NewInputFindings(was, now, key) + Gather(was, now, "member", key)
           + PairFindings(was, now, "abstract", key) + PairFindings(was, now, "requires", key)
           + Gather(was, now, "enum", key)
  {
    hide Gather, NewInputFindings, PairFindings;
  }

  /** The three ways a binding can go. */
  lemma {:induction false} BindingExact(was: seq<Record>, now: seq<Record>, key: string, f: Finding)
    requires Loadable(was) && Loadable(now)
    ensures f in BindingFindings(was, now, key) <==>
      (exists o :: o in was && o.kind == "name" && o.key == key && Gone(now, o) && f == Finding(key, Removed))
      || (exists o :: o in was && o.kind == "name" && o.key == key && ReportsKindOf(now, o, f))
      || (Survives(was, now, key) && FoundWithin(was, now, key, f))
  {
    hide Loadable, Find, FirstField, Same, Gone, Survives, FoundWithin, Gather, NewInputFindings, PairFindings, ReportsKindOf;
    SurvivesExact(was, now, key);
    FindSingle(was, "name", key);
    FindSingle(now, "name", key);
    WithinUnion(was, now, key, f);
    var w, n := Find(was, "name", key, ""), Find(now, "name", key, "");
    if w.Some? {
      NameGone(now, w.value);
      KindReported(now, w.value, f);
    }
  }

  lemma {:induction false} KindReported(now: seq<Record>, o: Record, f: Finding)
    requires Loadable(now) && o.kind == "name"
    ensures var n := Find(now, "name", o.key, "");
      ReportsKindOf(now, o, f) <==>
      n.Some? && FirstField(o) != FirstField(n.value) && f == Finding(o.key, KindChanged(FirstField(o), FirstField(n.value)))
  {
    hide Loadable, Find, FirstField, Same;
    FindSingle(now, "name", o.key);
    var r := Find(now, "name", o.key, "");
    if r.Some? { SingleSame(o, r.value); }
    forall n | n in now && Same(o, n) ensures r == Some(n) { SameParts(o, n); }
  }

  predicate ReportsKindOf(now: seq<Record>, o: Record, f: Finding)
  {
    exists n :: n in now && Same(o, n) && FirstField(o) != FirstField(n) && f == Finding(o.key, KindChanged(FirstField(o), FirstField(n)))
  }

  lemma {:induction false} NameGone(now: seq<Record>, o: Record)
    requires Loadable(now) && o.kind == "name"
    ensures Gone(now, o) <==> Find(now, "name", o.key, "").None?
  {
    FindSingle(now, "name", o.key);
    var r := Find(now, "name", o.key, "");
    if r.Some? { SingleSame(o, r.value); }
    forall n | n in now && Same(o, n) ensures r.Some? { SameParts(o, n); }
    hide Loadable, Find, Same;
  }

  /** A record of a surviving binding, and the one that stands for it. */
  ghost predicate ChangedWithin(was: seq<Record>, now: seq<Record>, key: string, kinds: seq<string>, f: Finding)
  {
    exists o, n ::
      o in was && o.kind in kinds && BindingOf(o) == key && n in now && Same(o, n) && f.site == SiteFor(o) && Change(o, n, f.fact)
  }

  ghost predicate GoneWithin(was: seq<Record>, now: seq<Record>, key: string, kinds: seq<string>, f: Finding)
  {
    exists o ::
      o in was && o.kind in kinds && BindingOf(o) == key && Gone(now, o) && f.site == SiteFor(o)
      && f.fact == if o.kind == "enum" then EnumRemoved(FirstField(o)) else Removed
  }

  lemma {:induction false} SingleParts(o: Record)
    requires o.kind in ["name", "mro", "call", "abstract", "requires"]
    ensures BindingOf(o) == o.key && SiteFor(o) == o.key
  {
  }

  lemma {:induction false} PairsWithin(was: seq<Record>, now: seq<Record>, kind: string, key: string, f: Finding)
    requires Loadable(was) && Loadable(now) && kind in ["mro", "call", "abstract", "requires"]
    ensures f in PairFindings(was, now, kind, key) <==> ChangedWithin(was, now, key, [kind], f)
  {
    PairsExact(was, now, kind, key, f);
    forall o, n | o in was && n in now && o.kind == kind && Same(o, n)
      ensures BindingOf(o) == o.key && SiteFor(o) == o.key && (f.fact in Facts(o, n) <==> Change(o, n, f.fact))
    {
      SingleParts(o);
      FactsExact(o, n, f.fact);
    }
    hide PairFindings, Same, Change, Facts, BindingOf, SiteFor, CheckRecord, DistinctIdentities;
  }

  lemma {:induction false} AboutWithin(now: seq<Record>, o: Record, f: Finding)
    requires Loadable(now) && CheckRecord(o) && o.kind in ["input", "member", "enum", "format"]
    ensures f in About(o, now) <==>
      f.site == SiteFor(o)
      && ((Gone(now, o) && f.fact == if o.kind == "enum" then EnumRemoved(FirstField(o)) else Removed)
          || exists n :: n in now && Same(o, n) && Change(o, n, f.fact))
  {
    AboutExact(now, o, f);
    forall n | n in now && Same(o, n) ensures f.fact in Facts(o, n) <==> Change(o, n, f.fact) { FactsExact(o, n, f.fact); }
    hide About, Same, Change, Facts, SiteFor, Gone, CheckRecord, DistinctIdentities;
  }

  lemma {:induction false} GatherWithin(was: seq<Record>, now: seq<Record>, kind: string, key: string, f: Finding)
    requires Loadable(was) && Loadable(now) && kind in ["input", "member", "enum"]
    ensures f in Gather(was, now, kind, key) <==> ChangedWithin(was, now, key, [kind], f) || GoneWithin(was, now, key, [kind], f)
  {
    forall o | o in was && o.kind == kind
      ensures f in About(o, now) <==>
        f.site == SiteFor(o)
        && ((Gone(now, o) && f.fact == if o.kind == "enum" then EnumRemoved(FirstField(o)) else Removed)
            || exists n :: n in now && Same(o, n) && Change(o, n, f.fact))
    {
      AboutWithin(now, o, f);
    }
    hide About, Same, Change, SiteFor, Gone, BindingOf, FirstField, CheckRecord, DistinctIdentities;
  }

  /** An input the older dump has none for. */
  lemma {:induction false} AddedInput(was: seq<Record>, n: Record, key: string)
    requires Loadable(was) && CheckRecord(n)
    ensures AddsRequired(n, was, key) <==>
      n.kind == "input" && n.key == key && Gone(was, n) && |n.fields| == 4 && n.fields[1] == "required"
    ensures n.kind == "input" ==> InputSite(n.key, SubOf(n)) == SiteFor(n)
  {
    if n.kind == "input" {
      InputParts(n);
      Fielded(n);
      FindSame(was, n);
      assert Field(n, 1) == n.fields[1];
    }
    hide CheckRecord, DistinctIdentities, Find, Gone, SiteFor, BindingOf, SubOf, InputSite, Field;
  }

  lemma {:induction false} NewInputWithin(was: seq<Record>, now: seq<Record>, key: string, f: Finding)
    requires Loadable(was) && Loadable(now)
    ensures f in NewInputFindings(was, now, key) <==>
      f.fact == NewRequiredInput
      && exists n :: n in now && n.kind == "input" && n.key == key && Gone(was, n) && f.site == SiteFor(n) && |n.fields| == 4 && n.fields[1] == "required"
  {
    hide CheckRecord, DistinctIdentities, Gone, SiteFor, AddsRequired, SubOf, InputSite;
    forall n | n in now
      ensures AddsRequired(n, was, key) <==>
        n.kind == "input" && n.key == key && Gone(was, n) && |n.fields| == 4 && n.fields[1] == "required"
      ensures n.kind == "input" ==> InputSite(n.key, SubOf(n)) == SiteFor(n)
    {
      AddedInput(was, n, key);
    }
  }

  lemma {:induction false} InputParts(n: Record)
    requires n.kind == "input"
    ensures BindingOf(n) == n.key && InputSite(n.key, SubOf(n)) == SiteFor(n)
  {
  }

  /** What there is to report of a binding that survives. */
  ghost predicate PartReported(was: seq<Record>, now: seq<Record>, key: string, f: Finding)
  {
    (exists kind :: kind in ["mro", "call", "abstract", "requires", "input", "member", "enum"] && ChangedWithin(was, now, key, [kind], f))
    || (exists kind :: kind in ["input", "member", "enum"] && GoneWithin(was, now, key, [kind], f))
    || (f.fact == NewRequiredInput
        && exists n :: n in now && n.kind == "input" && n.key == key && Gone(was, n) && f.site == SiteFor(n) && |n.fields| == 4 && n.fields[1] == "required")
  }

  /** What there is to report of a binding: it is gone, or of another kind, or what changed in it. */
  ghost predicate OfBindingReported(was: seq<Record>, now: seq<Record>, key: string, f: Finding)
  {
    (exists o :: o in was && o.kind == "name" && o.key == key && Gone(now, o) && f == Finding(key, Removed))
    || (exists o :: o in was && o.kind == "name" && o.key == key && ReportsKindOf(now, o, f))
    || (Survives(was, now, key) && PartReported(was, now, key, f))
  }

  lemma {:induction false} PartsExact(was: seq<Record>, now: seq<Record>, key: string, f: Finding)
    requires Loadable(was) && Loadable(now)
    ensures FoundWithin(was, now, key, f) <==> PartReported(was, now, key, f)
  {
    hide AllChecked, DistinctIdentities, PairFindings, Gather, NewInputFindings, ChangedWithin, GoneWithin, Gone, SiteFor;
    forall kind | kind in ["mro", "call", "abstract", "requires"]
      ensures f in PairFindings(was, now, kind, key) <==> ChangedWithin(was, now, key, [kind], f)
    {
      PairsWithin(was, now, kind, key, f);
    }
    forall kind | kind in ["input", "member", "enum"]
      ensures f in Gather(was, now, kind, key) <==> ChangedWithin(was, now, key, [kind], f) || GoneWithin(was, now, key, [kind], f)
    {
      GatherWithin(was, now, kind, key, f);
    }
    NewInputWithin(was, now, key, f);
  }

  /** One binding's findings are exactly what there is to report of it. */
  lemma {:induction false} OfBindingExact(was: seq<Record>, now: seq<Record>, key: string, f: Finding)
    requires Loadable(was) && Loadable(now)
    ensures f in BindingFindings(was, now, key) <==> OfBindingReported(was, now, key, f)
  {
    BindingExact(was, now, key, f);
    PartsExact(was, now, key, f);
    hide Loadable, BindingFindings, Survives, FoundWithin, PartReported, Gone, ReportsKindOf;
  }

  lemma {:induction false} FormatsWithin(was: seq<Record>, now: seq<Record>, f: Finding)
    requires Loadable(was) && Loadable(now)
    ensures f in FormatFindings(was, now) <==>
      exists o ::
        o in was && o.kind == "format" && f.site == SiteFor(o)
        && ((Gone(now, o) && f.fact == Removed) || exists n :: n in now && Same(o, n) && Change(o, n, f.fact))
  {
    forall o | o in was && o.kind == "format"
      ensures f in About(o, now) <==>
        f.site == SiteFor(o) && ((Gone(now, o) && f.fact == Removed) || exists n :: n in now && Same(o, n) && Change(o, n, f.fact))
    {
      AboutWithin(now, o, f);
    }
    hide About, Same, Change, SiteFor, Gone, CheckRecord, DistinctIdentities;
  }

  /** A record belongs to one binding. */
  lemma {:induction false} BelongsExact(o: Record, key: string)
    requires key != ""
    ensures BelongsTo(o, key) <==> BindingOf(o) == key
  {
    if o.kind == "member" {
      var dot := LastIndex(o.key, '.');
      if dot >= 0 {
        var name := o.key[dot + 1..];
        assert o.key == o.key[..dot] + (['.'] + name);
        assert '.' !in name by { assert forall i :: 0 <= i < |name| ==> name[i] == o.key[dot + 1 + i]; }
        hide LastIndex;
      }
      if name: string :| '.' !in name && o.key == key + (['.'] + name) {
        assert o.key[|key|] == '.' && forall i :: |key| < i < |o.key| ==> o.key[i] == name[i - |key| - 1];
        assert o.key[..|key|] == key;
        hide LastIndex;
      }
    }
  }

  lemma {:induction false} SurvivingNamed(was: seq<Record>, now: seq<Record>, key: string)
    requires AllChecked(was) && Survives(was, now, key)
    ensures key != "" && key in BindingKeys(was)
  {
    hide Same, CheckRecord;
    var o, n :| o in was && n in now && o.kind == "name" && o.key == key && Same(o, n) && FirstField(o) == FirstField(n);
    RecordLaws.KeyPresent(o);
    RecordLaws.KeyShape(key);
    hide IsKey;
  }

  lemma {:induction false} LookedForExact(was: seq<Record>, now: seq<Record>, o: Record)
    requires AllChecked(was) && o in was
    ensures LookedFor(was, now, o) <==> o.kind == "format" || Survives(was, now, BindingOf(o))
  {
    hide AllChecked, Survives, BelongsTo, BindingOf;
    forall key | Survives(was, now, key) ensures BelongsTo(o, key) <==> BindingOf(o) == key {
      SurvivingNamed(was, now, key);
      BelongsExact(o, key);
    }
  }

  lemma {:induction false} SurvivingKey(was: seq<Record>, now: seq<Record>, key: string)
    requires Survives(was, now, key)
    ensures key in BindingKeys(was)
  {
    hide Same;
  }

  lemma {:induction false} ChangedReported(was: seq<Record>, now: seq<Record>, key: string, kinds: seq<string>, f: Finding)
    requires AllChecked(was) && Survives(was, now, key) && ChangedWithin(was, now, key, kinds, f)
    ensures ReportsChange(was, now, f)
  {
    var o, n :| o in was && o.kind in kinds && BindingOf(o) == key && n in now && Same(o, n) && f.site == SiteFor(o) && Change(o, n, f.fact);
    LookedForExact(was, now, o);
    hide Survives, Same, Change, SiteFor, BindingOf, LookedFor, AllChecked;
    assert Pair(was, now, o, n);
  }

  lemma {:induction false} GoneReported(was: seq<Record>, now: seq<Record>, key: string, kind: string, f: Finding)
    requires AllChecked(was) && kind in ["input", "member", "enum"]
    requires Survives(was, now, key) && GoneWithin(was, now, key, [kind], f)
    ensures Reported(was, now, f)
  {
    var o :| o in was && o.kind in [kind] && BindingOf(o) == key && Gone(now, o) && f.site == SiteFor(o)
      && f.fact == if o.kind == "enum" then EnumRemoved(FirstField(o)) else Removed;
    LookedForExact(was, now, o);
    if kind == "enum" { EnumSite(o); }
    hide Survives, Gone, SiteFor, BindingOf, FirstField, LookedFor, ReportsChange, ReportsKind, ReportsNewInput, AllChecked;
  }

  lemma {:induction false} EnumSite(o: Record)
    requires o.kind == "enum"
    ensures SiteFor(o) == o.key && BindingOf(o) == o.key
  {
  }

  lemma {:induction false} WithinReported(was: seq<Record>, now: seq<Record>, key: string, f: Finding)
    requires Loadable(was) && Loadable(now) && Survives(was, now, key) && FoundWithin(was, now, key, f)
    ensures Reported(was, now, f)
  {
    hide AllChecked, DistinctIdentities, Survives, PairFindings, Gather, NewInputFindings, ChangedWithin, GoneWithin, ReportsChange;
    if kind :| kind in ["mro", "call", "abstract", "requires"] && f in PairFindings(was, now, kind, key) {
      PairsWithin(was, now, kind, key, f);
      ChangedReported(was, now, key, [kind], f);
    } else if kind :| kind in ["input", "member", "enum"] && f in Gather(was, now, kind, key) {
      GatherWithin(was, now, kind, key, f);
      if ChangedWithin(was, now, key, [kind], f) { ChangedReported(was, now, key, [kind], f); } else { GoneReported(was, now, key, kind, f); }
    } else {
      NewInputWithin(was, now, key, f);
      hide Gone, SiteFor;
    }
  }

  lemma {:induction false} BindingReported(was: seq<Record>, now: seq<Record>, key: string, f: Finding)
    requires Loadable(was) && Loadable(now) && f in BindingFindings(was, now, key)
    ensures Reported(was, now, f)
  {
    BindingExact(was, now, key, f);
    if Survives(was, now, key) && FoundWithin(was, now, key, f) {
      WithinReported(was, now, key, f);
    } else if o :| o in was && o.kind == "name" && o.key == key && Gone(now, o) && f == Finding(key, Removed) {
      SingleParts(o);
      hide Gone, SiteFor, ReportsChange, ReportsKind, ReportsNewInput, ReportsEnumRemoved, LookedFor;
    } else {
      var o :| o in was && o.kind == "name" && o.key == key && ReportsKindOf(now, o, f);
      hide Same, FirstField, ReportsChange, ReportsRemoved, ReportsNewInput, ReportsEnumRemoved;
    }
    hide *;
  }

  lemma {:induction false} FormatReported(was: seq<Record>, now: seq<Record>, f: Finding)
    requires Loadable(was) && Loadable(now) && f in FormatFindings(was, now)
    ensures Reported(was, now, f)
  {
    FormatsWithin(was, now, f);
    var o :| o in was && o.kind == "format" && f.site == SiteFor(o)
      && ((Gone(now, o) && f.fact == Removed) || exists n :: n in now && Same(o, n) && Change(o, n, f.fact));
    assert LookedFor(was, now, o) by { hide *; LookedForFormat(was, now, o); }
    if n :| n in now && Same(o, n) && Change(o, n, f.fact) {
      assert Pair(was, now, o, n);
    }
    hide SiteFor, Gone, Same, Change, LookedFor, ReportsKind, ReportsNewInput, ReportsEnumRemoved, FormatFindings;
  }

  /** What is gone is found gone. */
  lemma {:induction false} GoneFound(was: seq<Record>, now: seq<Record>, o: Record, f: Finding)
    requires Loadable(was) && Loadable(now) && o in was && o.kind in ["input", "member", "enum", "format"] && LookedFor(was, now, o)
    requires Gone(now, o) && f.site == SiteFor(o) && f.fact == if o.kind == "enum" then EnumRemoved(FirstField(o)) else Removed
    ensures f in Findings(was, now)
  {
    if o.kind == "format" {
      FormatsWithin(was, now, f);
      hide *;
      assert f in Findings(was, now) by { InFindings(was, now, "", f); }
    } else {
      LookedForExact(was, now, o);
      hide *;
      PartFound(was, now, o, f);
    }
  }

  lemma {:induction false} LookedForFormat(was: seq<Record>, now: seq<Record>, o: Record)
    requires o in was && o.kind == "format"
    ensures LookedFor(was, now, o)
  {
  }

  lemma {:induction false} InFindings(was: seq<Record>, now: seq<Record>, key: string, f: Finding)
    ensures f in FormatFindings(was, now) ==> f in Findings(was, now)
    ensures key in BindingKeys(was) && f in BindingFindings(was, now, key) ==> f in Findings(was, now)
  {
    hide BindingFindings, FormatFindings, BindingKeys;
  }

  lemma {:induction false} GoneSelf(was: seq<Record>, now: seq<Record>, o: Record, f: Finding)
    requires o in was && Gone(now, o) && f.site == SiteFor(o)
    requires f.fact == if o.kind == "enum" then EnumRemoved(FirstField(o)) else Removed
    ensures GoneWithin(was, now, BindingOf(o), [o.kind], f)
  {
    hide BindingOf, Gone, SiteFor, FirstField;
  }

  lemma {:induction false} PartFound(was: seq<Record>, now: seq<Record>, o: Record, f: Finding)
    requires Loadable(was) && Loadable(now) && o in was && o.kind in ["input", "member", "enum"] && Survives(was, now, BindingOf(o))
    requires Gone(now, o) && f.site == SiteFor(o) && f.fact == if o.kind == "enum" then EnumRemoved(FirstField(o)) else Removed
    ensures f in Findings(was, now)
  {
    var key, kind := BindingOf(o), o.kind;
    GoneSelf(was, now, o, f);
    hide *;
    SurvivingKey(was, now, key);
    GatherWithin(was, now, kind, key, f);
    assert FoundWithin(was, now, key, f) by { WithinGather(was, now, kind, key, f); }
    BindingExact(was, now, key, f);
    InFindings(was, now, key, f);
  }

  lemma {:induction false} WithinGather(was: seq<Record>, now: seq<Record>, kind: string, key: string, f: Finding)
    requires kind in ["input", "member", "enum"] && f in Gather(was, now, kind, key)
    ensures FoundWithin(was, now, key, f)
  {
    hide Gather, PairFindings, NewInputFindings;
  }

  lemma {:induction false} ChangeFound(was: seq<Record>, now: seq<Record>, o: Record, n: Record, f: Finding)
    requires Loadable(was) && Loadable(now) && Pair(was, now, o, n) && f.site == SiteFor(o) && Change(o, n, f.fact)
    ensures f in Findings(was, now)
  {
    KindsAll(o);
    LookedForExact(was, now, o);
    hide AllChecked, DistinctIdentities, CheckRecord, Survives, LookedFor, Same, Change, SiteFor, BindingOf, Findings, FormatFindings;
    if o.kind == "name" {
      ChangeByKind(o, n, f.fact);
    } else if o.kind == "format" {
      FormatsWithin(was, now, f);
      InFindings(was, now, "", f);
    } else {
      PartChangeFound(was, now, o, n, f);
    }
  }

  lemma {:induction false} PartChangeFound(was: seq<Record>, now: seq<Record>, o: Record, n: Record, f: Finding)
    requires Loadable(was) && Loadable(now) && o in was && n in now && Same(o, n) && Survives(was, now, BindingOf(o))
    requires o.kind in ["mro", "call", "abstract", "requires", "input", "member", "enum"]
    requires f.site == SiteFor(o) && Change(o, n, f.fact)
    ensures f in Findings(was, now)
  {
    var key, kind := BindingOf(o), o.kind;
    assert ChangedWithin(was, now, key, [kind], f);
    hide *;
    SurvivingKey(was, now, key);
    if kind in ["input", "member", "enum"] {
      GatherWithin(was, now, kind, key, f);
      WithinGather(was, now, kind, key, f);
    } else {
      PairsWithin(was, now, kind, key, f);
      assert FoundWithin(was, now, key, f) by { WithinPair(was, now, kind, key, f); }
    }
    BindingExact(was, now, key, f);
    InFindings(was, now, key, f);
  }

  lemma {:induction false} WithinPair(was: seq<Record>, now: seq<Record>, kind: string, key: string, f: Finding)
    requires kind in ["mro", "call", "abstract", "requires"] && f in PairFindings(was, now, kind, key)
    ensures FoundWithin(was, now, key, f)
  {
    hide Gather, PairFindings, NewInputFindings;
  }

  lemma {:induction false} NewInputFound(was: seq<Record>, now: seq<Record>, f: Finding)
    requires Loadable(was) && Loadable(now) && f.fact == NewRequiredInput && ReportsNewInput(was, now, f.site)
    ensures f in Findings(was, now)
  {
    var n :| n in now && n.kind == "input" && f.site == SiteFor(n) && Gone(was, n) && Survives(was, now, n.key)
      && |n.fields| == 4 && n.fields[1] == "required";
    SurvivingKey(was, now, n.key);
    BindingExact(was, now, n.key, f);
    NewInputWithin(was, now, n.key, f);
    hide Loadable, BindingKeys, BindingFindings, FormatFindings, Gather, Gone, SiteFor, Survives, NewInputFindings, PairFindings, Field;
  }

  lemma {:induction false} NameFound(was: seq<Record>, now: seq<Record>, o: Record, f: Finding)
    requires Loadable(was) && Loadable(now) && o in was && o.kind == "name"
    requires (Gone(now, o) && f == Finding(o.key, Removed)) || ReportsKindOf(now, o, f)
    ensures f in Findings(was, now)
  {
    BindingExact(was, now, o.key, f);
    assert o.key in BindingKeys(was);
    hide Loadable, BindingKeys, BindingFindings, FormatFindings, Gone, ReportsKindOf, Survives, FoundWithin;
  }

  /** A comparison of two loaded dumps finds exactly what there is to report. */
  lemma {:induction false} FindingsExact(was: seq<Record>, now: seq<Record>, f: Finding)
    requires Loadable(was) && Loadable(now)
    ensures f in Findings(was, now) <==> Reported(was, now, f)
  {
    hide Loadable, BindingKeys, BindingFindings, FormatFindings, Gone, LookedFor, SiteFor, Change, Pair, Same, FirstField, ReportsNewInput;
    if f in Findings(was, now) {
      if key :| key in BindingKeys(was) && f in BindingFindings(was, now, key) {
        BindingReported(was, now, key, f);
      } else {
        FormatReported(was, now, f);
      }
    } else if Reported(was, now, f) {
      ReportedFound(was, now, f);
    }
  }

  lemma {:induction false} ReportedFound(was: seq<Record>, now: seq<Record>, f: Finding)
    requires Loadable(was) && Loadable(now) && Reported(was, now, f)
    ensures f in Findings(was, now)
  {
    hide Loadable, Findings, Gone, LookedFor, SiteFor, Change, Pair, Same, FirstField, ReportsNewInput;
    if f.fact == NewRequiredInput && ReportsNewInput(was, now, f.site) {
      NewInputFound(was, now, f);
    } else if o, n :| Pair(was, now, o, n) && f.site == SiteFor(o) && Change(o, n, f.fact) {
      ChangeFound(was, now, o, n, f);
    } else if ReportsKind(was, now, f) {
      var o, n :| o in was && n in now && o.kind == "name" && Same(o, n) && FirstField(o) != FirstField(n)
        && f == Finding(o.key, KindChanged(FirstField(o), FirstField(n)));
      NameFound(was, now, o, f);
    } else if f.fact == Removed {
      var o :| o in was && f.site == SiteFor(o) && Gone(now, o)
        && (o.kind == "name" || (o.kind in ["member", "input", "format"] && LookedFor(was, now, o)));
      if o.kind == "name" { SingleParts(o); NameFound(was, now, o, f); } else { GoneFound(was, now, o, f); }
    } else {
      var o :| o in was && o.kind == "enum" && f.site == o.key && f.fact.name == FirstField(o) && Gone(now, o) && LookedFor(was, now, o);
      EnumSite(o);
      GoneFound(was, now, o, f);
    }
  }
}
