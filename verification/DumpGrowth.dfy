/** Adding records to a dump breaks nothing, except by a new required input. */
module DumpGrowth {
  import opened Texts
  import opened EncodedValues
  import opened DumpRecords
  import opened DumpText
  import opened DumpSearch
  import opened DumpCompare
  import opened CallBinding
  import SignatureFindings
  import SignatureLaws

  // --- a signature against itself -----------------------------------------------------------

  /** Each keyword-only parameter agrees with the last parameter of its name: that one can be passed by
      keyword too, and keeps its default. */
  predicate NamesAgree(ps: seq<Param>)
  {
    forall p :: p in ps && p.kind == KO ==>
      p.name in SignatureFindings.Named(ps) && SignatureFindings.Named(ps)[p.name].kind != PO
      && SignatureLaws.DefaultKept(p, SignatureFindings.Named(ps)[p.name])
  }

  lemma {:induction false} EqualSelf(t: Encoded)
    ensures ValuesEqual(t, t)
  {
  }

  lemma {:induction false} SlotSelf(ps: seq<Param>, i: nat)
    requires i < |Slots(ps)|
    ensures SignatureFindings.SlotFindings(ps, ps, i) == []
  {
    hide ValuesEqual, Slots, SignatureFindings.Named, SignatureFindings.KeywordOnlyNames, HasKind;
    var p := Slots(ps)[i];
    assert p in Slots(ps);
    if p.default.Some? { EqualSelf(p.default.value); }
  }

  lemma {:induction false} KeywordSelf(ps: seq<Param>, p: Param)
    ensures SignatureFindings.KeywordFindings(p, ps) == [] <==>
      (p.kind == KO ==>
         p.name in SignatureFindings.Named(ps) && SignatureFindings.Named(ps)[p.name].kind != PO
         && SignatureLaws.DefaultKept(p, SignatureFindings.Named(ps)[p.name]))
  {
    hide ValuesEqual, SignatureFindings.Named;
  }

  lemma {:induction false} DemandSelf(ps: seq<Param>, p: Param)
    requires p in ps
    ensures SignatureFindings.KeywordRequired(ps, p) == []
  {
    assert p.kind == KO ==> p.name in SignatureFindings.KeywordNames(ps);
  }

  /** A list compares clean with itself exactly when its names agree; no other list does. */
  lemma {:induction false} SignatureSelf(ps: seq<Param>)
    ensures SignatureFindings.Findings(ps, ps) == [] <==> NamesAgree(ps)
  {
    SignatureLaws.CleanMeansEmpty(ps, ps);
    hide SignatureFindings.Findings, SignatureFindings.SlotFindings, SignatureFindings.KeywordFindings, Slots;
    hide SignatureFindings.KeywordRequired, SignatureFindings.Named, HasKind;
    forall i | 0 <= i < |Slots(ps)| ensures SignatureFindings.SlotFindings(ps, ps, i) == [] { SlotSelf(ps, i); }
    forall i | 0 <= i < |ps| ensures SignatureFindings.KeywordRequired(ps, ps[i]) == [] { DemandSelf(ps, ps[i]); }
    forall p ensures SignatureFindings.KeywordFindings(p, ps) == [] <==>
      (p.kind == KO ==>
         p.name in SignatureFindings.Named(ps) && SignatureFindings.Named(ps)[p.name].kind != PO
         && SignatureLaws.DefaultKept(p, SignatureFindings.Named(ps)[p.name]))
    {
      KeywordSelf(ps, p);
    }
  }

  /** What `def` writes has names that agree. */
  lemma {:induction false} WellFormedAgrees(ps: seq<Param>)
    requires WellFormed(ps)
    ensures NamesAgree(ps)
  {
    SignatureLaws.NamedParams(ps);
    hide SignatureFindings.Named, ValuesEqual;
    forall p | p in ps && p.kind == KO && p.default.Some? ensures ValuesEqual(p.default.value, p.default.value) {
      EqualSelf(p.default.value);
    }
  }

  /** A list no `def` could write, naming one parameter twice: the comparison takes the last of each name. */
  function TwiceNamed(): seq<Param> { [Param(KO, "a", Some("N")), Param(KO, "a", None)] }

  /** So such a list breaks itself: its own first parameter seems to have lost its default. */
  lemma {:induction false} TwiceNamedBreaks()
    ensures !WellFormed(TwiceNamed()) && !NamesAgree(TwiceNamed())
    ensures SignatureFindings.LostDefault(SignatureFindings.ByName("a")) in SignatureFindings.Findings(TwiceNamed(), TwiceNamed())
  {
    var ps := TwiceNamed();
    assert ps[0].name == ps[1].name;
    NamedLast();
    hide SignatureFindings.Named, CheckValue;
    assert ps[0] in ps;
    var first := SignatureFindings.KeywordFindings(ps[0], ps);
    assert first == [SignatureFindings.LostDefault(SignatureFindings.ByName("a"))];
    assert SignatureFindings.KeywordsFindings(ps, ps, 1) == SignatureFindings.KeywordsFindings(ps, ps, 0) + first;
    var both := SignatureFindings.KeywordsFindings(ps, ps, 2);
    assert both == SignatureFindings.KeywordsFindings(ps, ps, 1) + SignatureFindings.KeywordFindings(ps[1], ps);
    assert first[0] in both;
  }

  lemma {:induction false} NamedLast()
    ensures |TwiceNamed()| == 2 && "a" in SignatureFindings.Named(TwiceNamed())
    ensures SignatureFindings.Named(TwiceNamed())["a"] == Param(KO, "a", None)
  {
    var ps := TwiceNamed();
    assert ps[..1][..0] == [] && ps[1] == Param(KO, "a", None);
  }

  /** Two calls compare clean exactly when they are called alike and every old call still binds the same. */
  lemma {:induction false} CallExact(w: ParsedCall, n: ParsedCall)
    requires WellFormed(w.params) && WellFormed(n.params)
    ensures CallFacts(w, n) == {} <==>
      w.callKind == n.callKind && w.builtin == n.builtin && (w.builtin.None? ==> Compatible(w.params, n.params))
  {
    hide WellFormed, Compatible, SignatureFindings.Findings;
    SignatureLaws.CheckerExact(w.params, n.params);
    var found := SignatureFindings.Findings(w.params, n.params);
    if found != [] {
      assert Parameter(found[0]) in ParameterFacts(w.params, n.params) by { assert found[0] in found; }
    }
  }

  // --- a record never breaks itself --------------------------------------------------------

  /** A record whose signature, if it carries one, compares clean with itself. */
  predicate Silent(rec: Record)
  {
    Callable(rec) ==> CallOf(rec).builtin.Some? || NamesAgree(CallOf(rec).params)
  }

  lemma {:induction false} CallSelf(c: ParsedCall)
    ensures CallFacts(c, c) == {} <==> c.builtin.Some? || NamesAgree(c.params)
    ensures forall fact :: fact in CallFacts(c, c) ==> fact.Parameter?
  {
    SignatureSelf(c.params);
    hide SignatureFindings.Findings, NamesAgree;
    var found := SignatureFindings.Findings(c.params, c.params);
    if found != [] {
      assert Parameter(found[0]) in ParameterFacts(c.params, c.params) by { assert found[0] in found; }
    }
  }

  lemma {:induction false} BaseSelf(entry: string, entries: seq<string>)
    requires entry in entries
    ensures BaseKept(entry, entries)
  {
    var names := Split(Inner(entry), ',');
    assert names[0] in names;
    assert SharesName(entry, entry);
  }

  lemma {:induction false} MroSelf(rec: Record)
    ensures MroFacts(rec, rec) == {}
  {
    hide BaseKept, SplitList;
    forall entry | entry in SplitList(FirstField(rec)) ensures BaseKept(entry, SplitList(FirstField(rec))) {
      BaseSelf(entry, SplitList(FirstField(rec)));
    }
  }

  /** What a record's signature, if it carries one, says against itself. */
  function SelfFacts(rec: Record): set<Fact>
  {
    if Callable(rec) then CallFacts(CallOf(rec), CallOf(rec)) else {}
  }

  lemma {:induction false} SilentExact(rec: Record)
    ensures SelfFacts(rec) == {} <==> Silent(rec)
    ensures forall fact :: fact in SelfFacts(rec) ==> fact.Parameter?
  {
    if Callable(rec) { CallSelf(CallOf(rec)); }
    hide Callable, CallFacts, NamesAgree;
  }

  lemma {:induction false} MemberSelf(rec: Record)
    requires CheckRecord(rec) && rec.kind == "member"
    ensures MemberFacts(rec, Some(rec)) == SelfFacts(rec)
  {
    MethodNoProperty(FirstField(rec));
    hide CallFacts, StartsWith, CheckRecord, IsMethodForm, CallOf;
  }

  lemma {:induction false} MethodNoProperty(t: string)
    ensures IsMethodForm(t) ==> !StartsWith(t, "property:")
    ensures AccessorFacts(t, t) == {}
  {
    assert |"method"| == 6 && |"property:"| == 9;
    assert "property:"[0] == 'p' && "classmethod"[0] == 'c' && "staticmethod"[0] == 's';
    assert StartsWith(t, "property:") ==> t[0] == t[..9][0];
  }

  lemma {:induction false} ValueSelf(t: string)
    requires CheckValue(t)
    ensures SameValue(t, t)
  {
  }

  lemma {:induction false} InputFieldsChecked(rec: Record)
    requires CheckRecord(rec) && rec.kind == "input"
    ensures Field(rec, 2) == EMPTY || CheckValue(Field(rec, 2))
  {
    hide CheckValue, IsKey, SplitList;
  }

  lemma {:induction false} InputShape(rec: Record)
    ensures InputFacts(rec, Some(rec)) ==
      if Field(rec, 2) != EMPTY && !SameValue(Field(rec, 2), Field(rec, 2))
      then {DefaultChanged(Field(rec, 2), Field(rec, 2))} else {}
  {
    RoutesSelf(SplitList(Field(rec, 3)));
    hide SplitList, Field, SameValue, RouteFacts;
  }

  lemma {:induction false} InputSelf(rec: Record)
    requires CheckRecord(rec) && rec.kind == "input"
    ensures InputFacts(rec, Some(rec)) == {}
  {
    hide *;
    InputShape(rec);
    InputFieldsChecked(rec);
    if Field(rec, 2) != EMPTY { ValueSelf(Field(rec, 2)); }
  }

  lemma {:induction false} RoutesSelf(routes: seq<string>)
    ensures RouteFacts(routes, routes) == {}
  {
  }

  lemma {:induction false} EnumSelf(rec: Record)
    requires CheckRecord(rec) && rec.kind == "enum"
    ensures EnumFacts(rec, Some(rec)) == {}
  {
    hide CheckValue, IsKey, SameValue;
    ValueSelf(rec.fields[1]);
  }

  // --- growing -----------------------------------------------------------------------------

  /** Every record of the older dump is in the newer one. */
  ghost predicate Grown(was: seq<Record>, now: seq<Record>)
  {
    AllChecked(was) && AllChecked(now) && DistinctIdentities(now) && forall rec :: rec in was ==> rec in now
  }

  /** A record the comparison looks at: its binding is declared. */
  predicate Compared(was: seq<Record>, rec: Record) { rec in was && BindingOf(rec) in BindingKeys(was) }

  /** Every signature of the older dump the comparison looks at compares clean with itself. */
  predicate AllSilent(was: seq<Record>)
  {
    forall rec :: rec in was && Compared(was, rec) ==> Silent(rec)
  }

  /** What a grown dump finds for an old record is that record. */
  lemma {:induction false} FoundAgain(was: seq<Record>, now: seq<Record>, kind: string, owner: string, sub: string)
    requires Grown(was, now) && Find(was, kind, owner, sub).Some?
    ensures Find(now, kind, owner, sub) == Find(was, kind, owner, sub)
  {
    hide CheckRecord, DistinctIdentities, BindingOf, SubOf;
    FindAgain(now, Find(was, kind, owner, sub).value);
  }

  /** An old record is the one found in its place, in either dump. */
  lemma {:induction false} FoundItself(was: seq<Record>, now: seq<Record>, rec: Record)
    requires Grown(was, now) && rec in was
    ensures Find(was, rec.kind, BindingOf(rec), SubOf(rec)) == Some(rec) == Find(now, rec.kind, BindingOf(rec), SubOf(rec))
  {
    hide CheckRecord, DistinctIdentities, BindingOf, SubOf, Find;
    FindAgain(now, rec);
    SelfIndexed(rec);
    FoundAgain(was, now, rec.kind, BindingOf(rec), SubOf(rec));
  }

  /** The finding `f` is what the signature of an old record says against itself. */
  ghost predicate SelfFinding(was: seq<Record>, f: DumpCompare.Finding)
  {
    exists rec :: rec in was && Compared(was, rec) && f.site == rec.key && f.fact in SelfFacts(rec)
  }

  lemma {:induction false} PairsGrown(was: seq<Record>, now: seq<Record>, kind: string, key: string)
    requires Grown(was, now) && kind in ["mro", "call", "abstract", "requires"]
    ensures PairFindings(was, now, kind, key) ==
      if kind == "call" && Find(was, kind, key, "").Some? then At(key, SelfFacts(Find(was, kind, key, "").value)) else {}
  {
    hide Find, MroFacts, CallFacts, ObligationFacts, Grown, Callable, Indexed;
    var w := Find(was, kind, key, "");
    if w.Some? {
      FoundAgain(was, now, kind, key, "");
      MroSelf(w.value);
      ObligationSelf(w.value);
    }
  }

  lemma {:induction false} ObligationSelf(rec: Record)
    ensures ObligationFacts(rec, rec) == {}
  {
    hide SplitList;
  }

  lemma {:induction false} FormatSelf(rec: Record)
    ensures FormatFacts(rec, Some(rec)) == {}
  {
    hide SplitList, Field;
  }

  /** A record found again is silent but for its signature. */
  lemma {:induction false} AboutSelf(rec: Record, now: seq<Record>)
    requires CheckRecord(rec) && Find(now, rec.kind, BindingOf(rec), SubOf(rec)) == Some(rec)
    ensures About(rec, now) == if rec.kind == "member" then At(rec.key, SelfFacts(rec)) else {}
  {
    hide *;
    if rec.kind == "input" { InputSelf(rec); }
    if rec.kind == "member" { MemberSelf(rec); }
    if rec.kind == "enum" { EnumSelf(rec); }
    FormatSelf(rec);
    AboutFacts(rec, now);
  }

  lemma {:induction false} AboutFacts(rec: Record, now: seq<Record>)
    requires Find(now, rec.kind, BindingOf(rec), SubOf(rec)) == Some(rec)
    requires rec.kind == "input" ==> InputFacts(rec, Some(rec)) == {}
    requires rec.kind == "enum" ==> EnumFacts(rec, Some(rec)) == {}
    requires FormatFacts(rec, Some(rec)) == {}
    ensures About(rec, now) == if rec.kind == "member" then At(rec.key, MemberFacts(rec, Some(rec))) else {}
  {
    hide InputFacts, MemberFacts, EnumFacts, FormatFacts, Find, BindingOf, SubOf;
  }

  lemma {:induction false} AboutGrown(was: seq<Record>, now: seq<Record>, rec: Record)
    requires Grown(was, now) && rec in was
    ensures About(rec, now) == if rec.kind == "member" then At(rec.key, SelfFacts(rec)) else {}
  {
    hide CheckRecord, DistinctIdentities, BindingOf, SubOf, About, Find;
    FindAgain(now, rec);
    AboutSelf(rec, now);
  }

  lemma {:induction false} GatherGrown(was: seq<Record>, now: seq<Record>, kind: string, key: string, f: DumpCompare.Finding)
    requires Grown(was, now) && f in Gather(was, now, kind, key)
    ensures kind == "member" && exists rec :: rec in was && BindingOf(rec) == key && f.site == rec.key && f.fact in SelfFacts(rec)
  {
    hide Grown, About, BindingOf, SelfFacts;
    var rec :| rec in was && OfBinding(rec, kind, key) && f in About(rec, now);
    AboutGrown(was, now, rec);
  }

  lemma {:induction false} FormatsGrown(was: seq<Record>, now: seq<Record>)
    requires Grown(was, now)
    ensures FormatFindings(was, now) == {}
  {
    hide Grown, About;
    forall rec | rec in was && rec.kind == "format" ensures About(rec, now) == {} { AboutGrown(was, now, rec); }
  }

  /** A required input the newer dump adds to an old binding. */
  ghost predicate NewInput(was: seq<Record>, now: seq<Record>, f: DumpCompare.Finding)
  {
    f.fact == NewRequiredInput && exists rec ::
      rec in now && rec !in was && rec.kind == "input" && rec.key in BindingKeys(was)
      && f.site == InputSite(rec.key, SubOf(rec)) && Field(rec, 1) == "required"
  }

  lemma {:induction false} NewInputsGrown(was: seq<Record>, now: seq<Record>, key: string, f: DumpCompare.Finding)
    requires f in NewInputFindings(was, now, key) && key in BindingKeys(was)
    ensures NewInput(was, now, f)
  {
    hide Find, BindingKeys;
    var rec :| rec in now && AddsRequired(rec, was, key) && f == Finding(InputSite(key, SubOf(rec)), NewRequiredInput);
    assert rec in was ==> Indexed(rec, "input", key, SubOf(rec));
  }

  lemma {:induction false} CallGrown(was: seq<Record>, now: seq<Record>, key: string, f: DumpCompare.Finding)
    requires Grown(was, now) && f in PairFindings(was, now, "call", key) && key in BindingKeys(was)
    ensures SelfFinding(was, f)
  {
    PairsGrown(was, now, "call", key);
    hide Grown, PairFindings, SelfFacts, BindingKeys;
    var rec := Find(was, "call", key, "").value;
    assert rec.kind == "call" && BindingOf(rec) == key;
    assert Compared(was, rec);
  }

  lemma {:induction false} BindingGrown(was: seq<Record>, now: seq<Record>, key: string, f: DumpCompare.Finding)
    requires Grown(was, now) && f in BindingFindings(was, now, key) && key in BindingKeys(was)
    ensures NewInput(was, now, f) || SelfFinding(was, f)
  {
    hide Grown, PairFindings, NewInputFindings, Gather, Find, NewInput, SelfFacts, BindingOf, BindingKeys;
    if Find(was, "name", key, "").Some? { FoundAgain(was, now, "name", key, ""); }
    PairsGrown(was, now, "mro", key);
    PairsGrown(was, now, "abstract", key);
    PairsGrown(was, now, "requires", key);
    if f in PairFindings(was, now, "call", key) {
      CallGrown(was, now, key, f);
    } else if f in NewInputFindings(was, now, key) {
      NewInputsGrown(was, now, key, f);
    } else if f in Gather(was, now, "input", key) {
      GatherGrown(was, now, "input", key, f);
    } else if f in Gather(was, now, "enum", key) {
      GatherGrown(was, now, "enum", key, f);
    } else {
      GatherGrown(was, now, "member", key, f);
      var rec :| rec in was && BindingOf(rec) == key && f.site == rec.key && f.fact in SelfFacts(rec);
      assert Compared(was, rec);
    }
  }

  lemma {:induction false} KindKept(was: seq<Record>, now: seq<Record>, key: string)
    requires Grown(was, now) && key in BindingKeys(was)
    ensures Find(was, "name", key, "").Some? && Find(now, "name", key, "") == Find(was, "name", key, "")
  {
    hide Find, Grown;
    var name :| name in was && name.kind == "name" && name.key == key;
    assert Indexed(name, "name", key, "");
    FoundAgain(was, now, "name", key, "");
  }

  lemma {:induction false} CallFound(was: seq<Record>, now: seq<Record>, rec: Record, f: DumpCompare.Finding)
    requires Grown(was, now) && Compared(was, rec) && rec.kind == "call" && f.site == rec.key && f.fact in SelfFacts(rec)
    ensures f in PairFindings(was, now, "call", BindingOf(rec))
  {
    FoundItself(was, now, rec);
    PairsGrown(was, now, "call", rec.key);
    hide Grown, PairFindings, SelfFacts, Find, BindingKeys;
  }

  lemma {:induction false} MemberFound(was: seq<Record>, now: seq<Record>, rec: Record, f: DumpCompare.Finding)
    requires Grown(was, now) && Compared(was, rec) && rec.kind == "member" && f.site == rec.key && f.fact in SelfFacts(rec)
    ensures f in Gather(was, now, "member", BindingOf(rec))
  {
    AboutGrown(was, now, rec);
    hide About, BindingOf, Grown, SelfFacts;
    assert OfBinding(rec, "member", BindingOf(rec)) && f in About(rec, now);
  }

  lemma {:induction false} BindingFound(was: seq<Record>, now: seq<Record>, key: string, f: DumpCompare.Finding)
    requires Grown(was, now) && key in BindingKeys(was)
    requires f in PairFindings(was, now, "call", key) || f in Gather(was, now, "member", key)
    ensures f in Findings(was, now)
  {
    KindKept(was, now, key);
    hide Grown, PairFindings, Gather, BindingKeys, Find, FormatFindings, NewInputFindings;
    assert f in BindingFindings(was, now, key);
  }

  /** An old signature's facts against itself are found, whatever was added. */
  lemma {:induction false} SelfFound(was: seq<Record>, now: seq<Record>, rec: Record, f: DumpCompare.Finding)
    requires Grown(was, now) && Compared(was, rec) && f.site == rec.key && f.fact in SelfFacts(rec)
    ensures f in Findings(was, now)
  {
    ComparedParts(was, rec);
    SelfFactsKind(rec);
    hide *;
    if rec.kind == "call" { CallFound(was, now, rec, f); } else { MemberFound(was, now, rec, f); }
    BindingFound(was, now, BindingOf(rec), f);
  }

  lemma {:induction false} ComparedParts(was: seq<Record>, rec: Record)
    requires Compared(was, rec)
    ensures BindingOf(rec) in BindingKeys(was) && rec in was
  {
  }

  lemma {:induction false} SelfFactsKind(rec: Record)
    requires SelfFacts(rec) != {}
    ensures rec.kind == "call" || rec.kind == "member"
  {
  }

  /** So is a required input added to an old binding. */
  lemma {:induction false} NewInputFound(was: seq<Record>, now: seq<Record>, f: DumpCompare.Finding)
    requires Grown(was, now) && NewInput(was, now, f)
    ensures f in Findings(was, now)
  {
    var rec :| rec in now && rec !in was && rec.kind == "input" && rec.key in BindingKeys(was)
      && f.site == InputSite(rec.key, SubOf(rec)) && Field(rec, 1) == "required";
    KindKept(was, now, rec.key);
    var twin := Find(was, "input", rec.key, SubOf(rec));
    if twin.Some? {
      FoundAgain(was, now, "input", rec.key, SubOf(rec));
      FindAgain(now, rec);
    }
    hide Grown, Find, BindingKeys, PairFindings, Gather, FormatFindings, SubOf;
    assert AddsRequired(rec, was, rec.key);
    assert f in NewInputFindings(was, now, rec.key);
    assert f in BindingFindings(was, now, rec.key);
  }

  /** Records only added: the findings are exactly the required inputs the newer dump adds to old bindings,
      and what old signatures say against themselves. */
  lemma {:induction false} GrowthFindings(was: seq<Record>, now: seq<Record>, f: DumpCompare.Finding)
    requires Grown(was, now)
    ensures f in Findings(was, now) <==> NewInput(was, now, f) || SelfFinding(was, f)
  {
    hide Grown, BindingFindings, FormatFindings, BindingKeys, NewInput, SelfFacts, Compared;
    if f in Findings(was, now) {
      FormatsGrown(was, now);
      var key :| key in BindingKeys(was) && f in BindingFindings(was, now, key);
      BindingGrown(was, now, key, f);
    }
    if NewInput(was, now, f) { NewInputFound(was, now, f); }
    if SelfFinding(was, f) {
      var rec :| rec in was && Compared(was, rec) && f.site == rec.key && f.fact in SelfFacts(rec);
      SelfFound(was, now, rec, f);
    }
  }

  /** Added records alone are reported exactly where every old signature compared is silent. */
  lemma {:induction false} GrowthExact(was: seq<Record>, now: seq<Record>)
    requires Grown(was, now)
    ensures (forall f :: f in Findings(was, now) ==> NewInput(was, now, f)) <==> AllSilent(was)
  {
    hide Grown, Findings, NewInput, Silent, Compared, SelfFacts;
    if AllSilent(was) {
      forall f | f in Findings(was, now) ensures NewInput(was, now, f) {
        GrowthFindings(was, now, f);
        if SelfFinding(was, f) {
          var rec :| rec in was && Compared(was, rec) && f.site == rec.key && f.fact in SelfFacts(rec);
          SilentExact(rec);
        }
      }
    } else {
      var rec :| rec in was && Compared(was, rec) && !Silent(rec);
      SilentExact(rec);
      var fact :| fact in SelfFacts(rec);
      SelfFound(was, now, rec, Finding(rec.key, fact));
      NotInput(was, now, Finding(rec.key, fact));
    }
  }

  lemma {:induction false} NotInput(was: seq<Record>, now: seq<Record>, f: DumpCompare.Finding)
    requires f.fact.Parameter?
    ensures !NewInput(was, now, f)
  {
  }

  /** A dump compared with itself, or with any rearrangement of itself, has no finding exactly when every
      signature compared is silent. */
  lemma {:induction false} SelfCompare(was: seq<Record>, now: seq<Record>)
    requires Grown(was, now) && (forall rec :: rec in now ==> rec in was)
    ensures Findings(was, now) == {} <==> AllSilent(was)
  {
    GrowthExact(was, now);
    hide Grown, Findings, BindingKeys, AllSilent;
    forall f ensures !NewInput(was, now, f) {
    }
  }
}
