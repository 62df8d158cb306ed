/** The facts a comparison computes for two records are exactly what changed. */
module ChangeExact {
  import opened Texts
  import opened EncodedValues
  import opened DumpRecords
  import opened DumpText
  import opened DumpCompare
  import opened CompareSpec
  import SignatureExact
  import SignatureFindings

  /** The facts the comparison computes for two records of one identity. */
  function Facts(o: Record, n: Record): set<Fact>
  {
    match o.kind
    case "mro" => MroFacts(o, n)
    case "call" => if Callable(o) && Callable(n) then CallFacts(CallOf(o), CallOf(n)) else {}
    case "abstract" => ObligationFacts(o, n)
    case "requires" => ObligationFacts(o, n)
    case "input" => InputFacts(o, Some(n))
    case "member" => MemberFacts(o, Some(n))
    case "enum" => EnumFacts(o, Some(n))
    case "format" => FormatFacts(o, Some(n))
    case _ => {}
  }

  lemma {:induction false} NamesShared(a: string, b: string)
    ensures SharesName(a, b) <==> exists name :: name in NamesIn(a) && name in NamesIn(b)
  {
    assert Split("", ',') == [""];
    assert NamesIn(a) == Split(Inner(a), ',') && NamesIn(b) == Split(Inner(b), ',');
    hide Split, NamesIn, Inner;
  }

  lemma {:induction false} BaseExact(base: string, entries: seq<string>)
    ensures BaseKept(base, entries) <==> exists e :: e in entries && BaseListed(base, e)
  {
    forall e | e in entries ensures SharesName(base, e) <==> exists name :: name in NamesIn(base) && name in NamesIn(e) {
      NamesShared(base, e);
    }
    var names := NamesIn(base);
    assert names[0] in names;
    hide SharesName, StartsWith, NamesIn;
    if base in entries && StartsWith(base, "{") { NamesShared(base, base); }
  }

  lemma {:induction false} MroExact(o: Record, n: Record, fact: Fact)
    ensures fact in MroFacts(o, n) <==> fact.LostBase? && LosesBase(o, n, fact.base)
  {
    if fact.LostBase? { BaseExact(fact.base, SplitList(FirstField(n))); }
    hide BaseKept, SplitList, BaseListed, FirstField;
  }

  lemma {:induction false} CallExact(w: ParsedCall, n: ParsedCall, fact: Fact)
    ensures fact in CallFacts(w, n) <==> CallChange(w, n, fact)
  {
    if fact.Parameter? { SignatureExact.FindingExact(w.params, n.params, fact.finding); }
    hide SignatureFindings.Findings, SignatureExact.Said;
  }

  lemma {:induction false} Fielded(rec: Record)
    requires CheckRecord(rec)
    ensures rec.fields != []
    ensures rec.kind == "input" ==> |rec.fields| == 4
    ensures rec.kind == "enum" || rec.kind == "format" ==> |rec.fields| == 2
  {
    hide CheckFields, CheckMember, IsKey, IsFormatName;
  }

  /** A checked signature or method is called. */
  lemma {:induction false} Carries(rec: Record)
    requires CheckRecord(rec)
    ensures rec.kind == "call" || (rec.kind == "member" && IsMethodForm(FirstField(rec))) ==> Callable(rec)
  {
    Fielded(rec);
    hide CheckRecord, IsMethodForm;
  }

  lemma {:induction false} SignatureChanged(o: Record, n: Record, fact: Fact)
    requires o.kind == "call" && n.kind == "call" && CheckRecord(o) && CheckRecord(n)
    ensures Callable(o) && Callable(n) && (fact in CallFacts(CallOf(o), CallOf(n)) <==> SignatureChange(o, n, fact))
  {
    Carries(o);
    Carries(n);
    hide CheckRecord, IsMethodForm, CallOf;
    CallExact(CallOf(o), CallOf(n), fact);
    hide CallFacts, CallChange;
  }

  lemma {:induction false} AccessorExact(w: string, m: string, fact: Fact)
    requires |w| == 12 && |m| == 12
    ensures fact in AccessorFacts(w, m) <==> fact.LostAccessor? && LosesPart(w, m, fact.part)
  {
    AccessorNames();
    if fact.LostAccessor? && fact in AccessorFacts(w, m) {
      var i := if fact.part == "getter" then 9 else if fact.part == "setter" then 10 else 11;
      assert w[i] != '-' && m[i] == '-' && fact.part == Accessor(i);
    }
  }

  lemma {:induction false} AccessorNames()
    ensures "getter" != "setter" && "getter" != "deleter" && "setter" != "deleter"
  {
    assert "getter"[0] == 'g' && "setter"[0] == 's' && "deleter"[0] == 'd';
  }

  lemma {:induction false} PropertyLength(rec: Record)
    requires CheckRecord(rec) && rec.kind == "member" && StartsWith(FirstField(rec), "property:")
    ensures |FirstField(rec)| == 12
  {
    PropertyNoMethod(FirstField(rec));
    var t := rec.fields[0];
    assert t[..9][0] == t[0];
    hide IsKey;
  }

  lemma {:induction false} PropertyNoMethod(t: string)
    requires StartsWith(t, "property:")
    ensures !IsMethodForm(t) && t !in ["field", "attribute", "class"] && !StartsWith(t, "classref=")
  {
    assert t[..9][0] == 'p' && t[..9] == "property:";
    assert "classref="[0] == 'c';
  }

  lemma {:induction false} PropertyExact(o: Record, n: Record, fact: Fact)
    requires CheckRecord(o) && CheckRecord(n) && o.kind == "member" && n.kind == "member"
    requires StartsWith(FirstField(o), "property:") && StartsWith(FirstField(n), "property:")
    ensures fact in MemberFacts(o, Some(n)) <==> MemberChange(o, n, fact)
  {
    PropertyLength(o);
    PropertyLength(n);
    PropertyNoMethod(FirstField(o));
    AccessorExact(FirstField(o), FirstField(n), fact);
    hide CheckRecord, StartsWith, CallOf, Callable, AccessorFacts, LosesPart, CallChange, FirstField;
  }

  /** Members of two forms changed their kind, and nothing else is said of them. */
  lemma {:induction false} OtherForm(o: Record, n: Record, fact: Fact)
    requires FirstField(o) != FirstField(n) && !(StartsWith(FirstField(o), "property:") && StartsWith(FirstField(n), "property:"))
    ensures fact in MemberFacts(o, Some(n)) <==> MemberChange(o, n, fact)
  {
    hide CheckRecord, StartsWith, CallOf, Callable, AccessorFacts, LosesPart, FirstField, CallChange, CallFacts, IsMethodForm;
  }

  /** Of members of one form only methods are compared further. */
  lemma {:induction false} SameForm(o: Record, n: Record)
    requires CheckRecord(o) && CheckRecord(n) && o.kind == "member" && n.kind == "member"
    requires FirstField(o) == FirstField(n) && !(StartsWith(FirstField(o), "property:") && StartsWith(FirstField(n), "property:"))
    ensures IsMethodForm(FirstField(o)) ==> Callable(o) && Callable(n) && MemberFacts(o, Some(n)) == CallFacts(CallOf(o), CallOf(n))
    ensures !IsMethodForm(FirstField(o)) ==> MemberFacts(o, Some(n)) == {}
  {
    Carries(o);
    Carries(n);
    hide CheckRecord, StartsWith, CallOf, Callable, AccessorFacts, FirstField, CallFacts, IsMethodForm;
  }

  lemma {:induction false} FormExact(o: Record, n: Record, fact: Fact)
    requires CheckRecord(o) && CheckRecord(n) && o.kind == "member" && n.kind == "member"
    requires !(StartsWith(FirstField(o), "property:") && StartsWith(FirstField(n), "property:"))
    ensures fact in MemberFacts(o, Some(n)) <==> MemberChange(o, n, fact)
  {
    if FirstField(o) != FirstField(n) {
      OtherForm(o, n, fact);
    } else {
      SameForm(o, n);
      hide CheckRecord, StartsWith, CallOf, Callable, LosesPart, FirstField, MemberFacts, CallFacts;
      if IsMethodForm(FirstField(o)) { CallExact(CallOf(o), CallOf(n), fact); }
      hide CallChange;
    }
  }

  lemma {:induction false} InputExact(o: Record, n: Record, fact: Fact)
    requires |o.fields| == 4 && |n.fields| == 4
    ensures fact in InputFacts(o, Some(n)) <==> InputChange(o, n, fact)
  {
    hide SplitList, CheckValue, ValuesEqual;
  }

  lemma {:induction false} ObligationExact(o: Record, n: Record, fact: Fact)
    ensures fact in ObligationFacts(o, n) <==> ObligationChange(o, n, fact)
  {
    hide SplitList, FirstField;
  }

  lemma {:induction false} EnumExact(o: Record, n: Record, fact: Fact)
    requires |o.fields| == 2 && |n.fields| == 2
    ensures fact in EnumFacts(o, Some(n)) <==> EnumChange(o, n, fact)
  {
    hide CheckValue, ValuesEqual;
  }

  lemma {:induction false} FormatExact(o: Record, n: Record, fact: Fact)
    requires |o.fields| == 2 && |n.fields| == 2
    ensures fact in FormatFacts(o, Some(n)) <==> fact.VersionDropped? && LosesVersion(o, n, fact.column, fact.version)
  {
    assert "reads"[0] != "writes"[0];
    hide SplitList;
  }

  /** The facts are the changes. */
  lemma {:induction false} FactsExact(o: Record, n: Record, fact: Fact)
    requires CheckRecord(o) && CheckRecord(n) && Same(o, n)
    ensures fact in Facts(o, n) <==> Change(o, n, fact)
  {
    hide *;
    FactsByKind(o, n);
    ChangeByKind(o, n, fact);
    KindsAll(o);
    SameParts(o, n);
    Fielded(o);
    Fielded(n);
    match o.kind {
      case "mro" => MroExact(o, n, fact);
      case "call" => SignatureChanged(o, n, fact);
      case "member" =>
        if StartsWith(FirstField(o), "property:") && StartsWith(FirstField(n), "property:") { PropertyExact(o, n, fact); } else { FormExact(o, n, fact); }
      case "input" => InputExact(o, n, fact);
      case "enum" => EnumExact(o, n, fact);
      case "format" => FormatExact(o, n, fact);
      case "name" =>
      case _ => ObligationExact(o, n, fact);
    }
  }

  lemma {:induction false} FactsByKind(o: Record, n: Record)
    ensures o.kind == "mro" ==> Facts(o, n) == MroFacts(o, n)
    ensures o.kind == "call" ==> Facts(o, n) == if Callable(o) && Callable(n) then CallFacts(CallOf(o), CallOf(n)) else {}
    ensures o.kind == "input" ==> Facts(o, n) == InputFacts(o, Some(n))
    ensures o.kind == "member" ==> Facts(o, n) == MemberFacts(o, Some(n))
    ensures o.kind == "enum" ==> Facts(o, n) == EnumFacts(o, Some(n))
    ensures o.kind == "format" ==> Facts(o, n) == FormatFacts(o, Some(n))
    ensures o.kind == "abstract" || o.kind == "requires" ==> Facts(o, n) == ObligationFacts(o, n)
    ensures o.kind == "name" ==> Facts(o, n) == {}
  {
    hide MroFacts, InputFacts, MemberFacts, CallFacts, EnumFacts, FormatFacts, ObligationFacts, Callable, CallOf;
  }

  lemma {:induction false} ChangeByKind(o: Record, n: Record, fact: Fact)
    ensures o.kind == "mro" ==> (Change(o, n, fact) <==> fact.LostBase? && LosesBase(o, n, fact.base))
    ensures o.kind == "call" ==> (Change(o, n, fact) <==> SignatureChange(o, n, fact))
    ensures o.kind == "input" ==> (Change(o, n, fact) <==> InputChange(o, n, fact))
    ensures o.kind == "member" ==> (Change(o, n, fact) <==> MemberChange(o, n, fact))
    ensures o.kind == "enum" ==> (Change(o, n, fact) <==> EnumChange(o, n, fact))
    ensures o.kind == "format" ==> (Change(o, n, fact) <==> fact.VersionDropped? && LosesVersion(o, n, fact.column, fact.version))
    ensures o.kind == "abstract" || o.kind == "requires" ==> (Change(o, n, fact) <==> ObligationChange(o, n, fact))
    ensures o.kind == "name" ==> !Change(o, n, fact)
  {
    hide LosesBase, SignatureChange, InputChange, MemberChange, EnumChange, LosesVersion, ObligationChange;
  }

  lemma {:induction false} SameParts(o: Record, n: Record)
    requires Same(o, n)
    ensures o.kind == n.kind && o.key == n.key
  {
  }

  lemma {:induction false} KindsAll(o: Record)
    requires CheckRecord(o)
    ensures o.kind in ["name", "mro", "call", "input", "member", "abstract", "requires", "enum", "format"]
  {
    hide CheckValue, IsKey;
  }
}
