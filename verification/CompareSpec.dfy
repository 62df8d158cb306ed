/** What a comparison of two dumps has to report, over their records. */
module CompareSpec {
  import opened Texts
  import opened EncodedValues
  import opened DumpRecords
  import opened DumpText
  import opened DumpCompare
  import SignatureExact

  // --- records among each other ------------------------------------------------------------

  /** Two records of one kind and key and, for an input or an enum member, one sub-key. */
  predicate Same(o: Record, n: Record)
  {
    o.kind == n.kind && o.key == n.key && (o.kind == "input" || o.kind == "enum" ==> FirstField(o) == FirstField(n))
  }

  /** No record stands for `o` any more. */
  predicate Gone(rs: seq<Record>, o: Record) { forall n :: n in rs ==> !Same(o, n) }

  /** Both dumps have the binding, as the same kind. */
  predicate Survives(was: seq<Record>, now: seq<Record>, key: string)
  {
    exists o, n :: o in was && n in now && o.kind == "name" && o.key == key && Same(o, n) && FirstField(o) == FirstField(n)
  }

  /** A member's key is its binding's, a dot and its name; any other record has its binding's key. */
  ghost predicate BelongsTo(o: Record, key: string)
  {
    if o.kind == "member" then exists name: string :: '.' !in name && o.key == key + (['.'] + name) else o.key == key
  }

  /** An old record the comparison looks for: a format, or a record of a binding that survives. */
  ghost predicate LookedFor(was: seq<Record>, now: seq<Record>, o: Record)
  {
    o in was && (o.kind == "format" || exists key :: BelongsTo(o, key) && Survives(was, now, key))
  }

  /** Such a record and the newer one that stands for it. */
  ghost predicate Pair(was: seq<Record>, now: seq<Record>, o: Record, n: Record)
  {
    LookedFor(was, now, o) && n in now && Same(o, n)
  }

  /** The place a finding about the record names. */
  function SiteFor(o: Record): string
  {
    if o.kind == "input" then o.key + (" input " + FirstField(o)) else if o.kind == "format" then "format " + o.key else o.key
  }

  // --- what changed ------------------------------------------------------------------------

  /** The names between an entry's braces. */
  function NamesIn(e: string): seq<string>
  {
    if |e| >= 2 then Split(e[1..|e| - 1], ',') else [""]
  }

  /** An entry stands for the base: it is the same, or both are sets of names with one in common. */
  predicate BaseListed(base: string, e: string)
  {
    e == base
    || (StartsWith(base, "{") && StartsWith(e, "{") && exists name :: name in NamesIn(base) && name in NamesIn(e))
  }

  predicate LosesBase(o: Record, n: Record, base: string)
  {
    base in SplitList(FirstField(o)) && forall e :: e in SplitList(FirstField(n)) ==> !BaseListed(base, e)
  }

  predicate LosesVersion(o: Record, n: Record, column: string, v: string)
  {
    |o.fields| == 2 && |n.fields| == 2
    && ((column == "reads" && v in SplitList(o.fields[0]) && v !in SplitList(n.fields[0]))
        || (column == "writes" && v in SplitList(o.fields[1]) && v !in SplitList(n.fields[1])))
  }

  predicate EqualValues(a: string, b: string) { CheckValue(a) && CheckValue(b) && ValuesEqual(a, b) }

  /** The accessor a letter of a property's form tells of. */
  function Accessor(i: nat): string
  {
    if i == 9 then "getter" else if i == 10 then "setter" else "deleter"
  }

  /** A part is lost where its letter became a dash. */
  predicate LosesPart(w: string, m: string, part: string)
  {
    exists i :: 9 <= i < 12 && i < |w| && i < |m| && w[i] != '-' && m[i] == '-' && part == Accessor(i)
  }

  /** What is said of two calls. */
  ghost predicate CallChange(w: ParsedCall, n: ParsedCall, fact: Fact)
  {
    match fact
    case CallKindChanged(a, b) => a == w.callKind && b == n.callKind && a != b
    case ConstructorChanged => w.builtin != n.builtin
    case Parameter(p) => w.builtin.None? && n.builtin.None? && SignatureExact.Said(w.params, n.params, p)
    case _ => false
  }

  /** Signatures are compared as calls. */
  ghost predicate SignatureChange(o: Record, n: Record, fact: Fact)
  {
    o.kind == "call" && n.kind == "call" && CheckRecord(o) && CheckRecord(n) && CallChange(CallOf(o), CallOf(n), fact)
  }

  /** A member may lose an accessor, or become another form, or change as it is called. */
  ghost predicate MemberChange(o: Record, n: Record, fact: Fact)
  {
    var w, m := FirstField(o), FirstField(n);
    match fact
    case LostAccessor(part) => StartsWith(w, "property:") && StartsWith(m, "property:") && LosesPart(w, m, part)
    case KindChanged(a, b) => !(StartsWith(w, "property:") && StartsWith(m, "property:")) && a == w && b == m && w != m
    case _ =>
      w == m && w in ["method", "classmethod", "staticmethod"] && o.kind == "member" && n.kind == "member"
      && CheckRecord(o) && CheckRecord(n) && CallChange(CallOf(o), CallOf(n), fact)
  }

  /** An input has a name, whether it is required, its default and its routes. */
  predicate InputChange(o: Record, n: Record, fact: Fact)
  {
    |o.fields| == 4 && |n.fields| == 4
    && var demanded := o.fields[1] == "optional" && n.fields[1] == "required";
       match fact
       case BecameRequired => demanded
       case DefaultChanged(w, m) =>
         !demanded && w == o.fields[2] && m == n.fields[2] && w != EMPTY && m != EMPTY && !EqualValues(w, m)
       case RouteRemoved(route) => route in SplitList(o.fields[3]) && route !in SplitList(n.fields[3])
       case _ => false
  }

  predicate ObligationChange(o: Record, n: Record, fact: Fact)
  {
    fact.NewObligation? && fact.name in SplitList(FirstField(n)) && fact.name !in SplitList(FirstField(o))
  }

  predicate EnumChange(o: Record, n: Record, fact: Fact)
  {
    |o.fields| == 2 && |n.fields| == 2 && fact == EnumChanged(o.fields[0], o.fields[1], n.fields[1])
    && !EqualValues(o.fields[1], n.fields[1])
  }

  /** What changed from `o` to `n`, two records of one kind, is `fact`. */
  ghost predicate Change(o: Record, n: Record, fact: Fact)
  {
    match o.kind
    case "mro" => fact.LostBase? && LosesBase(o, n, fact.base)
    case "call" => SignatureChange(o, n, fact)
    case "member" => MemberChange(o, n, fact)
    case "input" => InputChange(o, n, fact)
    case "abstract" => ObligationChange(o, n, fact)
    case "requires" => ObligationChange(o, n, fact)
    case "enum" => EnumChange(o, n, fact)
    case "format" => fact.VersionDropped? && LosesVersion(o, n, fact.column, fact.version)
    case _ => false
  }

  // --- what is reported --------------------------------------------------------------------

  /** An old binding, or an old input, member or format looked for, that is gone. */
  ghost predicate ReportsRemoved(was: seq<Record>, now: seq<Record>, site: string)
  {
    exists o ::
      o in was && site == SiteFor(o) && Gone(now, o)
      && (o.kind == "name" || (o.kind in ["member", "input", "format"] && LookedFor(was, now, o)))
  }

  ghost predicate ReportsEnumRemoved(was: seq<Record>, now: seq<Record>, site: string, name: string)
  {
    exists o :: o in was && o.kind == "enum" && site == o.key && name == FirstField(o) && Gone(now, o) && LookedFor(was, now, o)
  }

  /** A binding of another kind. */
  ghost predicate ReportsKind(was: seq<Record>, now: seq<Record>, f: Finding)
  {
    exists o, n ::
      o in was && n in now && o.kind == "name" && Same(o, n) && FirstField(o) != FirstField(n)
      && f == Finding(o.key, KindChanged(FirstField(o), FirstField(n)))
  }

  /** A required input no old record stands for, of a binding that survives. */
  ghost predicate ReportsNewInput(was: seq<Record>, now: seq<Record>, site: string)
  {
    exists n ::
      n in now && n.kind == "input" && site == SiteFor(n) && Gone(was, n) && Survives(was, now, n.key)
      && |n.fields| == 4 && n.fields[1] == "required"
  }

  ghost predicate ReportsChange(was: seq<Record>, now: seq<Record>, f: Finding)
  {
    exists o, n :: Pair(was, now, o, n) && f.site == SiteFor(o) && Change(o, n, f.fact)
  }

  /** What a comparison has to report. */
  ghost predicate Reported(was: seq<Record>, now: seq<Record>, f: Finding)
  {
    (f.fact == Removed && ReportsRemoved(was, now, f.site))
    || (f.fact.EnumRemoved? && ReportsEnumRemoved(was, now, f.site, f.fact.name))
    || ReportsKind(was, now, f)
    || (f.fact == NewRequiredInput && ReportsNewInput(was, now, f.site))
    || ReportsChange(was, now, f)
  }

  /** The records of a loaded dump. */
  ghost predicate Loadable(rs: seq<Record>) { AllChecked(rs) && DistinctIdentities(rs) }
}
