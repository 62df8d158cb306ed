/** Comparing two dumps: findings, the sites they name, and the churn they add up to. */
module DumpCompare {
  import opened Texts
  import opened EncodedValues
  import opened DumpRecords
  import opened DumpText
  import opened DumpSearch
  import CallBinding
  import SignatureFindings

  /** What a finding says, by the message it prints. */
  datatype Fact =
    | Removed
    | KindChanged(was: string, now: string)
    | LostBase(base: string)
    | CallKindChanged(was: string, now: string)
    | ConstructorChanged
    | Parameter(finding: SignatureFindings.Finding)
    | LostAccessor(part: string)
    | BecameRequired
    | DefaultChanged(was: string, now: string)
    | RouteRemoved(route: string)
    | NewRequiredInput
    | NewObligation(name: string)
    | EnumRemoved(name: string)
    | EnumChanged(name: string, was: string, now: string)
    | VersionDropped(column: string, version: string)

  /** A finding: the site it is about, and what it says of it. */
  datatype Finding = Finding(site: string, fact: Fact)

  function Field(rec: Record, i: nat): string
  {
    if i < |rec.fields| then rec.fields[i] else ""
  }

  // --- facts about one pair of records -----------------------------------------------------

  predicate SameValue(a: string, b: string) { CheckValue(a) && CheckValue(b) && ValuesEqual(a, b) }

  function Inner(t: string): string
  {
    if |t| >= 2 then t[1..|t| - 1] else ""
  }

  predicate SharesName(a: string, b: string)
  {
    exists name :: name in Split(Inner(a), ',') && name in Split(Inner(b), ',')
  }

  /** A base survives: under one of its bindings, or as the same builtin. */
  predicate BaseKept(entry: string, entries: seq<string>)
  {
    if StartsWith(entry, "{") then exists e :: e in entries && StartsWith(e, "{") && SharesName(entry, e)
    else entry in entries
  }

  function MroFacts(was: Record, now: Record): set<Fact>
  {
    set entry | entry in SplitList(FirstField(was)) && !BaseKept(entry, SplitList(FirstField(now))) :: LostBase(entry)
  }

  predicate Callable(rec: Record) { CheckRecord(rec) && CarriesCall(rec) }

  function ParameterFacts(was: seq<CallBinding.Param>, now: seq<CallBinding.Param>): set<Fact>
  {
    set f | f in SignatureFindings.Findings(was, now) :: Parameter(f)
  }

  /** `_compare_call` */
  function CallFacts(w: ParsedCall, n: ParsedCall): set<Fact>
  {
    (if w.callKind != n.callKind then {CallKindChanged(w.callKind, n.callKind)} else {})
    + (if w.builtin.Some? || n.builtin.Some?
       then (if w.builtin != n.builtin then {ConstructorChanged} else {})
       else ParameterFacts(w.params, n.params))
  }

  function AccessorFacts(was: string, now: string): set<Fact>
  {
    if |was| == 12 && |now| == 12 then
      (if was[9] != '-' && now[9] == '-' then {LostAccessor("getter")} else {})
      + (if was[10] != '-' && now[10] == '-' then {LostAccessor("setter")} else {})
      + (if was[11] != '-' && now[11] == '-' then {LostAccessor("deleter")} else {})
    else {}
  }

  function MemberFacts(was: Record, now: Option<Record>): set<Fact>
  {
    if now.None? then {Removed}
    else
      var w, n := FirstField(was), FirstField(now.value);
      if StartsWith(w, "property:") && StartsWith(n, "property:") then AccessorFacts(w, n)
      else if w != n then {KindChanged(w, n)}
      else if IsMethodForm(w) && Callable(was) && Callable(now.value) then CallFacts(CallOf(was), CallOf(now.value))
      else {}
  }

  function RouteFacts(was: seq<string>, now: seq<string>): set<Fact>
  {
    set route | route in was && route !in now :: RouteRemoved(route)
  }

  function InputFacts(was: Record, now: Option<Record>): set<Fact>
  {
    if now.None? then {Removed}
    else
      var n := now.value;
      (if Field(was, 1) == "optional" && Field(n, 1) == "required" then {BecameRequired}
       else if Field(was, 2) != EMPTY && Field(n, 2) != EMPTY && !SameValue(Field(was, 2), Field(n, 2))
       then {DefaultChanged(Field(was, 2), Field(n, 2))}
       else {})
      + RouteFacts(SplitList(Field(was, 3)), SplitList(Field(n, 3)))
  }

  function EnumFacts(was: Record, now: Option<Record>): set<Fact>
  {
    if now.None? then {EnumRemoved(FirstField(was))}
    else if !SameValue(Field(was, 1), Field(now.value, 1))
    then {EnumChanged(FirstField(was), Field(was, 1), Field(now.value, 1))}
    else {}
  }

  function ObligationFacts(was: Record, now: Record): set<Fact>
  {
    set name | name in SplitList(FirstField(now)) && name !in SplitList(FirstField(was)) :: NewObligation(name)
  }

  function FormatFacts(was: Record, now: Option<Record>): set<Fact>
  {
    if now.None? then {Removed}
    else
      (set v | v in SplitList(Field(was, 0)) && v !in SplitList(Field(now.value, 0)) :: VersionDropped("reads", v))
      + set v | v in SplitList(Field(was, 1)) && v !in SplitList(Field(now.value, 1)) :: VersionDropped("writes", v)
  }

  // --- sites -------------------------------------------------------------------------------

  function InputSite(key: string, sub: string): string { key + (" input " + sub) }

  function FormatSite(name: string): string { "format " + name }

  /** The site a record is, if it is one, with its owner. */
  function SiteEntry(rec: Record): Option<(string, string)>
  {
    if rec.kind == "name" then Some((rec.key, rec.key))
    else if rec.kind == "member" then Some((rec.key, BindingOf(rec)))
    else if rec.kind == "input" then Some((InputSite(rec.key, FirstField(rec)), rec.key))
    else if rec.kind == "format" then Some((FormatSite(rec.key), FormatSite(rec.key)))
    else None
  }

  /** `sites`: every site with its owner; a later record overrides an earlier one. */
  function Sites(rs: seq<Record>): map<string, string>
  {
    if rs == [] then map[]
    else
      var before := Sites(rs[..|rs| - 1]);
      match SiteEntry(rs[|rs| - 1])
      case None => before
      case Some((site, owner)) => before[site := owner]
  }

  // --- findings ----------------------------------------------------------------------------

  function At(site: string, facts: set<Fact>): set<Finding>
  {
    set fact | fact in facts :: Finding(site, fact)
  }

  /** The findings of one kind of record both dumps have for a binding. */
  function PairFindings(was: seq<Record>, now: seq<Record>, kind: string, key: string): set<Finding>
  {
    var w, n := Find(was, kind, key, ""), Find(now, kind, key, "");
    if w.None? || n.None? then {}
    else
      At(key,
         if kind == "mro" then MroFacts(w.value, n.value)
         else if kind == "call" then
           (if Callable(w.value) && Callable(n.value) then CallFacts(CallOf(w.value), CallOf(n.value)) else {})
         else ObligationFacts(w.value, n.value))
  }

  predicate OfBinding(rec: Record, kind: string, key: string) { rec.kind == kind && BindingOf(rec) == key }

  /** The findings about an old input, member, enum member or format, given what the newer dump has in its place. */
  function About(rec: Record, now: seq<Record>): set<Finding>
  {
    var again := Find(now, rec.kind, BindingOf(rec), SubOf(rec));
    match rec.kind
    case "input" => At(InputSite(rec.key, FirstField(rec)), InputFacts(rec, again))
    case "member" => At(rec.key, MemberFacts(rec, again))
    case "enum" => At(rec.key, EnumFacts(rec, again))
    case "format" => At(FormatSite(rec.key), FormatFacts(rec, again))
    case _ => {}
  }

  /** The findings about the old `kind` records of a binding. */
  function Gather(was: seq<Record>, now: seq<Record>, kind: string, key: string): set<Finding>
  {
    set rec, f | rec in was && OfBinding(rec, kind, key) && f in About(rec, now) :: f
  }

  /** A required input of the binding that the older dump has no input for. */
  predicate AddsRequired(rec: Record, was: seq<Record>, key: string)
  {
    OfBinding(rec, "input", key) && Find(was, "input", key, SubOf(rec)).None? && Field(rec, 1) == "required"
  }

  function NewInputFindings(was: seq<Record>, now: seq<Record>, key: string): set<Finding>
  {
    set rec | rec in now && AddsRequired(rec, was, key) :: Finding(InputSite(key, SubOf(rec)), NewRequiredInput)
  }

  /** What `compare_dumps` finds about one binding of the older dump. */
  function BindingFindings(was: seq<Record>, now: seq<Record>, key: string): set<Finding>
  {
    var w, n := Find(was, "name", key, ""), Find(now, "name", key, "");
    if w.None? then {}
    else if n.None? then {Finding(key, Removed)}
    else if FirstField(w.value) != FirstField(n.value) then
      {Finding(key, KindChanged(FirstField(w.value), FirstField(n.value)))}
    else
      PairFindings(was, now, "mro", key) + PairFindings(was, now, "call", key)
      + Gather(was, now, "input", key) + NewInputFindings(was, now, key) + Gather(was, now, "member", key)
      + PairFindings(was, now, "abstract", key) + PairFindings(was, now, "requires", key)
      + Gather(was, now, "enum", key)
  }

  function FormatFindings(was: seq<Record>, now: seq<Record>): set<Finding>
  {
    set rec, f | rec in was && rec.kind == "format" && f in About(rec, now) :: f
  }

  /** Every finding of `compare_dumps`. */
  function Findings(was: seq<Record>, now: seq<Record>): set<Finding>
  {
    (set key, f | key in BindingKeys(was) && f in BindingFindings(was, now, key) :: f) + FormatFindings(was, now)
  }

  // --- findings as text --------------------------------------------------------------------

  /** The text before the first `": "`. */
  function SiteOf(text: string): string
  {
    if |text| < 2 then text
    else if text[0] == ':' && text[1] == ' ' then ""
    else [text[0]] + SiteOf(text[1..])
  }

  /** A finding's text: its site, and whatever the message says. */
  function FindingText(f: Finding, wording: string): string { f.site + (": " + wording) }

  // --- churn -------------------------------------------------------------------------------

  /** The site a named site counts against: itself if it is old, else the binding the new input was added to. */
  function Charged(was: seq<Record>, now: seq<Record>, site: string): string
    requires site in Sites(was) || site in Sites(now)
  {
    if site in Sites(was) then site else Sites(now)[site]
  }

  /** Every finding's site can be looked up. */
  predicate Chargeable(was: seq<Record>, now: seq<Record>)
  {
    forall f :: f in Findings(was, now) ==> f.site in Sites(was) || f.site in Sites(now)
  }

  /** `_compare_v2`'s broken sites: those charged, and all a removed binding owned. */
  function Broken(was: seq<Record>, now: seq<Record>): set<string>
    requires Chargeable(was, now)
  {
    (set f | f in Findings(was, now) :: Charged(was, now, f.site))
    + set site | site in Sites(was) && Sites(was)[site] in BindingKeys(was) - BindingKeys(now)
  }

  /** The percentage of old sites that broke. */
  function Churn(was: seq<Record>, now: seq<Record>): real
    requires Chargeable(was, now)
  {
    if |Sites(was)| == 0 then 0.0 else (100 * |Broken(was, now)|) as real / |Sites(was)| as real
  }
}
