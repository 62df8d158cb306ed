/** A whole dump: its canonical order, its text, and reading it back. */
module DumpText {
  import opened Texts
  import opened EncodedValues
  import opened DumpRecords

  const HEADER := "# api-snapshot v2"

  const SCHEMA_PREFIX := "# producer-schema "

  // --- records among each other ------------------------------------------------------------

  /** The binding a record belongs to. */
  function BindingOf(rec: Record): string
  {
    if rec.kind == "member" then OwnerPart(rec.key) else rec.key
  }

  /** The first field; every checked record has one. */
  function FirstField(rec: Record): string
  {
    if rec.fields == [] then "" else rec.fields[0]
  }

  /** Kind and key, plus the sub-key of an input or an enum. */
  function Identity(rec: Record): seq<string>
  {
    if rec.kind == "input" || rec.kind == "enum" then [rec.kind, rec.key, FirstField(rec)] else [rec.kind, rec.key]
  }

  predicate Allows(bindingKind: string, kind: string)
  {
    kind == "name"
    || match bindingKind
       case "function" => kind == "call"
       case "callable" => kind == "call"
       case "class" => kind in ["mro", "call", "member", "abstract"]
       case "model" => kind in ["mro", "input", "member", "abstract"]
       case "protocol" => kind in ["mro", "member", "requires"]
       case "enum" => kind in ["mro", "member", "enum"]
       case "typeddict" => kind == "input"
       case _ => false
  }

  function Required(bindingKind: string): seq<string>
  {
    match bindingKind
    case "function" => ["call"]
    case "callable" => ["call"]
    case "class" => ["abstract", "call", "mro"]
    case "model" => ["abstract", "mro"]
    case "protocol" => ["mro", "requires"]
    case "enum" => ["mro"]
    case _ => []
  }

  predicate AllChecked(rs: seq<Record>) { forall rec :: rec in rs ==> CheckRecord(rec) }

  ghost predicate DistinctIdentities(rs: seq<Record>)
  {
    forall i, j :: 0 <= i < j < |rs| ==> Identity(rs[i]) != Identity(rs[j])
  }

  /** A `name` record of `key` whose kind of binding may carry a `kind` record. */
  predicate NamesFor(name: Record, key: string, kind: string)
  {
    name.kind == "name" && name.key == key && Allows(FirstField(name), kind)
  }

  ghost predicate Owned(rs: seq<Record>)
  {
    forall rec :: rec in rs && rec.kind != "format" ==> exists name :: name in rs && NamesFor(name, BindingOf(rec), rec.kind)
  }

  predicate IsRecordOf(rec: Record, kind: string, key: string) { rec.kind == kind && rec.key == key }

  ghost predicate Complete(rs: seq<Record>)
  {
    forall name, needed :: name in rs && name.kind == "name" && needed in Required(FirstField(name)) ==>
      exists rec :: rec in rs && IsRecordOf(rec, needed, name.key)
  }

  /** What `Dump` demands of its records. */
  ghost predicate Structured(rs: seq<Record>)
  {
    DistinctIdentities(rs) && Owned(rs) && Complete(rs)
  }

  // --- canonical order ---------------------------------------------------------------------

  function KindRank(kind: string): string
  {
    if kind == "name" then "0" else if kind == "mro" then "1" else if kind == "call" then "2"
    else if kind == "input" then "3" else if kind == "member" then "4" else if kind == "abstract" then "5"
    else if kind == "requires" then "6" else if kind == "enum" then "7" else "8"
  }

  /** Formats last; then by binding, kind and sub-key. Enum members tie. */
  function SortKey(rec: Record): (r: seq<string>)
    ensures |r| == 4
  {
    if rec.kind == "format" then ["1", rec.key, "0", ""]
    else
      ["0", BindingOf(rec), KindRank(rec.kind),
       if rec.kind == "member" then NamePart(rec.key) else if rec.kind == "input" then FirstField(rec) else ""]
  }

  function Keys(rs: seq<Record>): (r: seq<Keyed<Record>>)
    ensures |r| == |rs|
    ensures forall i :: 0 <= i < |rs| ==> r[i] == Keyed(SortKey(rs[i]), rs[i])
  {
    if rs == [] then [] else [Keyed(SortKey(rs[0]), rs[0])] + Keys(rs[1..])
  }

  function Carried(xs: seq<Keyed<Record>>): (r: seq<Record>)
    ensures |r| == |xs|
    ensures forall i :: 0 <= i < |xs| ==> r[i] == xs[i].item
  {
    if xs == [] then [] else [xs[0].item] + Carried(xs[1..])
  }

  /** `sorted(records, key=_sort_key)` */
  function SortRecords(rs: seq<Record>): (r: seq<Record>)
    ensures |r| == |rs|
  {
    Carried(Sort(Keys(rs)))
  }

  // --- text --------------------------------------------------------------------------------

  function Unlines(lines: seq<string>): string
  {
    if lines == [] then "" else lines[0] + (['\n'] + Unlines(lines[1..]))
  }

  function RecordLines(rs: seq<Record>): (r: seq<string>)
    ensures |r| == |rs|
  {
    if rs == [] then [] else [RenderRecord(rs[0])] + RecordLines(rs[1..])
  }

  /** `render_dump` */
  function RenderDump(rs: seq<Record>, schema: int): string
  {
    Unlines([HEADER, SCHEMA_PREFIX + IntText(schema)] + RecordLines(SortRecords(rs)))
  }

  /** `producer_schema_of` */
  function SchemaOf(text: string): Option<nat>
  {
    var lines := Split(text, '\n');
    if |lines| >= 2 && StartsWith(lines[1], SCHEMA_PREFIX) && AllDigits(lines[1][|SCHEMA_PREFIX|..])
    then Some(ReadNat(lines[1][|SCHEMA_PREFIX|..]))
    else None
  }

  function ReadLines(lines: seq<string>): (r: Option<seq<Record>>)
    ensures r.Some? ==> AllChecked(r.value)
  {
    if lines == [] then Some([])
    else
      match (ParseRecord(lines[0]), ReadLines(lines[1..]))
      case (Some(rec), Some(rest)) => Some([rec] + rest)
      case _ => None
  }

  datatype Dump = Dump(schema: nat, records: seq<Record>)

  /** `parse_dump` */
  ghost function ParseDump(text: string): (r: Option<Dump>)
    ensures r.Some? ==> AllChecked(r.value.records)
  {
    if text == "" || text[|text| - 1] != '\n' then None
    else
      var lines := Split(text[..|text| - 1], '\n');
      if lines[0] != HEADER || SchemaOf(text).None? then None
      else
        var records := ReadLines(if |lines| <= 2 then [] else lines[2..]);
        if records.Some? && Structured(records.value) then Some(Dump(SchemaOf(text).value, records.value)) else None
  }
}
