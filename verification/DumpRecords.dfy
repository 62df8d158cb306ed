/** The dump's record lines: their grammar, how one is read and how it is written. */
module DumpRecords {
  import opened Texts
  import opened EncodedValues
  import opened CallBinding

  const KINDS: seq<string> :=
    ["name", "mro", "call", "input", "member", "abstract", "requires", "enum", "format"]

  const EMPTY := "-"

  /** What a line of a dump says, split at its tabs. */
  datatype Record = Record(kind: string, key: string, fields: seq<string>)

  predicate IsBindingKind(t: string)
  {
    t in ["module", "alias", "typeddict", "enum", "protocol", "model", "class", "function", "callable", "value"]
  }

  predicate IsCallKind(t: string) { t in ["sync", "coroutine", "asyncgen"] }

  predicate IsMethodForm(t: string) { t in ["method", "classmethod", "staticmethod"] }

  // --- pieces ------------------------------------------------------------------------------

  /** The index of the last `c` in `t`, or -1. */
  function LastIndex(t: string, c: char): (r: int)
    ensures -1 <= r < |t|
    ensures r >= 0 ==> t[r] == c
    ensures forall i :: r < i < |t| ==> t[i] != c
  {
    if t == "" then -1
    else
      var r := LastIndex(t[1..], c);
      if r < 0 then (if t[0] == c then 0 else -1) else r + 1
  }

  /** The binding a member's key belongs to: what comes before its last dot. */
  function OwnerPart(key: string): string
  {
    var dot := LastIndex(key, '.');
    if dot < 0 then "" else key[..dot]
  }

  function NamePart(key: string): string { key[LastIndex(key, '.') + 1..] }

  /** A list field's elements; `-` is the empty list. */
  function SplitList(field: string): seq<string>
  {
    if field == EMPTY then [] else Split(field, ' ')
  }

  /** `otto[.<name>]...:<name>[.<name>]...` */
  predicate IsKey(t: string)
  {
    var colon := IndexOf(t, ':');
    colon < |t|
    && (var parts := Split(t[..colon], '.');
        parts[0] == "otto" && forall part :: part in parts[1..] ==> IsName(part))
    && forall part :: part in Split(t[colon + 1..], '.') ==> IsName(part)
  }

  predicate IsWord(c: char) { IsNameStart(c) || IsDigit(c) }

  const BUILTIN := "@builtin:builtins."

  predicate IsBuiltin(t: string)
  {
    StartsWith(t, BUILTIN) && |t| > |BUILTIN| && forall c :: c in t[|BUILTIN|..] ==> IsWord(c)
  }

  // --- parameters --------------------------------------------------------------------------

  function KindText(kind: Kind): string
  {
    match kind case PO => "PO" case PK => "PK" case VP => "VP" case KO => "KO" case VK => "VK"
  }

  function ReadKind(t: string): Option<Kind>
  {
    if t == "PO" then Some(PO) else if t == "PK" then Some(PK) else if t == "VP" then Some(VP)
    else if t == "KO" then Some(KO) else if t == "VK" then Some(VK) else None
  }

  function DefaultText(p: Param): string
  {
    match p.default case None => EMPTY case Some(value) => value
  }

  function ParamText(p: Param): string
  {
    KindText(p.kind) + ([':'] + (p.name + ([':'] + DefaultText(p))))
  }

  function ParamTexts(ps: seq<Param>): (r: seq<string>)
    ensures |r| == |ps|
  {
    if ps == [] then [] else [ParamText(ps[0])] + ParamTexts(ps[1..])
  }

  /** `render_params`. */
  function RenderParams(ps: seq<Param>): string
  {
    if ps == [] then EMPTY else Join(ParamTexts(ps), ' ')
  }

  /** A parameter as a dump writes it: kind, name and default, with colons between. */
  function ReadParam(token: string): Option<Param>
  {
    if |token| < 3 || token[2] != ':' then None
    else
      var kind := ReadKind(token[..2]);
      var rest := token[3..];
      var colon := IndexOf(rest, ':');
      if kind.None? || colon == |rest| || !IsName(rest[..colon]) then None
      else
        var default := rest[colon + 1..];
        if default == EMPTY then Some(Param(kind.value, rest[..colon], None))
        else if CheckValue(default) then Some(Param(kind.value, rest[..colon], Some(default)))
        else None
  }

  function Prepend<T>(first: seq<T>, rest: Option<seq<T>>): Option<seq<T>>
  {
    match rest case None => None case Some(xs) => Some(first + xs)
  }

  function ReadTokens(tokens: seq<string>): Option<seq<Param>>
  {
    if tokens == [] then Some([])
    else
      match ReadParam(tokens[0])
      case None => None
      case Some(p) => Prepend([p], ReadTokens(tokens[1..]))
  }

  // --- what a record may hold --------------------------------------------------------------

  predicate CheckCall(callKind: string, params: string)
  {
    IsCallKind(callKind) && (IsBuiltin(params) || ReadTokens(SplitList(params)).Some?)
  }

  predicate IsProperty(t: string)
  {
    |t| == 12 && t[..9] == "property:" && t[9] in "g-" && t[10] in "s-" && t[11] in "d-"
  }

  predicate CheckMember(fields: seq<string>)
    requires fields != []
  {
    if IsMethodForm(fields[0]) then |fields| == 3 && CheckCall(fields[1], fields[2])
    else
      |fields| == 1
      && (fields[0] in ["field", "attribute", "class"] || IsProperty(fields[0])
          || (StartsWith(fields[0], "classref=") && IsKey(fields[0][9..])))
  }

  predicate CheckInput(fields: seq<string>)
    requires |fields| == 4
  {
    CheckValue(fields[0])
    && fields[1] in ["required", "optional"]
    && (fields[2] == EMPTY || CheckValue(fields[2]))
    && forall route :: route in SplitList(fields[3]) ==> CheckValue(route)
  }

  predicate IsVersion(t: string)
  {
    ((StartsWith(t, "I:") && IsNatText(t[2..])) || (StartsWith(t, "S:") && |t| > 2)) && CheckValue(t)
  }

  predicate StrictlySorted(ts: seq<string>)
  {
    forall i, j :: 0 <= i < j < |ts| ==> Le(ts[i], ts[j]) && ts[i] != ts[j]
  }

  predicate IsFormatName(t: string)
  {
    t != "" && 'a' <= t[0] <= 'z' && "" !in Split(t, '-')
    && forall c :: c in t ==> 'a' <= c <= 'z' || IsDigit(c) || c == '-'
  }

  predicate CheckFormat(key: string, fields: seq<string>)
  {
    IsFormatName(key) && |fields| == 2
    && (forall field :: field in fields ==>
          StrictlySorted(SplitList(field)) && forall version :: version in SplitList(field) ==> IsVersion(version))
    && (SplitList(fields[0]) != [] || SplitList(fields[1]) != [])
  }

  function Arity(kind: string): nat
  {
    if kind == "call" || kind == "enum" then 2 else if kind == "input" then 4 else 1
  }

  /** The fields of a record that is neither a member nor a format. */
  predicate CheckFields(kind: string, fields: seq<string>)
    requires |fields| == Arity(kind)
  {
    if kind == "name" then IsBindingKind(fields[0])
    else if kind == "mro" then forall entry :: entry in SplitList(fields[0]) ==> IsBuiltin(entry) || IsClassSet(entry)
    else if kind == "call" then CheckCall(fields[0], fields[1])
    else if kind == "input" then CheckInput(fields)
    else if kind == "enum" then IsName(fields[0]) && CheckValue(fields[1])
    else forall name :: name in SplitList(fields[0]) ==> IsName(name)
  }

  /** `parse_record` accepts the record. */
  predicate CheckRecord(rec: Record)
  {
    rec.kind in KINDS && rec.fields != []
    && if rec.kind == "format" then CheckFormat(rec.key, rec.fields)
       else
         IsKey(rec.key)
         && if rec.kind == "member" then CheckMember(rec.fields)
            else |rec.fields| == Arity(rec.kind) && CheckFields(rec.kind, rec.fields)
  }

  // --- reading and writing a line ----------------------------------------------------------

  function RenderRecord(rec: Record): string { Join([rec.kind, rec.key] + rec.fields, '\t') }

  function ParseRecord(line: string): Option<Record>
  {
    var parts := Split(line, '\t');
    if |parts| < 3 then None
    else
      var rec := Record(parts[0], parts[1], parts[2..]);
      if CheckRecord(rec) then Some(rec) else None
  }

  /** A call a record carries: a signature, or a builtin constructor. */
  datatype ParsedCall = ParsedCall(callKind: string, params: seq<Param>, builtin: Option<string>)

  predicate CarriesCall(rec: Record)
  {
    rec.fields != [] && (rec.kind == "call" || (rec.kind == "member" && IsMethodForm(rec.fields[0])))
  }

  /** `parse_call` on a checked record. */
  function CallOf(rec: Record): ParsedCall
    requires CheckRecord(rec) && CarriesCall(rec)
  {
    var at := if rec.kind == "call" then 0 else 1;
    assert CheckCall(rec.fields[at], rec.fields[at + 1]);
    if IsBuiltin(rec.fields[at + 1]) then ParsedCall(rec.fields[at], [], Some(rec.fields[at + 1][9..]))
    else ParsedCall(rec.fields[at], ReadTokens(SplitList(rec.fields[at + 1])).value, None)
  }

  // --- parameters read back ----------------------------------------------------------------

  lemma {:induction false} NamePlain(name: string)
    requires IsName(name)
    ensures ':' !in name && '.' !in name && NoBlank(name)
  {
  }

  lemma {:induction false} DefaultPlain(p: Param)
    ensures NoBlank(DefaultText(p)) && (DefaultText(p) == EMPTY <==> p.default.None?)
    ensures p.default.Some? ==> CheckValue(p.default.value)
  {
  }

  lemma {:induction false} KindReads(kind: Kind)
    ensures ReadKind(KindText(kind)) == Some(kind) && |KindText(kind)| == 2 && NoBlank(KindText(kind))
  {
  }

  lemma {:induction false} ParamNoBlank(p: Param)
    requires IsName(p.name)
    ensures NoBlank(ParamText(p)) && |ParamText(p)| > 1
  {
    NamePlain(p.name);
    DefaultPlain(p);
    KindReads(p.kind);
    hide CheckValue, DefaultText, IsName, KindText;
  }

  lemma {:induction false} ParamParts(p: Param)
    requires IsName(p.name)
    ensures var token := ParamText(p);
      |token| > 3 && token[..2] == KindText(p.kind) && token[2] == ':'
      && IndexOf(token[3..], ':') == |p.name| < |token[3..]|
      && token[3..][..|p.name|] == p.name && token[3..][|p.name| + 1..] == DefaultText(p)
  {
    KindReads(p.kind);
    NamePlain(p.name);
    IndexOfConcat(p.name, ':', DefaultText(p));
    hide CheckValue, DefaultText, IsName, KindText, IndexOf;
    var token, rest := ParamText(p), p.name + ([':'] + DefaultText(p));
    assert token[3..] == rest;
    assert rest[|p.name| + 1..] == DefaultText(p);
  }

  lemma {:induction false} ParamReads(p: Param)
    requires IsName(p.name)
    ensures ReadParam(ParamText(p)) == Some(p)
    ensures ' ' !in ParamText(p) && |ParamText(p)| > 1
  {
    ParamParts(p);
    ParamNoBlank(p);
    DefaultPlain(p);
    DefaultCase(p);
    KindReads(p.kind);
    hide CheckValue, DefaultText, IsName, KindText, ReadKind, IndexOf, ParamText;
  }

  lemma {:induction false} DefaultCase(p: Param)
    ensures p.default.Some? ==> DefaultText(p) == p.default.value
    ensures p.default.None? ==> DefaultText(p) == EMPTY
  {
  }

  lemma {:induction false} TokensRead(ps: seq<Param>)
    requires forall p :: p in ps ==> IsName(p.name)
    ensures ReadTokens(ParamTexts(ps)) == Some(ps)
    ensures forall t :: t in ParamTexts(ps) ==> ' ' !in t && t != EMPTY
  {
    hide ReadParam, ParamText, IsName;
    if ps != [] {
      ParamReads(ps[0]);
      TokensRead(ps[1..]);
      assert ps == [ps[0]] + ps[1..];
    }
  }

  lemma {:induction false} TokensNamed(tokens: seq<string>)
    requires ReadTokens(tokens).Some?
    ensures var ps := ReadTokens(tokens).value;
      ParamTexts(ps) == tokens && forall p :: p in ps ==> IsName(p.name)
  {
    if tokens != [] {
      TokensNamed(tokens[1..]);
      ParamWrites(tokens[0]);
      hide ReadParam, ParamText;
      assert tokens == [tokens[0]] + tokens[1..];
    }
  }

  lemma {:induction false} Around(t: string, at: nat)
    requires at < |t|
    ensures t == t[..at] + ([t[at]] + t[at + 1..])
  {
  }

  lemma {:induction false} ReadParts(token: string)
    requires ReadParam(token).Some?
    ensures var (p, colon) := (ReadParam(token).value, IndexOf(token[3..], ':'));
      KindText(p.kind) == token[..2] && token[2] == ':' && colon < |token[3..]| && p.name == token[3..][..colon]
      && DefaultText(p) == token[3..][colon + 1..] && IsName(p.name)
  {
    hide CheckValue, IsName, IndexOf;
  }

  lemma {:induction false} ParamWrites(token: string)
    requires ReadParam(token).Some?
    ensures ParamText(ReadParam(token).value) == token && IsName(ReadParam(token).value.name)
  {
    ReadParts(token);
    hide ReadParam, IsName, IndexOf, KindText, DefaultText;
    Around(token, 2);
    Around(token[3..], IndexOf(token[3..], ':'));
  }

  /** `_parse_params` inverts `render_params` exactly on the lists whose names are names. */
  lemma {:induction false} ParamsRoundTrip(ps: seq<Param>)
    ensures ReadTokens(SplitList(RenderParams(ps))) == Some(ps) <==> forall p :: p in ps ==> IsName(p.name)
  {
    hide ReadParam, ParamText, IsName;
    if forall p :: p in ps ==> IsName(p.name) {
      TokensRead(ps);
      if ps != [] {
        var texts := ParamTexts(ps);
        SplitJoin(texts, ' ');
        SplitWhole(EMPTY, ' ');
        assert [EMPTY] != texts by { assert texts[0] in texts; }
      }
    }
    if ReadTokens(SplitList(RenderParams(ps))).Some? {
      TokensNamed(SplitList(RenderParams(ps)));
    }
  }

  /** `render_params` writes back every field `_parse_params` accepts. */
  lemma {:induction false} ParamsWritten(field: string)
    requires ReadTokens(SplitList(field)).Some?
    ensures RenderParams(ReadTokens(SplitList(field)).value) == field
  {
    TokensNamed(SplitList(field));
    JoinSplit(field, ' ');
  }

  lemma {:induction false} PrependMore<T>(first: seq<T>, x: T, rest: Option<seq<T>>)
    ensures Prepend(first, Prepend([x], rest)) == Prepend(first + [x], rest)
  {
    if rest.Some? { Assoc(first, [x], rest.value); }
  }

  lemma {:induction false} PrependEnds<T>(first: seq<T>, rest: Option<seq<T>>)
    ensures Prepend([], rest) == rest
    ensures Prepend(first, Some([])) == Some(first) && Prepend(first, None) == None
  {
    if rest.Some? { assert [] + rest.value == rest.value; }
    assert first + [] == first;
  }

  /** The loop of `_parse_params`. */
  method ParseParams(field: string) returns (params: Option<seq<Param>>)
    ensures params == ReadTokens(SplitList(field))
  {
    hide ReadParam, SplitList, Prepend;
    var tokens: seq<string>, read: seq<Param> := SplitList(field), [];
    PrependEnds(read, ReadTokens(tokens));
    for i := 0 to |tokens|
      invariant ReadTokens(tokens) == Prepend(read, ReadTokens(tokens[i..]))
    {
      assert tokens[i..][0] == tokens[i] && tokens[i..][1..] == tokens[i + 1..];
      PrependEnds(read, ReadTokens(tokens));
      match ReadParam(tokens[i])
      case None => return None;
      case Some(p) =>
        PrependMore(read, p, ReadTokens(tokens[i + 1..]));
        read := read + [p];
    }
    PrependEnds(read, ReadTokens(tokens));
    return Some(read);
  }
}
