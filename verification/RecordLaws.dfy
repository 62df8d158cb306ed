/** Laws of record lines: a checked record holds no separator, so its line reads back and is one line. */
module RecordLaws {
  import opened Texts
  import opened EncodedValues
  import opened CallBinding
  import opened DumpRecords
  import EncodedLaws

  /** No field or line separator. */
  predicate Clean(t: string) { '\t' !in t && '\n' !in t }

  lemma {:induction false} NoBlankClean(t: string)
    requires NoBlank(t)
    ensures Clean(t)
  {
  }

  lemma {:induction false} JoinClean(parts: seq<string>, sep: char)
    requires forall part :: part in parts ==> NoBlank(part)
    ensures forall c :: c in Join(parts, sep) ==> c == sep || !IsBlank(c)
  {
    JoinChars(parts, sep);
    hide Join, IsBlank;
  }

  /** A list field of elements without blanks holds only their characters and single spaces. */
  lemma {:induction false} ListClean(field: string)
    requires forall x :: x in SplitList(field) ==> NoBlank(x)
    ensures Clean(field)
  {
    if field != EMPTY {
      JoinSplit(field, ' ');
      JoinClean(Split(field, ' '), ' ');
    }
  }

  lemma {:induction false} PartPlain(part: string)
    requires part == "otto" || IsName(part)
    ensures NoBlank(part) && ':' !in part && part != ""
  {
  }

  lemma {:induction false} DottedNames(t: string)
    requires forall part :: part in Split(t, '.') ==> part == "otto" || IsName(part)
    ensures NoBlank(t) && ':' !in t && t != "" && t[|t| - 1] != ':'
  {
    hide IsName;
    JoinSplit(t, '.');
    JoinChars(Split(t, '.'), '.');
    assert t != "" by {
      if t == "" { PartPlain(Split(t, '.')[0]); }
    }
    hide Split, Join, IsBlank;
    forall c | c in t ensures !IsBlank(c) && c != ':' {
      if c == '.' {
        DotPlain();
      } else {
        var part :| part in Split(t, '.') && c in part;
        PartPlain(part);
      }
    }
  }

  lemma {:induction false} DotPlain()
    ensures !IsBlank('.')
  {
  }

  /** A key holds one colon, no blank, and ends in a name. */
  lemma {:induction false} KeyShape(key: string)
    requires IsKey(key)
    ensures var colon := IndexOf(key, ':');
      colon + 1 < |key| && NoBlank(key) && ':' !in key[..colon] && ':' !in key[colon + 1..]
      && Split(key[..colon], '.')[0] == "otto"
  {
    hide IsName, Split, NoBlank;
    var colon := IndexOf(key, ':');
    var parts := Split(key[..colon], '.');
    forall part | part in parts ensures part == "otto" || IsName(part) {
      var i :| 0 <= i < |parts| && parts[i] == part;
      assert i > 0 ==> part in parts[1..] by { assert i > 0 ==> parts[1..][i - 1] == part; }
    }
    DottedNames(key[..colon]);
    DottedNames(key[colon + 1..]);
    Around(key, colon);
    KeyBlanks(key[..colon], key[colon + 1..], key);
  }

  lemma {:induction false} KeyBlanks(a: string, b: string, key: string)
    requires NoBlank(a) && NoBlank(b) && key == a + ([':'] + b)
    ensures NoBlank(key)
  {
  }

  lemma {:induction false} KeyClean(key: string)
    requires IsKey(key)
    ensures NoBlank(key) && Clean(key)
  {
    hide IsKey, NoBlank, Clean;
    KeyShape(key);
    NoBlankClean(key);
  }

  lemma {:induction false} BuiltinClean(t: string)
    requires IsBuiltin(t)
    ensures NoBlank(t)
  {
    forall i | 0 <= i < |t| ensures !IsBlank(t[i]) {
      if i < |BUILTIN| {
        assert t[i] == BUILTIN[i];
      } else {
        assert t[i] == t[|BUILTIN|..][i - |BUILTIN|];
        assert IsWord(t[i]);
      }
    }
  }

  lemma {:induction false} ParamTextsNoBlank(ps: seq<Param>)
    requires forall p :: p in ps ==> IsName(p.name)
    ensures forall t :: t in ParamTexts(ps) ==> NoBlank(t)
  {
    hide IsName, ParamText, NoBlank;
    if ps != [] {
      ParamNoBlank(ps[0]);
      ParamTextsNoBlank(ps[1..]);
    }
  }

  lemma {:induction false} CallClean(callKind: string, params: string)
    requires CheckCall(callKind, params)
    ensures Clean(callKind) && Clean(params)
  {
    hide IsBuiltin, ReadTokens, SplitList, IsName, NoBlank;
    if IsBuiltin(params) {
      BuiltinClean(params);
      NoBlankClean(params);
    } else {
      TokensNamed(SplitList(params));
      ParamTextsNoBlank(ReadTokens(SplitList(params)).value);
      ListClean(params);
    }
  }

  lemma {:induction false} PropertyClean(t: string)
    requires IsProperty(t)
    ensures Clean(t)
  {
    assert t == t[..9] + [t[9], t[10], t[11]];
  }

  lemma {:induction false} ClassRefClean(t: string)
    requires StartsWith(t, "classref=") && IsKey(t[9..])
    ensures Clean(t)
  {
    hide IsKey;
    KeyClean(t[9..]);
    assert t == "classref=" + t[9..];
  }

  lemma {:induction false} MemberClean(fields: seq<string>)
    requires fields != [] && CheckMember(fields)
    ensures forall field :: field in fields ==> Clean(field)
  {
    hide CheckCall, IsProperty, IsKey;
    if IsMethodForm(fields[0]) {
      hide Clean;
      CallClean(fields[1], fields[2]);
      MethodFormClean(fields[0]);
      assert fields == [fields[0], fields[1], fields[2]];
    } else {
      assert fields == [fields[0]];
      if IsProperty(fields[0]) {
        PropertyClean(fields[0]);
      } else if fields[0] !in ["field", "attribute", "class"] {
        ClassRefClean(fields[0]);
      }
    }
  }

  lemma {:induction false} MethodFormClean(t: string)
    requires IsMethodForm(t)
    ensures Clean(t)
  {
  }

  lemma {:induction false} ValueClean(t: string)
    requires CheckValue(t)
    ensures NoBlank(t) && Clean(t)
  {
    assert NoBlank(t);
    hide CheckValue;
  }

  lemma {:induction false} InputClean(fields: seq<string>)
    requires |fields| == 4 && CheckInput(fields)
    ensures forall field :: field in fields ==> Clean(field)
  {
    hide CheckValue, SplitList;
    ValueClean(fields[0]);
    if fields[2] != EMPTY { ValueClean(fields[2]); }
    forall route | route in SplitList(fields[3]) ensures NoBlank(route) { ValueClean(route); }
    ListClean(fields[3]);
    assert fields == [fields[0], fields[1], fields[2], fields[3]];
  }

  lemma {:induction false} FormatClean(key: string, fields: seq<string>)
    requires CheckFormat(key, fields)
    ensures Clean(key) && forall field :: field in fields ==> Clean(field)
  {
    hide CheckValue, SplitList, Split, Clean;
    FormatNameClean(key);
    forall field | field in fields ensures Clean(field) {
      forall version | version in SplitList(field) ensures NoBlank(version) {
        assert IsVersion(version);
        ValueClean(version);
      }
      ListClean(field);
    }
  }

  lemma {:induction false} FormatNameClean(t: string)
    requires IsFormatName(t)
    ensures Clean(t) && NoBlank(t) && ':' !in t
  {
  }

  lemma {:induction false} NamesClean(field: string)
    requires forall name :: name in SplitList(field) ==> IsName(name)
    ensures Clean(field)
  {
    hide IsName, NoBlank;
    forall x | x in SplitList(field) ensures NoBlank(x) { NamePlain(x); }
    ListClean(field);
  }

  lemma {:induction false} MroClean(field: string)
    requires forall entry :: entry in SplitList(field) ==> IsBuiltin(entry) || IsClassSet(entry)
    ensures Clean(field)
  {
    hide IsBuiltin, IsClassSet, NoBlank;
    forall x | x in SplitList(field) ensures NoBlank(x) {
      if IsBuiltin(x) { BuiltinClean(x); } else { EncodedLaws.ClassSetNoBlank(x); }
    }
    ListClean(field);
  }

  lemma {:induction false} BindingKindClean(t: string)
    requires IsBindingKind(t)
    ensures Clean(t)
  {
  }

  lemma {:induction false} FieldsClean(kind: string, fields: seq<string>)
    requires |fields| == Arity(kind) && CheckFields(kind, fields)
    ensures forall field :: field in fields ==> Clean(field)
  {
    hide CheckValue, CheckCall, SplitList, CheckInput, IsName, IsBuiltin, IsClassSet, Clean, IsBindingKind;
    if kind == "input" {
      InputClean(fields);
    } else if kind == "call" {
      CallClean(fields[0], fields[1]);
      assert fields == [fields[0], fields[1]];
    } else if kind == "enum" {
      NamePlain(fields[0]);
      NoBlankClean(fields[0]);
      ValueClean(fields[1]);
      assert fields == [fields[0], fields[1]];
    } else {
      assert fields == [fields[0]];
      if kind == "name" { BindingKindClean(fields[0]); }
      else if kind == "mro" { MroClean(fields[0]); }
      else { NamesClean(fields[0]); }
    }
  }

  lemma {:induction false} KindClean(kind: string)
    requires kind in KINDS
    ensures Clean(kind)
  {
  }

  lemma {:induction false} RecordClean(rec: Record)
    requires CheckRecord(rec)
    ensures forall part :: part in [rec.kind, rec.key] + rec.fields ==> Clean(part)
  {
    hide CheckFormat, CheckFields, CheckMember, IsKey, Clean, Arity;
    KindClean(rec.kind);
    if rec.kind == "format" {
      FormatClean(rec.key, rec.fields);
    } else {
      KeyClean(rec.key);
      if rec.kind == "member" { MemberClean(rec.fields); } else { FieldsClean(rec.kind, rec.fields); }
    }
  }

  /** `parse_record` inverts `render_record` exactly on the records the grammar accepts, one line each. */
  lemma {:induction false} RecordReads(rec: Record)
    ensures ParseRecord(RenderRecord(rec)) == Some(rec) <==> CheckRecord(rec)
    ensures CheckRecord(rec) ==> '\n' !in RenderRecord(rec)
  {
    hide CheckRecord, Join, Split;
    if CheckRecord(rec) {
      var parts := [rec.kind, rec.key] + rec.fields;
      RecordClean(rec);
      CleanJoin(parts);
      FieldsPresent(rec);
      assert parts[2..] == rec.fields;
    }
  }

  lemma {:induction false} CleanJoin(parts: seq<string>)
    requires parts != [] && forall part :: part in parts ==> Clean(part)
    ensures Split(Join(parts, '\t'), '\t') == parts && '\n' !in Join(parts, '\t')
  {
    SplitJoin(parts, '\t');
    JoinChars(parts, '\t');
    hide Join, Split;
  }

  lemma {:induction false} FieldsPresent(rec: Record)
    requires CheckRecord(rec)
    ensures rec.fields != [] && rec.kind in KINDS
  {
  }

  /** A line that parses is the line its record renders to. */
  lemma {:induction false} RecordWrites(line: string)
    requires ParseRecord(line).Some?
    ensures RenderRecord(ParseRecord(line).value) == line && CheckRecord(ParseRecord(line).value)
  {
    hide CheckRecord, Join;
    var parts := Split(line, '\t');
    JoinSplit(line, '\t');
    assert parts == [parts[0], parts[1]] + parts[2..];
  }

  /** A key never starts with a dot. */
  lemma {:induction false} KeyStart(key: string)
    requires IsKey(key)
    ensures key != "" && key[0] != '.'
  {
    KeyShape(key);
    hide IsKey;
    var colon := IndexOf(key, ':');
    var path := key[..colon];
    assert Split("", '.') == [""];
    assert path != "" && path[0] == key[0];
  }

  /** A member's key is its owner, a dot and its name. */
  lemma {:induction false} MemberKey(key: string)
    requires IsKey(key)
    ensures key == if OwnerPart(key) == "" then NamePart(key) else OwnerPart(key) + (['.'] + NamePart(key))
  {
    KeyStart(key);
    hide IsKey;
    var dot := LastIndex(key, '.');
    if dot > 0 { Around(key, dot); }
  }

  lemma {:induction false} KeyPresent(rec: Record)
    requires CheckRecord(rec)
    ensures rec.kind != "format" ==> IsKey(rec.key)
  {
  }

  /** The call a record carries is written in two neighbouring fields: its kind, and its builtin or its parameters. */
  lemma {:induction false} CallReads(rec: Record)
    requires CheckRecord(rec) && CarriesCall(rec)
    ensures var (at, c) := (if rec.kind == "call" then 0 else 1, CallOf(rec));
      |rec.fields| == at + 2 && c.callKind == rec.fields[at] && c.callKind in ["sync", "coroutine", "asyncgen"]
      && if IsBuiltin(rec.fields[at + 1]) then c.params == [] && c.builtin.Some? && "@builtin:" + c.builtin.value == rec.fields[at + 1]
         else c.builtin.None? && RenderParams(c.params) == rec.fields[at + 1]
  {
    var at := if rec.kind == "call" then 0 else 1;
    CallFields(rec);
    var text := rec.fields[at + 1];
    hide CheckRecord, CarriesCall, RenderParams, ReadTokens, SplitList;
    if IsBuiltin(text) { BuiltinText(text); } else { ParamsWritten(text); }
    hide IsBuiltin;
  }

  lemma {:induction false} BuiltinText(t: string)
    requires IsBuiltin(t)
    ensures |t| > 9 && "@builtin:" + t[9..] == t
  {
    assert t[..18] == BUILTIN && BUILTIN[..9] == "@builtin:";
    assert t == t[..9] + t[9..] && t[..9] == t[..18][..9];
  }

  lemma {:induction false} CallFields(rec: Record)
    requires CheckRecord(rec) && CarriesCall(rec)
    ensures var at := if rec.kind == "call" then 0 else 1;
      |rec.fields| == at + 2 && CheckCall(rec.fields[at], rec.fields[at + 1])
  {
    hide CheckCall, IsKey, CheckFormat;
  }
}
