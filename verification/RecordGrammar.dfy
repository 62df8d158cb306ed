/** The record grammar put together from what a producer writes, and that the parser accepts exactly that. */
module RecordGrammar {
  import opened Texts
  import opened EncodedValues
  import opened CallBinding
  import opened DumpRecords
  import opened ValueGrammar
  import RecordLaws

  // --- what a producer writes --------------------------------------------------------------

  /** `field` lists `items`: `-` for none, else the items with a space between. */
  ghost predicate Lists(field: string, items: seq<string>)
  {
    if items == [] then field == "-"
    else field != "-" && field == Join(items, ' ') && forall item :: item in items ==> ' ' !in item
  }

  ghost predicate Names(parts: seq<string>) { forall part :: part in parts ==> IsName(part) }

  ghost predicate KeyText(t: string)
  {
    exists modules, path :: Names(modules) && Names(path) && path != []
      && t == Join(["otto"] + modules, '.') + ([':'] + Join(path, '.'))
  }

  ghost predicate BuiltinText(t: string)
  {
    exists word :: word != "" && (forall c :: c in word ==> IsNameStart(c) || '0' <= c <= '9')
      && t == "@builtin:builtins." + word
  }

  ghost predicate PropertyText(t: string)
  {
    exists get, set_, del :: get in "g-" && set_ in "s-" && del in "d-" && t == "property:" + [get, set_, del]
  }

  ghost predicate ParamsText(t: string)
  {
    exists ps: seq<Param> :: t == RenderParams(ps) && forall p :: p in ps ==> IsName(p.name)
  }

  ghost predicate CallTexts(callKind: string, params: string)
  {
    callKind in ["sync", "coroutine", "asyncgen"] && (BuiltinText(params) || ParamsText(params))
  }

  ghost predicate MemberTexts(fields: seq<string>)
  {
    || (|fields| == 3 && fields[0] in ["method", "classmethod", "staticmethod"] && CallTexts(fields[1], fields[2]))
    || fields == ["field"] || fields == ["attribute"] || fields == ["class"]
    || (|fields| == 1 && PropertyText(fields[0]))
    || exists key :: KeyText(key) && fields == ["classref=" + key]
  }

  /** A list field of values. */
  ghost predicate Values(field: string)
  {
    exists items :: Lists(field, items) && forall item :: item in items ==> CheckValue(item)
  }

  ghost predicate VersionText(t: string)
  {
    || (exists digits :: t == "I:" + digits && digits != "" && (digits == "0" || digits[0] != '0')
          && forall c :: c in digits ==> '0' <= c <= '9')
    || (exists rest :: t == "S:" + rest && rest != "" && CheckValue(t))
  }

  /** A list field of versions, each after the one before it. */
  ghost predicate Versions(field: string, items: seq<string>)
  {
    Lists(field, items) && (forall item :: item in items ==> VersionText(item))
    && forall i, j :: 0 <= i < j < |items| ==> Le(items[i], items[j]) && items[i] != items[j]
  }

  ghost predicate Lowers(t: string)
  {
    t != "" && forall c :: c in t ==> 'a' <= c <= 'z' || '0' <= c <= '9'
  }

  ghost predicate Starts(t: string) { t != "" && 'a' <= t[0] <= 'z' }

  ghost predicate FormatNameText(t: string)
  {
    exists parts :: parts != [] && t == Join(parts, '-') && (forall part :: part in parts ==> Lowers(part))
      && Starts(parts[0])
  }

  /** The fields of a record that is no format. */
  ghost predicate FieldTexts(kind: string, fields: seq<string>)
  {
    || (kind == "name" && |fields| == 1
        && fields[0] in ["module", "alias", "typeddict", "enum", "protocol", "model", "class", "function", "callable", "value"])
    || (kind == "mro" && |fields| == 1
        && exists items :: Lists(fields[0], items) && forall item :: item in items ==> BuiltinText(item) || ClassSetText(item))
    || (kind == "call" && |fields| == 2 && CallTexts(fields[0], fields[1]))
    || (kind == "input" && |fields| == 4 && CheckValue(fields[0]) && fields[1] in ["required", "optional"]
        && (fields[2] == "-" || CheckValue(fields[2])) && Values(fields[3]))
    || (kind == "member" && MemberTexts(fields))
    || (kind in ["abstract", "requires"] && |fields| == 1 && exists items :: Lists(fields[0], items) && Names(items))
    || (kind == "enum" && |fields| == 2 && IsName(fields[0]) && CheckValue(fields[1]))
  }

  ghost predicate Grammatical(rec: Record)
  {
    if rec.kind == "format" then
      FormatNameText(rec.key) && |rec.fields| == 2
      && exists reads_, writes :: Versions(rec.fields[0], reads_) && Versions(rec.fields[1], writes) && reads_ + writes != []
    else KeyText(rec.key) && FieldTexts(rec.kind, rec.fields)
  }

  // --- the pieces --------------------------------------------------------------------------

  lemma {:induction false} ListExact(field: string, items: seq<string>)
    ensures SplitList(field) == items <==> Lists(field, items)
  {
    if field != "-" {
      JoinSplit(field, ' ');
      if Lists(field, items) { SplitJoin(items, ' '); }
    } else if items != [] && field == Join(items, ' ') {
      assert !Lists(field, items);
    }
  }

  lemma {:induction false} DottedColonless(parts: seq<string>)
    requires forall part :: part in parts ==> part == "otto" || IsName(part)
    ensures ':' !in Join(parts, '.') && forall part :: part in parts ==> '.' !in part
  {
    JoinChars(parts, '.');
    forall part | part in parts ensures '.' !in part && ':' !in part {
      hide IsName;
      RecordLaws.PartPlain(part);
      if '.' in part { assert part == "otto" || IsName(part); NoDot(part); }
    }
  }

  lemma {:induction false} NoDot(part: string)
    requires part == "otto" || IsName(part)
    ensures '.' !in part
  {
  }

  lemma {:induction false} KeyExact(t: string)
    ensures IsKey(t) <==> KeyText(t)
  {
    if IsKey(t) { KeyWritten(t); }
    if KeyText(t) {
      var modules, path :| Names(modules) && Names(path) && path != [] && t == Join(["otto"] + modules, '.') + ([':'] + Join(path, '.'));
      KeyRead(modules, path);
    }
  }

  lemma {:induction false} KeyWritten(t: string)
    requires IsKey(t)
    ensures KeyText(t)
  {
    hide IsName, Split, Join;
    var colon := IndexOf(t, ':');
    var modules, path := Split(t[..colon], '.'), Split(t[colon + 1..], '.');
    JoinSplit(t[..colon], '.');
    JoinSplit(t[colon + 1..], '.');
    Around(t, colon);
    assert modules == ["otto"] + modules[1..];
    assert Names(modules[1..]) && Names(path);
  }

  lemma {:induction false} KeyRead(modules: seq<string>, path: seq<string>)
    requires Names(modules) && Names(path) && path != []
    ensures IsKey(Join(["otto"] + modules, '.') + ([':'] + Join(path, '.')))
  {
    hide IsName, Split, Join;
    var heads := ["otto"] + modules;
    var a, b := Join(heads, '.'), Join(path, '.');
    var t := a + ([':'] + b);
    DottedColonless(heads);
    DottedColonless(path);
    SplitJoin(heads, '.');
    SplitJoin(path, '.');
    FirstColon(a, b);
    assert t[..|a|] == a && t[|a| + 1..] == b;
    assert heads[1..] == modules;
  }

  lemma {:induction false} FirstColon(a: string, b: string)
    requires ':' !in a
    ensures IndexOf(a + ([':'] + b), ':') == |a|
  {
    var t := a + ([':'] + b);
    if a != "" {
      FirstColon(a[1..], b);
      assert t[1..] == a[1..] + ([':'] + b);
    }
  }

  lemma {:induction false} BuiltinExact(t: string)
    ensures IsBuiltin(t) <==> BuiltinText(t)
  {
    var head := "@builtin:builtins.";
    assert |head| == 18 && head == BUILTIN;
    if IsBuiltin(t) {
      assert t == head + t[18..];
    }
    if word :| word != "" && (forall c :: c in word ==> IsNameStart(c) || '0' <= c <= '9') && t == head + word {
      assert t[18..] == word && t[..18] == head;
    }
  }

  lemma {:induction false} PropertyExact(t: string)
    ensures IsProperty(t) <==> PropertyText(t)
  {
    if IsProperty(t) {
      assert t == "property:" + [t[9], t[10], t[11]];
    }
    if get, set_, del :| get in "g-" && set_ in "s-" && del in "d-" && t == "property:" + [get, set_, del] {
      assert t[..9] == "property:" && t[9] == get && t[10] == set_ && t[11] == del;
    }
  }

  lemma {:induction false} ParamsExact(t: string)
    ensures ReadTokens(SplitList(t)).Some? <==> ParamsText(t)
  {
    hide ReadTokens, SplitList, RenderParams, IsName;
    if ReadTokens(SplitList(t)).Some? {
      ParamsWritten(t);
      ParamsRoundTrip(ReadTokens(SplitList(t)).value);
    }
    if ps: seq<Param> :| t == RenderParams(ps) && forall p :: p in ps ==> IsName(p.name) {
      ParamsRoundTrip(ps);
    }
  }

  /** A parameter is its kind, its name and its default, with colons between. */
  lemma {:induction false} ParamForm(name: string, value: Encoded)
    ensures forall kind, letters ::
      (kind, letters) in [(PO, "PO"), (PK, "PK"), (VP, "VP"), (KO, "KO"), (VK, "VK")] ==>
      && ParamText(Param(kind, name, None)) == letters + (":" + (name + ":-"))
      && ParamText(Param(kind, name, Some(value))) == letters + (":" + (name + (":" + value)))
  {
    assert [':'] + "-" == ":-";
  }

  lemma {:induction false} VersionExact(t: string)
    ensures IsVersion(t) <==> VersionText(t)
  {
    if StartsWith(t, "I:") {
      var digits := t[2..];
      assert t == "I:" + digits;
      assert IsVersion(t) <==> IsNatText(digits) by {
        if IsNatText(digits) { DigitsPlain(digits); }
      }
      assert IsNatText(digits) ==> digits != "" && (digits == "0" || digits[0] != '0') && forall c :: c in digits ==> '0' <= c <= '9';
      hide CheckValue;
      if VersionText(t) {
        assert forall more :: t == "I:" + more ==> more == digits;
      }
    } else {
      hide CheckValue;
      assert StartsWith(t, "S:") ==> t == "S:" + t[2..];
    }
  }

  lemma {:induction false} DigitsPlain(digits: string)
    requires IsNatText(digits)
    ensures CheckValue("I:" + digits)
  {
    var t := "I:" + digits;
    assert t[2..] == digits && t[..2] == "I:";
    assert NoBlank(t) by {
      forall c | c in t ensures !IsBlank(c) {
        assert c == 'I' || c == ':' || c in digits;
      }
    }
  }

  lemma {:induction false} FormatNameExact(t: string)
    ensures IsFormatName(t) <==> FormatNameText(t)
  {
    if IsFormatName(t) { FormatNameWritten(t); }
    if FormatNameText(t) {
      var parts :| parts != [] && t == Join(parts, '-') && (forall part :: part in parts ==> Lowers(part)) && Starts(parts[0]);
      FormatNameRead(parts);
    }
  }

  lemma {:induction false} FormatNameWritten(t: string)
    requires IsFormatName(t)
    ensures FormatNameText(t)
  {
    var parts := Split(t, '-');
    JoinSplit(t, '-');
    JoinHolds(parts, '-');
    JoinStart(parts, '-');
    hide Split, Join;
    forall part | part in parts ensures Lowers(part) {
      forall c | c in part ensures 'a' <= c <= 'z' || '0' <= c <= '9' { assert c in t; }
    }
    assert parts[0] in parts;
  }

  lemma {:induction false} JoinStart(parts: seq<string>, sep: char)
    requires parts != []
    ensures parts[0] <= Join(parts, sep)
  {
  }

  lemma {:induction false} FormatNameRead(parts: seq<string>)
    requires parts != [] && (forall part :: part in parts ==> Lowers(part)) && Starts(parts[0])
    ensures IsFormatName(Join(parts, '-'))
  {
    SplitJoin(parts, '-');
    JoinChars(parts, '-');
    JoinStart(parts, '-');
    hide Split, Join;
    assert parts[0] in parts;
  }

  // --- whole records -----------------------------------------------------------------------

  lemma {:induction false} CallExact(callKind: string, params: string)
    ensures CheckCall(callKind, params) <==> CallTexts(callKind, params)
  {
    hide IsBuiltin, BuiltinText, ParamsText, ReadTokens, SplitList;
    BuiltinExact(params);
    ParamsExact(params);
  }

  lemma {:induction false} ClassRefExact(t: string)
    ensures (StartsWith(t, "classref=") && IsKey(t[9..])) <==> exists key :: KeyText(key) && [t] == ["classref=" + key]
  {
    hide IsKey, KeyText;
    if StartsWith(t, "classref=") {
      KeyExact(t[9..]);
      assert t == "classref=" + t[9..];
    }
    if key :| KeyText(key) && [t] == ["classref=" + key] {
      assert t == [t][0] == "classref=" + key;
      assert t[..9] == "classref=" && t[9..] == key;
      KeyExact(key);
    }
  }

  lemma {:induction false} MemberExact(fields: seq<string>)
    requires fields != []
    ensures CheckMember(fields) <==> MemberTexts(fields)
  {
    hide CheckCall, CallTexts, PropertyText, IsKey, KeyText;
    if |fields| == 3 { CallExact(fields[1], fields[2]); }
    PropertyExact(fields[0]);
    ClassRefExact(fields[0]);
    if |fields| == 1 {
      var t := fields[0];
      assert fields == [t];
      assert IsMethodForm(t) ==> t[0] == 'm' || t[0] == 's' || t[5] == 'm';
      assert StartsWith(t, "classref=") ==> t[0] == 'c' && t[5] == 'r';
    }
  }

  lemma {:induction false} ValuesExact(field: string)
    ensures (forall item :: item in SplitList(field) ==> CheckValue(item)) <==> Values(field)
  {
    hide CheckValue, SplitList, Lists;
    ListExact(field, SplitList(field));
    if Values(field) {
      var items :| Lists(field, items) && forall item :: item in items ==> CheckValue(item);
      ListExact(field, items);
    }
  }

  lemma {:induction false} NamesExact(field: string)
    ensures (forall name :: name in SplitList(field) ==> IsName(name)) <==> exists items :: Lists(field, items) && Names(items)
  {
    hide IsName, SplitList, Lists;
    ListExact(field, SplitList(field));
    if exists items :: Lists(field, items) && Names(items) {
      var items :| Lists(field, items) && Names(items);
      ListExact(field, items);
    } else {
      assert !Names(SplitList(field));
    }
  }

  lemma {:induction false} MroExact(field: string)
    ensures (forall entry :: entry in SplitList(field) ==> IsBuiltin(entry) || IsClassSet(entry))
      <==> exists items :: Lists(field, items) && forall item :: item in items ==> BuiltinText(item) || ClassSetText(item)
  {
    hide IsBuiltin, IsClassSet, BuiltinText, ClassSetText, SplitList, Lists;
    forall t ensures (IsBuiltin(t) <==> BuiltinText(t)) && (IsClassSet(t) <==> ClassSetText(t)) {
      BuiltinExact(t);
      ClassSetExact(t);
    }
    ListExact(field, SplitList(field));
    if exists items :: Lists(field, items) && forall item :: item in items ==> BuiltinText(item) || ClassSetText(item) {
      var items :| Lists(field, items) && forall item :: item in items ==> BuiltinText(item) || ClassSetText(item);
      ListExact(field, items);
    }
  }

  lemma {:induction false} VersionsExact(field: string, items: seq<string>)
    ensures (SplitList(field) == items && StrictlySorted(items) && forall version :: version in items ==> IsVersion(version))
      <==> Versions(field, items)
  {
    hide IsVersion, VersionText, SplitList, Lists, Le;
    forall t ensures IsVersion(t) <==> VersionText(t) { VersionExact(t); }
    ListExact(field, items);
  }

  lemma {:induction false} FormatExact(key: string, fields: seq<string>)
    ensures CheckFormat(key, fields) <==> Grammatical(Record("format", key, fields))
  {
    hide IsFormatName, FormatNameText, SplitList, IsVersion, StrictlySorted, Versions;
    FormatNameExact(key);
    if |fields| == 2 {
      assert fields == [fields[0], fields[1]];
      forall field, items ensures (SplitList(field) == items && StrictlySorted(items) && forall version :: version in items ==> IsVersion(version))
        <==> Versions(field, items)
      {
        VersionsExact(field, items);
      }
      assert Versions(fields[0], SplitList(fields[0])) && Versions(fields[1], SplitList(fields[1])) ==>
        (Grammatical(Record("format", key, fields)) <==>
         FormatNameText(key) && SplitList(fields[0]) + SplitList(fields[1]) != []);
    }
  }

  lemma {:induction false} FieldsExact(kind: string, fields: seq<string>)
    requires fields != [] && kind in KINDS && kind != "format"
    ensures (if kind == "member" then CheckMember(fields) else |fields| == Arity(kind) && CheckFields(kind, fields))
      <==> FieldTexts(kind, fields)
  {
    hide CheckMember, MemberTexts, CheckCall, CallTexts, CheckValue, Values, SplitList, Lists, IsName, IsBuiltin, IsClassSet,
      BuiltinText, ClassSetText;
    MemberExact(fields);
    MroExact(fields[0]);
    NamesExact(fields[0]);
    if |fields| == 2 { CallExact(fields[0], fields[1]); }
    if |fields| == 4 { ValuesExact(fields[3]); }
  }

  /** The parser accepts a record exactly if it is one the grammar writes. */
  lemma {:induction false} GrammarExact(rec: Record)
    ensures CheckRecord(rec) <==> Grammatical(rec)
  {
    hide CheckFormat, CheckMember, CheckFields, FieldTexts, IsKey, KeyText, FormatNameText, Versions;
    if rec.kind == "format" {
      FormatExact(rec.key, rec.fields);
    } else {
      KeyExact(rec.key);
      if rec.kind in KINDS && rec.fields != [] {
        FieldsExact(rec.kind, rec.fields);
      } else {
        NoOtherFields(rec.kind, rec.fields);
      }
    }
  }

  lemma {:induction false} NoOtherFields(kind: string, fields: seq<string>)
    requires kind !in KINDS || fields == []
    ensures !FieldTexts(kind, fields)
  {
  }
}
