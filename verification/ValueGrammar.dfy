/** The grammar of encoded values put together from what an encoder writes, and that the check accepts exactly that. */
module ValueGrammar {
  import opened Texts
  import opened JsonText
  import opened EncodedValues
  import EncodedLaws

  ghost predicate ClassName(t: string)
  {
    t != "" && forall c :: c in t ==> c != '{' && c != '}' && c != ',' && !IsSpace(c)
  }

  ghost predicate ClassSetText(t: string)
  {
    exists names :: names != [] && (forall name :: name in names ==> ClassName(name))
      && t == ['{'] + (Join(names, ',') + ['}'])
  }

  ghost predicate Decimal(digits: string)
  {
    digits != "" && forall c :: c in digits ==> '0' <= c <= '9'
  }

  /** `0`, or digits that do not begin with one. */
  ghost predicate Number(digits: string) { digits == "0" || (Decimal(digits) && digits[0] != '0') }

  ghost predicate IntegerText(t: string)
  {
    Number(t) || exists digits :: t == "-" + digits && Number(digits) && digits != "0"
  }

  ghost predicate HexText(t: string) { forall c :: c in t ==> '0' <= c <= '9' || 'a' <= c <= 'f' }

  /** `0x`, a digit, a point, digits, `p` and a signed exponent. */
  ghost predicate HexFloatText(t: string)
  {
    exists lead: char, digits, sign: char, exponent :: HexText([lead]) && HexText(digits) && digits != "" && sign in "+-" && Decimal(exponent)
      && t == "0x" + [lead, '.'] + digits + ['p', sign] + exponent
  }

  ghost predicate FloatText(t: string)
  {
    t in ["nan", "inf", "-inf"] || HexFloatText(t) || exists u :: t == "-" + u && HexFloatText(u)
  }

  ghost predicate EnumPieces(t: string, classes: string, member: string, value: string)
  {
    ClassSetText(classes) && (member == "*" || IsName(member)) && CheckValue(value)
    && t == "E:" + (classes + (":" + (member + ("=" + value))))
  }

  ghost predicate EnumValueText(t: string)
  {
    exists classes, member, value :: EnumPieces(t, classes, member, value)
  }

  /** What a value's text may be, its parts' texts given. */
  ghost predicate ValueText(t: string)
  {
    && (forall c :: c in t ==> c !in " \t\n\r\U{b}\U{c}")
    && (|| t in ["N", "O", "B:true", "B:false"]
        || (exists u :: t == "I:" + u && IntegerText(u))
        || (exists u :: t == "F:" + u && FloatText(u))
        || (exists u :: t == "Y:" + u && HexText(u))
        || (exists u, s :: t == "S:" + u && ReadLiteral(u) == Some((s, "")))
        || (exists u, items :: (t == "T:" + u || t == "Z:" + u) && ReadList(u) == Some(items)
              && forall item :: item in items ==> CheckValue(item))
        || EnumValueText(t))
  }

  lemma {:induction false} ClassSetExact(t: string)
    ensures IsClassSet(t) <==> ClassSetText(t)
  {
    if IsClassSet(t) { ClassSetWritten(t); }
    if names :| names != [] && (forall name :: name in names ==> ClassName(name)) && t == ['{'] + (Join(names, ',') + ['}']) {
      ClassSetRead(names);
    }
  }

  lemma {:induction false} ClassSetWritten(t: string)
    requires IsClassSet(t)
    ensures ClassSetText(t)
  {
    hide IsSpace;
    var inner := t[1..|t| - 1];
    var names := Split(inner, ',');
    JoinSplit(inner, ',');
    JoinHolds(names, ',');
    hide Split, Join;
    assert t == ['{'] + (inner + ['}']);
    forall name | name in names ensures ClassName(name) {
      forall c | c in name ensures c != '{' && c != '}' && c != ',' && !IsSpace(c) {
        assert c in inner;
        assert ClassSetChar(c);
      }
    }
  }

  /** A joined text holds what its parts hold. */
  lemma {:induction false} JoinHolds(parts: seq<string>, sep: char)
    ensures forall part, c :: part in parts && c in part ==> c in Join(parts, sep)
  {
    if |parts| > 1 {
      JoinHolds(parts[1..], sep);
      assert parts == [parts[0]] + parts[1..];
    }
  }

  lemma {:induction false} ClassSetRead(names: seq<string>)
    requires names != [] && forall name :: name in names ==> ClassName(name)
    ensures IsClassSet(['{'] + (Join(names, ',') + ['}']))
  {
    hide IsSpace;
    var inner := Join(names, ',');
    var t := ['{'] + (inner + ['}']);
    SplitJoin(names, ',');
    JoinChars(names, ',');
    JoinHolds(names, ',');
    hide Split, Join;
    assert t[1..|t| - 1] == inner;
    assert names[0] in names && names[0][0] in names[0];
    assert names[0][0] in inner;
    forall c | c in inner ensures ClassSetChar(c) {
      if c == ',' { CommaPlain(); }
    }
  }

  lemma {:induction false} CommaPlain()
    ensures ClassSetChar(',')
  {
  }

  lemma {:induction false} IntegerExact(t: string)
    ensures IsIntText(t) <==> IntegerText(t)
  {
    if t != "" && t[0] == '-' {
      assert t == "-" + t[1..];
    }
    if digits :| t == "-" + digits && Number(digits) && digits != "0" {
      assert t[1..] == digits;
    }
  }

  lemma {:induction false} FloatExact(t: string)
    ensures IsFloatText(t) <==> FloatText(t)
  {
    hide IsHexFloat, HexFloatText;
    HexFloatExact(t);
    if t != "" && t[0] == '-' {
      HexFloatExact(t[1..]);
      assert t == "-" + t[1..];
    }
    HexFloatUnsigned(t);
    if u :| t == "-" + u && HexFloatText(u) {
      assert t[1..] == u;
      HexFloatExact(u);
    }
  }

  lemma {:induction false} HexFloatUnsigned(t: string)
    ensures IsHexFloat(t) ==> t != "" && t[0] != '-'
  {
    if IsHexFloat(t) { assert t[..2][0] == t[0]; }
  }

  lemma {:induction false} HexFloatExact(t: string)
    ensures IsHexFloat(t) <==> HexFloatText(t)
  {
    if IsHexFloat(t) { HexFloatWritten(t); }
    if HexFloatText(t) {
      var lead: char, digits, sign: char, exponent :| HexText([lead]) && HexText(digits) && digits != "" && sign in "+-" && Decimal(exponent)
        && t == "0x" + [lead, '.'] + digits + ['p', sign] + exponent;
      HexFloatRead(lead, digits, sign, exponent);
    }
  }

  lemma {:induction false} HexFloatWritten(t: string)
    requires IsHexFloat(t)
    ensures HexFloatText(t)
  {
    var p := IndexOf(t, 'p');
    var lead, digits, sign, exponent := t[2], t[4..p], t[p + 1], t[p + 2..];
    HexDigitExact(lead);
    forall c | c in digits ensures '0' <= c <= '9' || 'a' <= c <= 'f' { HexDigitExact(c); }
    hide IndexOf, LowerHex;
    assert t[..2] == "0x" && t[3] == '.';
    assert t == "0x" + [lead, '.'] + digits + ['p', sign] + exponent;
    assert HexText([lead]) && HexText(digits) && Decimal(exponent) && sign in "+-";
  }

  lemma {:induction false} HexDigitExact(c: char)
    ensures LowerHex(c) <==> '0' <= c <= '9' || 'a' <= c <= 'f'
  {
    assert HEX == "0123456789abcdef";
    if '0' <= c <= '9' { assert HEX[c as int - 48] == c; }
    if 'a' <= c <= 'f' { assert HEX[c as int - 87] == c; }
  }

  lemma {:induction false} HexFloatRead(lead: char, digits: string, sign: char, exponent: string)
    requires HexText([lead]) && HexText(digits) && digits != "" && sign in "+-" && Decimal(exponent)
    ensures IsHexFloat("0x" + [lead, '.'] + digits + ['p', sign] + exponent)
  {
    var head := "0x" + [lead, '.'] + digits;
    var t := head + ['p', sign] + exponent;
    assert lead in [lead];
    HexDigitExact(lead);
    forall c | c in digits ensures LowerHex(c) && c != 'p' { HexDigitExact(c); }
    assert lead != 'p' && t[..|head|] == head;
    assert 'p' !in "0x" && 'p' !in [lead, '.'] && 'p' !in digits;
    FirstAt(t, 'p', |head|);
    assert t[..2] == "0x" && t[4..|head|] == digits && t[|head| + 2..] == exponent;
  }

  lemma {:induction false} FirstAt(t: string, c: char, at: nat)
    requires at < |t| && t[at] == c && c !in t[..at]
    ensures IndexOf(t, c) == at
  {
    if at > 0 {
      assert t[0] == t[..at][0];
      assert t[1..][..at - 1] == t[..at][1..];
      FirstAt(t[1..], c, at - 1);
    }
  }

  lemma {:induction false} BlankExact(t: string)
    ensures NoBlank(t) <==> forall c :: c in t ==> c !in " \t\n\r\U{b}\U{c}"
  {
    forall c: char ensures IsBlank(c) <==> c in " \t\n\r\U{b}\U{c}" {
      assert IsBlank(c) <==> c as int in [32, 9, 10, 13, 11, 12];
    }
  }

  lemma {:induction false} EnumValueExact(t: string)
    requires NoBlank(t) && StartsWith(t, "E:")
    ensures CheckValue(t) <==> EnumValueText(t)
  {
    hide CheckValue, EnumValueText;
    if CheckValue(t) { EnumWritten(t); }
    if EnumValueText(t) { EnumRead(t); }
  }

  lemma {:induction false} EnumRead(t: string)
    requires EnumValueText(t)
    ensures CheckValue(t)
  {
    var classes, member, value :| EnumPieces(t, classes, member, value);
    hide IsName, ClassSetText, CheckValue, IsClassSet;
    ClassSetExact(classes);
    EncodedLaws.MemberNameClean(member);
    NoEmptyValue(value);
    EncodedLaws.EnumTextChecks(classes, member, value);
  }

  lemma {:induction false} NoEmptyValue(value: string)
    requires CheckValue(value)
    ensures value != ""
  {
  }

  lemma {:induction false} EnumPartsText(t: string)
    requires EnumParts(t).Some?
    ensures var parts := EnumParts(t).value;
      t == "E:" + (parts.classSet + (":" + (parts.member + ("=" + parts.value))))
  {
    var u := t[2..];
    var close := IndexOf(u, '}');
    MemberPartsText(u[..close + 1], u[close + 2..]);
    hide IndexOf, OpenSet, MemberParts;
    assert u == u[..close + 1] + (":" + u[close + 2..]);
    assert t == "E:" + u;
  }

  lemma {:induction false} MemberPartsText(classes: string, rest: string)
    ensures MemberParts(classes, rest).Some? ==>
      var parts := MemberParts(classes, rest).value;
      parts.classSet == classes && rest == parts.member + ("=" + parts.value)
  {
    var eq := IndexOf(rest, '=');
    hide IndexOf, IsSpace;
    if eq < |rest| { assert rest == rest[..eq] + ("=" + rest[eq + 1..]); }
  }

  lemma {:induction false} EnumWritten(t: string)
    requires CheckValue(t) && StartsWith(t, "E:")
    ensures EnumValueText(t)
  {
    EnumPartsExist(t);
    EnumPartsText(t);
    var parts := EnumParts(t).value;
    ClassSetExact(parts.classSet);
    hide CheckValue, IsName, EnumParts, ClassSetText, IsClassSet;
    assert EnumPieces(t, parts.classSet, parts.member, parts.value);
  }

  lemma {:induction false} TagNotEnum(t: string)
    requires StartsWith(t, "E:")
    ensures t !in ["N", "O", "B:true", "B:false"]
    ensures forall tag :: tag in ["I:", "F:", "Y:", "S:", "T:", "Z:"] ==> !StartsWith(t, tag)
  {
    assert t[..2][0] == 'E';
  }

  lemma {:induction false} EnumPartsExist(t: string)
    requires CheckValue(t) && StartsWith(t, "E:")
    ensures EnumParts(t).Some?
    ensures var parts := EnumParts(t).value;
      IsClassSet(parts.classSet) && (parts.member == "*" || IsName(parts.member)) && CheckValue(parts.value)
  {
    TagNotEnum(t);
    hide EnumParts, IsName, IsClassSet, NoBlank, ReadLiteral, ReadList, StartsWith, IsIntText, IsFloatText, LowerHex;
  }

  lemma {:induction false} Tagged(t: string, tag: string)
    requires |tag| == 2
    ensures StartsWith(t, tag) <==> exists u :: t == tag + u
    ensures forall u :: t == tag + u ==> u == t[2..]
  {
    if StartsWith(t, tag) { assert t == tag + t[2..]; }
  }

  lemma {:induction false} HexTextExact(t: string)
    ensures (forall c :: c in t ==> LowerHex(c)) <==> HexText(t)
  {
    forall c: char ensures LowerHex(c) <==> '0' <= c <= '9' || 'a' <= c <= 'f' { HexDigitExact(c); }
    hide LowerHex;
  }

  /** A text after a tag is checked as the tag says. */
  lemma {:induction false} TaggedExact(t: string)
    requires NoBlank(t) && !StartsWith(t, "E:")
    ensures CheckValue(t) <==>
      || t in ["N", "O", "B:true", "B:false"]
      || (StartsWith(t, "I:") && IsIntText(t[2..]))
      || (StartsWith(t, "F:") && IsFloatText(t[2..]))
      || (StartsWith(t, "Y:") && forall c :: c in t[2..] ==> LowerHex(c))
      || (StartsWith(t, "S:") && ReadLiteral(t[2..]).Some? && ReadLiteral(t[2..]).value.1 == "")
      || ((StartsWith(t, "T:") || StartsWith(t, "Z:"))
          && ReadList(t[2..]).Some? && forall item :: item in ReadList(t[2..]).value ==> CheckValue(item))
  {
    hide IsIntText, IsFloatText, LowerHex, ReadLiteral, NoBlank, IsClassSet, IsName;
    assert |t| >= 2 ==> t[..2] == [t[0], t[1]];
    assert EnumParts(t).None?;
    hide EnumParts;
    if (StartsWith(t, "T:") || StartsWith(t, "Z:")) && ReadList(t[2..]).Some? {
      var items := ReadList(t[2..]).value;
      hide ReadList, StartsWith;
      if forall item :: item in items ==> CheckValue(item) {
        forall i | 0 <= i < |items| ensures CheckValue(items[i]) { assert items[i] in items; }
      }
    }
  }

  lemma {:induction false} ScalarsExact(t: string)
    ensures (StartsWith(t, "I:") && IsIntText(t[2..])) <==> exists u :: t == "I:" + u && IntegerText(u)
    ensures (StartsWith(t, "F:") && IsFloatText(t[2..])) <==> exists u :: t == "F:" + u && FloatText(u)
    ensures (StartsWith(t, "Y:") && forall c :: c in t[2..] ==> LowerHex(c)) <==> exists u :: t == "Y:" + u && HexText(u)
  {
    Tagged(t, "I:");
    Tagged(t, "F:");
    Tagged(t, "Y:");
    if |t| >= 2 {
      IntegerExact(t[2..]);
      FloatExact(t[2..]);
      HexTextExact(t[2..]);
    }
    hide StartsWith, IsIntText, IntegerText, IsFloatText, FloatText, HexText, LowerHex;
    TaggedLong(t, "I:");
    TaggedLong(t, "F:");
    TaggedLong(t, "Y:");
  }

  lemma {:induction false} TaggedLong(t: string, tag: string)
    requires |tag| == 2
    ensures StartsWith(t, tag) ==> |t| >= 2 && t == tag + t[2..]
  {
    if StartsWith(t, tag) { assert t == tag + t[2..]; }
  }

  lemma {:induction false} LiteralsExact(t: string)
    ensures (StartsWith(t, "S:") && ReadLiteral(t[2..]).Some? && ReadLiteral(t[2..]).value.1 == "")
      <==> exists u, s :: t == "S:" + u && ReadLiteral(u) == Some((s, ""))
  {
    Tagged(t, "S:");
    TaggedLong(t, "S:");
    hide StartsWith, ReadLiteral;
    if StartsWith(t, "S:") && ReadLiteral(t[2..]).Some? && ReadLiteral(t[2..]).value.1 == "" {
      assert ReadLiteral(t[2..]) == Some((ReadLiteral(t[2..]).value.0, ""));
    }
  }

  lemma {:induction false} ListsExact(t: string)
    ensures ((StartsWith(t, "T:") || StartsWith(t, "Z:"))
             && ReadList(t[2..]).Some? && forall item :: item in ReadList(t[2..]).value ==> CheckValue(item))
      <==> exists u, items :: (t == "T:" + u || t == "Z:" + u) && ReadList(u) == Some(items)
             && forall item :: item in items ==> CheckValue(item)
  {
    Tagged(t, "T:");
    Tagged(t, "Z:");
    TaggedLong(t, "T:");
    TaggedLong(t, "Z:");
    hide StartsWith, ReadList, CheckValue;
    if (StartsWith(t, "T:") || StartsWith(t, "Z:")) && ReadList(t[2..]).Some?
      && forall item :: item in ReadList(t[2..]).value ==> CheckValue(item)
    {
      assert ReadList(t[2..]) == Some(ReadList(t[2..]).value);
    }
  }

  lemma {:induction false} EnumStarts(t: string)
    requires EnumValueText(t)
    ensures StartsWith(t, "E:")
  {
    var classes, member, value :| EnumPieces(t, classes, member, value);
    Tagged(t, "E:");
  }

  /** A text passes the check exactly if it is one the grammar writes. */
  lemma {:induction false} ValueExact(t: string)
    ensures CheckValue(t) <==> ValueText(t)
  {
    BlankExact(t);
    ScalarsExact(t);
    LiteralsExact(t);
    ListsExact(t);
    if EnumValueText(t) { EnumStarts(t); }
    if NoBlank(t) {
      if StartsWith(t, "E:") {
        EnumValueExact(t);
        TagNotEnum(t);
      } else {
        TaggedExact(t);
      }
    } else {
      BlankRefused(t);
    }
    hide NoBlank, StartsWith, IsIntText, IntegerText, IsFloatText, FloatText, HexText, LowerHex, ReadLiteral, ReadList,
      EnumValueText, CheckValue;
  }

  lemma {:induction false} BlankRefused(t: string)
    requires !NoBlank(t)
    ensures !CheckValue(t)
  {
    hide NoBlank;
  }
}
