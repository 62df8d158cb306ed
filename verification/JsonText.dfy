/** The JSON layer of an encoded value: string literals and lists of them, as `json` writes and reads them. */
module JsonText {
  import opened Texts
  import opened Hexadecimal

  /** A character of a Python `str`: any code point, lone surrogates included. */
  type CodePoint = n: nat | n < 0x110000

  predicate IsHigh(c: int) { 0xd800 <= c < 0xdc00 }
  predicate IsLow(c: int) { 0xdc00 <= c < 0xe000 }

  function Combine(high: CodePoint, low: CodePoint): CodePoint
    requires IsHigh(high) && IsLow(low)
  {
    0x10000 + (high - 0xd800) * 0x400 + (low - 0xdc00)
  }

  const HEX := "0123456789abcdef"

  function HexDigits(n: nat, k: nat): (r: string)
    ensures |r| == k
    ensures forall c :: c in r ==> c in HEX
  {
    var places := Nibbles(n, k);
    seq(k, i requires 0 <= i < k => HEX[places[i]])
  }

  function HexValue(c: char): Option<Nibble>
  {
    if '0' <= c <= '9' then Some(c as int - '0' as int)
    else if 'a' <= c <= 'f' then Some(c as int - 'a' as int + 10)
    else if 'A' <= c <= 'F' then Some(c as int - 'A' as int + 10)
    else None
  }

  function ReadHex(t: string): Option<nat>
  {
    ReadNibbles(seq(|t|, i requires 0 <= i < |t| => HexValue(t[i])))
  }

  lemma {:induction false} HexDigitReads(d: nat)
    requires d < 16
    ensures HexValue(HEX[d]) == Some(d)
  {
  }

  lemma {:induction false} HexDigitsRead(n: nat, k: nat)
    requires n < Pow16(k)
    ensures ReadHex(HexDigits(n, k)) == Some(n)
  {
    var t, places := HexDigits(n, k), Nibbles(n, k);
    hide HexValue, ReadNibbles, Nibbles;
    var read: seq<Option<Nibble>> := seq(|t|, i requires 0 <= i < |t| => HexValue(t[i]));
    forall i | 0 <= i < k ensures read[i] == Some(places[i]) {
      HexDigitReads(places[i]);
    }
    NibblesRead(n, k);
    assert read == Given(places);
  }

  // --- string literals ---------------------------------------------------------------

  type Unit16 = n: nat | n < 0x10000

  /** `\uXXXX`. */
  function UnitText(u: Unit16): (r: string)
    ensures |r| == 6 && r[0] == '\\' && r[1] == 'u'
  {
    "\\u" + HexDigits(u, 4)
  }

  /** The letter after the backslash, for a character with a short escape. */
  function ShortEscape(c: CodePoint): Option<char>
  {
    if c == 34 then Some('\"')
    else if c == 92 then Some('\\')
    else if c == 10 then Some('n')
    else if c == 13 then Some('r')
    else if c == 9 then Some('t')
    else if c == 12 then Some('f')
    else if c == 8 then Some('b')
    else None
  }

  function HighOf(c: CodePoint): (r: Unit16)
    requires c >= 0x10000
    ensures IsHigh(r)
  {
    0xd800 + (c - 0x10000) / 0x400
  }

  function LowOf(c: CodePoint): (r: Unit16)
    requires c >= 0x10000
    ensures IsLow(r)
  {
    0xdc00 + (c - 0x10000) % 0x400
  }

  /** One character of a literal, ASCII only and never a space. */
  function Escape(c: CodePoint): (r: string)
    ensures |r| >= 1
  {
    if ShortEscape(c).Some? then ['\\', ShortEscape(c).value]
    else if 33 <= c <= 126 then [c as char]
    else if c < 0x10000 then UnitText(c)
    else UnitText(HighOf(c)) + UnitText(LowOf(c))
  }

  function EscapeAll(s: seq<CodePoint>): string
  {
    if s == [] then "" else Escape(s[0]) + EscapeAll(s[1..])
  }

  /** `json.dumps` of a string with its spaces escaped. */
  function Literal(s: seq<CodePoint>): string
  {
    "\"" + EscapeAll(s) + "\""
  }

  /** The unit a `\uXXXX` at the start of `t` names, and what follows it. */
  function ReadUnit(t: string): (r: Option<(Unit16, string)>)
    ensures r.Some? ==> |r.value.1| < |t|
  {
    if |t| < 6 || t[0] != '\\' || t[1] != 'u' then None
    else
      var unit := ReadHex(t[2..6]);
      if unit.None? || unit.value >= 0x10000 then None else Some((unit.value, t[6..]))
  }

  /** The character a short escape's letter names. */
  function ShortValue(letter: char): Option<CodePoint>
  {
    match letter
    case '\"' => Some(34)
    case '\\' => Some(92)
    case '/' => Some(47)
    case 'b' => Some(8)
    case 'f' => Some(12)
    case 'n' => Some(10)
    case 'r' => Some(13)
    case 't' => Some(9)
    case _ => None
  }

  /** The character the escape at the start of `t` names (a pair of units names one), and the rest. */
  function ReadEscape(t: string): (r: Option<(CodePoint, string)>)
    requires t != "" && t[0] == '\\'
    ensures r.Some? ==> |r.value.1| < |t|
  {
    if |t| < 2 then None
    else if t[1] == 'u' then
      var unit := ReadUnit(t);
      if unit.None? then None
      else
        var second := ReadUnit(unit.value.1);
        if IsHigh(unit.value.0) && second.Some? && IsLow(second.value.0)
        then Some((Combine(unit.value.0, second.value.0), second.value.1))
        else Some(unit.value)
    else
      var short := ShortValue(t[1]);
      if short.None? then None else Some((short.value, t[2..]))
  }

  /** A literal's characters after its opening quote, and what follows its closing one. */
  function ReadChars(t: string): (r: Option<(seq<CodePoint>, string)>)
    ensures r.Some? ==> |r.value.0| + |r.value.1| < |t|
    decreases |t|
  {
    if t == "" then None
    else if t[0] == '\"' then Some(([], t[1..]))
    else if t[0] == '\\' then
      var one := ReadEscape(t);
      if one.None? then None
      else
        var rest := ReadChars(one.value.1);
        if rest.None? then None else Some(([one.value.0] + rest.value.0, rest.value.1))
    else if 0x20 > t[0] as int then None
    else
      var rest := ReadChars(t[1..]);
      if rest.None? then None
      else Some(([t[0] as int as CodePoint] + rest.value.0, rest.value.1))
  }

  function ReadLiteral(t: string): (r: Option<(seq<CodePoint>, string)>)
    ensures r.Some? ==> |r.value.0| + |r.value.1| + 1 < |t|
  {
    if t == "" || t[0] != '\"' then None else ReadChars(t[1..])
  }

  /** `s` with each high surrogate joined to a low one right after it. */
  function Joined(s: seq<CodePoint>): seq<CodePoint>
  {
    if s == [] then []
    else if |s| > 1 && IsHigh(s[0]) && IsLow(s[1]) then [Combine(s[0], s[1])] + Joined(s[2..])
    else [s[0]] + Joined(s[1..])
  }

  /** No high surrogate is directly followed by a low one. */
  predicate NoPair(s: seq<CodePoint>)
  {
    forall i :: 0 <= i < |s| - 1 ==> !(IsHigh(s[i]) && IsLow(s[i + 1]))
  }

  lemma {:induction false} JoinedNoPair(s: seq<CodePoint>)
    ensures NoPair(s) <==> Joined(s) == s
    ensures |Joined(s)| <= |s|
  {
    if s == [] {
    } else if |s| > 1 && IsHigh(s[0]) && IsLow(s[1]) {
      JoinedNoPair(s[2..]);
    } else {
      JoinedNoPair(s[1..]);
      assert s == [s[0]] + s[1..];
      if NoPair(s[1..]) {
        forall i | 0 <= i < |s| - 1 ensures !(IsHigh(s[i]) && IsLow(s[i + 1])) {
          if i > 0 { assert s[i] == s[1..][i - 1] && s[i + 1] == s[1..][i]; }
        }
      }
      if NoPair(s) {
        forall i | 0 <= i < |s[1..]| - 1 ensures !(IsHigh(s[1..][i]) && IsLow(s[1..][i + 1])) {
          assert s[1..][i] == s[i + 1] && s[1..][i + 1] == s[i + 2];
        }
      }
    }
  }

  lemma {:induction false} UnitReads(u: Unit16, tail: string)
    ensures ReadUnit(UnitText(u) + tail) == Some((u, tail))
  {
    var t := UnitText(u) + tail;
    assert t[2..6] == HexDigits(u, 4);
    assert t[6..] == tail;
    assert Pow16(4) == 16 * Pow16(3) == 256 * Pow16(2) == 0x1000 * Pow16(1) == 0x10000;
    HexDigitsRead(u, 4);
  }

  lemma {:induction false} CombineSplits(c: CodePoint)
    requires c >= 0x10000
    ensures Combine(HighOf(c), LowOf(c)) == c
  {
  }

  /** The rest of a literal never looks like the low half of a pair unless it is one. */
  lemma {:induction false} NextUnit(s: seq<CodePoint>, rest: string)
    requires s == [] || !IsLow(s[0])
    ensures var unit := ReadUnit(EscapeAll(s) + "\"" + rest); unit.None? || !IsLow(unit.value.0)
  {
    hide HighOf, LowOf, UnitText;
    var t := EscapeAll(s) + "\"" + rest;
    if s != [] {
      var c := s[0];
      var tail := EscapeAll(s[1..]) + "\"" + rest;
      assert t == Escape(c) + tail;
      if c >= 0x10000 {
        assert t == UnitText(HighOf(c)) + (UnitText(LowOf(c)) + tail);
        UnitReads(HighOf(c), UnitText(LowOf(c)) + tail);
      } else if Escape(c) == UnitText(c) {
        UnitReads(c, tail);
      } else if ShortEscape(c).Some? {
        assert t[1] == ShortEscape(c).value;
      } else {
        assert t[0] == c as char;
      }
    }
  }

  /** An escaped character reads back, unless it is a high surrogate with a low one next. */
  lemma {:induction false} EscapeReads(c: CodePoint, tail: string)
    requires Escape(c)[0] == '\\'
    requires IsHigh(c) ==> ReadUnit(tail).None? || !IsLow(ReadUnit(tail).value.0)
    ensures ReadEscape(Escape(c) + tail) == Some((c, tail))
  {
    hide HighOf, LowOf, UnitText, ReadUnit;
    var t := Escape(c) + tail;
    if c >= 0x10000 {
      assert t == UnitText(HighOf(c)) + (UnitText(LowOf(c)) + tail);
      UnitReads(HighOf(c), UnitText(LowOf(c)) + tail);
      UnitReads(LowOf(c), tail);
      CombineSplits(c);
    } else if ShortEscape(c).Some? {
      assert t[2..] == tail;
    } else {
      UnitReads(c, tail);
    }
  }

  /** Reading back a written literal: its characters, surrogate pairs joined. */
  lemma {:induction false} ReadEscaped(s: seq<CodePoint>, rest: string)
    ensures ReadChars(EscapeAll(s) + "\"" + rest) == Some((Joined(s), rest))
    decreases |s|
  {
    hide HighOf, LowOf, UnitText, ReadUnit;
    var t := EscapeAll(s) + "\"" + rest;
    if s == [] {
      assert t == "\"" + rest;
    } else {
      var c := s[0];
      var tail := EscapeAll(s[1..]) + "\"" + rest;
      assert t == Escape(c) + tail;
      if |s| > 1 && IsHigh(c) && IsLow(s[1]) {
        var after := EscapeAll(s[2..]) + "\"" + rest;
        assert s[1..][1..] == s[2..];
        assert tail == UnitText(s[1]) + after;
        UnitReads(c, tail);
        UnitReads(s[1], after);
        assert t[0] == '\\' && t[1] == 'u';
        assert ReadEscape(t) == Some((Combine(c, s[1]), after));
        ReadEscaped(s[2..], rest);
      } else {
        if IsHigh(c) { NextUnit(s[1..], rest); }
        ReadEscaped(s[1..], rest);
        ReadOne(c, tail);
      }
    }
  }

  /** One escaped character in front of readable text adds that character. */
  lemma {:induction false} ReadOne(c: CodePoint, tail: string)
    requires IsHigh(c) ==> ReadUnit(tail).None? || !IsLow(ReadUnit(tail).value.0)
    requires ReadChars(tail).Some?
    ensures ReadChars(Escape(c) + tail) == Some(([c] + ReadChars(tail).value.0, ReadChars(tail).value.1))
  {
    var t := Escape(c) + tail;
    if Escape(c)[0] == '\\' {
      EscapeReads(c, tail);
    } else {
      assert t == [c as char] + tail;
      assert t[1..] == tail;
    }
  }

  /** A literal reads back as the string it was written from, up to joined pairs. */
  lemma {:induction false} LiteralReads(s: seq<CodePoint>, rest: string)
    ensures ReadLiteral(Literal(s) + rest) == Some((Joined(s), rest))
  {
    assert (Literal(s) + rest)[1..] == EscapeAll(s) + "\"" + rest;
    ReadEscaped(s, rest);
  }

  lemma {:induction false} CombineReadsBack(high: CodePoint, low: CodePoint)
    requires IsHigh(high) && IsLow(low)
    ensures HighOf(Combine(high, low)) == high && LowOf(Combine(high, low)) == low
  {
  }

  lemma {:induction false} PairEscape(high: CodePoint, low: CodePoint)
    requires IsHigh(high) && IsLow(low)
    ensures Escape(Combine(high, low)) == Escape(high) + Escape(low)
  {
    CombineReadsBack(high, low);
    assert Combine(high, low) >= 0x10000;
    hide HighOf, LowOf, UnitText, Combine;
  }

  lemma {:induction false} EscapeTwo(s: seq<CodePoint>)
    requires |s| > 1
    ensures EscapeAll(s) == Escape(s[0]) + Escape(s[1]) + EscapeAll(s[2..])
  {
    hide Escape;
    var t := s[1..];
    assert t[1..] == s[2..];
    Assoc(Escape(s[0]), Escape(t[0]), EscapeAll(t[1..]));
  }

  lemma {:induction false} EscapeOne(c: CodePoint, s: seq<CodePoint>)
    ensures EscapeAll([c] + s) == Escape(c) + EscapeAll(s)
  {
    assert ([c] + s)[1..] == s;
  }

  lemma {:induction false} EscapeJoined(s: seq<CodePoint>)
    ensures EscapeAll(Joined(s)) == EscapeAll(s)
    decreases |s|
  {
    if s == [] {
    } else if |s| > 1 && IsHigh(s[0]) && IsLow(s[1]) {
      EscapeJoined(s[2..]);
      PairEscape(s[0], s[1]);
      EscapeTwo(s);
      EscapeOne(Combine(s[0], s[1]), Joined(s[2..]));
    } else {
      EscapeJoined(s[1..]);
      EscapeOne(s[0], Joined(s[1..]));
    }
  }

  /** Two strings are written alike exactly when they differ only by split surrogate pairs. */
  lemma {:induction false} LiteralExact(s: seq<CodePoint>, t: seq<CodePoint>)
    ensures Literal(s) == Literal(t) <==> Joined(s) == Joined(t)
  {
    LiteralReads(s, "");
    LiteralReads(t, "");
    EscapeJoined(s);
    EscapeJoined(t);
    if Literal(s) == Literal(t) {
      assert ReadLiteral(Literal(s) + "") == ReadLiteral(Literal(t) + "");
    }
  }

  /** Every character is one UTF-16 unit. */
  predicate Basic(s: seq<CodePoint>) { forall c :: c in s ==> c < 0x10000 }

  /** `s` with its first character beyond one unit split into its surrogates. */
  function FirstSplit(s: seq<CodePoint>): seq<CodePoint>
  {
    if s == [] then []
    else if s[0] >= 0x10000 then [HighOf(s[0]), LowOf(s[0])] + s[1..]
    else [s[0]] + FirstSplit(s[1..])
  }

  lemma {:induction false} FirstSplitWritten(s: seq<CodePoint>)
    requires !Basic(s)
    ensures EscapeAll(FirstSplit(s)) == EscapeAll(s) && |FirstSplit(s)| == |s| + 1
  {
    if s[0] >= 0x10000 {
      var high: CodePoint, low: CodePoint := HighOf(s[0]), LowOf(s[0]);
      EscapeOne(high, [low] + s[1..]);
      EscapeOne(low, s[1..]);
      assert FirstSplit(s) == [high] + ([low] + s[1..]);
      assert Escape(high) == UnitText(high) && Escape(low) == UnitText(low);
    } else {
      assert s == [s[0]] + s[1..];
      FirstSplitWritten(s[1..]);
      EscapeOne(s[0], FirstSplit(s[1..]));
    }
  }

  /** A string that joins to one-unit characters had no pair to join. */
  lemma {:induction false} JoinedBasic(s: seq<CodePoint>)
    ensures Basic(Joined(s)) ==> Joined(s) == s
    decreases |s|
  {
    if |s| > 1 && IsHigh(s[0]) && IsLow(s[1]) {
      assert Combine(s[0], s[1]) in Joined(s);
    } else if s != [] {
      JoinedBasic(s[1..]);
      assert forall c :: c in Joined(s[1..]) ==> c in Joined(s);
    }
  }

  /** No other string is written like `s` exactly when `s` splits no pair and holds no character a pair spells. */
  lemma {:induction false} LiteralUnique(s: seq<CodePoint>)
    ensures (forall t: seq<CodePoint> :: Literal(t) == Literal(s) ==> t == s) <==> NoPair(s) && Basic(s)
  {
    JoinedNoPair(s);
    hide Joined, NoPair, Basic;
    if NoPair(s) && Basic(s) {
      forall t: seq<CodePoint> | Literal(t) == Literal(s) ensures t == s {
        LiteralExact(t, s);
        JoinedBasic(t);
      }
    }
    if forall t: seq<CodePoint> :: Literal(t) == Literal(s) ==> t == s {
      EscapeJoined(s);
      assert Literal(Joined(s)) == Literal(s);
      if !Basic(s) {
        FirstSplitWritten(s);
        assert Literal(FirstSplit(s)) == Literal(s);
      }
    }
  }

  // --- lists of string literals ------------------------------------------------------

  function Points(t: string): seq<CodePoint>
  {
    seq(|t|, i requires 0 <= i < |t| => t[i] as int)
  }

  /** The text of `s`, when it holds no lone surrogate. */
  function FromPoints(s: seq<CodePoint>): (r: Option<string>)
    ensures r.Some? ==> |r.value| == |s|
  {
    if exists i :: 0 <= i < |s| && (IsHigh(s[i]) || IsLow(s[i])) then None
    else Some(seq(|s|, i requires 0 <= i < |s| => s[i] as char))
  }

  lemma {:induction false} PointsText(t: string)
    ensures FromPoints(Points(t)) == Some(t)
    ensures NoPair(Points(t))
  {
    var points := Points(t);
    forall i | 0 <= i < |t| ensures !IsHigh(points[i]) && !IsLow(points[i]) && points[i] as char == t[i] {
      assert points[i] == t[i] as int;
    }
    assert FromPoints(points).value == t;
  }

  /** The literals of a non-empty list, comma-separated, and the closing bracket. */
  function Items(items: seq<string>): (r: string)
    requires items != []
    ensures |r| >= 2
  {
    Literal(Points(items[0])) + (if |items| == 1 then "]" else "," + Items(items[1..]))
  }

  /** `json.dumps` of a list of strings. */
  function ListText(items: seq<string>): string
  {
    if items == [] then "[]" else "[" + Items(items)
  }

  /** One or more literals, comma-separated, up to the closing bracket that ends the text. */
  function ReadItems(t: string): (r: Option<seq<string>>)
    ensures r.Some? ==> forall x :: x in r.value ==> |x| < |t|
    decreases |t|
  {
    var one := ReadLiteral(t);
    if one.None? then None
    else
      var text := FromPoints(one.value.0);
      var rest := one.value.1;
      if text.None? || rest == "" then None
      else if rest == "]" then Some([text.value])
      else if rest[0] == ',' then
        var more := ReadItems(rest[1..]);
        if more.None? then None else Some([text.value] + more.value)
      else None
  }

  /** The strings of a JSON list of strings. */
  function ReadList(t: string): (r: Option<seq<string>>)
    ensures r.Some? ==> forall x :: x in r.value ==> |x| < |t|
  {
    if t == "" || t[0] != '[' then None
    else if t == "[]" then Some([])
    else ReadItems(t[1..])
  }

  /** A literal of plain text reads back to that text, whatever follows. */
  lemma {:induction false} TextReads(text: string, rest: string)
    ensures ReadLiteral(Literal(Points(text)) + rest) == Some((Points(text), rest))
    ensures FromPoints(Points(text)) == Some(text)
  {
    PointsText(text);
    JoinedNoPair(Points(text));
    LiteralReads(Points(text), rest);
  }

  lemma {:induction false} ItemsRead(items: seq<string>)
    requires items != []
    ensures ReadItems(Items(items)) == Some(items)
  {
    hide Literal, ReadLiteral;
    if |items| == 1 {
      TextReads(items[0], "]");
      assert items == [items[0]];
    } else {
      var rest := "," + Items(items[1..]);
      TextReads(items[0], rest);
      assert rest[0] == ',' && rest[1..] == Items(items[1..]);
      ItemsRead(items[1..]);
      assert items == [items[0]] + items[1..];
    }
  }

  /** A written list reads back item by item. */
  lemma {:induction false} ListReads(items: seq<string>)
    ensures ReadList(ListText(items)) == Some(items)
  {
    if items != [] {
      assert ListText(items)[1..] == Items(items);
      ItemsRead(items);
    }
  }

  // --- no whitespace -----------------------------------------------------------------

  predicate Dark(c: char) { 33 <= c as int <= 126 }

  /** Printable ASCII without a space. */
  predicate AllDark(t: string) { forall c :: c in t ==> Dark(c) }

  lemma {:induction false} EscapeDark(s: seq<CodePoint>)
    ensures AllDark(EscapeAll(s))
  {
    if s != [] {
      EscapeDark(s[1..]);
      assert AllDark(HEX);
    }
  }

  lemma {:induction false} ItemsDark(items: seq<string>)
    requires items != []
    ensures AllDark(Items(items))
  {
    EscapeDark(Points(items[0]));
    if |items| > 1 {
      ItemsDark(items[1..]);
    }
  }
}
