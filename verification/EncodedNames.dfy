/** Which encodings the check accepts, whatever an enum's members are named. */
module EncodedNames {
  import opened Texts
  import opened JsonText
  import opened JsonShape
  import opened EncodedValues
  import opened EncodedLaws

  // --- the names the check accepts ---------------------------------------------------------

  /** An enum's text up to its value: its class set, and what follows the colon. */
  function EnumHead(q: string): (r: Option<(string, string)>)
    ensures r.Some? ==> q == "E:" + (r.value.0 + (":" + r.value.1)) && IsClassSet(r.value.0)
    ensures r.Some? ==> |r.value.1| < |q|
  {
    if !StartsWith(q, "E:") then None
    else
      var u := q[2..];
      var close := IndexOf(u, '}');
      if close + 1 < |u| && u[close + 1] == ':' && IsClassSet(u[..close + 1]) then
        assert u == u[..close + 1] + (":" + u[close + 2..]);
        Some((u[..close + 1], u[close + 2..]))
      else None
  }

  /** An identifier, or one followed by `=` and the head of an enum with such a name. */
  predicate AcceptedName(name: string)
    decreases |name|
  {
    var eq := IndexOf(name, '=');
    MemberName(name[..eq])
    && (eq < |name| ==> EnumHead(name[eq + 1..]).Some? && AcceptedName(EnumHead(name[eq + 1..]).value.1))
  }

  /** Every enum member inside `v` has such a name. */
  ghost predicate AcceptedMembers(v: Value)
    decreases v
  {
    match v
    case PyTuple(items) => forall i :: 0 <= i < |items| ==> AcceptedMembers(items[i])
    case PyFrozenSet(elems) => forall x :: x in elems ==> AcceptedMembers(x)
    case PyEnum(_, member, value) => AcceptedName(member) && AcceptedMembers(value)
    case _ => true
  }

  // --- how an encoding ends ----------------------------------------------------------------

  function Innermost(v: Value): (r: Value)
    ensures !r.PyEnum?
  {
    if v.PyEnum? then Innermost(v.value) else v
  }

  predicate IsList(v: Value) { v.PyTuple? || v.PyFrozenSet? }

  lemma {:induction false} EncodedEnum(v: Value)
    requires v.PyEnum?
    ensures Encode(v) == "E:" + (v.classSet + (":" + (v.member + ("=" + Encode(v.value)))))
  {
  }

  lemma {:induction false} HeadApart(classSet: string, member: string, rest: string, inner: string)
    ensures var head := "E:" + (classSet + (":" + (member + ("=" + rest))));
      "E:" + (classSet + (":" + (member + ("=" + (rest + inner))))) == head + inner
      && head[|head| - 1] == (if rest == "" then '=' else rest[|rest| - 1])
  {
    Assoc("=", rest, inner);
    Assoc(member, "=" + rest, inner);
    Assoc(":", member + ("=" + rest), inner);
    Assoc(classSet, ":" + (member + ("=" + rest)), inner);
  }

  /** An encoding ends as its innermost value does. */
  lemma {:induction false} InnerEnds(v: Value) returns (head: string)
    ensures Encode(v) == head + Encode(Innermost(v))
    ensures v.PyEnum? ==> head != "" && head[|head| - 1] == '='
    ensures !v.PyEnum? ==> head == ""
  {
    hide Encode;
    head := "";
    if v.PyEnum? {
      var rest := InnerEnds(v.value);
      EncodedEnum(v);
      HeadApart(v.classSet, v.member, rest, Encode(Innermost(v)));
      head := "E:" + (v.classSet + (":" + (v.member + ("=" + rest))));
    }
  }

  /** The characters that shape encoded strings, lists and enums. */
  predicate Marks(c: char) { c == '\"' || c == '[' || c == ']' || c == '}' }

  lemma {:induction false} IntMarks(n: int)
    ensures forall c :: c in "I:" + IntText(n) ==> !Marks(c)
  {
    NatReads(if n < 0 then -n else n);
    hide NatText;
  }

  lemma {:induction false} BytesMarks(bytes: seq<Byte>)
    ensures forall c :: c in "Y:" + BytesText(bytes) ==> !Marks(c)
  {
    BytesInjective(bytes, bytes);
    HexMarks();
    hide BytesText, HEX;
  }

  lemma {:induction false} HexMarks()
    ensures forall c :: LowerHex(c) ==> !Marks(c) && c != '='
  {
  }

  lemma {:induction false} ScalarEnds(v: Value)
    requires !v.PyEnum? && !IsList(v) && !v.PyStr?
    ensures forall c :: c in Encode(v) ==> !Marks(c)
  {
    match v {
      case PyInt(n) => IntMarks(n);
      case PyBytes(bytes) => BytesMarks(bytes);
      case _ =>
    }
  }

  lemma {:induction false} StringEnds(s: seq<CodePoint>)
    ensures var t := Encode(PyStr(s));
      |t| >= 4 && t[0] == 'S' && t[1] == ':' && t[2] == '\"' && t[|t| - 1] == '\"' && t[2..] == Literal(s)
  {
  }

  lemma {:induction false} ListEnds(v: Value)
    requires IsList(v)
    ensures var t := Encode(v); |t| >= 4 && t[1] == ':' && t[2] == '[' && t[|t| - 1] == ']' && t[2..] == ListText(Parts(v))
    ensures Encode(v)[0] == 'T' || Encode(v)[0] == 'Z'
  {
    EncodeContainer(v);
    hide Encode, Parts, ReadList;
    assert Encode(v)[..2] == Tag(v);
    assert Encode(v)[0] == Tag(v)[0] && Encode(v)[1] == Tag(v)[1];
    ListEnd(Parts(v));
    assert Encode(v)[|Encode(v)| - 1] == Encode(v)[2..][|Encode(v)| - 3];
    assert Encode(v)[2] == Encode(v)[2..][0];
  }

  lemma {:induction false} ListEnd(items: seq<string>)
    ensures |ListText(items)| >= 2 && ListText(items)[0] == '[' && ListText(items)[|ListText(items)| - 1] == ']'
  {
    hide Items;
    if items != [] { ItemsLast(items); }
  }

  lemma {:induction false} ItemsLast(items: seq<string>)
    requires items != []
    ensures |Items(items)| >= 2 && Items(items)[|Items(items)| - 1] == ']'
  {
    if |items| > 1 { ItemsLast(items[1..]); }
  }

  /** How a string, a list and any other value but an enum starts and ends. */
  lemma {:induction false} EndsOf(w: Value)
    requires !w.PyEnum?
    ensures var t := Encode(w);
      t != ""
      && (w.PyStr? ==> |t| >= 4 && t[0] == 'S' && t[1] == ':' && t[2] == '\"' && t[|t| - 1] == '\"')
      && (IsList(w) ==> |t| >= 4 && t[1] == ':' && t[2] == '[' && t[|t| - 1] == ']')
      && (!w.PyStr? && !IsList(w) ==> forall i :: 0 <= i < |t| ==> !Marks(t[i]))
  {
    EncodeFirst(w);
    if w.PyStr? {
      StringEnds(w.s);
    } else if IsList(w) {
      ListEnds(w);
    } else {
      ScalarEnds(w);
    }
  }

  /** No encoding is empty or ends in an opening bracket. */
  lemma {:induction false} EncodingTame(v: Value)
    ensures EndsTame(Encode(v))
  {
    hide Encode, Innermost;
    var w := Innermost(v);
    var head := InnerEnds(v);
    EndsOf(w);
    assert Encode(v)[|Encode(v)| - 1] == Encode(w)[|Encode(w)| - 1];
  }

  lemma {:induction false} PartsTame(v: Value)
    requires IsList(v)
    ensures forall part :: part in Parts(v) ==> EndsTame(part) && part[0] in LETTERS
  {
    PartsMembers(v);
    hide Encode, EndsTame, Parts;
    forall part | part in Parts(v) ensures EndsTame(part) && part[0] in LETTERS {
      var x;
      if v.PyTuple? {
        var i :| 0 <= i < |v.items| && EncodeEach(v.items)[i] == part;
        x := v.items[i];
      } else {
        x :| x in v.elems && Encode(x) == part;
      }
      EncodingTame(x);
      EncodeFirst(x);
      LetterOf(x);
    }
  }

  const LETTERS := "NBISYTZEO"

  lemma {:induction false} LetterOf(v: Value)
    ensures FirstChar(v) in LETTERS
  {
    assert LETTERS[0] == 'N' && LETTERS[1] == 'B' && LETTERS[2] == 'I' && LETTERS[3] == 'S' && LETTERS[4] == 'Y';
    assert LETTERS[5] == 'T' && LETTERS[6] == 'Z' && LETTERS[7] == 'E' && LETTERS[8] == 'O';
  }

  /** A written list is empty, or starts with a literal of a text that starts with a letter. */
  lemma {:induction false} ListStarts(items: seq<string>)
    requires forall item :: item in items ==> item != "" && item[0] in LETTERS
    ensures var l := ListText(items); l == "[]" || (|l| > 3 && l[1] == '\"' && l[2] in LETTERS)
  {
    if items != [] {
      var item := items[0];
      assert item in items;
      var points := Points(item);
      var c := points[0];
      assert c == item[0] as int;
      assert Escape(c) == [item[0]];
      assert EscapeAll(points)[0] == item[0];
      hide EscapeAll;
      assert Literal(points)[1] == EscapeAll(points)[0];
    }
  }

  // --- what no text with an encoding at its end can be -------------------------------------

  lemma {:induction false} Starts(t: string)
    ensures StartsWith(t, "S:") <==> |t| >= 2 && t[0] == 'S' && t[1] == ':'
    ensures StartsWith(t, "T:") <==> |t| >= 2 && t[0] == 'T' && t[1] == ':'
    ensures StartsWith(t, "Z:") <==> |t| >= 2 && t[0] == 'Z' && t[1] == ':'
    ensures StartsWith(t, "E:") <==> |t| >= 2 && t[0] == 'E' && t[1] == ':'
    ensures StartsWith(t, "I:") <==> |t| >= 2 && t[0] == 'I' && t[1] == ':'
    ensures StartsWith(t, "F:") <==> |t| >= 2 && t[0] == 'F' && t[1] == ':'
    ensures StartsWith(t, "Y:") <==> |t| >= 2 && t[0] == 'Y' && t[1] == ':'
  {
    if |t| >= 2 { assert t[..2] == [t[0], t[1]]; }
  }

  /** An encoding put after a head and an `=`, character by character. */
  lemma {:induction false} Splice(q: string, enc: string)
    ensures var t := q + ("=" + enc);
      |t| == |q| + 1 + |enc| && t[|q|] == '=' && t[..|q|] == q && forall i :: 0 <= i < |enc| ==> enc[i] == t[|q| + 1 + i]
  {
  }

  /** What the check asks of a text that is no literal, list or enum. */
  lemma {:induction false} PlainKinds(t: string)
    requires CheckValue(t) && !StartsWith(t, "S:") && !StartsWith(t, "T:") && !StartsWith(t, "Z:") && EnumParts(t).None?
    ensures t in ["N", "O", "B:true", "B:false"] || (StartsWith(t, "I:") && IsIntText(t[2..]))
         || (StartsWith(t, "F:") && IsFloatText(t[2..])) || (StartsWith(t, "Y:") && forall c :: c in t[2..] ==> LowerHex(c))
  {
    hide NoBlank, ReadLiteral, ReadList, EnumParts, IsClassSet, IsName, IsIntText, IsFloatText, LowerHex;
  }

  /** It holds no `=`, and ends neither in a quote nor in a bracket. */
  lemma {:induction false} PlainChars(t: string)
    requires CheckValue(t) && !StartsWith(t, "S:") && !StartsWith(t, "T:") && !StartsWith(t, "Z:") && EnumParts(t).None?
    ensures forall c :: c in t ==> !Marks(c) && c != '='
  {
    PlainKinds(t);
    Starts(t);
    hide CheckValue, EnumParts, StartsWith;
    if |t| >= 2 && t[0] == 'I' && t[1] == ':' {
      IntChars(t[2..]);
    } else if |t| >= 2 && t[0] == 'F' && t[1] == ':' {
      FloatChars(t[2..]);
    } else if |t| >= 2 && t[0] == 'Y' && t[1] == ':' {
      HexMarks();
    }
    hide IsIntText, IsFloatText, LowerHex, HEX;
    if |t| >= 2 { assert t == [t[0], t[1]] + t[2..]; }
  }

  lemma {:induction false} IntChars(t: string)
    requires IsIntText(t)
    ensures forall c :: c in t ==> !Marks(c) && c != '='
  {
    if !IsNatText(t) { assert t == "-" + t[1..]; }
  }

  lemma {:induction false} FloatChars(t: string)
    requires IsFloatText(t)
    ensures forall c :: c in t ==> !Marks(c) && c != '='
  {
    if t != "" && t[0] == '-' {
      assert t == "-" + t[1..];
      if IsHexFloat(t[1..]) { HexFloatChars(t[1..]); }
    } else if IsHexFloat(t) {
      HexFloatChars(t);
    }
    hide IsHexFloat;
  }

  lemma {:induction false} HexFloatChars(t: string)
    requires IsHexFloat(t)
    ensures forall c :: c in t ==> !Marks(c) && c != '='
  {
    var p := IndexOf(t, 'p');
    HexMarks();
    hide IndexOf, HEX, LowerHex;
    assert t == t[..2] + ([t[2], t[3]] + (t[4..p] + ([t[p], t[p + 1]] + t[p + 2..])));
  }

  /** An encoding put after an `=` makes no literal. */
  lemma {:induction false} NoLiteral(q: string, w: Value)
    requires !w.PyEnum?
    ensures var t := q + ("=" + Encode(w)); StartsWith(t, "S:") ==> !CheckValue(t)
  {
    EndsOf(w);
    Splice(q, Encode(w));
    var t := q + ("=" + Encode(w));
    if StartsWith(t, "S:") && CheckValue(t) { LiteralEnd(t); }
    hide Encode, CheckValue, StartsWith;
  }

  /** A literal's text ends in its only unguarded quote but the first. */
  lemma {:induction false} LiteralEnd(t: string)
    requires CheckValue(t) && StartsWith(t, "S:")
    ensures |t| >= 4 && t[2] == '\"' && t[|t| - 1] == '\"'
    ensures forall i :: 3 <= i < |t| - 1 && t[i] == '\"' ==> t[i - 1] == '\\'
  {
    Starts(t);
    assert ReadLiteral(t[2..]).Some? && ReadLiteral(t[2..]).value.1 == "";
    hide CheckValue, ReadChars, StartsWith;
    var l := t[2..];
    var e := CharsShape(l[1..]);
    assert l[1..] == t[3..] && |l[1..][e + 1..]| == 0;
    forall i | 3 <= i < |t| - 1 && t[i] == '\"' ensures t[i - 1] == '\\' {
      assert t[3..][i - 3] == t[i];
      assert i > 3 && t[3..][i - 4] == t[i - 1];
    }
  }

  /** A list's text: what it holds, and that it reads. */
  lemma {:induction false} ListReadsHere(t: string)
    requires CheckValue(t) && (StartsWith(t, "T:") || StartsWith(t, "Z:"))
    ensures |t| >= 4 && t[1] == ':' && t[2] == '[' && t[|t| - 1] == ']'
    ensures (|t| == 4 && t[3] == ']') || (t[3] == '\"' && ReadItems(t[3..]).Some?)
  {
    Starts(t);
    assert ReadList(t[2..]).Some?;
    hide CheckValue, ReadItems, StartsWith;
    var l := t[2..];
    assert l[0] == t[2];
    if l != "[]" {
      assert l[1..] == t[3..];
      ItemsEnd(t[3..]);
    } else {
      assert l[1] == t[3];
    }
  }

  /** Nor a list. */
  lemma {:induction false} NoList(q: string, w: Value)
    requires !w.PyEnum?
    ensures var t := q + ("=" + Encode(w)); StartsWith(t, "T:") || StartsWith(t, "Z:") ==> !CheckValue(t)
  {
    var t := q + ("=" + Encode(w));
    hide *;
    EndsOf(w);
    Splice(q, Encode(w));
    Starts(t);
    if (StartsWith(t, "T:") || StartsWith(t, "Z:")) && CheckValue(t) {
      ListReadsHere(t);
      var b := EqualsInList(t, |q|);
      EncodingNotClosed(q, w, b);
    }
  }

  lemma {:induction false} EqualsInList(t: string, p: nat) returns (b: nat)
    requires |t| >= 4 && t[1] == ':' && t[2] == '[' && t[0] != '='
    requires (|t| == 4 && t[3] == ']') || (t[3] == '\"' && ReadItems(t[3..]).Some?)
    requires p < |t| && t[p] == '='
    ensures ClosesAt(t, p, b)
  {
    hide ReadItems;
    assert p > 3 && t[3..][p - 3] == '=';
    var c := ItemsShape(t[3..], p - 3);
    ClosesLater(t, 3, p, c);
    b := 3 + c;
  }

  /** A literal cannot close in an encoding that ends a list's text: what follows its first quote is a letter. */
  lemma {:induction false} EncodingNotClosed(q: string, w: Value, b: nat)
    requires !w.PyEnum?
    ensures var t := q + ("=" + Encode(w)); t[|t| - 1] == ']' ==> !ClosesAt(t, |q|, b)
  {
    hide *;
    var enc := Encode(w);
    var t := q + ("=" + enc);
    EndsOf(w);
    Splice(q, enc);
    if IsList(w) {
      ListHere(w);
      ListNotClosed(t, |q| + 1, b);
    } else if !w.PyStr? {
      NoQuoteNotClosed(t, |q|, b, enc);
    } else {
      assert t[|t| - 1] == enc[|enc| - 1];
    }
  }

  lemma {:induction false} ListHere(w: Value)
    requires IsList(w)
    ensures var enc := Encode(w);
      |enc| >= 4 && enc[0] != '\"' && enc[1] == ':' && enc[2] == '['
      && ((|enc| == 4 && enc[3] == ']') || (|enc| > 4 && enc[3] == '\"' && enc[4] != ',' && enc[4] != ']'))
  {
    ListEnds(w);
    PartsTame(w);
    ListStarts(Parts(w));
    hide Encode, ListText, Parts, EndsTame, LETTERS;
    var enc, l := Encode(w), ListText(Parts(w));
    assert enc[2..][1] == enc[3];
    if |l| > 2 {
      assert enc[2..][2] == enc[4];
      NotSeparators(enc[4]);
    }
  }

  lemma {:induction false} ListNotClosed(t: string, a: nat, b: nat)
    requires 0 < a && a + 4 <= |t| && t[a - 1] == '=' && t[a] != '\"' && t[a + 1] == ':' && t[a + 2] == '['
    requires (|t| == a + 4 && t[a + 3] == ']') || (|t| > a + 4 && t[a + 3] == '\"' && t[a + 4] != ',' && t[a + 4] != ']')
    ensures !ClosesAt(t, a - 1, b)
  {
  }

  lemma {:induction false} NoQuoteNotClosed(t: string, p: nat, b: nat, enc: string)
    requires |t| == p + 1 + |enc| && (forall i :: 0 <= i < |enc| ==> enc[i] == t[p + 1 + i])
    requires forall i :: 0 <= i < |enc| ==> !Marks(enc[i])
    ensures !ClosesAt(t, p, b)
  {
    if p < b && b + 1 < |t| { assert enc[b - p - 1] == t[b]; }
  }

  lemma {:induction false} NotSeparators(c: char)
    requires c in LETTERS
    ensures c != ',' && c != ']'
  {
  }

  // --- no end of an encoding is a value ----------------------------------------------------

  /** An enum's value is a proper end of its text, right after an `=`. */
  lemma {:induction false} ValueEnds(t: string) returns (j: nat)
    requires EnumParts(t).Some?
    ensures 5 < j < |t| && t[j - 1] == '=' && EnumParts(t).value.value == t[j..]
    ensures exists close: nat :: 2 < close < j && t[close] == '}' && t[close + 1] == ':' && '}' !in t[2..close]
  {
    var u := t[2..];
    var close := IndexOf(u, '}');
    var rest := u[close + 2..];
    var eq := IndexOf(rest, '=');
    hide IndexOf, OpenSet, IsSpace;
    j := close + 4 + eq + 1;
    assert rest == t[close + 4..];
    assert rest[eq] == t[j - 1];
    assert t[2..close + 2] == u[..close];
    assert t[close + 2] == u[close] && t[close + 3] == u[close + 1];
    assert 2 < close + 2 < j && t[close + 2] == '}' && t[close + 2 + 1] == ':' && '}' !in t[2..close + 2];
  }

  lemma {:induction false} EnumValueChecks(t: string)
    requires CheckValue(t) && EnumParts(t).Some?
    ensures CheckValue(EnumParts(t).value.value) && IsClassSet(EnumParts(t).value.classSet)
  {
    EnumPartsChecked(t);
  }

  /** The end of a text, character by character. */
  lemma {:induction false} EndOf(enc: string, k: nat)
    requires k <= |enc|
    ensures |enc[k..]| == |enc| - k && forall i :: 0 <= i < |enc| - k ==> enc[k..][i] == enc[k + i]
  {
  }

  /** A value's text ends in a quote only if it is a literal's or an enum's, in a bracket only if a list's or an enum's. */
  lemma {:induction false} EndKinds(t: string)
    requires CheckValue(t) && t != ""
    ensures t[|t| - 1] == '\"' ==> StartsWith(t, "S:") || EnumParts(t).Some?
    ensures t[|t| - 1] == ']' ==> StartsWith(t, "T:") || StartsWith(t, "Z:") || EnumParts(t).Some?
  {
    if StartsWith(t, "T:") || StartsWith(t, "Z:") {
      ListReadsHere(t);
    } else if StartsWith(t, "S:") {
      LiteralEnd(t);
    } else if EnumParts(t).None? {
      PlainChars(t);
    }
    hide CheckValue, EnumParts, StartsWith;
    assert t[|t| - 1] in t;
  }

  /** An end that is an enum's text has a shorter end that is a value and follows an `=`. */
  lemma {:induction false} ShorterEnd(enc: string, k: nat) returns (m: nat)
    requires k <= |enc| && CheckValue(enc[k..]) && EnumParts(enc[k..]).Some?
    ensures k < m <= |enc| && enc[m - 1] == '=' && CheckValue(enc[m..])
  {
    hide *;
    EnumValueChecks(enc[k..]);
    var j := ValueEnds(enc[k..]);
    m := k + j;
    assert enc[k..][j..] == enc[m..];
  }

  /** No proper end of an encoded string that follows an `=` is a value. */
  lemma {:induction false} NoStringEnd(s: seq<CodePoint>, k: nat)
    requires 0 < k <= |Encode(PyStr(s))| && Encode(PyStr(s))[k - 1] == '='
    ensures !CheckValue(Encode(PyStr(s))[k..])
    decreases |Encode(PyStr(s))| - k
  {
    var enc := Encode(PyStr(s));
    StringEnds(s);
    ScalarChecks(PyStr(s));
    Starts(enc);
    LiteralEnd(enc);
    hide Encode, CheckValue, EnumParts, StartsWith;
    EndOf(enc, k);
    var val := enc[k..];
    if CheckValue(val) {
      EndKinds(val);
      Starts(val);
      if EnumParts(val).Some? {
        var m := ShorterEnd(enc, k);
        NoStringEnd(s, m);
      } else if StartsWith(val, "S:") {
        LiteralEnd(val);
      }
    }
  }

  /** Where a literal closes after a character that opens no list, no list starts right after its `=`. */
  lemma {:induction false} NoListStarts(enc: string, k: nat, b: nat)
    requires 0 < k && k + 4 <= |enc| && ClosesAt(enc, k - 1, b) && enc[b - 1] != '['
    requires enc[k] != '\"' && enc[k + 1] == ':' && enc[k + 2] == '['
    ensures enc[k + 3] != '\"' && (k + 4 == |enc| ==> enc[k + 3] != ']')
  {
  }

  /** Nor of an encoded list. */
  lemma {:induction false} NoListEnd(w: Value, k: nat)
    requires IsList(w) && 0 < k <= |Encode(w)| && Encode(w)[k - 1] == '='
    ensures !CheckValue(Encode(w)[k..])
    decreases |Encode(w)| - k
  {
    hide *;
    var enc := Encode(w);
    ListEnds(w);
    EndOf(enc, k);
    var val := enc[k..];
    if CheckValue(val) {
      EndKinds(val);
      Starts(val);
      if EnumParts(val).Some? {
        var m := ShorterEnd(enc, k);
        NoListEnd(w, m);
      } else if StartsWith(val, "T:") || StartsWith(val, "Z:") {
        ListReadsHere(val);
        var b := LiteralAround(w, k - 1);
        ClosesAfter(enc, k - 1, b);
        NoListStarts(enc, k, b);
      }
    }
  }

  /** An `=` in an encoded list stands in a literal, which closes after a character that opens no list. */
  lemma {:induction false} LiteralAround(w: Value, p: nat) returns (b: nat)
    requires IsList(w) && p < |Encode(w)| && Encode(w)[p] == '='
    ensures ClosesAt(Encode(w), p, b) && Encode(w)[b - 1] != '['
  {
    ListEnds(w);
    PartsTame(w);
    hide *;
    b := LiteralIn(Encode(w), Parts(w), p);
  }

  lemma {:induction false} LiteralIn(enc: string, parts: seq<string>, p: nat) returns (b: nat)
    requires |enc| >= 4 && enc[0] != '=' && enc[1] == ':' && enc[2..] == ListText(parts) && p < |enc| && enc[p] == '='
    requires forall part :: part in parts ==> EndsTame(part)
    ensures ClosesAt(enc, p, b) && enc[b - 1] != '['
  {
    hide EndsTame, Items;
    assert enc[2..][p - 2] == '=';
    var items := Items(parts);
    assert enc[3..] == enc[2..][1..] == items;
    assert items[p - 3] == '=';
    var c := WrittenShape(parts, p - 3);
    ClosesLater(enc, 3, p, c);
    ClosesAfter(items, p - 3, c);
    b := 3 + c;
    assert enc[b - 1] == enc[3..][c - 1];
  }

  // --- enums at the end --------------------------------------------------------------------

  /** If the class set closed in an encoded value that is no enum, the enum's value would be an end of it. */
  lemma {:induction false} ClosesBefore(w: Value, k: nat)
    requires !w.PyEnum? && 0 < k <= |Encode(w)| && Encode(w)[k - 1] == '='
    requires exists i :: 0 <= i < k && Encode(w)[i] == '}'
    ensures !CheckValue(Encode(w)[k..])
  {
    hide *;
    if w.PyStr? {
      NoStringEnd(w.s, k);
    } else if IsList(w) {
      NoListEnd(w, k);
    } else {
      EndsOf(w);
      NoBrace(Encode(w));
    }
  }

  lemma {:induction false} NoBrace(enc: string)
    ensures (forall i :: 0 <= i < |enc| ==> !Marks(enc[i])) ==> forall i :: 0 <= i < |enc| ==> enc[i] != '}'
  {
  }

  lemma {:induction false} ClosesLate(q: string, w: Value, close: nat, j: nat)
    requires !w.PyEnum?
    requires var t := q + ("=" + Encode(w)); |q| < close < j < |t| && t[close] == '}' && t[j - 1] == '='
    ensures !CheckValue((q + ("=" + Encode(w)))[j..])
  {
    hide *;
    var enc := Encode(w);
    var t, k := q + ("=" + enc), j - |q| - 1;
    Splice(q, enc);
    assert enc[close - |q| - 1] == t[close] && enc[k - 1] == t[j - 1];
    assert t[j..] == enc[k..];
    ClosesBefore(w, k);
  }

  /** Where an enum's text closes its class set: in the head, unless it goes on in an encoding. */
  lemma {:induction false} ClosesInHead(q: string, w: Value)
    requires Declared(w)
    requires var t := q + ("=" + Encode(w)); CheckValue(t) && EnumParts(t).Some?
    ensures '}' in q
  {
    assert w.PyEnum? ==> IsClassSet(w.classSet);
    hide *;
    var t := q + ("=" + Encode(w));
    var j := ValueEnds(t);
    EnumValueChecks(t);
    var close: nat :| 2 < close < j && t[close] == '}' && t[close + 1] == ':' && '}' !in t[2..close];
    assert t[|q|] == '=';
    if close < |q| {
      assert q[close] == t[close];
    } else if w.PyEnum? {
      OpensInside(q, w, close);
    } else {
      ClosesLate(q, w, close, j);
    }
  }

  lemma {:induction false} EnumOpens(w: Value)
    requires w.PyEnum? && IsClassSet(w.classSet)
    ensures |Encode(w)| > 2 && Encode(w)[0] == 'E' && Encode(w)[1] == ':' && Encode(w)[2] == '{'
  {
    assert w.classSet[0] == '{';
    EncodedEnum(w);
    hide *;
    assert Encode(w)[2] == w.classSet[0];
  }

  /** An enum's text opens a class set before it closes one, which no class set allows inside. */
  lemma {:induction false} OpensInside(q: string, w: Value, close: nat)
    requires w.PyEnum? && IsClassSet(w.classSet)
    requires var t := q + ("=" + Encode(w)); |q| <= close < |t| && t[close] == '}' && '}' !in t[2..close]
    ensures EnumParts(q + ("=" + Encode(w))).None?
  {
    hide *;
    var t := q + ("=" + Encode(w));
    EnumOpens(w);
    Splice(q, Encode(w));
    Starts(t);
    assert t[|q| + 1] == Encode(w)[0] && t[|q| + 2] == Encode(w)[1] && t[|q| + 3] == Encode(w)[2];
    NoEnumOver(t, |q| + 3, close);
  }

  /** No class set reaches over an opening brace. */
  lemma {:induction false} NoEnumOver(t: string, open: nat, close: nat)
    requires 3 <= open < close < |t| && t[open] == '{' && t[close] == '}' && '}' !in t[2..close]
    requires open == 3 ==> t[0] == '='
    requires open == 4 ==> t[1] == '='
    ensures EnumParts(t).None?
  {
    Starts(t);
    hide IndexOf, MemberParts, StartsWith;
    if StartsWith(t, "E:") {
      var u := t[2..];
      FirstAt(t, close);
      var inner := u[..close - 2];
      assert inner[1..][open - 3] == '{' && inner[1..][open - 3] in inner[1..];
      assert !OpenSet(inner);
    }
  }

  lemma {:induction false} NoneBefore(s: string, c: char, i: nat)
    requires i <= |s| && c !in s[..i]
    ensures forall k :: 0 <= k < i ==> s[k] != c
  {
    forall k | 0 <= k < i ensures s[k] != c { assert s[..i][k] == s[k]; }
  }

  /** The first brace from the third character on. */
  lemma {:induction false} FirstAt(t: string, close: nat)
    requires 2 <= close < |t| && t[close] == '}' && '}' !in t[2..close]
    ensures IndexOf(t[2..], '}') == close - 2
  {
    var u := t[2..];
    var i := IndexOf(u, '}');
    hide IndexOf;
    assert u[..close - 2] == t[2..close] && u[close - 2] == t[close];
    NoneBefore(u, '}', close - 2);
    NoneBefore(u, '}', i);
  }

  /** A text the check accepts with an encoding after an `=` is an enum's. */
  lemma {:induction false} TailKind(q: string, v: Value)
    requires CheckValue(q + ("=" + Encode(v)))
    ensures EnumParts(q + ("=" + Encode(v))).Some?
  {
    hide *;
    var t, head, w := q + ("=" + Encode(v)), "", Innermost(v);
    Splice(q, Encode(v));
    assert t[|q|] in t;
    head := InnerEnds(v);
    var front := q;
    if v.PyEnum? {
      front := q + ("=" + head[..|head| - 1]);
      assert head == head[..|head| - 1] + "=";
      assert t == front + ("=" + Encode(w));
    } else {
      assert head + Encode(w) == Encode(w);
    }
    NoLiteral(front, w);
    NoList(front, w);
    if EnumParts(t).None? { PlainChars(t); }
  }

  /** And goes on from an enum's head. */
  lemma {:induction false} TailIsEnum(q: string, v: Value)
    requires Declared(v) && CheckValue(q + ("=" + Encode(v)))
    ensures EnumHead(q).Some?
  {
    TailKind(q, v);
    hide *;
    ClosesInHead(q, v);
    HeadOf(q, "=" + Encode(v));
  }

  /** An enum's text whose class set closes before `tail` has its head there. */
  lemma {:induction false} HeadOf(q: string, tail: string)
    requires '}' in q && tail != "" && tail[0] == '=' && CheckValue(q + tail) && EnumParts(q + tail).Some?
    ensures EnumHead(q).Some?
  {
    hide *;
    var t := q + tail;
    EnumValueChecks(t);
    PartsClass(t);
    Starts(t);
    Starts(q);
    var close := IndexOf(t[2..], '}');
    var i :| 0 <= i < |q| && q[i] == '}';
    assert t[i] == '}';
    BraceBefore(t, i);
    assert t[|q|] == '=';
    assert forall k :: 0 <= k < |q| ==> q[k] == t[k];
    HeadHere(q, t, close);
  }

  lemma {:induction false} BraceBefore(t: string, i: nat)
    requires 2 <= i < |t| && t[i] == '}'
    ensures IndexOf(t[2..], '}') <= i - 2
  {
    hide IndexOf;
    assert t[2..][i - 2] == '}';
    NoneBefore(t[2..], '}', IndexOf(t[2..], '}'));
  }

  lemma {:induction false} HeadHere(q: string, t: string, close: nat)
    requires 2 <= |q| <= |t| && t[..|q|] == q && close == IndexOf(t[2..], '}') && close + 3 < |q|
    requires q[0] == 'E' && q[1] == ':' && q[close + 2] == '}' && q[close + 3] == ':' && IsClassSet(t[2..][..close + 1])
    ensures EnumHead(q).Some?
  {
    Starts(q);
    hide IndexOf, IsClassSet, StartsWith;
    var u, w := t[2..], q[2..];
    assert w == u[..|q| - 2];
    assert '}' !in q[2..close + 2] by { assert q[2..close + 2] == u[..close]; }
    FirstAt(q, close + 2);
    assert w[..close + 1] == u[..close + 1] && w[close + 1] == q[close + 3];
  }

  lemma {:induction false} PartsClass(t: string)
    requires EnumParts(t).Some?
    ensures var close := IndexOf(t[2..], '}');
      |t| > close + 3 && t[0] == 'E' && t[1] == ':' && t[close + 2] == '}' && t[close + 3] == ':'
      && EnumParts(t).value.classSet == t[2..][..close + 1]
  {
    Starts(t);
    hide IndexOf, OpenSet, StartsWith;
    var u, close := t[2..], IndexOf(t[2..], '}');
    assert u[close] == t[close + 2] && u[close + 1] == t[close + 3];
  }

  // --- the exact condition -----------------------------------------------------------------

  /** A member's name and value are accepted exactly when the name is one of the accepted and the value is. */
  lemma {:induction false} NameChecks(classSet: string, name: string, v: Value)
    requires IsClassSet(classSet) && Declared(v)
    ensures CheckValue("E:" + (classSet + (":" + (name + ("=" + Encode(v)))))) <==> AcceptedName(name) && CheckValue(Encode(v))
    decreases |name|, 0
  {
    var eq := IndexOf(name, '=');
    var enc := Encode(v);
    EncodeFirst(v);
    hide CheckValue, IsClassSet, MemberName, Encode, EnumHead;
    if eq == |name| {
      assert name[..eq] == name;
      EnumTextChecks(classSet, name, enc);
    } else {
      var member, q := name[..eq], name[eq + 1..];
      var value := q + ("=" + enc);
      assert name == member + ("=" + q);
      assert name + ("=" + enc) == member + ("=" + value);
      EnumTextChecks(classSet, member, value);
      TailChecks(q, v);
    }
  }

  lemma {:induction false} TailChecks(q: string, v: Value)
    requires Declared(v)
    ensures CheckValue(q + ("=" + Encode(v))) <==>
      EnumHead(q).Some? && AcceptedName(EnumHead(q).value.1) && CheckValue(Encode(v))
    decreases |q|, 1
  {
    hide CheckValue, Encode, AcceptedName, EnumHead;
    if EnumHead(q).Some? {
      var (classSet, name) := EnumHead(q).value;
      var tail := "=" + Encode(v);
      NameChecks(classSet, name, v);
      hide *;
      assert ("E:" + (classSet + (":" + name))) + tail == "E:" + (classSet + (":" + (name + tail)));
    } else if CheckValue(q + ("=" + Encode(v))) {
      TailIsEnum(q, v);
    }
  }

  /** The check accepts an encoding exactly when the enum members inside are named by identifiers, each perhaps
      followed by `=` and the head of another enum, and so on. */
  lemma {:induction false} CheckExact(v: Value)
    requires Declared(v)
    ensures CheckValue(Encode(v)) <==> AcceptedMembers(v)
    decreases v
  {
    hide CheckValue, Encode, AcceptedName;
    match v {
      case PyTuple(items) =>
        forall i | 0 <= i < |items| ensures CheckValue(Encode(items[i])) <==> AcceptedMembers(items[i]) {
          CheckExact(items[i]);
        }
        PartsMembers(v);
        ContainerChecks(v);
        assert forall i :: 0 <= i < |items| ==> Parts(v)[i] == Encode(items[i]);
      case PyFrozenSet(elems) =>
        forall x | x in elems ensures CheckValue(Encode(x)) <==> AcceptedMembers(x) { CheckExact(x); }
        SetChecks(v);
      case PyEnum(classSet, member, value) =>
        CheckExact(value);
        NameChecks(classSet, member, value);
        EncodedEnum(v);
      case _ =>
        ScalarChecks(v);
    }
  }
}
