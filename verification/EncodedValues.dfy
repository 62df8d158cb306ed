/** The type-tagged value encoding of an API dump: writing, checking and comparing encoded values. */
module EncodedValues {
  import opened Texts
  import opened JsonText

  /** A Python value the dump can hold as a default or an input name. Floats are not modelled. */
  datatype Value =
    | PyNone
    | PyBool(b: bool)
    | PyInt(n: int)
    | PyStr(s: seq<CodePoint>)
    | PyBytes(bytes: seq<Byte>)
    | PyTuple(items: seq<Value>)
    | PyFrozenSet(elems: set<Value>)
    | PyEnum(classSet: string, member: string, value: Value)
    | Untracked

  predicate StartsWith(t: string, tag: string) { |tag| <= |t| && t[..|tag|] == tag }

  // --- characters and names ------------------------------------------------------------

  /** The whitespace the dump refuses in an encoded value. */
  predicate IsBlank(c: char) { 9 <= c as int <= 13 || c == ' ' }

  /** Python's `\s`: what `str.isspace` accepts. */
  predicate IsSpace(c: char)
  {
    var p := c as int;
    9 <= p <= 13 || 28 <= p <= 32 || p == 0x85 || p == 0xa0 || p == 0x1680 || 0x2000 <= p <= 0x200a
    || p == 0x2028 || p == 0x2029 || p == 0x202f || p == 0x205f || p == 0x3000
  }

  predicate IsDigit(c: char) { '0' <= c <= '9' }

  /** ASCII letters and `_` as `str.isidentifier` has them, and any other non-ASCII non-space. */
  predicate IsNameStart(c: char)
  {
    'a' <= c <= 'z' || 'A' <= c <= 'Z' || c == '_' || (c as int >= 0x80 && !IsSpace(c))
  }

  predicate IsName(t: string)
  {
    t != "" && IsNameStart(t[0]) && forall c :: c in t ==> IsNameStart(c) || IsDigit(c)
  }

  predicate NoBlank(t: string) { forall c :: c in t ==> !IsBlank(c) }

  // --- enum values -----------------------------------------------------------------------

  predicate ClassSetChar(c: char) { c != '{' && c != '}' && !IsSpace(c) }

  /** `{binding,binding,...}`, at least one, none empty. */
  predicate IsClassSet(t: string)
  {
    |t| > 2 && t[0] == '{' && t[|t| - 1] == '}'
    && (forall c :: c in t[1..|t| - 1] ==> ClassSetChar(c))
    && "" !in Split(t[1..|t| - 1], ',')
  }

  function ClassSet(t: string): set<string>
    requires IsClassSet(t)
  {
    var names := Split(t[1..|t| - 1], ',');
    set name | name in names
  }

  datatype EnumText = EnumText(classSet: string, member: string, value: string)

  /** The parts of `E:{classes}:member=value`. */
  function EnumParts(t: string): (r: Option<EnumText>)
    ensures r.Some? ==> |r.value.value| < |t|
  {
    if !StartsWith(t, "E:") then None
    else
      var u := t[2..];
      var close := IndexOf(u, '}');
      if close + 1 < |u| && u[close + 1] == ':' && OpenSet(u[..close])
      then MemberParts(u[..close + 1], u[close + 2..])
      else None
  }

  /** A class set without its closing brace. */
  predicate OpenSet(t: string)
  {
    |t| > 1 && t[0] == '{' && forall c :: c in t[1..] ==> ClassSetChar(c)
  }

  function MemberParts(classes: string, rest: string): (r: Option<EnumText>)
    ensures r.Some? ==> |r.value.value| < |rest|
  {
    var eq := IndexOf(rest, '=');
    if 0 < eq < |rest| - 1 && (forall c :: c in rest[..eq] ==> c != ':' && !IsSpace(c))
    then Some(EnumText(classes, rest[..eq], rest[eq + 1..]))
    else None
  }

  // --- scalars ---------------------------------------------------------------------------

  const DIGITS := "0123456789"

  function NatText(n: nat): (r: string)
    ensures r != ""
  {
    if n < 10 then [DIGITS[n]] else NatText(n / 10) + [DIGITS[n % 10]]
  }

  function ReadNat(t: string): nat
  {
    if t == "" then 0
    else 10 * ReadNat(t[..|t| - 1]) + (if IsDigit(t[|t| - 1]) then t[|t| - 1] as int - '0' as int else 0)
  }

  function IntText(n: int): string
  {
    if n < 0 then "-" + NatText(-n) else NatText(n)
  }

  predicate AllDigits(t: string) { t != "" && forall c :: c in t ==> IsDigit(c) }

  /** `0` or a number without a leading zero. */
  predicate IsNatText(t: string)
  {
    t == "0" || (AllDigits(t) && t[0] != '0')
  }

  predicate IsIntText(t: string)
  {
    IsNatText(t) || (|t| > 1 && t[0] == '-' && IsNatText(t[1..]) && t != "-0")
  }

  predicate LowerHex(c: char) { c in HEX }

  /** `nan`, `inf`, `-inf` or a hexadecimal float. */
  predicate IsFloatText(t: string)
  {
    t == "nan" || t == "inf" || t == "-inf"
    || (if t != "" && t[0] == '-' then IsHexFloat(t[1..]) else IsHexFloat(t))
  }

  predicate IsHexFloat(t: string)
  {
    var p := IndexOf(t, 'p');
    |t| > 5 && t[..2] == "0x" && LowerHex(t[2]) && t[3] == '.'
    && 4 < p < |t| - 2 && (forall c :: c in t[4..p] ==> LowerHex(c))
    && (t[p + 1] == '+' || t[p + 1] == '-') && AllDigits(t[p + 2..])
  }

  function BytesText(bytes: seq<Byte>): string
  {
    if bytes == [] then ""
    else HexDigits(bytes[0], 2) + BytesText(bytes[1..])
  }

  // --- encoding --------------------------------------------------------------------------

  /** The elements of a set, in whatever order iteration gives them. */
  ghost function Elements<T(!new)>(s: set<T>): (r: seq<T>)
    ensures forall x :: x in r <==> x in s
    ensures |r| == |s|
  {
    if s == {} then []
    else
      var x :| x in s;
      [x] + Elements(s - {x})
  }

  /** `encode_value`: a type tag and the value's text. */
  ghost function Encode(v: Value): string
    decreases v
  {
    match v
    case PyNone => "N"
    case PyBool(b) => if b then "B:true" else "B:false"
    case PyInt(n) => "I:" + IntText(n)
    case PyStr(s) => "S:" + Literal(s)
    case PyBytes(bytes) => "Y:" + BytesText(bytes)
    case PyTuple(items) => "T:" + ListText(seq(|items|, i requires 0 <= i < |items| => Encode(items[i])))
    case PyFrozenSet(elems) =>
      var es := Elements(elems);
      "Z:" + ListText(SortTexts(seq(|es|, i requires 0 <= i < |es| => assert es[i] in es; Encode(es[i]))))
    case PyEnum(classSet, member, value) => "E:" + (classSet + (":" + (member + ("=" + Encode(value)))))
    case Untracked => "O"
  }

  // --- checking --------------------------------------------------------------------------

  /** `_check_value` accepts `t`. */
  predicate CheckValue(t: string)
    decreases |t|
  {
    NoBlank(t) &&
    if t in ["N", "O", "B:true", "B:false"] then true
    else if StartsWith(t, "I:") then IsIntText(t[2..])
    else if StartsWith(t, "F:") then IsFloatText(t[2..])
    else if StartsWith(t, "Y:") then forall c :: c in t[2..] ==> LowerHex(c)
    else if StartsWith(t, "S:") then ReadLiteral(t[2..]).Some? && ReadLiteral(t[2..]).value.1 == ""
    else if StartsWith(t, "T:") || StartsWith(t, "Z:") then
      var items := ReadList(t[2..]);
      items.Some? && forall i :: 0 <= i < |items.value| ==> CheckValue(items.value[i])
    else
      var parts := EnumParts(t);
      parts.Some? && IsClassSet(parts.value.classSet)
      && (parts.value.member == "*" || IsName(parts.value.member))
      && CheckValue(parts.value.value)
  }

  type Encoded = t: string | CheckValue(t) witness "N"

  predicate IsContainer(t: string) { StartsWith(t, "T:") || StartsWith(t, "Z:") }

  /** The encoded items of a tuple or a frozenset. */
  function ItemsOf(t: Encoded): (r: seq<Encoded>)
    requires IsContainer(t)
    ensures ReadList(t[2..]) == Some(r)
    ensures forall x :: x in r ==> |x| < |t|
  {
    assert t[0] == 'T' || t[0] == 'Z';
    ReadList(t[2..]).value
  }

  // --- comparing -------------------------------------------------------------------------

  /** `values_equal`: equal text, or the same enum member through a shared binding, element-wise in containers. */
  predicate ValuesEqual(a: Encoded, b: Encoded)
    decreases |a|, 2, 0
  {
    if a == b then true
    else if EnumParts(a).Some? && EnumParts(b).Some? then
      var x, y := EnumParts(a).value, EnumParts(b).value;
      EnumPartsChecked(a); EnumPartsChecked(b);
      ClassSet(x.classSet) * ClassSet(y.classSet) != {} && x.member == y.member && ValuesEqual(x.value, y.value)
    else if StartsWith(a, "T:") && StartsWith(b, "T:") then
      var left, right := ItemsOf(a), ItemsOf(b);
      |left| == |right| && forall i :: 0 <= i < |left| ==> ValuesEqual(left[i], right[i])
    else if StartsWith(a, "Z:") && StartsWith(b, "Z:") then
      var left, right := ItemsOf(a), ItemsOf(b);
      |left| == |right| && MatchAll(left, right, |a|)
    else false
  }

  /** Every text of `left` finds a partner in `right`, first come first served, each used once. */
  predicate MatchAll(left: seq<Encoded>, right: seq<Encoded>, size: nat)
    requires forall x :: x in left ==> |x| < size
    decreases size, 1, |left|
  {
    left == [] ||
    var i := FirstMatch(left[0], right, size);
    i < |right| && MatchAll(left[1..], right[..i] + right[i + 1..], size)
  }

  /** The index of the first text of `ys` equal to `x`, or `|ys|`. */
  function FirstMatch(x: Encoded, ys: seq<Encoded>, size: nat): (r: nat)
    requires |x| < size
    ensures r <= |ys|
    decreases size, 0, |ys|
  {
    if ys == [] || ValuesEqual(x, ys[0]) then 0 else FirstMatch(x, ys[1..], size) + 1
  }

  lemma {:induction false} EnumPartsChecked(t: Encoded)
    requires EnumParts(t).Some?
    ensures IsClassSet(EnumParts(t).value.classSet) && CheckValue(EnumParts(t).value.value)
  {
    assert t[..2][0] == t[0] == 'E';
  }
}
