/** Laws of the value encoding: it is checkable, injective, and comparison means what it should. */
module EncodedLaws {
  import opened Texts
  import opened JsonText
  import opened EncodedValues

  // --- scalars ---------------------------------------------------------------------------

  lemma {:induction false} NatReads(n: nat)
    ensures ReadNat(NatText(n)) == n
    ensures AllDigits(NatText(n))
    ensures n > 0 ==> NatText(n)[0] != '0'
    ensures n == 0 ==> NatText(n) == "0"
  {
    var t := NatText(n);
    if n >= 10 {
      NatReads(n / 10);
      assert t[..|t| - 1] == NatText(n / 10);
    } else {
      assert t[..0] == "";
    }
  }

  lemma {:induction false} IntReads(a: int, b: int)
    ensures IsIntText(IntText(a))
    ensures IntText(a) == IntText(b) ==> a == b
  {
    NatReads(if a < 0 then -a else a);
    NatReads(if b < 0 then -b else b);
    if a < 0 { assert IntText(a)[1..] == NatText(-a); }
    if b < 0 { assert IntText(b)[1..] == NatText(-b); }
    if a < 0 <= b {
      assert IsDigit(NatText(b)[0]);
    } else if b < 0 <= a {
      assert IsDigit(NatText(a)[0]);
    }
  }

  lemma {:induction false} ByteReads(n: Byte)
    ensures ReadHex(HexDigits(n, 2)) == Some(n)
  {
    assert Pow16(2) == 16 * Pow16(1) == 256 * Pow16(0);
    HexDigitsRead(n, 2);
  }

  lemma {:induction false} BytesInjective(a: seq<Byte>, b: seq<Byte>)
    ensures forall c :: c in BytesText(a) ==> LowerHex(c)
    ensures BytesText(a) == BytesText(b) ==> a == b
  {
    hide ReadHex, HexDigits;
    if a != [] {
      BytesInjective(a[1..], if b == [] then [] else b[1..]);
      if b != [] && BytesText(a) == BytesText(b) {
        assert BytesText(a)[..2] == HexDigits(a[0], 2) && BytesText(a)[2..] == BytesText(a[1..]);
        assert BytesText(b)[..2] == HexDigits(b[0], 2) && BytesText(b)[2..] == BytesText(b[1..]);
        ByteReads(a[0]);
        ByteReads(b[0]);
        assert a == [a[0]] + a[1..] && b == [b[0]] + b[1..];
      }
    }
  }

  // --- containers ------------------------------------------------------------------------

  ghost function EncodeEach(vs: seq<Value>): (r: seq<string>)
    ensures |r| == |vs| && forall i :: 0 <= i < |vs| ==> r[i] == Encode(vs[i])
  {
    seq(|vs|, i requires 0 <= i < |vs| => Encode(vs[i]))
  }

  /** The items of an encoded container, as written. */
  ghost function Parts(v: Value): seq<string>
    requires v.PyTuple? || v.PyFrozenSet?
  {
    match v
    case PyTuple(items) => EncodeEach(items)
    case PyFrozenSet(elems) => SortTexts(EncodeEach(Elements(elems)))
  }

  function Tag(v: Value): string
  {
    if v.PyTuple? then "T:" else "Z:"
  }

  lemma {:induction false} EncodeContainer(v: Value)
    requires v.PyTuple? || v.PyFrozenSet?
    ensures Encode(v) == Tag(v) + ListText(Parts(v))
    ensures StartsWith(Encode(v), Tag(v)) && Encode(v)[2..] == ListText(Parts(v))
    ensures ReadList(Encode(v)[2..]) == Some(Parts(v))
  {
    match v {
      case PyTuple(items) =>
        assert EncodeEach(items) == seq(|items|, i requires 0 <= i < |items| => Encode(items[i]));
      case PyFrozenSet(elems) =>
        var es := Elements(elems);
        assert EncodeEach(es) == seq(|es|, i requires 0 <= i < |es| => assert es[i] in es; Encode(es[i]));
    }
    ListReads(Parts(v));
    assert Encode(v)[2..] == ListText(Parts(v));
  }

  /** The parts of a container are the encodings of its elements, no others. */
  lemma {:induction false} PartsMembers(v: Value)
    requires v.PyTuple? || v.PyFrozenSet?
    ensures v.PyTuple? ==> Parts(v) == EncodeEach(v.items)
    ensures v.PyFrozenSet? ==> forall x :: x in v.elems ==> Encode(x) in Parts(v)
    ensures v.PyFrozenSet? ==> forall t :: t in Parts(v) ==> exists x :: x in v.elems && Encode(x) == t
    ensures v.PyFrozenSet? ==> SortedTexts(Parts(v))
  {
    if v.PyFrozenSet? {
      var es := Elements(v.elems);
      SortTextsSorts(EncodeEach(es));
      forall x | x in v.elems ensures Encode(x) in Parts(v) {
        var i :| 0 <= i < |es| && es[i] == x;
        assert EncodeEach(es)[i] == Encode(x);
      }
      forall t | t in Parts(v) ensures exists x :: x in v.elems && Encode(x) == t {
        var i :| 0 <= i < |es| && EncodeEach(es)[i] == t;
        assert es[i] in es && Encode(es[i]) == t;
      }
    }
  }

  // --- enums -----------------------------------------------------------------------------

  predicate MemberName(t: string) { t == "*" || IsName(t) }

  lemma {:induction false} ClassSetInner(t: string)
    requires IsClassSet(t)
    ensures forall i :: 0 < i < |t| - 1 ==> ClassSetChar(t[i])
    ensures OpenSet(t[..|t| - 1]) && '}' !in t[..|t| - 1]
    ensures t == t[..|t| - 1] + "}"
  {
    var open := t[..|t| - 1];
    assert open[1..] == t[1..|t| - 1];
    forall i | 0 < i < |t| - 1 ensures ClassSetChar(t[i]) {
      assert open[1..][i - 1] == t[i];
      assert open[1..][i - 1] in open[1..];
    }
  }

  /** The class set ends at the first closing brace. */
  lemma {:induction false} EnumSplits(open: string, rest: string)
    requires OpenSet(open) && '}' !in open
    ensures EnumParts("E:" + (open + ("}" + (":" + rest)))) == MemberParts(open + "}", rest)
  {
    hide OpenSet, MemberParts;
    var u := open + ("}" + (":" + rest));
    IndexOfConcat(open, '}', ":" + rest);
    assert u[|open|] == '}' && u[|open| + 1] == ':' && u[|open| + 2..] == rest;
    assert u[..|open|] == open && u[..|open| + 1] == open + "}";
    assert ("E:" + u)[2..] == u;
  }

  lemma {:induction false} MemberReads(classes: string, member: string, value: string)
    requires '=' !in member && value != ""
    ensures MemberParts(classes, member + ("=" + value))
         == if member != "" && forall c :: c in member ==> c != ':' && !IsSpace(c)
            then Some(EnumText(classes, member, value)) else None
  {
    var rest := member + ("=" + value);
    IndexOfConcat(member, '=', value);
    assert rest[..|member|] == member && rest[|member| + 1..] == value;
  }

  lemma {:induction false} MemberNameClean(member: string)
    requires MemberName(member)
    ensures '=' !in member && member != "" && forall c :: c in member ==> c != ':' && !IsSpace(c)
  {
  }

  /** An encoded enum value without `=` in its member name has the parts it was written from. */
  lemma {:induction false} EnumPartsOf(classSet: string, member: string, value: string)
    requires IsClassSet(classSet) && '=' !in member && value != ""
    ensures EnumParts("E:" + (classSet + (":" + (member + ("=" + value))))) == MemberParts(classSet, member + ("=" + value))
  {
    var open := classSet[..|classSet| - 1];
    ClassSetInner(classSet);
    EnumSplits(open, member + ("=" + value));
    hide *;
    Assoc(open, "}", ":" + (member + ("=" + value)));
  }

  /** An encoded enum value reads back part by part. */
  lemma {:induction false} EnumReads(classSet: string, member: string, value: string)
    requires IsClassSet(classSet) && MemberName(member) && value != ""
    ensures EnumParts("E:" + (classSet + (":" + (member + ("=" + value)))))
         == Some(EnumText(classSet, member, value))
  {
    MemberNameClean(member);
    MemberReads(classSet, member, value);
    EnumPartsOf(classSet, member, value);
  }

  // --- what an encoding looks like -------------------------------------------------------

  /** Every enum inside `v` has a declared class set. */
  ghost predicate Declared(v: Value)
    decreases v
  {
    match v
    case PyTuple(items) => forall i :: 0 <= i < |items| ==> Declared(items[i])
    case PyFrozenSet(elems) => forall x :: x in elems ==> Declared(x)
    case PyEnum(classSet, _, value) => IsClassSet(classSet) && Declared(value)
    case _ => true
  }

  /** Every enum member inside `v` is named by an identifier, or is none of its class's own. */
  ghost predicate NamedMembers(v: Value)
    decreases v
  {
    match v
    case PyTuple(items) => forall i :: 0 <= i < |items| ==> NamedMembers(items[i])
    case PyFrozenSet(elems) => forall x :: x in elems ==> NamedMembers(x)
    case PyEnum(_, member, value) => MemberName(member) && NamedMembers(value)
    case _ => true
  }

  /** No enum member inside `v` has a name with an `=`, which the functional enum API allows. */
  ghost predicate EqualsFree(v: Value)
    decreases v
  {
    match v
    case PyTuple(items) => forall i :: 0 <= i < |items| ==> EqualsFree(items[i])
    case PyFrozenSet(elems) => forall x :: x in elems ==> EqualsFree(x)
    case PyEnum(_, member, value) => '=' !in member && EqualsFree(value)
    case _ => true
  }

  /** Nothing inside `v` is untracked, and no string inside it splits a surrogate pair. */
  ghost predicate Tracked(v: Value)
    decreases v
  {
    match v
    case PyStr(s) => NoPair(s)
    case PyTuple(items) => forall i :: 0 <= i < |items| ==> Tracked(items[i])
    case PyFrozenSet(elems) => forall x :: x in elems ==> Tracked(x)
    case PyEnum(_, _, value) => Tracked(value)
    case Untracked => false
    case _ => true
  }

  ghost predicate EnumFree(v: Value)
    decreases v
  {
    match v
    case PyTuple(items) => forall i :: 0 <= i < |items| ==> EnumFree(items[i])
    case PyFrozenSet(elems) => forall x :: x in elems ==> EnumFree(x)
    case PyEnum(_, _, _) => false
    case _ => true
  }

  lemma {:induction false} NameNoBlank(t: string)
    requires MemberName(t)
    ensures NoBlank(t)
  {
  }

  lemma {:induction false} ClassSetNoBlank(t: string)
    requires IsClassSet(t)
    ensures NoBlank(t)
  {
    ClassSetInner(t);
  }

  lemma {:induction false} EncodeFirst(v: Value)
    ensures Encode(v) != "" && Encode(v)[0] == FirstChar(v)
  {
  }

  lemma {:induction false} StringChecks(s: seq<CodePoint>)
    ensures CheckValue("S:" + Literal(s))
  {
    LiteralReads(s, "");
    EscapeDark(s);
    LiteralNoBlank(s);
    hide Literal, ReadLiteral;
    var t := "S:" + Literal(s);
    assert t[2..] == Literal(s) && Literal(s) + "" == Literal(s);
  }

  lemma {:induction false} LiteralNoBlank(s: seq<CodePoint>)
    ensures NoBlank(Literal(s))
  {
    EscapeDark(s);
  }

  lemma {:induction false} IntChecks(n: int)
    ensures CheckValue("I:" + IntText(n))
  {
    IntReads(n, n);
    IntNoBlank(n);
    hide IntText, IsIntText;
    assert ("I:" + IntText(n))[2..] == IntText(n);
  }

  lemma {:induction false} BytesChecks(bytes: seq<Byte>)
    ensures CheckValue("Y:" + BytesText(bytes))
  {
    BytesInjective(bytes, bytes);
    hide BytesText;
    assert ("Y:" + BytesText(bytes))[2..] == BytesText(bytes);
  }

  lemma {:induction false} ScalarChecks(v: Value)
    requires !v.PyTuple? && !v.PyFrozenSet? && !v.PyEnum?
    ensures CheckValue(Encode(v))
  {
    match v {
      case PyInt(n) => IntChecks(n);
      case PyStr(s) => StringChecks(s);
      case PyBytes(bytes) => BytesChecks(bytes);
      case _ => WordChecks();
    }
    hide CheckValue;
  }

  lemma {:induction false} WordChecks()
    ensures CheckValue("N") && CheckValue("O") && CheckValue("B:true") && CheckValue("B:false")
  {
  }

  lemma {:induction false} EnumNoBlank(classSet: string, member: string, value: string)
    requires NoBlank(classSet) && NoBlank(member) && NoBlank(value)
    ensures NoBlank("E:" + (classSet + (":" + (member + ("=" + value)))))
  {
  }

  /** The check of an enum's text, split at the first `=`. */
  lemma {:induction false} EnumTextChecks(classSet: string, member: string, value: string)
    requires IsClassSet(classSet) && '=' !in member && value != ""
    ensures CheckValue("E:" + (classSet + (":" + (member + ("=" + value))))) <==> MemberName(member) && CheckValue(value)
  {
    var t := "E:" + (classSet + (":" + (member + ("=" + value))));
    EnumPartsOf(classSet, member, value);
    MemberReads(classSet, member, value);
    if MemberName(member) && CheckValue(value) {
      MemberNameClean(member);
      NameNoBlank(member);
      ClassSetNoBlank(classSet);
      EnumNoBlank(classSet, member, value);
    }
    hide EnumParts, IsClassSet, IsName, IsBlank, MemberParts, IsSpace;
    NotOther(t);
  }

  lemma {:induction false} EnumChecks(v: Value)
    requires v.PyEnum? && IsClassSet(v.classSet) && '=' !in v.member
    ensures CheckValue(Encode(v)) <==> MemberName(v.member) && CheckValue(Encode(v.value))
  {
    EncodeFirst(v.value);
    hide CheckValue, IsClassSet, MemberName;
    EnumTextChecks(v.classSet, v.member, Encode(v.value));
  }

  lemma {:induction false} NotOther(t: string)
    requires t != "" && t[0] == 'E'
    ensures t !in ["N", "O", "B:true", "B:false"]
    ensures !StartsWith(t, "I:") && !StartsWith(t, "F:") && !StartsWith(t, "Y:") && !StartsWith(t, "S:")
    ensures !StartsWith(t, "T:") && !StartsWith(t, "Z:")
  {
    assert |t| < 2 || t[..2][0] == 'E';
  }

  /** An encoding passes the dump's own check, so that it holds no blank, when its enum members are named
      by identifiers; where no name holds an `=`, only then. */
  lemma {:induction false} EncodeChecks(v: Value)
    requires Declared(v)
    ensures NamedMembers(v) ==> EqualsFree(v)
    ensures EqualsFree(v) ==> (CheckValue(Encode(v)) <==> NamedMembers(v))
    decreases v
  {
    hide CheckValue, Encode, MemberName;
    match v {
      case PyTuple(items) =>
        forall i | 0 <= i < |items|
          ensures NamedMembers(items[i]) ==> EqualsFree(items[i])
          ensures EqualsFree(items[i]) ==> (CheckValue(Encode(items[i])) <==> NamedMembers(items[i]))
        {
          EncodeChecks(items[i]);
        }
        PartsMembers(v);
        ContainerChecks(v);
        assert forall i :: 0 <= i < |items| ==> Parts(v)[i] == Encode(items[i]);
      case PyFrozenSet(elems) =>
        forall x | x in elems
          ensures NamedMembers(x) ==> EqualsFree(x)
          ensures EqualsFree(x) ==> (CheckValue(Encode(x)) <==> NamedMembers(x))
        {
          EncodeChecks(x);
        }
        SetChecks(v);
      case PyEnum(classSet, member, value) =>
        EncodeChecks(value);
        if MemberName(member) { MemberNameClean(member); }
        if '=' !in member { EnumChecks(v); }
      case _ =>
        ScalarChecks(v);
    }
  }

  lemma {:induction false} SetChecks(v: Value)
    requires v.PyFrozenSet?
    ensures CheckValue(Encode(v)) <==> forall x :: x in v.elems ==> CheckValue(Encode(x))
  {
    PartsMembers(v);
    ContainerChecks(v);
    hide CheckValue, Encode, Parts;
    if CheckValue(Encode(v)) {
      forall x | x in v.elems ensures CheckValue(Encode(x)) {
        var i :| 0 <= i < |Parts(v)| && Parts(v)[i] == Encode(x);
      }
    }
    if forall x :: x in v.elems ==> CheckValue(Encode(x)) {
      forall i | 0 <= i < |Parts(v)| ensures CheckValue(Parts(v)[i]) {
        assert Parts(v)[i] in Parts(v);
      }
    }
  }

  /** A member the functional enum API names `a b`: its encoding holds a blank, and the check refuses it. */
  lemma {:induction false} BlankNameRefused()
    ensures var v := PyEnum("{otto:E}", "a b", PyInt(1)); Declared(v) && EqualsFree(v) && !CheckValue(Encode(v))
  {
    var v := PyEnum("{otto:E}", "a b", PyInt(1));
    ExampleClassSet();
    BlankInside();
    hide IsClassSet, Encode, CheckValue, MemberName;
    EncodeChecks(v);
  }

  lemma {:induction false} BlankInside()
    ensures '=' !in "a b" && !MemberName("a b")
  {
    assert "a b"[1] == ' ' && ' ' in "a b";
    assert |"*"| == 1 && |"a b"| == 3;
  }

  lemma {:induction false} ExampleClassSet()
    ensures IsClassSet("{otto:E}")
  {
    hide Split, IsSpace;
    var t, inner := "{otto:E}", "otto:E";
    assert |t| == 8 && |inner| == 6;
    assert t[1..7] == inner;
    SplitWhole(inner, ',');
    ExampleClassChars();
    assert Split(inner, ',')[0] == inner;
  }

  lemma {:induction false} ExampleClassChars()
    ensures forall c :: c in "otto:E" ==> ClassSetChar(c)
  {
  }

  lemma {:induction false} IntNoBlank(n: int)
    ensures NoBlank(IntText(n))
  {
    NatReads(if n < 0 then -n else n);
  }

  lemma {:induction false} ListNoBlank(items: seq<string>)
    ensures NoBlank(ListText(items))
  {
    if items != [] { ItemsDark(items); }
  }

  /** The check of a container's text is the check of its items. */
  lemma {:induction false} ContainerText(t: string)
    requires |t| >= 2 && (t[0] == 'T' || t[0] == 'Z') && t[1] == ':' && NoBlank(t) && ReadList(t[2..]).Some?
    ensures var items := ReadList(t[2..]).value;
      CheckValue(t) <==> forall i :: 0 <= i < |items| ==> CheckValue(items[i])
  {
    hide ReadList, NoBlank, EnumParts, IsClassSet, ReadLiteral, IsIntText, IsFloatText;
    assert t[..2] == "T:" || t[..2] == "Z:";
    assert t[..2][0] == t[0];
  }

  lemma {:induction false} ContainerChecks(v: Value)
    requires v.PyTuple? || v.PyFrozenSet?
    ensures CheckValue(Encode(v)) <==> forall i :: 0 <= i < |Parts(v)| ==> CheckValue(Parts(v)[i])
  {
    EncodeContainer(v);
    ListNoBlank(Parts(v));
    hide Encode, CheckValue, Parts, ReadList, ListText, IsBlank;
    var t := Encode(v);
    assert t[0] == Tag(v)[0] && t[1] == Tag(v)[1];
    ContainerText(t);
  }

  // --- injectivity -----------------------------------------------------------------------

  lemma {:induction false} ScalarInjective(a: Value, b: Value)
    requires Tracked(a) && Tracked(b) && Encode(a) == Encode(b) && FirstChar(a) == FirstChar(b)
    requires a.PyInt? || a.PyStr? || a.PyBytes?
    ensures a == b
  {
    match a {
      case PyInt(n) =>
        assert Encode(a)[2..] == IntText(n) && Encode(b)[2..] == IntText(b.n);
        IntReads(n, b.n);
      case PyStr(s) =>
        LiteralExact(s, b.s);
        JoinedNoPair(s);
        JoinedNoPair(b.s);
        hide Literal;
        assert Encode(a)[2..] == Literal(s) && Encode(b)[2..] == Literal(b.s);
      case PyBytes(bytes) =>
        assert Encode(a)[2..] == BytesText(bytes) && Encode(b)[2..] == BytesText(b.bytes);
        BytesInjective(bytes, b.bytes);
    }
  }

  lemma {:induction false} PartsEqual(a: Value, b: Value)
    requires a.PyTuple? || a.PyFrozenSet?
    requires FirstChar(a) == FirstChar(b) && Encode(a) == Encode(b)
    ensures Parts(a) == Parts(b)
  {
    hide Encode, Parts;
    EncodeContainer(a);
    EncodeContainer(b);
  }

  lemma {:induction false} AfterTag(v: Value)
    requires v.PyEnum?
    ensures Encode(v)[2..] == v.classSet + (":" + (v.member + ("=" + Encode(v.value))))
  {
    var body := v.classSet + (":" + (v.member + ("=" + Encode(v.value))));
    assert Encode(v) == "E:" + body;
    hide Encode;
  }

  /** The text of an enum splits at the first closing brace, and then at the first `=`. */
  lemma {:induction false} EnumEqual(a: Value, b: Value)
    requires a.PyEnum? && b.PyEnum? && IsClassSet(a.classSet) && IsClassSet(b.classSet)
    requires '=' !in a.member && '=' !in b.member && Encode(a) == Encode(b)
    ensures a.classSet == b.classSet && a.member == b.member && Encode(a.value) == Encode(b.value)
  {
    AfterTag(a);
    AfterTag(b);
    ClassSetInner(a.classSet);
    ClassSetInner(b.classSet);
    hide *;
    var x, y := a.member + ("=" + Encode(a.value)), b.member + ("=" + Encode(b.value));
    var left, right := a.classSet[..|a.classSet| - 1], b.classSet[..|b.classSet| - 1];
    Assoc(left, "}", ":" + x);
    Assoc(right, "}", ":" + y);
    SplitAt(left, ":" + x, right, ":" + y, '}');
    assert x == (":" + x)[1..] && y == (":" + y)[1..];
    SplitAt(a.member, Encode(a.value), b.member, Encode(b.value), '=');
  }

  /** Two texts split at the first `mark`. */
  lemma {:induction false} SplitAt(a: string, x: string, b: string, y: string, mark: char)
    requires mark !in a && mark !in b && a + ([mark] + x) == b + ([mark] + y)
    ensures a == b && x == y
  {
    IndexOfConcat(a, mark, x);
    IndexOfConcat(b, mark, y);
    var t := a + ([mark] + x);
    assert a == t[..|a|] && b == t[..|b|];
    assert x == t[|a| + 1..] && y == t[|b| + 1..];
  }

  lemma {:induction false} SetsEqual(a: Value, b: Value)
    requires a.PyFrozenSet? && b.PyFrozenSet? && Parts(a) == Parts(b)
    requires forall x, y :: x in a.elems && y in b.elems && Encode(x) == Encode(y) ==> x == y
    ensures a == b
  {
    PartsMembers(a);
    PartsMembers(b);
    hide Encode, Parts;
    forall x | x in a.elems ensures x in b.elems {
      assert Encode(x) in Parts(b);
    }
    forall y | y in b.elems ensures y in a.elems {
      assert Encode(y) in Parts(a);
    }
  }

  /** Distinct tracked values have distinct encodings. */
  lemma {:induction false} EncodeInjective(a: Value, b: Value)
    requires Declared(a) && Declared(b) && EqualsFree(a) && EqualsFree(b) && Tracked(a) && Tracked(b)
    requires Encode(a) == Encode(b)
    ensures a == b
    decreases a
  {
    SameTag(a, b);
    hide Encode, Parts;
    match a {
      case PyTuple(items) =>
        PartsEqual(a, b);
        PartsMembers(a);
        PartsMembers(b);
        forall i | 0 <= i < |items| ensures items[i] == b.items[i] {
          EncodeInjective(items[i], b.items[i]);
        }
      case PyFrozenSet(elems) =>
        PartsEqual(a, b);
        forall x, y | x in elems && y in b.elems && Encode(x) == Encode(y) ensures x == y {
          EncodeInjective(x, y);
        }
        SetsEqual(a, b);
      case PyEnum(classSet, member, value) =>
        EnumEqual(a, b);
        EncodeInjective(value, b.value);
      case PyNone =>
      case PyBool(_) =>
      case Untracked =>
      case _ =>
        ScalarInjective(a, b);
    }
  }

  function FirstChar(v: Value): char
  {
    match v
    case PyNone => 'N' case PyBool(_) => 'B' case PyInt(_) => 'I' case PyStr(_) => 'S' case PyBytes(_) => 'Y'
    case PyTuple(_) => 'T' case PyFrozenSet(_) => 'Z' case PyEnum(_, _, _) => 'E' case Untracked => 'O'
  }

  /** The tag tells the type. */
  lemma {:induction false} SameTag(a: Value, b: Value)
    requires Encode(a) == Encode(b)
    ensures FirstChar(a) == FirstChar(b) && (a.PyBool? ==> a == b)
  {
    EncodeFirst(a);
    EncodeFirst(b);
    if a.PyBool? {
      assert "B:true"[2] != "B:false"[2];
    }
  }

  /** The one gap: a string that splits a surrogate pair is written like the string that joins it. */
  lemma {:induction false} SplitPairCollides()
    ensures PyStr([0xd83d, 0xde00]) != PyStr([0x1f600])
    ensures Encode(PyStr([0xd83d, 0xde00])) == Encode(PyStr([0x1f600]))
  {
    var s: seq<CodePoint> := [0xd83d, 0xde00];
    assert s[2..] == [];
    assert Joined(s) == [0x1f600];
    JoinedNoPair([0x1f600]);
    LiteralExact(s, [0x1f600]);
  }

  /** A member whose name goes on with an `=` and an enum's text is written like a shorter-named member
      whose value is that enum. */
  lemma {:induction false} EqualsNameWritten(classSet: string, name: string, other: string, otherName: string, value: Value)
    ensures Encode(PyEnum(classSet, name + ("=" + ("E:" + (other + (":" + otherName)))), value))
         == Encode(PyEnum(classSet, name, PyEnum(other, otherName, value)))
  {
    var rest := "=" + Encode(value);
    var inner := "E:" + (other + (":" + (otherName + rest)));
    assert Encode(PyEnum(other, otherName, value)) == inner;
    assert Encode(PyEnum(classSet, name, PyEnum(other, otherName, value))) == "E:" + (classSet + (":" + (name + ("=" + inner))));
    hide *;
    assert (name + ("=" + ("E:" + (other + (":" + otherName))))) + rest == name + ("=" + inner);
  }

  /** So such a name collides, and the check accepts it: a member `a=E:{otto:E}:b` beside a member `a`. */
  lemma {:induction false} EqualsNameCollides()
    ensures var value := PyInt(1);
      var a := PyEnum("{otto:E}", "a" + ("=" + ("E:" + ("{otto:E}" + (":" + "b")))), value);
      var b := PyEnum("{otto:E}", "a", PyEnum("{otto:E}", "b", value));
      a != b && Encode(a) == Encode(b) && CheckValue(Encode(a))
      && Declared(a) && Declared(b) && Tracked(a) && Tracked(b) && !EqualsFree(a) && NamedMembers(b)
  {
    var classSet, value := "{otto:E}", PyInt(1);
    ExampleClassSet();
    hide Encode, CheckValue, IsClassSet, MemberName;
    LetterNames();
    HoldsEquals("a", "E:" + (classSet + (":" + "b")));
    EqualsNameWritten(classSet, "a", classSet, "b", value);
    var b := PyEnum(classSet, "a", PyEnum(classSet, "b", value));
    assert Declared(b) && NamedMembers(b) && EqualsFree(b);
    EncodeChecks(b);
  }

  lemma {:induction false} HoldsEquals(a: string, rest: string)
    ensures '=' in a + ("=" + rest)
  {
    assert (a + ("=" + rest))[|a|] == '=';
  }

  lemma {:induction false} LetterNames()
    ensures MemberName("a") && MemberName("b") && '=' !in "a" && '=' !in "b"
  {
  }

  /** Two strings are encoded alike exactly when joining their surrogate pairs makes them equal; a string shares
      its encoding with no other exactly when it splits no pair and holds no character a pair spells. */
  lemma {:induction false} StringExact(s: seq<CodePoint>)
    ensures forall t :: Encode(PyStr(s)) == Encode(PyStr(t)) <==> Joined(s) == Joined(t)
    ensures (forall t :: Encode(PyStr(t)) == Encode(PyStr(s)) ==> t == s) <==> NoPair(s) && Basic(s)
  {
    LiteralUnique(s);
    forall t ensures Encode(PyStr(s)) == Encode(PyStr(t)) <==> Literal(s) == Literal(t) {
      assert Encode(PyStr(s))[2..] == Literal(s) && Encode(PyStr(t))[2..] == Literal(t);
    }
    hide Encode, Literal, Joined, NoPair, Basic;
    forall t ensures Encode(PyStr(s)) == Encode(PyStr(t)) <==> Joined(s) == Joined(t) { LiteralExact(s, t); }
    if forall t :: Encode(PyStr(t)) == Encode(PyStr(s)) ==> t == s {
      forall t: seq<CodePoint> | Literal(t) == Literal(s) ensures t == s { assert Encode(PyStr(t)) == Encode(PyStr(s)); }
    }
  }

  // --- comparing -------------------------------------------------------------------------

  /** `m` pairs each text of `left` with its own equal text of `right`. */
  ghost predicate Matching(left: seq<Encoded>, right: seq<Encoded>, m: seq<nat>)
  {
    |m| == |left| && (forall i :: 0 <= i < |m| ==> m[i] < |right| && ValuesEqual(left[i], right[m[i]]))
    && forall i, j :: 0 <= i < j < |m| ==> m[i] != m[j]
  }

  lemma {:induction false} FirstMatchEqual(x: Encoded, ys: seq<Encoded>, size: nat)
    requires |x| < size
    ensures var i := FirstMatch(x, ys, size); i < |ys| ==> ValuesEqual(x, ys[i])
  {
    if ys != [] && !ValuesEqual(x, ys[0]) {
      FirstMatchEqual(x, ys[1..], size);
    }
  }

  /** Indices into `right` without its `k`-th item, as indices into `right`. */
  function Lift(m: seq<nat>, k: nat): seq<nat>
  {
    seq(|m|, i requires 0 <= i < |m| => if m[i] < k then m[i] else m[i] + 1)
  }

  lemma {:induction false} LiftMatching(left: seq<Encoded>, right: seq<Encoded>, k: nat, tail: seq<nat>)
    requires left != [] && k < |right| && ValuesEqual(left[0], right[k])
    requires Matching(left[1..], right[..k] + right[k + 1..], tail)
    ensures Matching(left, right, [k] + Lift(tail, k))
  {
    hide CheckValue, ValuesEqual;
    var rest, m := right[..k] + right[k + 1..], [k] + Lift(tail, k);
    forall i | 0 <= i < |m| ensures m[i] < |right| && ValuesEqual(left[i], right[m[i]]) {
      if i > 0 {
        assert left[i] == left[1..][i - 1] && rest[tail[i - 1]] == right[m[i]];
      }
    }
    forall i, j | 0 <= i < j < |m| ensures m[i] != m[j] {
      if i > 0 { assert tail[i - 1] != tail[j - 1]; }
    }
  }

  /** Greedy matching that succeeds has found a one-to-one matching. */
  lemma {:induction false} MatchAllMatches(left: seq<Encoded>, right: seq<Encoded>, size: nat) returns (m: seq<nat>)
    requires forall x :: x in left ==> |x| < size
    requires MatchAll(left, right, size)
    ensures Matching(left, right, m)
  {
    hide CheckValue, ValuesEqual;
    if left == [] {
      m := [];
    } else {
      var k := FirstMatch(left[0], right, size);
      FirstMatchEqual(left[0], right, size);
      var tail := MatchAllMatches(left[1..], right[..k] + right[k + 1..], size);
      LiftMatching(left, right, k, tail);
      m := [k] + Lift(tail, k);
    }
  }

  lemma {:induction false} NotEnum(t: string)
    requires StartsWith(t, "T:") || StartsWith(t, "Z:")
    ensures EnumParts(t).None?
  {
    assert t[..2][0] == t[0];
  }

  lemma {:induction false} SetsCompare(a: Encoded, b: Encoded)
    requires StartsWith(a, "Z:") && StartsWith(b, "Z:") && ValuesEqual(a, b) && a != b
    ensures |ItemsOf(a)| == |ItemsOf(b)| && MatchAll(ItemsOf(a), ItemsOf(b), |a|)
  {
    hide CheckValue, EnumParts, MatchAll;
    NotEnum(a);
    assert a[..2][0] == a[0] && a[..2] != "T:";
  }

  /** Two frozenset encodings compare equal only if their elements match one to one. */
  lemma {:induction false} FrozenSetsMatch(a: Encoded, b: Encoded)
    requires StartsWith(a, "Z:") && StartsWith(b, "Z:") && ValuesEqual(a, b)
    ensures |ItemsOf(a)| == |ItemsOf(b)| && exists m :: Matching(ItemsOf(a), ItemsOf(b), m)
  {
    if a == b {
      SelfMatching(ItemsOf(a));
    } else {
      SetsCompare(a, b);
      hide *;
      var m := MatchAllMatches(ItemsOf(a), ItemsOf(b), |a|);
    }
  }

  lemma {:induction false} SelfMatching(xs: seq<Encoded>)
    ensures exists m :: Matching(xs, xs, m)
  {
    var m := seq(|xs|, i requires 0 <= i < |xs| => i);
    forall i | 0 <= i < |xs| ensures ValuesEqual(xs[i], xs[m[i]]) { SelfEqual(xs[i]); }
    hide ValuesEqual, CheckValue;
    assert Matching(xs, xs, m);
  }

  lemma {:induction false} SelfEqual(a: Encoded)
    ensures ValuesEqual(a, a)
  {
  }

  /** A matching by equal text makes the lists permutations of each other. */
  lemma {:induction false} EqualMatchPermutes(left: seq<Encoded>, right: seq<Encoded>, size: nat)
    requires forall x :: x in left ==> |x| < size
    requires |left| == |right| && MatchAll(left, right, size)
    requires forall x, y :: x in left && y in right && ValuesEqual(x, y) ==> x == y
    ensures multiset(left) == multiset(right)
  {
    hide CheckValue, ValuesEqual;
    if left != [] {
      var k := FirstMatch(left[0], right, size);
      FirstMatchEqual(left[0], right, size);
      var rest := right[..k] + right[k + 1..];
      Without(right, k);
      HeadTail(left);
      EqualMatchPermutes(left[1..], rest, size);
      assert left[0] in left && right[k] in right;
    }
  }

  lemma {:induction false} SortedPermutation(xs: seq<string>, ys: seq<string>)
    requires SortedTexts(xs) && SortedTexts(ys) && multiset(xs) == multiset(ys)
    ensures xs == ys
  {
    hide Le, SortedTexts;
    assert |multiset(xs)| == |xs| && |multiset(ys)| == |ys|;
    if xs != [] {
      HeadIsLeast(xs, ys);
      HeadIsLeast(ys, xs);
      LeTotal(xs[0], ys[0]);
      SortedTail(xs);
      SortedTail(ys);
      HeadTail(xs);
      HeadTail(ys);
      SortedPermutation(xs[1..], ys[1..]);
    }
  }

  lemma {:induction false} HeadTail<T>(xs: seq<T>)
    requires xs != []
    ensures xs == [xs[0]] + xs[1..]
    ensures multiset(xs[1..]) == multiset(xs) - multiset{xs[0]}
  {
  }

  lemma {:induction false} SortedTail(xs: seq<string>)
    requires xs != [] && SortedTexts(xs)
    ensures SortedTexts(xs[1..])
  {
    var t := xs[1..];
    forall i, j | 0 <= i < j < |t| ensures Le(t[i], t[j]) {
      assert Le(xs[i + 1], xs[j + 1]);
    }
  }

  lemma {:induction false} HeadIsLeast(xs: seq<string>, ys: seq<string>)
    requires xs != [] && ys != [] && SortedTexts(xs) && multiset(xs) == multiset(ys)
    ensures Le(xs[0], ys[0])
  {
    assert ys[0] in multiset(ys);
    var i :| 0 <= i < |xs| && xs[i] == ys[0];
    LeTotal(xs[0], xs[0]);
  }

  lemma {:induction false} TuplesCompare(a: Encoded, b: Encoded)
    requires StartsWith(a, "T:") && StartsWith(b, "T:") && ValuesEqual(a, b) && a != b
    ensures |ItemsOf(a)| == |ItemsOf(b)|
    ensures forall i :: 0 <= i < |ItemsOf(a)| ==> ValuesEqual(ItemsOf(a)[i], ItemsOf(b)[i])
  {
    hide CheckValue, EnumParts, MatchAll;
    NotEnum(a);
  }

  lemma {:induction false} SameContainers(a: Encoded, b: Encoded)
    requires EnumParts(a).None? && ValuesEqual(a, b) && a != b
    ensures (StartsWith(a, "T:") && StartsWith(b, "T:")) || (StartsWith(a, "Z:") && StartsWith(b, "Z:"))
  {
  }

  lemma {:induction false} EnumFreeDeclared(v: Value)
    requires EnumFree(v)
    ensures Declared(v) && NamedMembers(v)
    decreases v
  {
    match v {
      case PyTuple(items) =>
        forall i | 0 <= i < |items| ensures Declared(items[i]) && NamedMembers(items[i]) { EnumFreeDeclared(items[i]); }
      case PyFrozenSet(elems) =>
        forall x | x in elems ensures Declared(x) && NamedMembers(x) { EnumFreeDeclared(x); }
      case _ =>
    }
  }

  lemma {:induction false} EnumFreeChecks(v: Value)
    requires EnumFree(v)
    ensures CheckValue(Encode(v))
  {
    EnumFreeDeclared(v);
    hide CheckValue, Encode;
    EncodeChecks(v);
  }

  /** Without enums, two encodings compare equal exactly when they are the same text. */
  lemma {:induction false} EnumFreeTextEquality(a: Value, b: Value)
    requires EnumFree(a) && EnumFree(b)
    ensures CheckValue(Encode(a)) && CheckValue(Encode(b))
    ensures ValuesEqual(Encode(a), Encode(b)) <==> Encode(a) == Encode(b)
    decreases a
  {
    EnumFreeChecks(a);
    EnumFreeChecks(b);
    var s, t := Encode(a), Encode(b);
    assert s == t ==> ValuesEqual(s, t);
    hide CheckValue, Encode, ValuesEqual, MatchAll, Parts;
    if ValuesEqual(s, t) && s != t {
      NotEnumText(a);
      SameContainers(s, t);
      ContainerTag(a);
      ContainerTag(b);
      EncodeContainer(a);
      EncodeContainer(b);
      PartsMembers(a);
      PartsMembers(b);
      if a.PyTuple? {
        TuplesCompare(s, t);
        forall i | 0 <= i < |a.items| ensures Parts(a)[i] == Parts(b)[i] {
          EnumFreeTextEquality(a.items[i], b.items[i]);
        }
        SameItems(Parts(a), Parts(b));
      } else {
        SetsCompare(s, t);
        forall x, y: Encoded | x in Parts(a) && y in Parts(b) && ValuesEqual(x, y) ensures x == y {
          var u :| u in a.elems && Encode(u) == x;
          var v :| v in b.elems && Encode(v) == y;
          EnumFreeTextEquality(u, v);
        }
        EqualMatchPermutes(ItemsOf(s), ItemsOf(t), |s|);
        SortedPermutation(Parts(a), Parts(b));
      }
    }
  }

  lemma {:induction false} SameItems(xs: seq<string>, ys: seq<string>)
    requires |xs| == |ys| && forall i :: 0 <= i < |xs| ==> xs[i] == ys[i]
    ensures xs == ys
  {
  }

  lemma {:induction false} NotEnumText(v: Value)
    requires EnumFree(v)
    ensures EnumParts(Encode(v)).None?
  {
    EncodeFirst(v);
    hide Encode;
    var t := Encode(v);
    assert |t| < 2 || t[..2][0] != 'E';
  }

  lemma {:induction false} ContainerTag(v: Value)
    requires IsContainer(Encode(v))
    ensures v.PyTuple? || v.PyFrozenSet?
    ensures StartsWith(Encode(v), Tag(v))
  {
    EncodeFirst(v);
    hide Encode;
    var t := Encode(v);
    assert t[..2][0] == t[0];
  }
}
