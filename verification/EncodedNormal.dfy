/** Which values share an encoding: those that agree once their surrogate pairs are joined. */
module EncodedNormal {
  import opened Texts
  import opened JsonText
  import opened EncodedValues
  import opened EncodedLaws

  /** A value with its surrogate pairs joined; elements of a set that then agree are kept apart. */
  datatype Normal =
    | NormalNone
    | NormalBool(b: bool)
    | NormalInt(n: int)
    | NormalStr(s: seq<CodePoint>)
    | NormalBytes(bytes: seq<Byte>)
    | NormalTuple(items: seq<Normal>)
    | NormalFrozenSet(elems: multiset<Normal>)
    | NormalEnum(classSet: string, member: string, value: Normal)
    | NormalUntracked

  ghost function NormalOf(v: Value): Normal
    decreases v
  {
    match v
    case PyNone => NormalNone
    case PyBool(b) => NormalBool(b)
    case PyInt(n) => NormalInt(n)
    case PyStr(s) => NormalStr(Joined(s))
    case PyBytes(bytes) => NormalBytes(bytes)
    case PyTuple(items) => NormalTuple(seq(|items|, i requires 0 <= i < |items| => NormalOf(items[i])))
    case PyFrozenSet(elems) =>
      var es := Elements(elems);
      NormalFrozenSet(multiset(seq(|es|, i requires 0 <= i < |es| => assert es[i] in es; NormalOf(es[i]))))
    case PyEnum(classSet, member, value) => NormalEnum(classSet, member, NormalOf(value))
    case Untracked => NormalUntracked
  }

  ghost function NormalEach(vs: seq<Value>): (r: seq<Normal>)
    ensures |r| == |vs| && forall i :: 0 <= i < |vs| ==> r[i] == NormalOf(vs[i])
  {
    seq(|vs|, i requires 0 <= i < |vs| => NormalOf(vs[i]))
  }

  lemma {:induction false} NormalContainer(v: Value)
    ensures v.PyTuple? ==> NormalOf(v) == NormalTuple(NormalEach(v.items))
    ensures v.PyFrozenSet? ==> NormalOf(v) == NormalFrozenSet(multiset(NormalEach(Elements(v.elems))))
  {
    match v {
      case PyTuple(items) =>
        assert NormalEach(items) == seq(|items|, i requires 0 <= i < |items| => NormalOf(items[i]));
      case PyFrozenSet(elems) =>
        var es := Elements(elems);
        assert NormalEach(es) == seq(|es|, i requires 0 <= i < |es| => assert es[i] in es; NormalOf(es[i]));
      case _ =>
    }
  }

  lemma {:induction false} SortTextsExact(xs: seq<string>, ys: seq<string>)
    ensures SortTexts(xs) == SortTexts(ys) <==> multiset(xs) == multiset(ys)
  {
    SortTextsSorts(xs);
    SortTextsSorts(ys);
    SortTextsKeeps(xs);
    SortTextsKeeps(ys);
    hide SortTexts, SortedTexts;
    if multiset(xs) == multiset(ys) { SortedPermutation(SortTexts(xs), SortTexts(ys)); }
  }

  // --- the exact condition -----------------------------------------------------------------

  lemma {:induction false} StringsAlike(s: seq<CodePoint>, t: seq<CodePoint>)
    ensures Encode(PyStr(s)) == Encode(PyStr(t)) <==> Joined(s) == Joined(t)
  {
    StringExact(s);
  }

  lemma {:induction false} ScalarsAlike(a: Value, b: Value)
    requires a.PyInt? || a.PyBytes?
    requires Encode(a) == Encode(b)
    ensures a == b
  {
    SameTag(a, b);
    assert Tracked(a) && Tracked(b);
    ScalarInjective(a, b);
  }

  lemma {:induction false} TuplesAlike(a: Value, b: Value)
    requires a.PyTuple? && b.PyTuple?
    requires forall i, j :: 0 <= i < |a.items| && 0 <= j < |b.items| ==>
      (Encode(a.items[i]) == Encode(b.items[j]) <==> NormalOf(a.items[i]) == NormalOf(b.items[j]))
    ensures Encode(a) == Encode(b) <==> NormalOf(a) == NormalOf(b)
  {
    NormalContainer(a);
    NormalContainer(b);
    PartsExact(a, b);
    PartsMembers(a);
    PartsMembers(b);
    hide Encode, NormalOf, Parts;
    var x, y, m, n := EncodeEach(a.items), EncodeEach(b.items), NormalEach(a.items), NormalEach(b.items);
    if x == y {
      forall i | 0 <= i < |m| ensures m[i] == n[i] { assert x[i] == y[i]; }
      assert m == n;
    }
    if m == n {
      forall i | 0 <= i < |x| ensures x[i] == y[i] { assert m[i] == n[i]; }
      assert x == y;
    }
  }

  lemma {:induction false} ElementsAlike(es: seq<Value>, fs: seq<Value>)
    requires forall i, j :: 0 <= i < |es| && 0 <= j < |fs| ==> (Encode(es[i]) == Encode(fs[j]) <==> NormalOf(es[i]) == NormalOf(fs[j]))
    ensures SortTexts(EncodeEach(es)) == SortTexts(EncodeEach(fs)) <==> multiset(NormalEach(es)) == multiset(NormalEach(fs))
  {
    var x, y, m, n := EncodeEach(es), EncodeEach(fs), NormalEach(es), NormalEach(fs);
    forall i, j | 0 <= i < |es| && 0 <= j < |fs| ensures x[i] == y[j] <==> m[i] == n[j] {
      assert x[i] == Encode(es[i]) && y[j] == Encode(fs[j]);
    }
    hide *;
    SortTextsExact(x, y);
    if multiset(x) == multiset(y) { LabelsCarry(x, y, m, n); }
    if multiset(m) == multiset(n) { LabelsCarry(m, n, x, y); }
  }

  lemma {:induction false} SetsAlike(a: Value, b: Value)
    requires a.PyFrozenSet? && b.PyFrozenSet?
    requires forall x, y :: x in a.elems && y in b.elems ==> (Encode(x) == Encode(y) <==> NormalOf(x) == NormalOf(y))
    ensures Encode(a) == Encode(b) <==> NormalOf(a) == NormalOf(b)
  {
    hide Encode, NormalOf, Parts, SortTexts;
    NormalContainer(a);
    NormalContainer(b);
    PartsExact(a, b);
    SetParts(a);
    SetParts(b);
    var es, fs := Elements(a.elems), Elements(b.elems);
    forall i, j | 0 <= i < |es| && 0 <= j < |fs| ensures Encode(es[i]) == Encode(fs[j]) <==> NormalOf(es[i]) == NormalOf(fs[j]) {
      assert es[i] in a.elems && fs[j] in b.elems;
    }
    hide *;
    ElementsAlike(es, fs);
  }

  lemma {:induction false} SetParts(v: Value)
    requires v.PyFrozenSet?
    ensures Parts(v) == SortTexts(EncodeEach(Elements(v.elems)))
  {
  }

  lemma {:induction false} PartsExact(a: Value, b: Value)
    requires a.PyTuple? || a.PyFrozenSet?
    requires FirstChar(a) == FirstChar(b)
    ensures Encode(a) == Encode(b) <==> Parts(a) == Parts(b)
  {
    EncodeContainer(a);
    EncodeContainer(b);
    hide Encode, Parts;
  }

  lemma {:induction false} EnumsAlike(a: Value, b: Value)
    requires a.PyEnum? && b.PyEnum? && IsClassSet(a.classSet) && IsClassSet(b.classSet)
    requires '=' !in a.member && '=' !in b.member
    requires Encode(a.value) == Encode(b.value) <==> NormalOf(a.value) == NormalOf(b.value)
    ensures Encode(a) == Encode(b) <==> NormalOf(a) == NormalOf(b)
  {
    if Encode(a) == Encode(b) { EnumEqual(a, b); }
    hide IsClassSet;
  }

  /** Two values whose enums are declared, and whose members' names hold no `=`, share an encoding exactly when
      they agree after joining surrogate pairs, with every element of a frozenset counted. */
  lemma {:induction false} EncodeExact(a: Value, b: Value)
    requires Declared(a) && Declared(b) && EqualsFree(a) && EqualsFree(b)
    ensures Encode(a) == Encode(b) <==> NormalOf(a) == NormalOf(b)
    decreases a
  {
    if Encode(a) == Encode(b) { SameTag(a, b); }
    if FirstChar(a) == FirstChar(b) {
      hide Encode, NormalOf;
      match a {
        case PyStr(s) => StringNormal(s, b.s);
        case PyTuple(items) =>
          forall i, j | 0 <= i < |items| && 0 <= j < |b.items|
            ensures Encode(items[i]) == Encode(b.items[j]) <==> NormalOf(items[i]) == NormalOf(b.items[j])
          {
            EncodeExact(items[i], b.items[j]);
          }
          TuplesAlike(a, b);
        case PyFrozenSet(elems) =>
          forall x, y | x in elems && y in b.elems ensures Encode(x) == Encode(y) <==> NormalOf(x) == NormalOf(y) {
            EncodeExact(x, y);
          }
          SetsAlike(a, b);
        case PyEnum(_, _, value) =>
          EncodeExact(value, b.value);
          EnumsAlike(a, b);
        case _ => ScalarNormal(a, b);
      }
    }
    NormalTag(a, b);
  }

  lemma {:induction false} StringNormal(s: seq<CodePoint>, t: seq<CodePoint>)
    ensures Encode(PyStr(s)) == Encode(PyStr(t)) <==> NormalOf(PyStr(s)) == NormalOf(PyStr(t))
  {
    StringsAlike(s, t);
    hide Encode, Joined;
  }

  lemma {:induction false} ScalarNormal(a: Value, b: Value)
    requires FirstChar(a) == FirstChar(b) && !a.PyStr? && !a.PyTuple? && !a.PyFrozenSet? && !a.PyEnum?
    ensures Encode(a) == Encode(b) <==> NormalOf(a) == NormalOf(b)
  {
    if Encode(a) == Encode(b) {
      SameTag(a, b);
      if a.PyInt? || a.PyBytes? { ScalarsAlike(a, b); }
    }
    hide Encode;
  }

  lemma {:induction false} NormalTag(a: Value, b: Value)
    ensures NormalOf(a) == NormalOf(b) ==> FirstChar(a) == FirstChar(b)
  {
  }
}
