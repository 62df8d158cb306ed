/** The text of each kind of value, and what each kind of text is equal to. */
module EncodedForms {
  import opened Texts
  import opened Hexadecimal
  import opened JsonText
  import opened EncodedValues
  import EncodedLaws

  // --- the written forms -------------------------------------------------------------------

  /** The tag and the text of each kind of value that holds no other. */
  lemma {:induction false} ScalarForms(n: int, s: seq<CodePoint>)
    ensures Encode(PyNone) == "N" && Encode(Untracked) == "O"
    ensures Encode(PyBool(true)) == "B:true" && Encode(PyBool(false)) == "B:false"
    ensures n >= 0 ==> exists text :: Encode(PyInt(n)) == "I:" + text && AllDigits(text) && ReadNat(text) == n
    ensures n < 0 ==> exists text :: Encode(PyInt(n)) == "I:-" + text && AllDigits(text) && ReadNat(text) == -n
    ensures exists text :: Encode(PyStr(s)) == "S:" + text && ReadLiteral(text) == Some((Joined(s), ""))
  {
    var text := NatText(if n < 0 then -n else n);
    EncodedLaws.NatReads(if n < 0 then -n else n);
    LiteralReads(s, "");
    assert Literal(s) + "" == Literal(s);
    hide AllDigits, ReadNat, NatText, Literal, ReadLiteral;
    if n < 0 { assert "I:" + ("-" + text) == "I:-" + text; }
    assert Encode(PyInt(n)) == "I:" + IntText(n);
  }

  /** Bytes are two lower-case hexadecimal digits each, in order. */
  lemma {:induction false} BytesForm(bytes: seq<Byte>)
    ensures Encode(PyBytes(bytes)) == "Y:" + BytesText(bytes) && |BytesText(bytes)| == 2 * |bytes|
    ensures forall i :: 0 <= i < |bytes| ==>
      BytesText(bytes)[2 * i] == "0123456789abcdef"[bytes[i] / 16] && BytesText(bytes)[2 * i + 1] == "0123456789abcdef"[bytes[i] % 16]
  {
    if bytes != [] {
      BytesForm(bytes[1..]);
      TwoDigits(bytes[0]);
      hide HexDigits;
      var rest := BytesText(bytes[1..]);
      forall i | 0 <= i < |bytes|
        ensures BytesText(bytes)[2 * i] == "0123456789abcdef"[bytes[i] / 16] && BytesText(bytes)[2 * i + 1] == "0123456789abcdef"[bytes[i] % 16]
      {
        if i > 0 {
          assert BytesText(bytes)[2 * i] == rest[2 * (i - 1)] && BytesText(bytes)[2 * i + 1] == rest[2 * (i - 1) + 1];
          assert bytes[1..][i - 1] == bytes[i];
        }
      }
    }
  }

  lemma {:induction false} TwoDigits(b: Byte)
    ensures HexDigits(b, 2) == ["0123456789abcdef"[b / 16], "0123456789abcdef"[b % 16]]
  {
    assert Nibbles(b / 16 / 16, 0) == [];
    assert Nibbles(b / 16, 1) == [] + [(b / 16) % 16];
    assert Nibbles(b, 2) == Nibbles(b / 16, 1) + [b % 16];
  }

  /** A tuple is the list of its items' texts. */
  lemma {:induction false} TupleForm(items: seq<Value>)
    ensures exists text, texts ::
      Encode(PyTuple(items)) == "T:" + text && ReadList(text) == Some(texts)
      && |texts| == |items| && forall i :: 0 <= i < |items| ==> texts[i] == Encode(items[i])
  {
    var texts := EncodedLaws.EncodeEach(items);
    EncodedLaws.EncodeContainer(PyTuple(items));
    EncodedLaws.PartsMembers(PyTuple(items));
    ListReads(texts);
    hide Encode, ListText, ReadList;
    assert Encode(PyTuple(items)) == "T:" + ListText(texts) && ReadList(ListText(texts)) == Some(texts);
  }

  /** A frozenset is the list of its elements' texts, sorted. */
  lemma {:induction false} SetForm(elems: set<Value>)
    ensures exists text, texts ::
      Encode(PyFrozenSet(elems)) == "Z:" + text && ReadList(text) == Some(texts)
      && SortedTexts(texts) && |texts| == |elems| && forall t :: t in texts <==> exists x :: x in elems && Encode(x) == t
  {
    var v := PyFrozenSet(elems);
    var texts := EncodedLaws.Parts(v);
    EncodedLaws.EncodeContainer(v);
    EncodedLaws.PartsMembers(v);
    ListReads(texts);
    hide Encode, ListText, ReadList;
    assert Encode(v) == "Z:" + ListText(texts) && ReadList(ListText(texts)) == Some(texts);
  }

  /** An enum member is its classes, its name and its value's text. */
  lemma {:induction false} EnumForm(classSet: string, member: string, value: Value)
    ensures Encode(PyEnum(classSet, member, value)) == "E:" + (classSet + (":" + (member + ("=" + Encode(value)))))
  {
  }

  // --- what is equal to what ---------------------------------------------------------------

  /** Tuples are equal item by item. */
  lemma {:induction false} TuplesEqual(a: Encoded, b: Encoded)
    requires StartsWith(a, "T:") && StartsWith(b, "T:")
    ensures ValuesEqual(a, b) <==>
      |ItemsOf(a)| == |ItemsOf(b)| && forall i :: 0 <= i < |ItemsOf(a)| ==> ValuesEqual(ItemsOf(a)[i], ItemsOf(b)[i])
  {
    EncodedLaws.NotEnum(a);
    EncodedLaws.NotEnum(b);
    if a == b {
      forall i | 0 <= i < |ItemsOf(a)| ensures ValuesEqual(ItemsOf(a)[i], ItemsOf(b)[i]) { EncodedLaws.SelfEqual(ItemsOf(a)[i]); }
    }
  }

  /** Enum members are equal through a class they share, by name and value. */
  lemma {:induction false} EnumsEqual(a: Encoded, b: Encoded)
    requires EnumParts(a).Some? && EnumParts(b).Some?
    ensures var (x, y) := (EnumParts(a).value, EnumParts(b).value);
      IsClassSet(x.classSet) && IsClassSet(y.classSet) && CheckValue(x.value) && CheckValue(y.value)
      && (ValuesEqual(a, b) <==>
            (exists name :: name in ClassSet(x.classSet) && name in ClassSet(y.classSet)) && x.member == y.member && ValuesEqual(x.value, y.value))
  {
    EnumPartsChecked(a);
    EnumPartsChecked(b);
    var x, y := EnumParts(a).value, EnumParts(b).value;
    SharedExact(x.classSet, y.classSet);
    assert a != b ==> (ValuesEqual(a, b) <==>
        ClassSet(x.classSet) * ClassSet(y.classSet) != {} && x.member == y.member && ValuesEqual(x.value, y.value)) by {
      hide CheckValue, EnumParts, IsClassSet, ClassSet;
    }
    if a == b {
      SomeClass(x.classSet);
      EncodedLaws.SelfEqual(x.value);
      EncodedLaws.SelfEqual(a);
    }
    hide CheckValue, EnumParts, IsClassSet, ClassSet, ValuesEqual;
  }

  lemma {:induction false} SharedExact(s: string, t: string)
    requires IsClassSet(s) && IsClassSet(t)
    ensures ClassSet(s) * ClassSet(t) != {} <==> exists name :: name in ClassSet(s) && name in ClassSet(t)
  {
    hide ClassSet, IsClassSet;
    if name :| name in ClassSet(s) && name in ClassSet(t) { assert name in ClassSet(s) * ClassSet(t); }
    if forall name :: name in ClassSet(s) ==> name !in ClassSet(t) { assert ClassSet(s) * ClassSet(t) == {}; }
  }

  lemma {:induction false} SomeClass(t: string)
    requires IsClassSet(t)
    ensures exists name :: name in ClassSet(t)
  {
    var names := Split(t[1..|t| - 1], ',');
    assert names[0] in ClassSet(t);
  }

  /** Of different kinds, or plain, only the same text is equal. */
  lemma {:induction false} PlainEqual(a: Encoded, b: Encoded)
    requires EnumParts(a).None? || EnumParts(b).None?
    requires !(StartsWith(a, "T:") && StartsWith(b, "T:")) && !(StartsWith(a, "Z:") && StartsWith(b, "Z:"))
    ensures ValuesEqual(a, b) <==> a == b
  {
    hide CheckValue, EnumParts;
  }
}
