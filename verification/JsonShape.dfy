/** Where the quotes stand in JSON text that reads. */
module JsonShape {
  import opened Texts
  import opened Hexadecimal
  import opened JsonText

  /** Every quote from `low` up to `high` follows a backslash. */
  predicate Guarded(t: string, low: nat, high: nat)
    requires high <= |t|
  {
    forall i :: low <= i < high && t[i] == '\"' ==> i > 0 && t[i - 1] == '\\'
  }

  lemma {:induction false} HexPlain(t: string)
    requires ReadHex(t).Some?
    ensures '\"' !in t
  {
    var digits: seq<Option<Nibble>> := seq(|t|, i requires 0 <= i < |t| => HexValue(t[i]));
    NibblesGiven(digits);
    forall i | 0 <= i < |t| ensures t[i] != '\"' { assert digits[i].Some?; }
  }

  lemma {:induction false} UnitShape(t: string)
    requires ReadUnit(t).Some?
    ensures |t| >= 6 && ReadUnit(t).value.1 == t[6..] && t[0] == '\\' && forall i :: 0 <= i < 6 ==> t[i] != '\"'
  {
    HexPlain(t[2..6]);
    hide ReadHex;
    forall i | 2 <= i < 6 ensures t[i] != '\"' { assert t[2..6][i - 2] == t[i]; }
  }

  lemma {:induction false} EscapeShape(t: string) returns (k: nat)
    requires t != "" && t[0] == '\\' && ReadEscape(t).Some?
    ensures 2 <= k <= |t| && ReadEscape(t).value.1 == t[k..] && Guarded(t, 0, k)
  {
    hide ReadUnit, ShortValue;
    k := 2;
    if t[1] == 'u' {
      UnitShape(t);
      k := 6;
      var second := ReadUnit(t[6..]);
      if IsHigh(ReadUnit(t).value.0) && second.Some? && IsLow(second.value.0) {
        UnitShape(t[6..]);
        k := 12;
        forall i | 6 <= i < 12 ensures t[i] != '\"' { assert t[6..][i - 6] == t[i]; }
        assert t[6..][6..] == t[12..];
      }
    }
  }

  lemma {:induction false} GuardedOn(t: string, k: nat, e: nat)
    requires k + e <= |t| && Guarded(t, 0, k) && Guarded(t[k..], 0, e)
    ensures Guarded(t, 0, k + e)
  {
    forall i | k <= i < k + e && t[i] == '\"' ensures i > 0 && t[i - 1] == '\\' {
      assert t[k..][i - k] == t[i];
      assert i > k && t[k..][i - k - 1] == t[i - 1];
    }
  }

  /** A literal's closing quote, after its opening one: the first that no backslash guards. */
  lemma {:induction false} CharsShape(t: string) returns (e: nat)
    requires ReadChars(t).Some?
    ensures e < |t| && t[e] == '\"' && ReadChars(t).value.1 == t[e + 1..] && Guarded(t, 0, e)
    decreases |t|
  {
    hide ReadEscape;
    if t[0] == '\"' {
      e := 0;
    } else {
      var k := 1;
      if t[0] == '\\' { k := EscapeShape(t); }
      var rest := CharsShape(t[k..]);
      GuardedOn(t, k, rest);
      e := k + rest;
      assert t[k..][rest + 1..] == t[e + 1..];
    }
  }

  // --- lists -------------------------------------------------------------------------------

  /** The literal `p` stands in closes at `b`, and the next item or the end follows. */
  predicate ClosesAt(t: string, p: nat, b: nat)
  {
    p < b && b + 1 < |t| && t[b] == '\"' && (t[b + 1] == ',' || t[b + 1] == ']') && Guarded(t, p, b)
  }

  lemma {:induction false} ClosesLater(t: string, k: nat, p: nat, b: nat)
    requires k <= p && k <= |t| && ClosesAt(t[k..], p - k, b)
    ensures ClosesAt(t, p, k + b)
  {
    forall i | p <= i < k + b && t[i] == '\"' ensures i > 0 && t[i - 1] == '\\' {
      assert t[k..][i - k] == t[i];
      assert i > k && t[k..][i - k - 1] == t[i - 1];
    }
  }

  /** The first literal of some items, and what follows it. */
  lemma {:induction false} ItemsFirst(t: string) returns (e: nat)
    requires ReadItems(t).Some?
    ensures 1 <= e && e + 1 < |t| && t[0] == '\"' && t[e] == '\"' && Guarded(t, 1, e)
    ensures (t[e + 1] == ']' && e + 2 == |t|) || (t[e + 1] == ',' && ReadItems(t[e + 2..]).Some?)
  {
    hide ReadChars;
    var c := CharsShape(t[1..]);
    var rest := ReadLiteral(t).value.1;
    e := c + 1;
    assert rest == t[1..][c + 1..] == t[e + 1..];
    assert t[e] == t[1..][c] && rest[0] == t[e + 1];
    if rest != "]" { assert rest[1..] == t[e + 2..]; }
    forall i | 1 <= i < e && t[i] == '\"' ensures i > 0 && t[i - 1] == '\\' {
      assert t[1..][i - 1] == t[i];
      assert i > 1 && t[1..][i - 2] == t[i - 1];
    }
  }

  /** An `=` among list items stands in a literal. */
  lemma {:induction false} ItemsShape(t: string, p: nat) returns (b: nat)
    requires ReadItems(t).Some? && p < |t| && t[p] == '='
    ensures ClosesAt(t, p, b)
    decreases |t|
  {
    hide ReadItems;
    b := ItemsFirst(t);
    if p > b {
      assert t[b + 2..][p - b - 2] == '=';
      var c := ItemsShape(t[b + 2..], p - b - 2);
      ClosesLater(t, b + 2, p, c);
      b := b + 2 + c;
    }
  }

  lemma {:induction false} ItemsEnd(t: string)
    requires ReadItems(t).Some?
    ensures |t| >= 2 && t[0] == '\"' && t[|t| - 1] == ']'
    decreases |t|
  {
    hide ReadItems;
    var e := ItemsFirst(t);
    if t[e + 1] == ',' { ItemsEnd(t[e + 2..]); }
  }

  // --- written lists -----------------------------------------------------------------------

  /** A text that is there, and does not end in an opening bracket. */
  predicate EndsTame(t: string) { t != "" && t[|t| - 1] != '[' }

  lemma {:induction false} EscapeEnd(c: CodePoint)
    requires c != 91
    ensures Escape(c)[|Escape(c)| - 1] != '['
  {
    assert '[' !in HEX;
    hide HEX;
  }

  lemma {:induction false} EscapeAllEnd(s: seq<CodePoint>)
    requires s != [] && s[|s| - 1] != 91
    ensures EndsTame(EscapeAll(s))
  {
    hide Escape;
    if |s| == 1 {
      EscapeEnd(s[0]);
      assert EscapeAll(s[1..]) == "";
      assert EscapeAll(s) == Escape(s[0]) + "" == Escape(s[0]);
    } else {
      EscapeAllEnd(s[1..]);
    }
  }

  /** A written literal closes where it ends, whatever follows. */
  lemma {:induction false} LiteralShape(s: seq<CodePoint>, rest: string)
    ensures var t, e := Literal(s) + rest, |EscapeAll(s)| + 1;
      t[e] == '\"' && t[e + 1..] == rest && Guarded(t, 1, e) && t[1..e] == EscapeAll(s)
  {
    LiteralReads(s, rest);
    hide EscapeAll, ReadChars;
    var t := Literal(s) + rest;
    var e := CharsShape(t[1..]);
    assert |t[1..][e + 1..]| == |rest|;
    forall i | 1 <= i < e + 1 && t[i] == '\"' ensures i > 0 && t[i - 1] == '\\' {
      assert t[1..][i - 1] == t[i];
      assert i > 1 && t[1..][i - 2] == t[i - 1];
    }
  }

  function AfterFirst(items: seq<string>): (r: string)
    requires items != []
    ensures r != "" && (r[0] == ',' || r[0] == ']')
  {
    if |items| == 1 then "]" else "," + Items(items[1..])
  }

  lemma {:induction false} FirstItem(items: seq<string>) returns (b: nat)
    requires items != [] && EndsTame(items[0])
    ensures var t := Items(items);
      1 <= b && b + 1 < |t| && t[0] == '\"' && t[b] == '\"' && t[b + 1..] == AfterFirst(items) && Guarded(t, 1, b) && EndsTame(t[1..b])
  {
    var s := Points(items[0]);
    assert s[|s| - 1] == items[0][|items[0]| - 1] as int;
    EscapeAllEnd(s);
    LiteralShape(s, AfterFirst(items));
    hide EscapeAll, EndsTame, Guarded;
    b := |EscapeAll(s)| + 1;
    assert Items(items) == Literal(s) + AfterFirst(items);
  }

  /** Of a written list, the item an `=` stands in closes after a character that opens no list. */
  lemma {:induction false} WrittenShape(items: seq<string>, p: nat) returns (b: nat)
    requires items != [] && (forall item :: item in items ==> EndsTame(item))
    requires p < |Items(items)| && Items(items)[p] == '='
    ensures ClosesAt(Items(items), p, b) && Items(items)[b - 1] != '['
    decreases |items|
  {
    hide *;
    var t := Items(items);
    assert items[0] in items;
    b := FirstItem(items);
    assert t[b + 1] == AfterFirst(items)[0];
    if p < b {
      LastInside(t, b, t[1..b]);
      FirstCloses(t, p, b);
    } else {
      RestTail(items, t, b, p);
      var c := WrittenShape(items[1..], p - b - 2);
      ClosesLater(t, b + 2, p, c);
      assert t[b + 2 + c - 1] == t[b + 2..][c - 1] by { ClosesAfter(t[b + 2..], p - b - 2, c); }
      b := b + 2 + c;
    }
  }

  lemma {:induction false} ClosesAfter(t: string, p: nat, b: nat)
    requires ClosesAt(t, p, b)
    ensures p < b && b + 1 < |t|
  {
  }

  lemma {:induction false} LastInside(t: string, b: nat, text: string)
    requires 1 <= b < |t| && t[1..b] == text && EndsTame(text)
    ensures b > 1 && t[b - 1] != '['
  {
    assert t[1..b][|text| - 1] == t[b - 1];
  }

  lemma {:induction false} FirstCloses(t: string, p: nat, b: nat)
    requires 1 <= b && b + 1 < |t| && p < b && t[0] == '\"' && t[p] == '=' && t[b] == '\"' && Guarded(t, 1, b)
    requires t[b + 1] == ',' || t[b + 1] == ']'
    ensures ClosesAt(t, p, b)
  {
  }

  lemma {:induction false} RestTail(items: seq<string>, t: string, b: nat, p: nat)
    requires items != [] && b + 1 < |t| && t[b + 1..] == AfterFirst(items) && t[b] == '\"' && b <= p < |t| && t[p] == '='
    ensures |items| > 1 && p >= b + 2 && t[b + 2..] == Items(items[1..]) && Items(items[1..])[p - b - 2] == '='
  {
    var rest := AfterFirst(items);
    assert t[p] == rest[p - b - 1];
    assert rest[1..] == t[b + 2..];
  }
}
