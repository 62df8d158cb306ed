/** The frozenset arm of `values_equal`: each element takes the first equal one still unmatched. */
module FrozenMatching {
  import opened EncodedValues
  import EncodedLaws

  /** `m` pairs each text of `left` in turn with the first equal text of `right` that no earlier one took. */
  ghost predicate Greedy(left: seq<Encoded>, right: seq<Encoded>, m: seq<nat>)
  {
    EncodedLaws.Matching(left, right, m)
    && forall i, j :: 0 <= i < |left| && 0 <= j < m[i] && j !in m[..i] ==> !ValuesEqual(left[i], right[j])
  }

  lemma {:induction false} FirstMatchLeast(x: Encoded, ys: seq<Encoded>, size: nat)
    requires |x| < size
    ensures var k := FirstMatch(x, ys, size);
      (k < |ys| ==> ValuesEqual(x, ys[k])) && forall j :: 0 <= j < k ==> !ValuesEqual(x, ys[j])
  {
    hide ValuesEqual, CheckValue;
    if ys != [] && !ValuesEqual(x, ys[0]) {
      FirstMatchLeast(x, ys[1..], size);
    }
  }

  lemma {:induction false} LiftLeast(left: seq<Encoded>, right: seq<Encoded>, k: nat, tail: seq<nat>, i: nat, j: nat)
    requires left != [] && k < |right| && Greedy(left[1..], right[..k] + right[k + 1..], tail)
    requires i < |tail| && j < EncodedLaws.Lift(tail, k)[i] && j != k && j !in EncodedLaws.Lift(tail, k)[..i]
    ensures j < |right| && !ValuesEqual(left[i + 1], right[j])
  {
    hide ValuesEqual, CheckValue;
    var rest, lifted := right[..k] + right[k + 1..], EncodedLaws.Lift(tail, k);
    var lower := if j < k then j else j - 1;
    assert lower < tail[i] && rest[lower] == right[j] && left[1..][i] == left[i + 1];
    forall h | 0 <= h < i ensures tail[h] != lower {
      assert lifted[..i][h] == lifted[h];
      assert lifted[h] in lifted[..i];
    }
    assert lower !in tail[..i];
  }

  /** Matching all is matching the first text and then all others without its partner. */
  lemma {:induction false} GreedyFirst(left: seq<Encoded>, right: seq<Encoded>, k: nat, tail: seq<nat>)
    requires left != [] && k < |right| && ValuesEqual(left[0], right[k])
    requires forall j :: 0 <= j < k ==> !ValuesEqual(left[0], right[j])
    requires Greedy(left[1..], right[..k] + right[k + 1..], tail)
    ensures Greedy(left, right, [k] + EncodedLaws.Lift(tail, k))
  {
    hide ValuesEqual, CheckValue;
    EncodedLaws.LiftMatching(left, right, k, tail);
    hide EncodedLaws.Matching;
    var lifted := EncodedLaws.Lift(tail, k);
    var m := [k] + lifted;
    forall i, j | 0 <= i < |left| && 0 <= j < m[i] && j !in m[..i] ensures !ValuesEqual(left[i], right[j]) {
      if i > 0 {
        assert m[..i] == [k] + lifted[..i - 1];
        LiftLeast(left, right, k, tail, i - 1, j);
      }
    }
  }

  /** And back: the partners of the others, counted without the first one's. */
  function Rest(m: seq<nat>): (tail: seq<nat>)
    requires m != [] && forall i :: 0 < i < |m| ==> m[0] != m[i]
    ensures |tail| == |m| - 1
    ensures forall i :: 0 <= i < |tail| ==> tail[i] == if m[i + 1] < m[0] then m[i + 1] else m[i + 1] - 1
  {
    seq(|m| - 1, i requires 0 <= i < |m| - 1 => assert m[0] != m[i + 1]; if m[i + 1] < m[0] then m[i + 1] else m[i + 1] - 1)
  }

  lemma {:induction false} RestMatches(left: seq<Encoded>, right: seq<Encoded>, m: seq<nat>)
    requires left != [] && EncodedLaws.Matching(left, right, m)
    ensures EncodedLaws.Matching(left[1..], right[..m[0]] + right[m[0] + 1..], Rest(m))
    ensures forall i :: 0 <= i < |m| - 1 ==> left[1..][i] == left[i + 1]
  {
    hide ValuesEqual, CheckValue;
    var tail, rest := Rest(m), right[..m[0]] + right[m[0] + 1..];
    forall i | 0 <= i < |tail| ensures tail[i] < |rest| && ValuesEqual(left[1..][i], rest[tail[i]]) {
      assert m[0] != m[i + 1];
      assert rest[tail[i]] == right[m[i + 1]] && left[1..][i] == left[i + 1];
    }
    forall i, j | 0 <= i < j < |tail| ensures tail[i] != tail[j] {
      assert m[0] != m[i + 1] && m[0] != m[j + 1] && m[i + 1] != m[j + 1];
    }
  }

  lemma {:induction false} RestLeast(left: seq<Encoded>, right: seq<Encoded>, m: seq<nat>, i: nat, j: nat)
    requires left != [] && Greedy(left, right, m)
    requires i < |m| - 1 && j < Rest(m)[i] && j !in Rest(m)[..i]
    ensures j < |right| - 1 && !ValuesEqual(left[i + 1], (right[..m[0]] + right[m[0] + 1..])[j])
  {
    hide ValuesEqual, CheckValue;
    var k, tail := m[0], Rest(m);
    var upper := if j < k then j else j + 1;
    assert m[0] != m[i + 1];
    assert (right[..k] + right[k + 1..])[j] == right[upper] && upper < m[i + 1];
    forall h | 0 <= h < i + 1 ensures m[h] != upper {
      if h > 0 {
        assert m[0] != m[h];
        assert tail[..i][h - 1] == tail[h - 1];
        assert tail[h - 1] in tail[..i];
      }
    }
    assert upper !in m[..i + 1];
  }

  lemma {:induction false} GreedyRest(left: seq<Encoded>, right: seq<Encoded>, m: seq<nat>)
    requires left != [] && Greedy(left, right, m)
    ensures var k := m[0];
      k < |right| && ValuesEqual(left[0], right[k]) && (forall j :: 0 <= j < k ==> !ValuesEqual(left[0], right[j]))
      && Greedy(left[1..], right[..k] + right[k + 1..], Rest(m))
  {
    hide ValuesEqual, CheckValue;
    assert m[..0] == [];
    RestMatches(left, right, m);
    var tail, rest := Rest(m), right[..m[0]] + right[m[0] + 1..];
    forall i, j | 0 <= i < |left| - 1 && 0 <= j < tail[i] && j !in tail[..i] ensures !ValuesEqual(left[1..][i], rest[j]) {
      RestLeast(left, right, m, i, j);
    }
  }

  lemma {:induction false} MatchFirst(left: seq<Encoded>, right: seq<Encoded>, size: nat)
    requires left != [] && forall x :: x in left ==> |x| < size
    ensures var k := FirstMatch(left[0], right, size);
      MatchAll(left, right, size) <==> k < |right| && MatchAll(left[1..], right[..k] + right[k + 1..], size)
  {
    hide ValuesEqual, CheckValue, FirstMatch;
  }

  lemma {:induction false} GreedyExact(left: seq<Encoded>, right: seq<Encoded>, size: nat)
    requires forall x :: x in left ==> |x| < size
    ensures MatchAll(left, right, size) <==> exists m :: Greedy(left, right, m)
  {
    if left == [] {
      assert Greedy(left, right, []);
    } else {
      hide ValuesEqual, CheckValue, Greedy, FirstMatch, MatchAll;
      var k := FirstMatch(left[0], right, size);
      FirstMatchLeast(left[0], right, size);
      MatchFirst(left, right, size);
      if k < |right| {
        var rest := right[..k] + right[k + 1..];
        GreedyExact(left[1..], rest, size);
        if tail :| Greedy(left[1..], rest, tail) { GreedyFirst(left, right, k, tail); }
      }
      if m :| Greedy(left, right, m) { GreedyRest(left, right, m); }
    }
  }

  /** Frozensets compare equal exactly if they are one text, or as many elements and all matched in turn. */
  lemma {:induction false} SetsEqual(a: Encoded, b: Encoded)
    requires StartsWith(a, "Z:") && StartsWith(b, "Z:")
    ensures ValuesEqual(a, b) <==>
      a == b || (|ItemsOf(a)| == |ItemsOf(b)| && exists m :: Greedy(ItemsOf(a), ItemsOf(b), m))
  {
    EncodedLaws.NotEnum(a);
    assert a[..2][0] == a[0] && a[..2] != "T:";
    GreedyExact(ItemsOf(a), ItemsOf(b), |a|);
    hide CheckValue, EnumParts, MatchAll, Greedy;
  }

  /** The loop over the left elements; it succeeds exactly if each text finds its partner. */
  method MatchElements(left: seq<Encoded>, right: seq<Encoded>, size: nat) returns (matched: bool)
    requires forall x :: x in left ==> |x| < size
    ensures matched == MatchAll(left, right, size)
    ensures matched <==> exists m :: Greedy(left, right, m)
  {
    hide CheckValue, ValuesEqual, FirstMatch;
    GreedyExact(left, right, size);
    hide Greedy;
    var unmatched := right;
    for i := 0 to |left|
      invariant MatchAll(left, right, size) == MatchAll(left[i..], unmatched, size)
    {
      var rest := left[i..];
      assert rest[0] == left[i] && rest[1..] == left[i + 1..];
      var hit := FirstMatch(left[i], unmatched, size);
      if hit == |unmatched| {
        return false;
      }
      unmatched := unmatched[..hit] + unmatched[hit + 1..];
    }
    return true;
  }
}
