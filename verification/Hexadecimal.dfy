/** Hexadecimal places: writing a number in a fixed number of them, and reading them back. */
module Hexadecimal {
  import opened Texts

  type Nibble = n: nat | n < 16

  /** The last `k` hexadecimal places of `n`. */
  function Nibbles(n: nat, k: nat): (r: seq<Nibble>)
    ensures |r| == k
  {
    if k == 0 then [] else Nibbles(n / 16, k - 1) + [n % 16]
  }

  /** The number some digits name, each already read or refused. */
  function ReadNibbles(digits: seq<Option<Nibble>>): (r: Option<nat>)
    ensures r.Some? ==> r.value < Pow16(|digits|)
  {
    if digits == [] then Some(0)
    else
      match (ReadNibbles(digits[..|digits| - 1]), digits[|digits| - 1])
      case (Some(high), Some(d)) => Some(16 * high + d)
      case _ => None
  }

  function Given(places: seq<Nibble>): (r: seq<Option<Nibble>>)
    ensures |r| == |places| && forall i :: 0 <= i < |r| ==> r[i] == Some(places[i])
  {
    seq(|places|, i requires 0 <= i < |places| => Some(places[i]))
  }

  /** A number reads back from places enough for it. */
  lemma {:induction false} NibblesRead(n: nat, k: nat)
    requires n < Pow16(k)
    ensures ReadNibbles(Given(Nibbles(n, k))) == Some(n)
  {
    if k > 0 {
      NibblesRead(n / 16, k - 1);
      var r := Given(Nibbles(n, k));
      assert r[..k - 1] == Given(Nibbles(n / 16, k - 1));
      assert r[k - 1] == Some(n % 16);
    }
  }

  /** Digits that name a number were all read. */
  lemma {:induction false} NibblesGiven(digits: seq<Option<Nibble>>)
    requires ReadNibbles(digits).Some?
    ensures forall i :: 0 <= i < |digits| ==> digits[i].Some?
  {
    if digits != [] {
      var last := |digits| - 1;
      NibblesGiven(digits[..last]);
      forall i | 0 <= i < last ensures digits[i].Some? { assert digits[..last][i] == digits[i]; }
    }
  }
}
