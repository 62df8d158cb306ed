/** Following a finite table of links, which may be cyclic, to where it ends. */
module Chains {

  /** `x` after `k` links, or where the links ran out. */
  function Follow<T>(g: map<T, T>, x: T, k: nat): T
  {
    if k == 0 || x !in g then x else Follow(g, g[x], k - 1)
  }

  /** The chain from `x` reaches `y` in `k` links and ends there. */
  predicate EndsAt<T(==)>(g: map<T, T>, x: T, k: nat, y: T)
  {
    Follow(g, x, k) == y && y !in g
  }

  /** The chain from `x` ends. */
  ghost predicate Ends<T(!new)>(g: map<T, T>, x: T)
  {
    exists k: nat, y :: EndsAt(g, x, k, y)
  }

  /** Where it ends. */
  ghost function End<T(!new)>(g: map<T, T>, x: T): (y: T)
    requires Ends(g, x)
    ensures y !in g && exists k: nat :: EndsAt(g, x, k, y)
  {
    var k: nat, y :| EndsAt(g, x, k, y);
    y
  }

  lemma {:induction false} FollowMore<T>(g: map<T, T>, x: T, j: nat, k: nat)
    ensures Follow(g, Follow(g, x, j), k) == Follow(g, x, j + k)
  {
    if j > 0 && x in g { FollowMore(g, g[x], j - 1, k); }
  }

  lemma {:induction false} StaysEnded<T>(g: map<T, T>, x: T, j: nat, k: nat)
    requires j <= k && Follow(g, x, j) !in g
    ensures Follow(g, x, k) == Follow(g, x, j)
  {
    FollowMore(g, x, j, k - j);
  }

  /** A chain has one end. */
  lemma {:induction false} EndUnique<T(!new)>(g: map<T, T>, x: T, k: nat)
    requires Follow(g, x, k) !in g
    ensures Ends(g, x) && End(g, x) == Follow(g, x, k)
  {
    assert EndsAt(g, x, k, Follow(g, x, k));
    var j: nat :| EndsAt(g, x, j, End(g, x));
    assert Follow(g, x, j) == End(g, x);
    if j <= k { StaysEnded(g, x, j, k); } else { StaysEnded(g, x, k, j); }
  }

  /** Everything along a chain has the chain's end. */
  lemma {:induction false} SameEnd<T(!new)>(g: map<T, T>, x: T, k: nat)
    ensures Ends(g, Follow(g, x, k)) <==> Ends(g, x)
    ensures Ends(g, x) ==> End(g, Follow(g, x, k)) == End(g, x)
  {
    var y := Follow(g, x, k);
    if Ends(g, y) {
      var j: nat :| EndsAt(g, y, j, End(g, y));
      assert Follow(g, y, j) == End(g, y);
      FollowMore(g, x, k, j);
      EndUnique(g, x, k + j);
    }
    if Ends(g, x) {
      var j: nat :| EndsAt(g, x, j, End(g, x));
      assert Follow(g, x, j) == End(g, x);
      FollowMore(g, x, k, j);
      FollowMore(g, x, j, k);
      StaysEnded(g, x, j, j + k);
      EndUnique(g, y, j);
    }
  }

  /** A chain that returns to where it started never ends. */
  lemma {:induction false} LoopsForever<T(!new)>(g: map<T, T>, x: T, d: nat, k: nat)
    requires d > 0 && x in g && Follow(g, x, d) == x
    ensures Follow(g, x, k) in g
    decreases k
  {
    if k < d {
      if Follow(g, x, k) !in g { StaysEnded(g, x, k, d); }
    } else {
      FollowMore(g, x, d, k - d);
      LoopsForever(g, x, d, k - d);
    }
  }

  /** A chain that meets one of its own links again never ends. */
  lemma {:induction false} CycleNeverEnds<T(!new)>(g: map<T, T>, x: T, i: nat, j: nat)
    requires i < j && Follow(g, x, i) == Follow(g, x, j) && Follow(g, x, i) in g
    ensures !Ends(g, x)
  {
    var y := Follow(g, x, i);
    FollowMore(g, x, i, j - i);
    forall k: nat, e | EndsAt(g, y, k, e) ensures false {
      LoopsForever(g, y, j - i, k);
    }
    SameEnd(g, x, i);
  }

  /** One of the first `n` stops is `e`. */
  ghost predicate Met<T>(g: map<T, T>, x: T, n: nat, e: T)
  {
    exists k: nat :: k < n && Follow(g, x, k) == e
  }

  /** A chain that never ends meets one of its own links again. */
  lemma {:induction false} NoEndCycles<T(!new)>(g: map<T, T>, x: T) returns (i: nat, j: nat)
    requires !Ends(g, x)
    ensures i < j && Follow(g, x, i) == Follow(g, x, j) && Follow(g, x, i) in g
  {
    var seen: set<T> := {};
    j := 0;
    while Follow(g, x, j) !in seen
      invariant seen <= g.Keys
      invariant forall e :: e in seen ==> Met(g, x, j, e)
      decreases |g.Keys - seen|
    {
      var at := Follow(g, x, j);
      if at !in g { EndUnique(g, x, j); }
      assert Met(g, x, j + 1, at);
      forall e | e in seen ensures Met(g, x, j + 1, e) {
        var k: nat :| k < j && Follow(g, x, k) == e;
      }
      Fewer(g.Keys - (seen + {at}), g.Keys - seen, at);
      seen, j := seen + {at}, j + 1;
    }
    assert Met(g, x, j, Follow(g, x, j));
    i :| i < j && Follow(g, x, i) == Follow(g, x, j);
  }

  lemma {:induction false} Fewer<T>(a: set<T>, b: set<T>, x: T)
    requires x in b && a == b - {x}
    ensures |a| < |b|
  {
  }
}
