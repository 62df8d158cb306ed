/** The paths the gate's classes and roots are read off, character by character. */
module GatePaths {
  import opened Texts
  import opened GateScope
  import GateLaws

  lemma {:induction false} PythonExact(path: string)
    ensures EndsInPy(path) <==> exists stem :: path == stem + ".py"
  {
    if EndsInPy(path) { assert path == path[..|path| - 3] + ".py"; }
  }

  /** Quick can run a root exactly when it selects a test from a module at the root or under it. */
  lemma {:induction false} RunnableExact(r: Rules, root: string)
    ensures Runnable(r, root) <==> exists m :: m in r.modules && r.selects(m) && (m == root || root + "/" <= m)
  {
    if m :| m in r.modules && r.selects(m) && (m == root || root + "/" <= m) {
      assert QuickRuns(r, m, root);
    }
  }

  function Slashes(t: string): nat
  {
    if t == "" then 0 else (if t[0] == '/' then 1 else 0) + Slashes(t[1..])
  }

  lemma {:induction false} SlashesOf(a: string, b: string)
    ensures Slashes(a + b) == Slashes(a) + Slashes(b)
  {
    if a == "" { assert a + b == b; } else {
      assert (a + b)[1..] == a[1..] + b;
      SlashesOf(a[1..], b);
    }
  }

  lemma {:induction false} PartsFree(t: string)
    ensures forall part :: part in Split(t, '/') ==> '/' !in part
  {
    if t != "" { PartsFree(t[1..]); }
  }

  lemma {:induction false} NoSlash(t: string)
    ensures Slashes(t) == 0 <==> '/' !in t
  {
    if t != "" { NoSlash(t[1..]); }
  }

  lemma {:induction false} JoinSlashes(parts: seq<string>)
    requires parts != [] && forall part :: part in parts ==> '/' !in part
    ensures Slashes(Join(parts, '/')) == |parts| - 1
  {
    NoSlash(parts[0]);
    if |parts| > 1 {
      JoinSlashes(parts[1..]);
      SlashesOf(parts[0], ['/'] + Join(parts[1..], '/'));
      SlashesOf(['/'], Join(parts[1..], '/'));
      assert Slashes(['/']) == 1 by { assert ['/'][1..] == ""; }
      assert Join(parts, '/') == parts[0] + (['/'] + Join(parts[1..], '/'));
    }
  }

  /** A path's first `n` parts: all of it, or what stands before its `n`-th slash. */
  lemma {:induction false} FirstPartsExact(path: string, n: nat)
    requires n > 0
    ensures var first := FirstParts(path, n);
      if Slashes(path) < n then first == path
      else Slashes(first) == n - 1 && exists rest :: path == first + ("/" + rest)
  {
    var parts := Split(path, '/');
    PartsFree(path);
    JoinSplit(path, '/');
    assert parts != [];
    JoinSlashes(parts);
    if |parts| > n {
      JoinSlashes(parts[..n]);
      assert parts == parts[..n] + parts[n..];
      GateLaws.JoinMore(parts[..n], parts[n..]);
    }
  }
}
