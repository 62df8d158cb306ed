/** Text helpers shared by the models: options, splitting, joining, ordering, stable sorting. */
module Texts {

  datatype Option<+T> = None | Some(value: T)

  type Byte = n: nat | n < 256

  /** `text.split(sep)` for a one-character separator. */
  function Split(s: string, sep: char): (r: seq<string>)
    ensures |r| >= 1
    ensures forall part :: part in r ==> sep !in part && |part| <= |s|
  {
    if s == "" then [""]
    else
      var rest := Split(s[1..], sep);
      if s[0] == sep then [""] + rest
      else [[s[0]] + rest[0]] + rest[1..]
  }

  /** `sep.join(parts)` for a one-character separator. */
  function Join(parts: seq<string>, sep: char): string
  {
    if parts == [] then ""
    else if |parts| == 1 then parts[0]
    else parts[0] + ([sep] + Join(parts[1..], sep))
  }

  lemma {:induction false} SplitConcat(a: string, b: string, sep: char)
    requires sep !in a
    ensures Split(a + ([sep] + b), sep) == [a] + Split(b, sep)
  {
    var s := a + ([sep] + b);
    if a == "" {
      assert s[1..] == b;
    } else {
      var tail := a[1..];
      assert a == [a[0]] + tail && s[0] == a[0] && s[1..] == tail + ([sep] + b);
      SplitConcat(tail, b, sep);
      var r := Split(s[1..], sep);
      assert r[0] == tail && r[1..] == Split(b, sep);
    }
  }

  lemma {:induction false} SplitWhole(a: string, sep: char)
    requires sep !in a
    ensures Split(a, sep) == [a]
  {
    if a != "" {
      SplitWhole(a[1..], sep);
      assert a == [a[0]] + a[1..];
    }
  }

  /** Splitting undoes joining when no part holds the separator. */
  lemma {:induction false} SplitJoin(parts: seq<string>, sep: char)
    requires parts != []
    requires forall part :: part in parts ==> sep !in part
    ensures Split(Join(parts, sep), sep) == parts
  {
    if |parts| == 1 {
      SplitWhole(parts[0], sep);
    } else {
      SplitJoin(parts[1..], sep);
      SplitConcat(parts[0], Join(parts[1..], sep), sep);
    }
  }

  /** Joining undoes splitting. */
  lemma {:induction false} JoinSplit(s: string, sep: char)
    ensures Join(Split(s, sep), sep) == s
  {
    if s != "" {
      JoinSplit(s[1..], sep);
      var rest := Split(s[1..], sep);
      assert s == [s[0]] + s[1..];
      if s[0] == sep {
        assert ([""] + rest)[1..] == rest;
      } else if |rest| > 1 {
        assert ([[s[0]] + rest[0]] + rest[1..])[1..] == rest[1..];
        Assoc([s[0]], rest[0], [sep] + Join(rest[1..], sep));
      }
    }
  }

  /** A joined text holds only separators and characters of its parts. */
  lemma {:induction false} JoinChars(parts: seq<string>, sep: char)
    ensures forall c :: c in Join(parts, sep) ==> c == sep || exists part :: part in parts && c in part
  {
    if |parts| > 1 {
      JoinChars(parts[1..], sep);
    }
  }

  /** The index of the first `c` in `s`, or `|s|`. */
  function IndexOf(s: string, c: char): (r: nat)
    ensures r <= |s|
    ensures c !in s[..r]
    ensures r < |s| ==> s[r] == c
  {
    if s == "" then 0
    else if s[0] == c then 0
    else
      var r := IndexOf(s[1..], c);
      assert s[..r + 1] == [s[0]] + s[1..][..r];
      r + 1
  }

  lemma {:induction false} IndexOfConcat(a: string, c: char, b: string)
    requires c !in a
    ensures IndexOf(a + ([c] + b), c) == |a|
  {
    var s := a + ([c] + b);
    if a != "" {
      assert s[1..] == a[1..] + ([c] + b);
      IndexOfConcat(a[1..], c, b);
    }
  }

  lemma {:induction false} Assoc<T>(a: seq<T>, b: seq<T>, c: seq<T>)
    ensures a + (b + c) == a + b + c
  {
  }

  lemma {:induction false} Without<T>(s: seq<T>, k: nat)
    requires k < |s|
    ensures multiset(s) == multiset{s[k]} + multiset(s[..k] + s[k + 1..])
    ensures forall x :: x in s[..k] + s[k + 1..] ==> x in s
  {
    assert s == s[..k] + ([s[k]] + s[k + 1..]);
  }

  /** 16 to the power `k`. */
  function Pow16(k: nat): (r: nat)
    ensures r >= 1
  {
    if k == 0 then 1 else 16 * Pow16(k - 1)
  }

  lemma {:induction false} SubsetSize<T>(a: set<T>, b: set<T>)
    requires a <= b
    ensures |a| <= |b|
  {
    if a != {} {
      var x :| x in a;
      SubsetSize(a - {x}, b - {x});
    }
  }

  // --- orders and stable sorting ---------------------------------------------------

  /** Code-point order on strings, as Python compares them. */
  predicate Le(a: string, b: string)
  {
    a == "" || (b != "" && (a[0] < b[0] || (a[0] == b[0] && Le(a[1..], b[1..]))))
  }

  lemma {:induction false} LeTotal(a: string, b: string)
    ensures Le(a, b) || Le(b, a)
    ensures Le(a, b) && Le(b, a) ==> a == b
  {
    if a != "" && b != "" {
      LeTotal(a[1..], b[1..]);
      assert a == [a[0]] + a[1..];
      assert b == [b[0]] + b[1..];
    }
  }

  lemma {:induction false} LeTransitive(a: string, b: string, c: string)
    requires Le(a, b) && Le(b, c)
    ensures Le(a, c)
  {
    if a != "" && b != "" && c != "" && a[0] == b[0] == c[0] {
      LeTransitive(a[1..], b[1..], c[1..]);
    }
  }

  /** `a` comes strictly before `b` in a tuple whose first components they are, or ties and the rest decides. */
  predicate LeLex(a: seq<string>, b: seq<string>)
  {
    a == [] || (b != [] && (if a[0] == b[0] then LeLex(a[1..], b[1..]) else Le(a[0], b[0])))
  }

  lemma {:induction false} LeLexTotal(a: seq<string>, b: seq<string>)
    ensures LeLex(a, b) || LeLex(b, a)
    ensures LeLex(a, b) && LeLex(b, a) ==> a == b
  {
    if a != [] && b != [] {
      if a[0] == b[0] {
        LeLexTotal(a[1..], b[1..]);
        assert a == [a[0]] + a[1..];
        assert b == [b[0]] + b[1..];
      } else {
        LeTotal(a[0], b[0]);
      }
    }
  }

  lemma {:induction false} LeLexTransitive(a: seq<string>, b: seq<string>, c: seq<string>)
    requires LeLex(a, b) && LeLex(b, c)
    ensures LeLex(a, c)
  {
    if a != [] && b != [] && c != [] {
      if a[0] == b[0] == c[0] {
        LeLexTransitive(a[1..], b[1..], c[1..]);
      } else if a[0] != b[0] && b[0] != c[0] {
        LeTransitive(a[0], b[0], c[0]);
        if a[0] == c[0] {
          LeTotal(a[0], b[0]);
        }
      }
    }
  }

  /** An item to sort: its tuple of sort keys, and what it carries. */
  datatype Keyed<T> = Keyed(key: seq<string>, item: T)

  ghost predicate Ordered<T>(xs: seq<Keyed<T>>)
  {
    forall i, j :: 0 <= i < j < |xs| ==> LeLex(xs[i].key, xs[j].key)
  }

  function Insert<T>(x: Keyed<T>, xs: seq<Keyed<T>>): (r: seq<Keyed<T>>)
    ensures |r| == |xs| + 1
  {
    if xs == [] then [x]
    else if LeLex(x.key, xs[0].key) then [x] + xs
    else [xs[0]] + Insert(x, xs[1..])
  }

  /** Python's `sorted`: a stable sort by key. */
  function Sort<T>(xs: seq<Keyed<T>>): (r: seq<Keyed<T>>)
    ensures |r| == |xs|
  {
    if xs == [] then [] else Insert(xs[0], Sort(xs[1..]))
  }

  /** The items whose key is `k`, in order. */
  function WithKey<T>(xs: seq<Keyed<T>>, k: seq<string>): seq<Keyed<T>>
  {
    if xs == [] then []
    else (if xs[0].key == k then [xs[0]] else []) + WithKey(xs[1..], k)
  }

  lemma {:induction false} InsertMembers<T>(x: Keyed<T>, xs: seq<Keyed<T>>)
    ensures forall y :: y in Insert(x, xs) ==> y == x || y in xs
    ensures forall y :: y == x || y in xs ==> y in Insert(x, xs)
  {
    if xs != [] && !LeLex(x.key, xs[0].key) {
      InsertMembers(x, xs[1..]);
      assert xs == [xs[0]] + xs[1..];
    }
  }

  lemma {:induction false} InsertOrdered<T>(x: Keyed<T>, xs: seq<Keyed<T>>)
    requires Ordered(xs)
    ensures Ordered(Insert(x, xs))
  {
    if xs == [] {
    } else if LeLex(x.key, xs[0].key) {
      forall j | 0 <= j < |xs| ensures LeLex(x.key, xs[j].key) {
        if j > 0 { LeLexTransitive(x.key, xs[0].key, xs[j].key); }
      }
    } else {
      LeLexTotal(x.key, xs[0].key);
      InsertOrdered(x, xs[1..]);
      InsertMembers(x, xs[1..]);
      var r := Insert(x, xs[1..]);
      forall j | 0 <= j < |r| ensures LeLex(xs[0].key, r[j].key) {
        var y := r[j];
        assert y in r;
        if y != x {
          assert y in xs[1..];
          var k :| 0 <= k < |xs[1..]| && xs[1..][k] == y;
          assert xs[k + 1] == y;
        }
      }
    }
  }

  lemma {:induction false} WithKeyFirst<T>(x: Keyed<T>, xs: seq<Keyed<T>>, k: seq<string>)
    ensures WithKey([x] + xs, k) == (if x.key == k then [x] else []) + WithKey(xs, k)
  {
    assert ([x] + xs)[1..] == xs;
  }

  lemma {:induction false} InsertWithKey<T>(x: Keyed<T>, xs: seq<Keyed<T>>, k: seq<string>)
    ensures WithKey(Insert(x, xs), k) == (if x.key == k then [x] else []) + WithKey(xs, k)
  {
    LeLexTotal(x.key, x.key);
    hide LeLex, WithKey;
    if xs == [] || LeLex(x.key, xs[0].key) {
      WithKeyFirst(x, xs, k);
      assert [x] + [] == [x];
    } else {
      assert x.key != xs[0].key;
      InsertWithKey(x, xs[1..], k);
      WithKeyFirst(xs[0], Insert(x, xs[1..]), k);
      WithKeyFirst(xs[0], xs[1..], k);
      assert xs == [xs[0]] + xs[1..];
    }
  }

  /** A stable sort: ordered, and each key's items keep their order. */
  lemma {:induction false} SortStable<T>(xs: seq<Keyed<T>>)
    ensures Ordered(Sort(xs))
    ensures forall k :: WithKey(Sort(xs), k) == WithKey(xs, k)
    ensures forall y :: y in Sort(xs) <==> y in xs
  {
    if xs != [] {
      SortStable(xs[1..]);
      InsertOrdered(xs[0], Sort(xs[1..]));
      InsertMembers(xs[0], Sort(xs[1..]));
      assert xs == [xs[0]] + xs[1..];
      forall k ensures WithKey(Sort(xs), k) == WithKey(xs, k) {
        InsertWithKey(xs[0], Sort(xs[1..]), k);
      }
    }
  }

  lemma {:induction false} WithKeyEmpty<T>(xs: seq<Keyed<T>>, k: seq<string>)
    ensures WithKey(xs, k) == [] <==> forall x :: x in xs ==> x.key != k
  {
    if xs != [] {
      WithKeyEmpty(xs[1..], k);
      assert xs == [xs[0]] + xs[1..];
    }
  }

  lemma {:induction false} WithKeyHead<T>(xs: seq<Keyed<T>>, k: seq<string>)
    ensures forall x :: x in WithKey(xs, k) ==> x in xs && x.key == k
  {
    if xs != [] {
      WithKeyHead(xs[1..], k);
    }
  }

  lemma {:induction false} KeyedHead<T>(xs: seq<Keyed<T>>)
    requires xs != []
    ensures WithKey(xs, xs[0].key) == [xs[0]] + WithKey(xs[1..], xs[0].key)
    ensures forall k :: k != xs[0].key ==> WithKey(xs, k) == WithKey(xs[1..], k)
  {
  }

  /** The head of an ordered list holds its least key. */
  lemma {:induction false} HeadLeast<T>(xs: seq<Keyed<T>>, x: Keyed<T>)
    requires Ordered(xs) && x in xs
    ensures LeLex(xs[0].key, x.key)
  {
    LeLexTotal(x.key, x.key);
    var i :| 0 <= i < |xs| && xs[i] == x;
  }

  lemma {:induction false} HeadElsewhere<T>(xs: seq<Keyed<T>>, ys: seq<Keyed<T>>)
    requires Ordered(ys) && xs != [] && WithKey(xs, xs[0].key) == WithKey(ys, xs[0].key)
    ensures ys != [] && LeLex(ys[0].key, xs[0].key)
  {
    KeyedHead(xs);
    assert xs[0] in WithKey(ys, xs[0].key);
    WithKeyHead(ys, xs[0].key);
    HeadLeast(ys, xs[0]);
  }

  /** Two ordered lists that agree key by key are the same list. */
  lemma {:induction false} OrderedUnique<T>(xs: seq<Keyed<T>>, ys: seq<Keyed<T>>)
    requires Ordered(xs) && Ordered(ys)
    requires forall k :: WithKey(xs, k) == WithKey(ys, k)
    ensures xs == ys
  {
    hide WithKey;
    if xs != [] { HeadElsewhere(xs, ys); }
    if ys != [] { HeadElsewhere(ys, xs); }
    if xs != [] {
      LeLexTotal(xs[0].key, ys[0].key);
      KeyedHead(xs);
      KeyedHead(ys);
      assert WithKey(xs, xs[0].key)[0] == xs[0] && WithKey(ys, xs[0].key)[0] == ys[0];
      forall q ensures WithKey(xs[1..], q) == WithKey(ys[1..], q) {
        assert WithKey(xs, q) == WithKey(ys, q);
        if q == xs[0].key {
          assert WithKey(xs, q)[1..] == WithKey(xs[1..], q) && WithKey(ys, q)[1..] == WithKey(ys[1..], q);
        }
      }
      OrderedUnique(xs[1..], ys[1..]);
      assert xs == [xs[0]] + xs[1..] && ys == [ys[0]] + ys[1..];
    }
  }

  /** Sorting depends only on each key's items and their order, not on how keys interleave. */
  lemma {:induction false} SortCanonical<T>(xs: seq<Keyed<T>>, ys: seq<Keyed<T>>)
    requires forall k :: WithKey(xs, k) == WithKey(ys, k)
    ensures Sort(xs) == Sort(ys)
  {
    SortStable(xs);
    SortStable(ys);
    forall k ensures WithKey(Sort(xs), k) == WithKey(Sort(ys), k) {
      assert WithKey(xs, k) == WithKey(ys, k);
    }
    OrderedUnique(Sort(xs), Sort(ys));
  }

  lemma {:induction false} WithKeyMembers<T>(xs: seq<Keyed<T>>, k: seq<string>)
    ensures forall x :: x in WithKey(xs, k) <==> x in xs && x.key == k
  {
    if xs != [] {
      WithKeyMembers(xs[1..], k);
      assert xs == [xs[0]] + xs[1..];
    }
  }

  ghost predicate DistinctKeys<T>(xs: seq<Keyed<T>>)
  {
    forall i, j :: 0 <= i < j < |xs| ==> xs[i].key != xs[j].key
  }

  lemma {:induction false} LoneKey<T>(xs: seq<Keyed<T>>, k: seq<string>)
    requires DistinctKeys(xs)
    ensures |WithKey(xs, k)| <= 1
  {
    if xs != [] {
      forall i, j | 0 <= i < j < |xs[1..]| ensures xs[1..][i].key != xs[1..][j].key {
        assert xs[i + 1].key != xs[j + 1].key;
      }
      LoneKey(xs[1..], k);
      if xs[0].key == k {
        forall x | x in xs[1..] ensures x.key != k {
          var j :| 0 <= j < |xs[1..]| && xs[1..][j] == x;
          assert xs[0].key != xs[j + 1].key;
        }
        WithKeyEmpty(xs[1..], k);
      }
    }
  }

  lemma {:induction false} SmallEqual<T>(a: seq<T>, b: seq<T>)
    requires |a| <= 1 && |b| <= 1 && forall x :: x in a <==> x in b
    ensures a == b
  {
    if |a| == 1 { assert a[0] in b; }
    if |b| == 1 { assert b[0] in a; }
  }

  /** Lists of the same items under distinct keys sort to the same list. */
  lemma {:induction false} SortSame<T>(xs: seq<Keyed<T>>, ys: seq<Keyed<T>>)
    requires DistinctKeys(xs) && DistinctKeys(ys) && forall x :: x in xs <==> x in ys
    ensures Sort(xs) == Sort(ys)
  {
    hide DistinctKeys;
    forall k ensures WithKey(xs, k) == WithKey(ys, k) {
      LoneKey(xs, k);
      LoneKey(ys, k);
      WithKeyMembers(xs, k);
      WithKeyMembers(ys, k);
      SmallEqual(WithKey(xs, k), WithKey(ys, k));
    }
    SortCanonical(xs, ys);
  }

  function Plain(t: string): Keyed<string> { Keyed([t], t) }

  /** `sorted` on strings. */
  function SortTexts(ts: seq<string>): (r: seq<string>)
    ensures |r| == |ts|
  {
    var sorted := Sort(seq(|ts|, i requires 0 <= i < |ts| => Plain(ts[i])));
    seq(|ts|, i requires 0 <= i < |ts| => sorted[i].item)
  }

  ghost predicate SortedTexts(ts: seq<string>)
  {
    forall i, j :: 0 <= i < j < |ts| ==> Le(ts[i], ts[j])
  }

  /** `sorted` keeps the texts and orders them. */
  lemma {:induction false} SortTextsSorts(ts: seq<string>)
    ensures SortedTexts(SortTexts(ts))
    ensures forall x :: x in SortTexts(ts) <==> x in ts
  {
    var keyed := seq(|ts|, i requires 0 <= i < |ts| => Plain(ts[i]));
    var sorted := Sort(keyed);
    SortStable(keyed);
    var r := SortTexts(ts);
    forall i | 0 <= i < |ts| ensures sorted[i] == Plain(r[i]) && r[i] in ts {
      assert sorted[i] in sorted;
      var j :| 0 <= j < |keyed| && keyed[j] == sorted[i];
    }
    forall x | x in ts ensures x in r {
      var j :| 0 <= j < |ts| && ts[j] == x;
      assert keyed[j] in sorted;
      var i :| 0 <= i < |sorted| && sorted[i] == keyed[j];
      assert r[i] == x;
    }
    forall i, j | 0 <= i < j < |r| ensures Le(r[i], r[j]) {
      assert LeLex(sorted[i].key, sorted[j].key);
      LeTotal(r[i], r[i]);
    }
  }

  lemma {:induction false} InsertCounts<T>(x: Keyed<T>, xs: seq<Keyed<T>>)
    ensures multiset(Insert(x, xs)) == multiset{x} + multiset(xs)
  {
    if xs != [] && !LeLex(x.key, xs[0].key) {
      InsertCounts(x, xs[1..]);
      assert xs == [xs[0]] + xs[1..];
    }
  }

  lemma {:induction false} SortCounts<T>(xs: seq<Keyed<T>>)
    ensures multiset(Sort(xs)) == multiset(xs)
  {
    if xs != [] {
      SortCounts(xs[1..]);
      InsertCounts(xs[0], Sort(xs[1..]));
      assert xs == [xs[0]] + xs[1..];
    }
  }

  /** The items but the `k`-th, in order. */
  function But<T>(s: seq<T>, k: nat): (r: seq<T>)
    requires k < |s|
    ensures |r| == |s| - 1 && forall i :: 0 <= i < |r| ==> r[i] == s[if i < k then i else i + 1]
    ensures multiset(s) == multiset{s[k]} + multiset(r)
  {
    Without(s, k);
    s[..k] + s[k + 1..]
  }

  /** Where equal labels carry equal marks, lists with the labels of each other have the marks of each other. */
  lemma {:induction false} LabelsCarry<A, B>(labels: seq<A>, others: seq<A>, marks: seq<B>, otherMarks: seq<B>)
    requires |labels| == |marks| && |others| == |otherMarks| && multiset(labels) == multiset(others)
    requires forall i, j :: 0 <= i < |labels| && 0 <= j < |others| && labels[i] == others[j] ==> marks[i] == otherMarks[j]
    ensures multiset(marks) == multiset(otherMarks)
    decreases |labels|
  {
    hide But;
    if labels == [] {
      assert |multiset(others)| == |others|;
      assert marks == [] && otherMarks == [];
    } else {
      assert labels[0] in multiset(others);
      var k :| 0 <= k < |others| && others[k] == labels[0];
      var rest, otherRest := But(labels, 0), But(others, k);
      assert multiset(rest) == multiset(labels) - multiset{labels[0]};
      assert multiset(otherRest) == multiset(others) - multiset{others[k]};
      LabelsCarry(rest, otherRest, But(marks, 0), But(otherMarks, k));
    }
  }

  function ItemTexts(xs: seq<Keyed<string>>): (r: seq<string>)
    ensures |r| == |xs| && forall i :: 0 <= i < |r| ==> r[i] == xs[i].item
  {
    seq(|xs|, i requires 0 <= i < |xs| => xs[i].item)
  }

  /** `sorted` keeps each text as often as it occurs. */
  lemma {:induction false} SortTextsKeeps(ts: seq<string>)
    ensures multiset(SortTexts(ts)) == multiset(ts)
  {
    var keyed := seq(|ts|, i requires 0 <= i < |ts| => Plain(ts[i]));
    SortCounts(keyed);
    LabelsCarry(Sort(keyed), keyed, ItemTexts(Sort(keyed)), ItemTexts(keyed));
    assert ItemTexts(keyed) == ts && ItemTexts(Sort(keyed)) == SortTexts(ts);
  }

  lemma {:induction false} LoneKeys<T>(xs: seq<Keyed<T>>)
    requires forall k :: |WithKey(xs, k)| <= 1
    ensures DistinctKeys(xs)
  {
    if xs != [] {
      KeyedHead(xs);
      var k0 := xs[0].key;
      forall k ensures |WithKey(xs[1..], k)| <= 1 {
        assert |WithKey(xs, k)| <= 1;
      }
      LoneKeys(xs[1..]);
      assert |WithKey(xs, k0)| <= 1;
      WithKeyEmpty(xs[1..], k0);
      forall i, j | 0 <= i < j < |xs| ensures xs[i].key != xs[j].key {
        if i == 0 { assert xs[1..][j - 1] in xs[1..]; } else { assert xs[1..][i - 1].key != xs[1..][j - 1].key; }
      }
    }
  }

  /** `sorted` keeps distinct texts distinct. */
  lemma {:induction false} SortTextsDistinct(ts: seq<string>)
    requires forall i, j :: 0 <= i < j < |ts| ==> ts[i] != ts[j]
    ensures var r := SortTexts(ts); forall i, j :: 0 <= i < j < |r| ==> r[i] != r[j]
  {
    var keyed := seq(|ts|, i requires 0 <= i < |ts| => Plain(ts[i]));
    var sorted := Sort(keyed);
    SortStable(keyed);
    assert DistinctKeys(keyed) by {
      forall i, j | 0 <= i < j < |ts| ensures keyed[i].key != keyed[j].key { assert keyed[i].key[0] != keyed[j].key[0]; }
    }
    forall k ensures |WithKey(sorted, k)| <= 1 { LoneKey(keyed, k); assert WithKey(sorted, k) == WithKey(keyed, k); }
    LoneKeys(sorted);
    var r := SortTexts(ts);
    forall i, j | 0 <= i < j < |r| ensures r[i] != r[j] {
      assert sorted[i] in sorted && sorted[j] in sorted;
      assert sorted[i].key == [r[i]] && sorted[j].key == [r[j]];
    }
  }

  /** `list(dict.fromkeys(xs))`: each item once, where it first appears. */
  function Dedupe<T(==,!new)>(xs: seq<T>): (r: seq<T>)
    ensures forall x :: x in r <==> x in xs
    ensures forall i, j :: 0 <= i < j < |r| ==> r[i] != r[j]
  {
    if xs == [] then []
    else
      var before, x := Dedupe(xs[..|xs| - 1]), xs[|xs| - 1];
      assert xs == xs[..|xs| - 1] + [x];
      if x in before then before else before + [x]
  }
}
