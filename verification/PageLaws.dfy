/** What the lines of a page must look like, character by character. */
module PageLaws {
  import opened Texts
  import opened EncodedValues
  import opened PageLines

  function Repeat(c: char, n: nat): (r: string)
    ensures |r| == n && forall i :: 0 <= i < n ==> r[i] == c
  {
    seq(n, i => c)
  }

  // --- stripping ---------------------------------------------------------------------------

  /** `t` is `r` after some white space, and `r` begins with none. */
  ghost predicate LeftStripped(t: string, r: string)
  {
    (r == "" || !IsSpace(r[0])) && exists a :: Blank(a) && t == a + r
  }

  ghost predicate RightStripped(t: string, r: string)
  {
    (r == "" || !IsSpace(r[|r| - 1])) && exists b :: Blank(b) && t == r + b
  }

  lemma {:induction false} LStripExact(t: string, r: string)
    ensures LStrip(t) == r <==> LeftStripped(t, r)
  {
    LStripStrips(t);
    if LeftStripped(t, r) {
      var a :| Blank(a) && t == a + r;
      LStripOnly(t, a, r);
    }
  }

  lemma {:induction false} LStripStrips(t: string)
    ensures LeftStripped(t, LStrip(t))
  {
    if t != "" && IsSpace(t[0]) {
      LStripStrips(t[1..]);
      var a :| Blank(a) && t[1..] == a + LStrip(t[1..]);
      assert t == [t[0]] + t[1..];
      assert t == ([t[0]] + a) + LStrip(t);
    } else {
      assert Blank("") && t == "" + t;
    }
  }

  lemma {:induction false} LStripOnly(t: string, a: string, r: string)
    requires Blank(a) && t == a + r && (r == "" || !IsSpace(r[0]))
    ensures LStrip(t) == r
  {
    if a != "" {
      assert t[1..] == a[1..] + r && IsSpace(a[0]);
      LStripOnly(t[1..], a[1..], r);
    }
  }

  lemma {:induction false} RStripStrips(t: string)
    ensures RightStripped(t, RStrip(t))
  {
    if t != "" && IsSpace(t[|t| - 1]) {
      var s := t[..|t| - 1];
      RStripStrips(s);
      var b :| Blank(b) && s == RStrip(s) + b;
      assert t == s + [t[|t| - 1]];
      assert t == RStrip(t) + (b + [t[|t| - 1]]);
    } else {
      assert Blank("") && t == t + "";
    }
  }

  lemma {:induction false} RStripOnly(t: string, b: string, r: string)
    requires Blank(b) && t == r + b && (r == "" || !IsSpace(r[|r| - 1]))
    ensures RStrip(t) == r
  {
    if b != "" {
      var last := |b| - 1;
      assert t[..|t| - 1] == r + b[..last] && t[|t| - 1] == b[last] && b[last] in b;
      RStripOnly(t[..|t| - 1], b[..last], r);
    }
  }

  /** An info string with the white space around it. */
  ghost predicate Around(t: string, info: string)
  {
    (info == "" || (!IsSpace(info[0]) && !IsSpace(info[|info| - 1])))
    && exists a, b :: Blank(a) && Blank(b) && t == a + (info + b)
  }

  lemma {:induction false} StripExact(t: string, info: string)
    ensures RStrip(LStrip(t)) == info <==> Around(t, info)
  {
    LStripStrips(t);
    var u := LStrip(t);
    RStripStrips(u);
    if RStrip(u) == info {
      var a :| Blank(a) && t == a + u;
      var b :| Blank(b) && u == info + b;
      assert info != "" ==> u[0] == info[0];
      assert t == a + (info + b);
    }
    if Around(t, info) {
      var a, b :| Blank(a) && Blank(b) && t == a + (info + b);
      if info == "" {
        assert t == (a + b) + "";
        BlankBoth(a, b);
        LStripOnly(t, a + b, "");
      } else {
        assert (info + b)[0] == info[0];
        LStripOnly(t, a, info + b);
        RStripOnly(info + b, b, info);
      }
    }
  }

  lemma {:induction false} BlankBoth(a: string, b: string)
    requires Blank(a) && Blank(b)
    ensures Blank(a + b)
  {
  }

  // --- fences ------------------------------------------------------------------------------

  lemma {:induction false} RunExact(t: string, c: char, n: nat)
    ensures RunLength(t, c) == n <==> n <= |t| && t[..n] == Repeat(c, n) && (n == |t| || t[n] != c)
  {
    RunIs(t, c);
    var r := RunLength(t, c);
    assert forall i :: 0 <= i < r ==> t[i] == t[..r][i];
    if n <= |t| && t[..n] == Repeat(c, n) {
      assert forall i :: 0 <= i < n ==> t[i] == t[..n][i];
    }
  }

  lemma {:induction false} RunIs(t: string, c: char)
    ensures var r := RunLength(t, c); t[..r] == Repeat(c, r) && (r == |t| || t[r] != c)
  {
    if t != "" && t[0] == c {
      RunIs(t[1..], c);
      var r := RunLength(t[1..], c);
      assert t[..r + 1] == [t[0]] + t[1..][..r];
    }
  }

  /** White space, at least three of one mark, then an info string with white space around it. */
  ghost predicate WritesFence(line: string, f: Fence)
  {
    f.ticks >= 3 && f.mark in "`~:"
    && exists indent, tail ::
         Blank(indent) && line == indent + (Repeat(f.mark, f.ticks) + tail) && (tail == "" || tail[0] != f.mark) && Around(tail, f.info)
  }

  lemma {:induction false} MarksSolid()
    ensures !IsSpace('`') && !IsSpace('~') && !IsSpace(':')
  {
  }

  /** A line is a fence exactly as it is written. */
  lemma {:induction false} FenceExact(line: string, f: Fence)
    ensures FenceOf(line) == Some(f) <==> WritesFence(line, f)
  {
    MarksSolid();
    if FenceOf(line) == Some(f) { FenceWritten(line, f); }
    if WritesFence(line, f) {
      var indent, tail :| Blank(indent) && line == indent + (Repeat(f.mark, f.ticks) + tail) && (tail == "" || tail[0] != f.mark)
        && Around(tail, f.info);
      var t := Repeat(f.mark, f.ticks) + tail;
      assert t[0] == f.mark && t[..f.ticks] == Repeat(f.mark, f.ticks) && t[f.ticks..] == tail;
      LStripOnly(line, indent, t);
      RunExact(t, f.mark, f.ticks);
      StripExact(tail, f.info);
      hide LStrip, RStrip, RunLength, Around, Repeat;
    }
  }

  lemma {:induction false} FenceWritten(line: string, f: Fence)
    requires FenceOf(line) == Some(f)
    ensures WritesFence(line, f)
  {
    var t := LStrip(line);
    LStripStrips(line);
    RunExact(t, t[0], f.ticks);
    StripExact(t[f.ticks..], f.info);
    var indent :| Blank(indent) && line == indent + t;
    hide LStrip, RStrip, RunLength, Around, Repeat, Blank;
    assert t == t[..f.ticks] + t[f.ticks..];
  }

  /** A closing fence: at least as many of the same mark, and nothing else but white space. */
  lemma {:induction false} ClosesExact(line: string, ticks: nat, mark: char)
    ensures FenceCloses(line, ticks, mark) <==>
      mark in "`~:" && exists n, indent, tail: string ::
        n >= ticks && n >= 3 && Blank(indent) && Blank(tail) && line == indent + (Repeat(mark, n) + tail)
  {
    MarksSolid();
    if FenceCloses(line, ticks, mark) {
      var f := FenceOf(line).value;
      FenceExact(line, f);
      var indent, tail :| Blank(indent) && line == indent + (Repeat(f.mark, f.ticks) + tail) && (tail == "" || tail[0] != f.mark)
        && Around(tail, f.info);
      AroundNothing(tail);
    }
    if mark in "`~:" {
      if n, indent, tail: string :| n >= ticks && n >= 3 && Blank(indent) && Blank(tail) && line == indent + (Repeat(mark, n) + tail) {
        AroundNothing(tail);
        assert tail != "" ==> tail[0] in tail;
        FenceExact(line, Fence(n, mark, ""));
      }
    }
    hide FenceOf, Repeat, Around, Blank;
  }

  lemma {:induction false} AroundNothing(t: string)
    ensures Around(t, "") <==> Blank(t)
  {
    if Blank(t) { assert t == t + ("" + "") && Blank(""); }
    if Around(t, "") {
      var a, b :| Blank(a) && Blank(b) && t == a + ("" + b);
      BlankBoth(a, b);
      assert t == a + b;
    }
  }

  /** Only spaces indent. */
  lemma {:induction false} IndentExact(t: string, n: nat)
    ensures Indent(t) == n <==> n <= |t| && t[..n] == Repeat(' ', n) && (n == |t| || t[n] != ' ')
  {
    RunExact(t, ' ', n);
    IndentRun(t);
  }

  lemma {:induction false} IndentRun(t: string)
    ensures Indent(t) == RunLength(t, ' ')
  {
    if t != "" && t[0] == ' ' { IndentRun(t[1..]); }
  }
}
