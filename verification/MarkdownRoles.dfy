/** What makes a line open, close or belong to something, over the lines of the page. */
module MarkdownRoles {
  import opened Texts
  import opened PageLines
  import opened RstScan
  import opened MarkdownSpec

  // --- one line ----------------------------------------------------------------------------

  /** The line goes on an indented run open before it. */
  predicate Continues(lines: seq<string>, n: nat)
    requires n < |lines|
  {
    StateAt(lines, n).run.Some? && (Blank(lines[n]) || Indent(lines[n]) >= 4)
  }

  /** The fence open around a line, if any. */
  function Around(lines: seq<string>, n: nat): Option<Opener>
    requires n <= |lines|
  {
    var stack := StateAt(lines, n).stack;
    if stack == [] then None else Some(stack[|stack| - 1])
  }

  /** The line is a closing fence of the innermost open one. */
  predicate EndsFence(lines: seq<string>, n: nat)
    requires n < |lines|
  {
    Around(lines, n).Some? && FenceCloses(lines[n], Around(lines, n).value.ticks, Around(lines, n).value.mark)
  }

  /** The line is a fence, and what it stands in is not literal. */
  predicate BeginsFence(lines: seq<string>, n: nat)
    requires n < |lines|
  {
    FenceOf(lines[n]).Some? && (Around(lines, n).None? || !Around(lines, n).value.literal)
  }

  /** Each role, and exactly which lines have it. */
  lemma {:induction false} RoleExact(lines: seq<string>, n: nat)
    requires n < |lines|
    ensures RoleAt(lines, n) == Closes <==> !Continues(lines, n) && EndsFence(lines, n)
    ensures RoleAt(lines, n) == Opens <==> !Continues(lines, n) && !EndsFence(lines, n) && BeginsFence(lines, n)
    ensures forall at: nat :: RoleAt(lines, n) == InFrame(at) <==>
      !Continues(lines, n) && !EndsFence(lines, n) && !BeginsFence(lines, n)
      && Around(lines, n).Some? && Around(lines, n).value.at == at
    ensures forall at: nat :: RoleAt(lines, n) == InRun(at) <==>
      !Blank(lines[n])
      && if Continues(lines, n) then StateAt(lines, n).run == Some(at)
         else at == n && Around(lines, n).None? && FenceOf(lines[n]).None? && StateAt(lines, n).prevBlank && Indent(lines[n]) >= 4
  {
    var s := StateAt(lines, n);
    OpenedExact(lines[n], false, n);
    if s.stack != [] { OpenedExact(lines[n], Top(s).suppressed, n); }
    hide StateAt, FenceOf, FenceCloses, Opened, Blank, Indent;
  }

  lemma {:induction false} OpenedExact(line: string, suppressed: bool, at: nat)
    ensures Opened(line, suppressed, at).Some? <==> FenceOf(line).Some?
  {
    hide FenceOf, FrameLang, IsLiteral;
  }

  // --- the state between lines -------------------------------------------------------------

  /** What opening a fence adds to those open: how it is written, what it holds, and whether it is shown as text. */
  lemma {:induction false} FrameExact(lines: seq<string>, n: nat)
    requires n < |lines| && RoleAt(lines, n) == Opens
    ensures var (o, f) := (FrameAt(lines, n), FenceOf(lines[n]));
      f.Some? && o.ticks == f.value.ticks && o.mark == f.value.mark && o.at == n
      && o.lang == FrameLang(f.value.info, f.value.mark) && o.literal == IsLiteral(f.value.info, o.lang)
      && (o.suppressed <==> o.lang in ["markdown", "md"] || (Around(lines, n).Some? && Around(lines, n).value.suppressed))
  {
    RoleExact(lines, n);
    FrameFields(lines, n);
    hide StateAt, FenceOf, FrameLang, IsLiteral;
  }

  lemma {:induction false} FrameFields(lines: seq<string>, n: nat)
    requires n < |lines| && RoleAt(lines, n) == Opens
    ensures Opened(lines[n], Around(lines, n).Some? && Around(lines, n).value.suppressed, n) == Some(FrameAt(lines, n))
  {
    var s := StateAt(lines, n);
    assert StateAt(lines, n + 1) == Step(lines[n], n, s).0;
    assert RoleAt(lines, n) == Step(lines[n], n, s).1;
    hide StateAt, FenceCloses, Opened, Blank, Indent;
  }

  /** The fences open after a line: one more, one fewer, or the same. */
  lemma {:induction false} StackExact(lines: seq<string>, n: nat)
    requires n < |lines|
    ensures var (before, after) := (StateAt(lines, n).stack, StateAt(lines, n + 1).stack);
      match RoleAt(lines, n)
      case Opens => after == before + [FrameAt(lines, n)]
      case Closes => before != [] && after == before[..|before| - 1]
      case _ => after == before
  {
    Turn(lines, n);
    hide StateAt, RoleAt;
    var after := StateAt(lines, n + 1).stack;
    if RoleAt(lines, n) == Opens { assert after == after[..|after| - 1] + [after[|after| - 1]]; }
  }

  /** The run open after a line, and whether an indented line there would begin one. */
  lemma {:induction false} RunExact(lines: seq<string>, n: nat)
    requires n < |lines|
    ensures forall at: nat :: StateAt(lines, n + 1).run == Some(at) <==>
      RoleAt(lines, n) == InRun(at) || (Blank(lines[n]) && StateAt(lines, n).run == Some(at))
    ensures StateAt(lines, n + 1).prevBlank <==>
      RoleAt(lines, n).InRun? || (Blank(lines[n]) && RoleAt(lines, n) == Outside)
    ensures StateAt(lines, 0) == State([], true, None)
  {
    StackHolds(lines, n);
    RunBlank(lines, n);
    var s := StateAt(lines, n);
    assert StateAt(lines, n + 1) == Step(lines[n], n, s).0 && RoleAt(lines, n) == Step(lines[n], n, s).1;
    BlankNoFence(lines[n]);
    hide StateAt, FenceCloses, FenceOf, Opened, Blank, Indent, WellStacked;
  }

  /** A run is open only after a line that could begin one. */
  lemma {:induction false} RunBlank(lines: seq<string>, n: nat)
    requires n <= |lines|
    ensures StateAt(lines, n).run.Some? ==> StateAt(lines, n).prevBlank && StateAt(lines, n).stack == []
  {
    if n > 0 {
      RunBlank(lines, n - 1);
      hide FenceCloses, Opened, Blank, Indent;
    }
  }

  lemma {:induction false} BlankNoFence(t: string)
    ensures Blank(t) ==> FenceOf(t).None? && forall at, suppressed :: Opened(t, suppressed, at).None?
  {
    StripBlank(t);
  }

  // --- over the page -----------------------------------------------------------------------

  /** Fences opened and not yet closed in the first `n` lines. */
  function Depth(lines: seq<string>, n: nat): int
    requires n <= |lines|
  {
    if n == 0 then 0
    else Depth(lines, n - 1) + (if RoleAt(lines, n - 1) == Opens then 1 else if RoleAt(lines, n - 1) == Closes then -1 else 0)
  }

  lemma {:induction false} DepthExact(lines: seq<string>, n: nat)
    requires n <= |lines|
    ensures |StateAt(lines, n).stack| == Depth(lines, n)
  {
    hide RoleAt, FrameAt, StateAt;
    if n == 0 {
      EmptyAtStart(lines);
    } else {
      DepthExact(lines, n - 1);
      StackExact(lines, n - 1);
    }
  }

  /** The page has been deeper than before line `at` ever since. */
  predicate DeeperSince(lines: seq<string>, at: nat, n: nat)
    requires at <= n <= |lines|
  {
    forall k :: at < k <= n ==> Depth(lines, k) > Depth(lines, at)
  }

  /** The fence opened at depth `j` and not gone back from since. */
  predicate OpenAt(lines: seq<string>, o: Opener, j: nat, n: nat)
    requires n <= |lines|
  {
    o.at < n && RoleAt(lines, o.at) == Opens && FrameAt(lines, o.at) == o && Depth(lines, o.at) == j && DeeperSince(lines, o.at, n)
  }

  lemma {:induction false} StillOpen(lines: seq<string>, o: Opener, j: nat, n: nat)
    requires 0 < n <= |lines| && OpenAt(lines, o, j, n - 1) && Depth(lines, n) > j
    ensures OpenAt(lines, o, j, n)
  {
    hide RoleAt, FrameAt, Depth;
  }

  lemma {:induction false} JustOpened(lines: seq<string>, n: nat)
    requires n < |lines| && RoleAt(lines, n) == Opens
    ensures OpenAt(lines, FrameAt(lines, n), |StateAt(lines, n).stack|, n + 1)
  {
    hide RoleAt, FrameAt, StateAt, FrameLang, IsLiteral, FenceOf, Around;
    FrameExact(lines, n);
    DepthExact(lines, n);
  }

  /** The open fences are, depth by depth, those opened there and not gone back from since. */
  lemma {:induction false} OpenExact(lines: seq<string>, n: nat, j: nat)
    requires n <= |lines| && j < |StateAt(lines, n).stack|
    ensures OpenAt(lines, StateAt(lines, n).stack[j], j, n)
  {
    hide *;
    if n == 0 {
      EmptyAtStart(lines);
    } else {
      var before, after := StateAt(lines, n - 1).stack, StateAt(lines, n).stack;
      StackExact(lines, n - 1);
      DepthExact(lines, n);
      if j < |before| {
        OpenExact(lines, n - 1, j);
        StillOpen(lines, before[j], j, n);
      } else {
        JustOpened(lines, n - 1);
      }
    }
  }

  lemma {:induction false} EmptyAtStart(lines: seq<string>)
    ensures StateAt(lines, 0).stack == []
  {
  }

  // --- the blocks --------------------------------------------------------------------------

  /** The lines of one role, each with its number. */
  lemma {:induction false} ClaimedExact(lines: seq<string>, role: Role, n: nat)
    requires n <= |lines|
    ensures forall x :: x in Claimed(lines, role, n) <==>
      1 <= x.no <= n && x.text == lines[x.no - 1] && RoleAt(lines, x.no - 1) == role
  {
    hide RoleAt;
    if n > 0 { ClaimedExact(lines, role, n - 1); }
  }

  /** The blocks that begin at a line: a fence's own lines, or those of the RST in it, or an indented run. */
  lemma {:induction false} ContributionExact(lines: seq<string>, at: nat)
    requires at < |lines|
    ensures RoleAt(lines, at) == Opens ==>
      var (o, body) := (FrameAt(lines, at), Claimed(lines, InFrame(at), |lines|));
      Contribution(lines, at) ==
        if o.suppressed then [] else if o.lang == "{eval-rst}" then BlocksFrom(body, 0) else [Block(o.lang, body)]
    ensures RoleAt(lines, at) == InRun(at) ==>
      Contribution(lines, at) == [Block("indented", Claimed(lines, InRun(at), |lines|))]
    ensures RoleAt(lines, at) != Opens && RoleAt(lines, at) != InRun(at) ==> Contribution(lines, at) == []
  {
    hide RoleAt, FrameAt, Claimed, BlocksFrom;
  }
}
