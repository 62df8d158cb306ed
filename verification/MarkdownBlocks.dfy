/** The Markdown walk, proved to find exactly the blocks its lines' roles say. */
module MarkdownBlocks {
  import opened Texts
  import opened PageLines
  import opened RstScan
  import opened MarkdownSpec
  import MarkdownLaws

  // --- frames and runs do not come back ----------------------------------------------------

  predicate Absent(stack: seq<Opener>, k: nat) { forall o :: o in stack ==> o.at != k }

  lemma {:induction false} GoneFrame(lines: seq<string>, k: nat, i: nat, j: nat)
    requires k < i <= j <= |lines| && Absent(StateAt(lines, i).stack, k)
    ensures Absent(StateAt(lines, j).stack, k)
    ensures Claimed(lines, InFrame(k), j) == Claimed(lines, InFrame(k), i)
    decreases j
  {
    hide StateAt, RoleAt;
    if i < j {
      GoneFrame(lines, k, i, j - 1);
      Turn(lines, j - 1);
      var s, t := StateAt(lines, j - 1), StateAt(lines, j);
      if RoleAt(lines, j - 1) == Opens { assert t.stack == s.stack + [Top(t)]; }
    }
  }

  lemma {:induction false} GoneRun(lines: seq<string>, k: nat, i: nat, j: nat)
    requires k < i <= j <= |lines| && StateAt(lines, i).run != Some(k)
    ensures StateAt(lines, j).run != Some(k)
    ensures Claimed(lines, InRun(k), j) == Claimed(lines, InRun(k), i)
    decreases j
  {
    hide StateAt, RoleAt;
    if i < j {
      GoneRun(lines, k, i, j - 1);
      Turn(lines, j - 1);
    }
  }

  /** Nothing belongs to a fence before the line after it opens. */
  lemma {:induction false} NoEarlyFrame(lines: seq<string>, k: nat, n: nat)
    requires n <= |lines| && n <= k + 1
    ensures Claimed(lines, InFrame(k), n) == []
    decreases n
  {
    hide StateAt, RoleAt;
    if n > 0 {
      NoEarlyFrame(lines, k, n - 1);
      Turn(lines, n - 1);
      StackHolds(lines, n - 1);
      var s := StateAt(lines, n - 1);
      assert s.stack != [] ==> OpenedBefore(lines, Top(s), n - 1);
    }
  }

  lemma {:induction false} NoEarlyRun(lines: seq<string>, k: nat, n: nat)
    requires n <= |lines| && n <= k
    ensures Claimed(lines, InRun(k), n) == []
    decreases n
  {
    hide StateAt, RoleAt;
    if n > 0 {
      NoEarlyRun(lines, k, n - 1);
      Turn(lines, n - 1);
      StackHolds(lines, n - 1);
    }
  }

  // --- the walk ----------------------------------------------------------------------------

  /** An open fence with the lines it has so far. */
  datatype Frame = Frame(opener: Opener, body: seq<Numbered>)

  function Openers(stack: seq<Frame>): (r: seq<Opener>)
    ensures |r| == |stack| && forall i :: 0 <= i < |r| ==> r[i] == stack[i].opener
  {
    if stack == [] then [] else Openers(stack[..|stack| - 1]) + [stack[|stack| - 1].opener]
  }

  /** What the open fences will contribute. */
  function Pending(lines: seq<string>, stack: seq<Opener>): multiset<Block>
  {
    if stack == [] then multiset{}
    else
      var last := stack[|stack| - 1].at;
      Pending(lines, stack[..|stack| - 1]) + (if last < |lines| then multiset(Contribution(lines, last)) else multiset{})
  }

  /** The frames hold the claimed lines so far. */
  ghost predicate Bodies(lines: seq<string>, i: nat, stack: seq<Frame>)
    requires i <= |lines|
  {
    forall f :: f in stack ==> f.body == Claimed(lines, InFrame(f.opener.at), i)
  }

  /** The walk's variables agree with the specification before line `i`; an indented run is over. */
  ghost predicate Tracks(lines: seq<string>, i: nat, stack: seq<Frame>, prevBlank: bool)
    requires i <= |lines|
  {
    var s := StateAt(lines, i);
    Openers(stack) == s.stack && prevBlank == s.prevBlank && Bodies(lines, i, stack)
    && (s.run.Some? && i < |lines| ==> !Indented(lines[i]))
  }

  /** The blocks found and still open are those that begin before line `i`. */
  ghost predicate Accounted(lines: seq<string>, i: nat, stack: seq<Frame>, blocks: seq<Block>)
    requires i <= |lines|
  {
    multiset(blocks) + Pending(lines, Openers(stack)) == multiset(Contributions(lines, i))
  }

  lemma {:induction false} InFrameOnly(lines: seq<string>, i: nat, stack: seq<Frame>, f: Frame)
    requires i < |lines| && Openers(stack) == StateAt(lines, i).stack && f in stack
    requires f.body == Claimed(lines, InFrame(f.opener.at), i)
    ensures RoleAt(lines, i) == InFrame(f.opener.at) <==> (RoleAt(lines, i).InFrame? && f == stack[|stack| - 1])
    ensures Claimed(lines, InFrame(f.opener.at), i + 1) ==
      f.body + (if RoleAt(lines, i) == InFrame(f.opener.at) then [Numbered(i + 1, lines[i])] else [])
  {
    hide StateAt, RoleAt;
    Turn(lines, i);
    StackHolds(lines, i);
    var s := StateAt(lines, i);
    var k :| 0 <= k < |stack| && stack[k] == f;
    assert s.stack[k] == f.opener;
    assert k < |stack| - 1 ==> s.stack[k].at < s.stack[|stack| - 1].at;
    if f == stack[|stack| - 1] { assert Top(s).at == f.opener.at; }
    if RoleAt(lines, i) == InFrame(f.opener.at) { assert k == |stack| - 1; }
  }

  // --- one turn of the walk ----------------------------------------------------------------

  lemma {:induction false} OpenersPush(stack: seq<Frame>, f: Frame)
    ensures Openers(stack + [f]) == Openers(stack) + [f.opener]
  {
    assert (stack + [f])[..|stack|] == stack;
  }

  lemma {:induction false} OpenersPop(stack: seq<Frame>)
    requires stack != []
    ensures Openers(stack[..|stack| - 1]) == Openers(stack)[..|stack| - 1]
  {
  }

  lemma {:induction false} PendingPush(lines: seq<string>, stack: seq<Opener>, o: Opener)
    requires o.at < |lines|
    ensures Pending(lines, stack + [o]) == Pending(lines, stack) + multiset(Contribution(lines, o.at))
  {
    assert (stack + [o])[..|stack|] == stack;
  }

  lemma {:induction false} OpensTurn(lines: seq<string>, i: nat, stack: seq<Frame>, prevBlank: bool, blocks: seq<Block>, o: Opener)
    requires i < |lines| && Tracks(lines, i, stack, prevBlank) && Accounted(lines, i, stack, blocks)
    requires RoleAt(lines, i) == Opens && StateAt(lines, i + 1) == State(Openers(stack) + [o], false, None)
    ensures Tracks(lines, i + 1, stack + [Frame(o, [])], false)
    ensures Accounted(lines, i + 1, stack + [Frame(o, [])], blocks)
  {
    hide StateAt, RoleAt, Contribution, Claimed, Indented, Openers, Pending;
    Turn(lines, i);
    OpenersPush(stack, Frame(o, []));
    PendingPush(lines, Openers(stack), o);
    assert o == Top(StateAt(lines, i + 1)) && o.at == i;
    NoEarlyFrame(lines, i, i + 1);
    forall f | f in stack ensures f.body == Claimed(lines, InFrame(f.opener.at), i + 1) { InFrameOnly(lines, i, stack, f); }
  }

  lemma {:induction false} PoppedAbsent(stack: seq<Opener>)
    requires stack != [] && InOrder(stack)
    ensures Absent(stack[..|stack| - 1], stack[|stack| - 1].at)
  {
  }

  lemma {:induction false} ClosedBody(lines: seq<string>, i: nat, stack: seq<Frame>, prevBlank: bool)
    requires i < |lines| && Tracks(lines, i, stack, prevBlank) && RoleAt(lines, i) == Closes
    ensures stack != []
    ensures var f := stack[|stack| - 1];
      f.opener.at < i && Contribution(lines, f.opener.at) == FrameBlocks(f.opener, f.body)
  {
    hide StateAt, FrameBlocks, Indented, Claimed;
    Turn(lines, i);
    StackHolds(lines, i);
    var s, f := StateAt(lines, i), stack[|stack| - 1];
    var k := f.opener.at;
    assert OpenedBefore(lines, f.opener, i) by { assert s.stack[|s.stack| - 1] in s.stack; }
    InFrameOnly(lines, i, stack, f);
    assert f.body + [] == f.body;
    PoppedAbsent(s.stack);
    GoneFrame(lines, k, i + 1, |lines|);
  }

  lemma {:induction false} PendingPop(lines: seq<string>, stack: seq<Opener>)
    requires stack != [] && stack[|stack| - 1].at < |lines|
    ensures Pending(lines, stack) ==
      Pending(lines, stack[..|stack| - 1]) + multiset(Contribution(lines, stack[|stack| - 1].at))
  {
    hide Contribution;
  }

  lemma {:induction false} ClosesTurn(lines: seq<string>, i: nat, stack: seq<Frame>, prevBlank: bool, blocks: seq<Block>, more: seq<Block>)
    requires i < |lines| && Tracks(lines, i, stack, prevBlank) && Accounted(lines, i, stack, blocks)
    requires RoleAt(lines, i) == Closes && stack != []
    requires more == FrameBlocks(stack[|stack| - 1].opener, stack[|stack| - 1].body)
    ensures Tracks(lines, i + 1, stack[..|stack| - 1], false)
    ensures Accounted(lines, i + 1, stack[..|stack| - 1], blocks + more)
  {
    ClosedBody(lines, i, stack, prevBlank);
    var rest := stack[..|stack| - 1];
    OpenersPop(stack);
    Turn(lines, i);
    NoContribution(lines, i);
    PendingPop(lines, Openers(stack));
    hide StateAt, RoleAt, Contribution, Contributions, Claimed, Indented, FrameBlocks, Pending, Openers;
    forall f | f in rest ensures f.body == Claimed(lines, InFrame(f.opener.at), i + 1) { InFrameOnly(lines, i, stack, f); }
    assert multiset(blocks + more) == multiset(blocks) + multiset(more);
  }

  /** Only a line that opens a fence or begins a run begins a block. */
  lemma {:induction false} NoContribution(lines: seq<string>, i: nat)
    requires i < |lines| && RoleAt(lines, i) != Opens && RoleAt(lines, i) != InRun(i)
    ensures Contributions(lines, i + 1) == Contributions(lines, i)
  {
    hide RoleAt;
  }

  lemma {:induction false} InsideTurn(lines: seq<string>, i: nat, stack: seq<Frame>, prevBlank: bool, blocks: seq<Block>)
    requires i < |lines| && Tracks(lines, i, stack, prevBlank) && Accounted(lines, i, stack, blocks)
    requires stack != [] && RoleAt(lines, i) == InFrame(stack[|stack| - 1].opener.at) && !StateAt(lines, i + 1).prevBlank
    ensures var top := stack[|stack| - 1];
      var now := stack[..|stack| - 1] + [Frame(top.opener, top.body + [Numbered(i + 1, lines[i])])];
      Tracks(lines, i + 1, now, false) && Accounted(lines, i + 1, now, blocks)
  {
    Turn(lines, i);
    NoContribution(lines, i);
    hide StateAt, RoleAt, Contribution, Claimed, Indented, Contributions, Pending;
    var rest, top := stack[..|stack| - 1], stack[|stack| - 1];
    var now := rest + [Frame(top.opener, top.body + [Numbered(i + 1, lines[i])])];
    assert Openers(now) == Openers(stack);
    forall f | f in stack ensures Claimed(lines, InFrame(f.opener.at), i + 1) ==
      f.body + (if RoleAt(lines, i) == InFrame(f.opener.at) then [Numbered(i + 1, lines[i])] else [])
    {
      InFrameOnly(lines, i, stack, f);
    }
    LaterFrames(lines, i, stack);
  }

  lemma {:induction false} LaterFrames(lines: seq<string>, i: nat, stack: seq<Frame>)
    requires i < |lines| && stack != [] && Openers(stack) == StateAt(lines, i).stack
    ensures forall f :: f in stack[..|stack| - 1] ==> f.opener.at != stack[|stack| - 1].opener.at
  {
    StackHolds(lines, i);
    hide StateAt, RoleAt;
    forall k | 0 <= k < |stack| - 1 ensures stack[k].opener.at != stack[|stack| - 1].opener.at {
      assert Openers(stack)[k].at < Openers(stack)[|stack| - 1].at;
    }
  }

  lemma {:induction false} StepHere(lines: seq<string>, i: nat)
    requires i < |lines| && (StateAt(lines, i).run.Some? ==> !Indented(lines[i]))
    ensures var s := StateAt(lines, i);
      (StateAt(lines, i + 1), RoleAt(lines, i)) ==
      if s.stack != [] then StepInside(lines[i], i, s) else StepOutside(lines[i], i, s)
  {
    hide StepInside, StepOutside;
  }

  // --- runs --------------------------------------------------------------------------------

  lemma {:induction false} StepInRun(lines: seq<string>, i: nat)
    requires i < |lines| && StateAt(lines, i).run.Some? && Indented(lines[i])
    ensures StateAt(lines, i + 1) == StateAt(lines, i)
    ensures RoleAt(lines, i) == if Blank(lines[i]) then Outside else InRun(StateAt(lines, i).run.value)
  {
    hide StepInside, StepOutside;
  }

  lemma {:induction false} InRunTurn(lines: seq<string>, start: nat, i: nat, body: seq<Numbered>)
    requires start < i < |lines| && StateAt(lines, i) == State([], true, Some(start)) && Indented(lines[i])
    requires body == Claimed(lines, InRun(start), i)
    ensures StateAt(lines, i + 1) == State([], true, Some(start)) && Contributions(lines, i + 1) == Contributions(lines, i)
    ensures Claimed(lines, InRun(start), i + 1) == if Blank(lines[i]) then body else body + [Numbered(i + 1, lines[i])]
  {
    StepInRun(lines, i);
    NoContribution(lines, i);
    hide StateAt, RoleAt, Blank, Indented, Contributions;
  }

  lemma {:induction false} RunBegins(lines: seq<string>, start: nat)
    requires start < |lines| && RoleAt(lines, start) == InRun(start)
    ensures Claimed(lines, InRun(start), start + 1) == [Numbered(start + 1, lines[start])]
    ensures Contributions(lines, start + 1) ==
      Contributions(lines, start) + [Block("indented", Claimed(lines, InRun(start), |lines|))]
  {
    NoEarlyRun(lines, start, start);
    hide RoleAt;
  }

  /** The inner loop: the rest of an indented run. */
  method ReadRun(lines: seq<string>, start: nat) returns (body: seq<Numbered>, next: nat)
    requires start < |lines| && RoleAt(lines, start) == InRun(start)
    requires StateAt(lines, start + 1) == State([], true, Some(start))
    ensures start < next <= |lines| && StateAt(lines, next) == State([], true, Some(start))
    ensures next < |lines| ==> !Indented(lines[next])
    ensures body == Claimed(lines, InRun(start), |lines|)
    ensures Contributions(lines, next) == Contributions(lines, start) + [Block("indented", body)]
  {
    hide *;
    body, next := [Numbered(start + 1, lines[start])], start + 1;
    RunBegins(lines, start);
    while next < |lines| && Indented(lines[next])
      invariant start < next <= |lines| && StateAt(lines, next) == State([], true, Some(start))
      invariant body == Claimed(lines, InRun(start), next)
      invariant Contributions(lines, next) == Contributions(lines, start + 1)
    {
      InRunTurn(lines, start, next, body);
      if !Blank(lines[next]) {
        body := body + [Numbered(next + 1, lines[next])];
      }
      next := next + 1;
    }
    if next < |lines| {
      RunEnds(lines, next, start);
      GoneRun(lines, start, next + 1, |lines|);
      NotClaimed(lines, InRun(start), next);
    }
  }

  lemma {:induction false} NotClaimed(lines: seq<string>, role: Role, i: nat)
    requires i < |lines| && RoleAt(lines, i) != role
    ensures Claimed(lines, role, i + 1) == Claimed(lines, role, i)
  {
    hide RoleAt;
  }

  lemma {:induction false} RunEnds(lines: seq<string>, i: nat, start: nat)
    requires start < i < |lines| && StateAt(lines, i) == State([], true, Some(start)) && !Indented(lines[i])
    ensures StateAt(lines, i + 1).run != Some(start) && RoleAt(lines, i) != InRun(start)
  {
    StepHere(lines, i);
    hide StateAt, RoleAt, Blank, Indent;
  }

  // --- the page ----------------------------------------------------------------------------

  /** `_close_frame` */
  method CloseFrame(frame: Frame) returns (blocks: seq<Block>)
    ensures blocks == FrameBlocks(frame.opener, frame.body)
  {
    if frame.opener.suppressed {
      return [];
    }
    if frame.opener.lang == "{eval-rst}" {
      blocks := Scan(frame.body);
    } else {
      blocks := [Block(frame.opener.lang, frame.body)];
    }
  }

  /** At the end of the page an open fence's block is what it holds. */
  lemma {:induction false} EndBody(lines: seq<string>, stack: seq<Frame>)
    requires stack != [] && Openers(stack) <= StateAt(lines, |lines|).stack && Bodies(lines, |lines|, stack)
    ensures var f := stack[|stack| - 1];
      f.opener.at < |lines| && Contribution(lines, f.opener.at) == FrameBlocks(f.opener, f.body)
  {
    StackHolds(lines, |lines|);
    var f := stack[|stack| - 1];
    Inside(stack, StateAt(lines, |lines|).stack);
    hide StateAt, FrameBlocks, Claimed, RoleAt, FrameAt, Openers, InOrder;
    assert OpenedBefore(lines, f.opener, |lines|);
    assert f in stack;
  }

  lemma {:induction false} Inside(stack: seq<Frame>, whole: seq<Opener>)
    requires stack != [] && Openers(stack) <= whole
    ensures stack[|stack| - 1].opener in whole
  {
    assert Openers(stack)[|stack| - 1] == whole[|stack| - 1];
  }

  /** The last loop: fences still open run to the end of the page. */
  method CloseAll(lines: seq<string>, open: seq<Frame>, found: seq<Block>) returns (blocks: seq<Block>)
    requires Openers(open) == StateAt(lines, |lines|).stack && Bodies(lines, |lines|, open)
    requires Accounted(lines, |lines|, open, found)
    ensures multiset(blocks) == multiset(Contributions(lines, |lines|))
  {
    hide *;
    var stack := open;
    blocks := found;
    while stack != []
      invariant Openers(stack) <= StateAt(lines, |lines|).stack && Bodies(lines, |lines|, stack)
      invariant Accounted(lines, |lines|, stack, blocks)
    {
      var more := CloseFrame(stack[|stack| - 1]);
      EndTurn(lines, stack, blocks, more);
      blocks, stack := blocks + more, stack[..|stack| - 1];
    }
    AllAccounted(lines, blocks);
  }

  lemma {:induction false} EndTurn(lines: seq<string>, stack: seq<Frame>, blocks: seq<Block>, more: seq<Block>)
    requires stack != [] && Openers(stack) <= StateAt(lines, |lines|).stack && Bodies(lines, |lines|, stack)
    requires Accounted(lines, |lines|, stack, blocks)
    requires more == FrameBlocks(stack[|stack| - 1].opener, stack[|stack| - 1].body)
    ensures Openers(stack[..|stack| - 1]) <= StateAt(lines, |lines|).stack && Bodies(lines, |lines|, stack[..|stack| - 1])
    ensures Accounted(lines, |lines|, stack[..|stack| - 1], blocks + more)
  {
    EndBody(lines, stack);
    OpenersPop(stack);
    PendingPop(lines, Openers(stack));
    hide StateAt, Contribution, Contributions, Claimed, FrameBlocks, Pending, Openers;
    assert multiset(blocks + more) == multiset(blocks) + multiset(more);
  }

  lemma {:induction false} AllAccounted(lines: seq<string>, blocks: seq<Block>)
    requires Accounted(lines, |lines|, [], blocks)
    ensures multiset(blocks) == multiset(Contributions(lines, |lines|))
  {
  }

  /** What the walk's tests say of a line inside a fence. */
  lemma {:induction false} InsideCase(lines: seq<string>, i: nat, stack: seq<Frame>, prevBlank: bool)
    requires i < |lines| && Tracks(lines, i, stack, prevBlank) && stack != []
    ensures var top := stack[|stack| - 1].opener;
      if FenceCloses(lines[i], top.ticks, top.mark) then RoleAt(lines, i) == Closes
      else
        var frame := if top.literal then None else Opened(lines[i], top.suppressed, i);
        if frame.Some?
        then RoleAt(lines, i) == Opens && StateAt(lines, i + 1) == State(Openers(stack) + [frame.value], false, None)
        else RoleAt(lines, i) == InFrame(top.at) && !StateAt(lines, i + 1).prevBlank
  {
    StepHere(lines, i);
    hide StateAt, RoleAt, FenceCloses, Opened, Indented, Bodies;
    assert Openers(stack)[|stack| - 1] == stack[|stack| - 1].opener;
  }

  /** What the walk's tests say of a line outside any fence. */
  lemma {:induction false} OutsideCase(lines: seq<string>, i: nat, prevBlank: bool)
    requires i < |lines| && Tracks(lines, i, [], prevBlank)
    ensures var frame := Opened(lines[i], false, i);
      if frame.Some? then RoleAt(lines, i) == Opens && StateAt(lines, i + 1) == State(Openers([]) + [frame.value], false, None)
      else if prevBlank && !Blank(lines[i]) && Indent(lines[i]) >= 4
      then RoleAt(lines, i) == InRun(i) && StateAt(lines, i + 1) == State([], true, Some(i))
      else RoleAt(lines, i) == Outside && StateAt(lines, i + 1) == State([], Blank(lines[i]), None)
  {
    StepHere(lines, i);
    hide StateAt, RoleAt, Opened, Indent, Blank, Bodies;
  }

  /** The walk down the page: what it collects, in the order the blocks start. */
  method FindBlocks(lines: seq<string>) returns (result: seq<Block>)
    ensures SortedByStart(result)
    ensures forall i, j :: 0 <= i < j < |result| && result[i].lines != [] ==>
      result[j].lines != [] && result[i].lines[0].no <= result[j].lines[0].no
    ensures multiset(result) == multiset(Contributions(lines, |lines|))
    ensures forall b :: b in result ==> Increasing(b.lines, 0, |lines|) && MarkdownLaws.FromPage(lines, b.lines)
    ensures forall at :: 0 <= at < |lines| ==> MarkdownLaws.UsedRight(lines, at, result)
  {
    hide *;
    var blocks: seq<Block>, i, prevBlank := [], 0, true;
    var stack: seq<Frame> := [];
    WalkStarts(lines);
    while i < |lines|
      invariant i <= |lines| && Tracks(lines, i, stack, prevBlank) && Accounted(lines, i, stack, blocks)
    {
      var line := lines[i];
      if stack != [] {
        InsideCase(lines, i, stack, prevBlank);
        var top := stack[|stack| - 1];
        if FenceCloses(line, top.opener.ticks, top.opener.mark) {
          var more := CloseFrame(top);
          ClosesTurn(lines, i, stack, prevBlank, blocks, more);
          blocks, stack := blocks + more, stack[..|stack| - 1];
        } else {
          var frame := if top.opener.literal then None else Opened(line, top.opener.suppressed, i);
          if frame.Some? {
            OpensTurn(lines, i, stack, prevBlank, blocks, frame.value);
            stack := stack + [Frame(frame.value, [])];
          } else {
            InsideTurn(lines, i, stack, prevBlank, blocks);
            stack := stack[..|stack| - 1] + [Frame(top.opener, top.body + [Numbered(i + 1, line)])];
          }
        }
        i, prevBlank := i + 1, false;
      } else {
        OutsideCase(lines, i, prevBlank);
        var frame := Opened(line, false, i);
        if frame.Some? {
          OpensTurn(lines, i, [], prevBlank, blocks, frame.value);
          stack := [] + [Frame(frame.value, [])];
          i, prevBlank := i + 1, false;
        } else if prevBlank && !Blank(line) && Indent(line) >= 4 {
          var body, next := ReadRun(lines, i);
          RunTurn(lines, i, next, blocks, body);
          blocks, i, prevBlank := blocks + [Block("indented", body)], next, true;
        } else {
          OutsideTurn(lines, i, blocks);
          i, prevBlank := i + 1, Blank(line);
        }
      }
    }
    TracksEnd(lines, stack, prevBlank);
    blocks := CloseAll(lines, stack, blocks);
    SortBlocksSorts(blocks);
    result := SortBlocks(blocks);
    MarkdownLaws.PageBlocks(lines, result);
    assert SortedByStart(result);
    SortedExact(result);
    forall b | b in result && b.lines != [] ensures b.lines[0].no > 0 { FirstPositive(lines, b); }
    forall i, j | 0 <= i < j < |result| && result[i].lines != []
      ensures result[j].lines != [] && result[i].lines[0].no <= result[j].lines[0].no
    {
      assert result[i] in result;
    }
  }

  lemma {:induction false} FirstPositive(lines: seq<string>, b: Block)
    requires Increasing(b.lines, 0, |lines|) && b.lines != []
    ensures b.lines[0].no > 0
  {
  }

  lemma {:induction false} TracksEnd(lines: seq<string>, stack: seq<Frame>, prevBlank: bool)
    requires Tracks(lines, |lines|, stack, prevBlank)
    ensures Openers(stack) == StateAt(lines, |lines|).stack && Bodies(lines, |lines|, stack)
  {
  }

  lemma {:induction false} WalkStarts(lines: seq<string>)
    ensures Tracks(lines, 0, [], true) && Accounted(lines, 0, [], [])
  {
  }

  lemma {:induction false} RunTurn(lines: seq<string>, i: nat, next: nat, blocks: seq<Block>, body: seq<Numbered>)
    requires i < next <= |lines| && Accounted(lines, i, [], blocks)
    requires StateAt(lines, next) == State([], true, Some(i)) && (next < |lines| ==> !Indented(lines[next]))
    requires Contributions(lines, next) == Contributions(lines, i) + [Block("indented", body)]
    ensures Tracks(lines, next, [], true) && Accounted(lines, next, [], blocks + [Block("indented", body)])
  {
    hide StateAt, Contributions, Claimed, Indented;
  }

  lemma {:induction false} OutsideTurn(lines: seq<string>, i: nat, blocks: seq<Block>)
    requires i < |lines| && Accounted(lines, i, [], blocks) && RoleAt(lines, i) == Outside
    requires StateAt(lines, i + 1) == State([], Blank(lines[i]), None)
    ensures Tracks(lines, i + 1, [], Blank(lines[i])) && Accounted(lines, i + 1, [], blocks)
  {
    NoContribution(lines, i);
    hide StateAt, RoleAt, Contributions, Claimed, Indented, Blank;
  }
}
