/** What each line of a Markdown page is to the fence stack, and the blocks that follow from it. */
module MarkdownSpec {
  import opened Texts
  import opened PageLines
  import opened RstScan

  /** An open fence: how it is written, what it holds, and the index of the line that opened it. */
  datatype Opener = Opener(ticks: nat, mark: char, lang: string, literal: bool, suppressed: bool, at: nat)

  /** The open fences, innermost last; whether the line before was blank; the indented run being read. */
  datatype State = State(stack: seq<Opener>, prevBlank: bool, run: Option<nat>)

  /** What a line is: it opens or closes a fence, belongs to the fence or the indented run opened at an
      index, or is none of a code block's. */
  datatype Role = Opens | Closes | InFrame(at: nat) | InRun(at: nat) | Outside

  function Opened(line: string, suppressed: bool, at: nat): Option<Opener>
  {
    match FenceOf(line)
    case None => None
    case Some(f) =>
      var lang := FrameLang(f.info, f.mark);
      Some(Opener(f.ticks, f.mark, lang, IsLiteral(f.info, lang), suppressed || IsDisplay(lang), at))
  }

  /** A line an indented run goes on over. */
  predicate Indented(line: string) { Blank(line) || Indent(line) >= 4 }

  function Top(s: State): Opener
    requires s.stack != []
  {
    s.stack[|s.stack| - 1]
  }

  function Popped(s: State): State
    requires s.stack != []
  {
    State(s.stack[..|s.stack| - 1], false, None)
  }

  /** A line while some fence is open. */
  function StepInside(line: string, at: nat, s: State): (State, Role)
    requires s.stack != []
  {
    var top := Top(s);
    if FenceCloses(line, top.ticks, top.mark) then (Popped(s), Closes)
    else
      var frame := if top.literal then None else Opened(line, top.suppressed, at);
      if frame.Some? then (State(s.stack + [frame.value], false, None), Opens)
      else (State(s.stack, false, None), InFrame(top.at))
  }

  /** A line while no fence is open. */
  function StepOutside(line: string, at: nat, s: State): (State, Role)
  {
    var frame := Opened(line, false, at);
    if frame.Some? then (State([frame.value], false, None), Opens)
    else if s.prevBlank && !Blank(line) && Indent(line) >= 4 then (State([], true, Some(at)), InRun(at))
    else (State([], Blank(line), None), Outside)
  }

  function Step(line: string, at: nat, s: State): (State, Role)
  {
    if s.run.Some? && Indented(line) then (s, if Blank(line) then Outside else InRun(s.run.value))
    else if s.stack != [] then StepInside(line, at, s)
    else StepOutside(line, at, s)
  }

  /** The state before line `n`. */
  function StateAt(lines: seq<string>, n: nat): State
    requires n <= |lines|
  {
    if n == 0 then State([], true, None) else Step(lines[n - 1], n - 1, StateAt(lines, n - 1)).0
  }

  function RoleAt(lines: seq<string>, at: nat): Role
    requires at < |lines|
  {
    Step(lines[at], at, StateAt(lines, at)).1
  }

  /** The first `n` lines' members of a frame or a run. */
  function Claimed(lines: seq<string>, role: Role, n: nat): seq<Numbered>
    requires n <= |lines|
  {
    if n == 0 then []
    else
      Claimed(lines, role, n - 1) + (if RoleAt(lines, n - 1) == role then [Numbered(n, lines[n - 1])] else [])
  }

  /** The fence line `at` opens. */
  function FrameAt(lines: seq<string>, at: nat): Opener
    requires at < |lines| && RoleAt(lines, at) == Opens
  {
    Top(StateAt(lines, at + 1))
  }

  /** The blocks of a finished fence. */
  function FrameBlocks(o: Opener, body: seq<Numbered>): seq<Block>
  {
    if o.suppressed then []
    else if o.lang == "{eval-rst}" then BlocksFrom(body, 0)
    else [Block(o.lang, body)]
  }

  /** The blocks that begin at line `at`. */
  function Contribution(lines: seq<string>, at: nat): seq<Block>
    requires at < |lines|
  {
    var role := RoleAt(lines, at);
    if role == Opens then FrameBlocks(FrameAt(lines, at), Claimed(lines, InFrame(at), |lines|))
    else if role == InRun(at) then [Block("indented", Claimed(lines, InRun(at), |lines|))]
    else []
  }

  /** The blocks that begin in the first `n` lines. */
  function Contributions(lines: seq<string>, n: nat): seq<Block>
    requires n <= |lines|
  {
    if n == 0 then [] else Contributions(lines, n - 1) + Contribution(lines, n - 1)
  }

  // --- sorting -----------------------------------------------------------------------------

  function StartOf(b: Block): nat { if b.lines == [] then 0 else b.lines[0].no }

  predicate SortedByStart(blocks: seq<Block>)
  {
    forall i, j :: 0 <= i < j < |blocks| ==> StartOf(blocks[i]) <= StartOf(blocks[j])
  }

  function InsertBlock(b: Block, blocks: seq<Block>): seq<Block>
  {
    if blocks == [] then [b]
    else if StartOf(b) <= StartOf(blocks[0]) then [b] + blocks
    else [blocks[0]] + InsertBlock(b, blocks[1..])
  }

  /** `sorted(blocks, key=_block_start)` */
  function SortBlocks(blocks: seq<Block>): seq<Block>
  {
    if blocks == [] then [] else InsertBlock(blocks[0], SortBlocks(blocks[1..]))
  }

  lemma {:induction false} InsertKeeps(b: Block, blocks: seq<Block>)
    ensures multiset(InsertBlock(b, blocks)) == multiset{b} + multiset(blocks)
  {
    hide StartOf;
    if blocks != [] {
      assert blocks == [blocks[0]] + blocks[1..];
      InsertKeeps(b, blocks[1..]);
    }
  }

  lemma {:induction false} Prepended(b: Block, blocks: seq<Block>)
    requires SortedByStart(blocks) && forall x :: x in blocks ==> StartOf(b) <= StartOf(x)
    ensures SortedByStart([b] + blocks)
  {
    hide StartOf;
    var all := [b] + blocks;
    forall i, j | 0 <= i < j < |all| ensures StartOf(all[i]) <= StartOf(all[j]) {
      assert all[j] == blocks[j - 1] && all[j] in blocks;
      if i > 0 { assert all[i] == blocks[i - 1]; }
    }
  }

  lemma {:induction false} SortedParts(blocks: seq<Block>)
    requires SortedByStart(blocks) && blocks != []
    ensures SortedByStart(blocks[1..]) && forall x :: x in blocks ==> StartOf(blocks[0]) <= StartOf(x)
  {
    hide StartOf;
    var rest := blocks[1..];
    forall i, j | 0 <= i < j < |rest| ensures StartOf(rest[i]) <= StartOf(rest[j]) {
      assert rest[i] == blocks[i + 1] && rest[j] == blocks[j + 1];
    }
    forall k | 0 <= k < |blocks| ensures StartOf(blocks[0]) <= StartOf(blocks[k]) {
    }
  }

  lemma {:induction false} InsertSorts(b: Block, blocks: seq<Block>)
    requires SortedByStart(blocks)
    ensures SortedByStart(InsertBlock(b, blocks))
  {
    hide StartOf, SortedByStart;
    if blocks == [] {
      OneSorted(b);
    } else {
      SortedParts(blocks);
      if StartOf(b) <= StartOf(blocks[0]) {
        Prepended(b, blocks);
      } else {
        InsertSorts(b, blocks[1..]);
        InsertKeeps(b, blocks[1..]);
        forall x | x in InsertBlock(b, blocks[1..]) ensures StartOf(blocks[0]) <= StartOf(x) {
          assert x in multiset(InsertBlock(b, blocks[1..]));
          assert x != b ==> x in blocks[1..];
        }
        Prepended(blocks[0], InsertBlock(b, blocks[1..]));
      }
    }
  }

  lemma {:induction false} OneSorted(b: Block)
    ensures SortedByStart([]) && SortedByStart([b])
  {
  }

  /** The blocks whose first line is `no`, in order. */
  function StartingAt(blocks: seq<Block>, no: nat): seq<Block>
  {
    if blocks == [] then []
    else (if StartOf(blocks[0]) == no then [blocks[0]] else []) + StartingAt(blocks[1..], no)
  }

  lemma {:induction false} StartingFirst(b: Block, blocks: seq<Block>, no: nat)
    ensures StartingAt([b] + blocks, no) == (if StartOf(b) == no then [b] else []) + StartingAt(blocks, no)
  {
    assert ([b] + blocks)[1..] == blocks;
  }

  lemma {:induction false} InsertStable(b: Block, blocks: seq<Block>, no: nat)
    ensures StartingAt(InsertBlock(b, blocks), no) == (if StartOf(b) == no then [b] else []) + StartingAt(blocks, no)
  {
    hide StartOf, StartingAt;
    if blocks == [] || StartOf(b) <= StartOf(blocks[0]) {
      StartingFirst(b, blocks, no);
      assert [b] + [] == [b];
    } else {
      InsertStable(b, blocks[1..], no);
      StartingFirst(blocks[0], InsertBlock(b, blocks[1..]), no);
      StartingFirst(blocks[0], blocks[1..], no);
      assert blocks == [blocks[0]] + blocks[1..];
    }
  }

  /** Sorting rearranges blocks into order of their first lines; blocks with one first line keep their order. */
  lemma {:induction false} SortBlocksSorts(blocks: seq<Block>)
    ensures SortedByStart(SortBlocks(blocks)) && multiset(SortBlocks(blocks)) == multiset(blocks)
    ensures forall no :: StartingAt(SortBlocks(blocks), no) == StartingAt(blocks, no)
  {
    hide StartOf, SortedByStart;
    if blocks == [] {
      OneSorted(Block("", []));
    } else {
      assert blocks == [blocks[0]] + blocks[1..];
      SortBlocksSorts(blocks[1..]);
      InsertSorts(blocks[0], SortBlocks(blocks[1..]));
      InsertKeeps(blocks[0], SortBlocks(blocks[1..]));
      forall no ensures StartingAt(SortBlocks(blocks), no) == StartingAt(blocks, no) {
        InsertStable(blocks[0], SortBlocks(blocks[1..]), no);
      }
    }
  }

  /** A sorted list: blocks without lines first, then by the number of the first line. */
  lemma {:induction false} SortedExact(blocks: seq<Block>)
    requires SortedByStart(blocks)
    ensures forall i, j :: 0 <= i < j < |blocks| && blocks[i].lines != [] ==>
      if blocks[j].lines == [] then blocks[i].lines[0].no == 0 else blocks[i].lines[0].no <= blocks[j].lines[0].no
  {
    forall i, j | 0 <= i < j < |blocks| && blocks[i].lines != []
      ensures if blocks[j].lines == [] then blocks[i].lines[0].no == 0 else blocks[i].lines[0].no <= blocks[j].lines[0].no
    {
      assert StartOf(blocks[i]) <= StartOf(blocks[j]);
    }
  }

  // --- the shape of the stack --------------------------------------------------------------

  /** The fence is the one its line opened, before line `n`. */
  predicate OpenedBefore(lines: seq<string>, o: Opener, n: nat)
    requires n <= |lines|
  {
    o.at < n && RoleAt(lines, o.at) == Opens && FrameAt(lines, o.at) == o
  }

  predicate InOrder(stack: seq<Opener>) { forall i, j :: 0 <= i < j < |stack| ==> stack[i].at < stack[j].at }

  /** Everything open was opened before, in order, as the fence its line opens. */
  ghost predicate WellStacked(lines: seq<string>, n: nat)
    requires n <= |lines|
  {
    var s := StateAt(lines, n);
    (forall o :: o in s.stack ==> OpenedBefore(lines, o, n)) && InOrder(s.stack)
    && (s.run.Some? ==> s.stack == [] && s.run.value < n && RoleAt(lines, s.run.value) == InRun(s.run.value))
  }

  lemma {:induction false} OpensTop(line: string, at: nat, s: State)
    ensures var (t, role) := Step(line, at, s);
      match role
      case Opens => t.stack != [] && Top(t).at == at && t.stack[..|t.stack| - 1] == s.stack && t.run == None
      case Closes => s.stack != [] && t == Popped(s)
      case InFrame(k) => s.stack != [] && t.stack == s.stack && t.run == None && k == Top(s).at
      case InRun(k) => t.stack == s.stack && t.run == Some(k) && (s.run == Some(k) || (k == at && s.stack == []))
      case Outside => t.stack == s.stack && (t.run == s.run || t.run == None)
  {
    hide FenceCloses, Opened, Indented, Indent, Blank;
    OpenedAt(line, false, at);
    if s.stack != [] { OpenedAt(line, Top(s).suppressed, at); }
  }

  lemma {:induction false} OpenedAt(line: string, suppressed: bool, at: nat)
    ensures Opened(line, suppressed, at).Some? ==> Opened(line, suppressed, at).value.at == at
  {
  }

  /** The state after line `at` and the line's role. */
  lemma {:induction false} Turn(lines: seq<string>, at: nat)
    requires at < |lines|
    ensures var (s, t, role) := (StateAt(lines, at), StateAt(lines, at + 1), RoleAt(lines, at));
      match role
      case Opens => t.stack != [] && Top(t).at == at && t.stack[..|t.stack| - 1] == s.stack && t.run == None
                    && FrameAt(lines, at) == Top(t)
      case Closes => s.stack != [] && t == Popped(s)
      case InFrame(k) => s.stack != [] && t.stack == s.stack && t.run == None && k == Top(s).at
      case InRun(k) => t.stack == s.stack && t.run == Some(k) && (s.run == Some(k) || (k == at && s.stack == []))
      case Outside => t.stack == s.stack && (t.run == s.run || t.run == None)
  {
    hide Step;
    OpensTop(lines[at], at, StateAt(lines, at));
  }

  lemma {:induction false} Pushed(stack: seq<Opener>, o: Opener)
    requires InOrder(stack) && forall x :: x in stack ==> x.at < o.at
    ensures InOrder(stack + [o])
  {
    var all := stack + [o];
    forall i, j | 0 <= i < j < |all| ensures all[i].at < all[j].at {
      assert all[i] == stack[i] && all[i] in stack;
    }
  }

  lemma {:induction false} PrefixInOrder(stack: seq<Opener>, k: nat)
    requires InOrder(stack) && k <= |stack|
    ensures InOrder(stack[..k]) && forall o :: o in stack[..k] ==> o in stack
  {
  }

  lemma {:induction false} StackHolds(lines: seq<string>, n: nat)
    requires n <= |lines|
    ensures WellStacked(lines, n)
  {
    hide Step;
    if n > 0 {
      StackHolds(lines, n - 1);
      Turn(lines, n - 1);
      hide StateAt, RoleAt, InOrder;
      var s, t, role := StateAt(lines, n - 1), StateAt(lines, n), RoleAt(lines, n - 1);
      if role == Opens {
        forall o | o in s.stack ensures o.at < n - 1 { assert OpenedBefore(lines, o, n - 1); }
        Pushed(s.stack, Top(t));
        assert t.stack == s.stack + [Top(t)];
      } else if role == Closes {
        PrefixInOrder(s.stack, |s.stack| - 1);
      }
      forall o | o in t.stack ensures OpenedBefore(lines, o, n) {
        assert o in s.stack ==> OpenedBefore(lines, o, n - 1);
      }
    }
  }
}
