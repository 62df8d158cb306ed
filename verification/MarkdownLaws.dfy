/** Laws of the Markdown walk: which frames are literal or suppressed, and how often a page line is used. */
module MarkdownLaws {
  import opened Texts
  import opened PageLines
  import opened RstScan
  import opened MarkdownSpec

  // --- the stack ---------------------------------------------------------------------------

  /** A fence opens only inside a frame that is not literal, and inherits its suppression. */
  lemma {:induction false} OpensInside(lines: seq<string>, at: nat)
    requires at < |lines| && RoleAt(lines, at) == Opens
    ensures var (s, o) := (StateAt(lines, at), FrameAt(lines, at));
      (s.stack != [] ==> !Top(s).literal)
      && (o.suppressed <==> IsDisplay(o.lang) || (s.stack != [] && Top(s).suppressed))
  {
    StackHolds(lines, at);
    hide FenceCloses, FenceOf, FrameLang, IsLiteral, Indented, IsDisplay;
    assert StateAt(lines, at + 1) == Step(lines[at], at, StateAt(lines, at)).0;
    hide StateAt;
  }

  /** Only the innermost open frame is ever literal. */
  lemma {:induction false} InnermostLiteral(lines: seq<string>, n: nat)
    requires n <= |lines|
    ensures var stack := StateAt(lines, n).stack; forall i :: 0 <= i < |stack| - 1 ==> !stack[i].literal
  {
    hide StateAt, RoleAt;
    if n == 0 {
      EmptyStart(lines);
    } else {
      InnermostLiteral(lines, n - 1);
      Turn(lines, n - 1);
      if RoleAt(lines, n - 1) == Opens {
        OpensInside(lines, n - 1);
        var s, t := StateAt(lines, n - 1), StateAt(lines, n);
        assert t.stack == s.stack + [Top(t)];
      }
    }
  }

  lemma {:induction false} EmptyStart(lines: seq<string>)
    ensures StateAt(lines, 0).stack == []
  {
  }

  /** Some fence on the stack, up to the `i`th, shows Markdown. */
  predicate Displayed(stack: seq<Opener>, i: nat)
    requires i < |stack|
  {
    exists j :: 0 <= j <= i && IsDisplay(stack[j].lang)
  }

  /** A frame is suppressed exactly when it, or a fence around it, displays Markdown. */
  lemma {:induction false} SuppressedExact(lines: seq<string>, n: nat)
    requires n <= |lines|
    ensures var stack := StateAt(lines, n).stack; forall i :: 0 <= i < |stack| ==> (stack[i].suppressed <==> Displayed(stack, i))
  {
    hide StateAt, RoleAt, IsDisplay;
    if n == 0 {
      EmptyStart(lines);
    } else {
      SuppressedExact(lines, n - 1);
      Turn(lines, n - 1);
      StackHolds(lines, n - 1);
      var s, t := StateAt(lines, n - 1), StateAt(lines, n);
      if RoleAt(lines, n - 1) == Opens {
        OpensInside(lines, n - 1);
        assert t.stack == s.stack + [Top(t)];
        SuppressedPush(s.stack, Top(t));
      } else if RoleAt(lines, n - 1) == Closes {
        SuppressedPrefix(s.stack, |s.stack| - 1);
      }
    }
  }

  lemma {:induction false} TopDisplayed(stack: seq<Opener>, o: Opener)
    ensures Displayed(stack + [o], |stack|) <==> IsDisplay(o.lang) || (stack != [] && Displayed(stack, |stack| - 1))
  {
    hide IsDisplay;
    var all := stack + [o];
    if IsDisplay(o.lang) { assert IsDisplay(all[|stack|].lang); }
    if stack != [] && Displayed(stack, |stack| - 1) {
      var j :| 0 <= j <= |stack| - 1 && IsDisplay(stack[j].lang);
      assert IsDisplay(all[j].lang);
    }
    if Displayed(all, |stack|) && !IsDisplay(o.lang) {
      var j :| 0 <= j <= |stack| && IsDisplay(all[j].lang);
      assert IsDisplay(stack[j].lang);
    }
  }

  lemma {:induction false} SuppressedPush(stack: seq<Opener>, o: Opener)
    requires forall i :: 0 <= i < |stack| ==> (stack[i].suppressed <==> Displayed(stack, i))
    requires o.suppressed <==> IsDisplay(o.lang) || (stack != [] && stack[|stack| - 1].suppressed)
    ensures var all := stack + [o]; forall i :: 0 <= i < |all| ==> (all[i].suppressed <==> Displayed(all, i))
  {
    hide IsDisplay, Displayed;
    var all := stack + [o];
    TopDisplayed(stack, o);
    forall i | 0 <= i < |all| ensures all[i].suppressed <==> Displayed(all, i) {
      if i < |stack| { SameDisplayed(stack, all, i); }
    }
  }

  lemma {:induction false} SameDisplayed(a: seq<Opener>, b: seq<Opener>, i: nat)
    requires i < |a| && a <= b
    ensures Displayed(a, i) <==> Displayed(b, i)
  {
    hide IsDisplay;
    if Displayed(a, i) {
      var j :| 0 <= j <= i && IsDisplay(a[j].lang);
      assert IsDisplay(b[j].lang);
    }
    if Displayed(b, i) {
      var j :| 0 <= j <= i && IsDisplay(b[j].lang);
      assert IsDisplay(a[j].lang);
    }
  }

  lemma {:induction false} SuppressedPrefix(stack: seq<Opener>, k: nat)
    requires k <= |stack| && forall i :: 0 <= i < |stack| ==> (stack[i].suppressed <==> Displayed(stack, i))
    ensures forall i :: 0 <= i < k ==> (stack[..k][i].suppressed <==> Displayed(stack[..k], i))
  {
    forall i | 0 <= i < k ensures stack[..k][i].suppressed <==> Displayed(stack[..k], i) {
      SameDisplayed(stack[..k], stack, i);
    }
  }

  // --- claimed lines -----------------------------------------------------------------------

  /** Every line of a block is a line of the page. */
  predicate FromPage(lines: seq<string>, nl: seq<Numbered>)
  {
    forall x :: x in nl ==> 1 <= x.no <= |lines| && x.text == lines[x.no - 1]
  }

  lemma {:induction false} ClaimedStep(lines: seq<string>, role: Role, n: nat)
    requires 0 < n <= |lines|
    ensures Claimed(lines, role, n) == if RoleAt(lines, n - 1) == role
      then Claimed(lines, role, n - 1) + [Numbered(n, lines[n - 1])] else Claimed(lines, role, n - 1)
  {
    hide RoleAt;
  }

  lemma {:induction false} ClaimedNone(lines: seq<string>, role: Role)
    ensures Claimed(lines, role, 0) == [] && Nos([]) == multiset{}
  {
  }

  lemma {:induction false} ClaimedLines(lines: seq<string>, role: Role, n: nat)
    requires n <= |lines|
    ensures Increasing(Claimed(lines, role, n), 0, n) && FromPage(lines, Claimed(lines, role, n))
  {
    hide RoleAt, Claimed, Increasing;
    if n == 0 {
      ClaimedNone(lines, role);
      IncreasingNone(0, n);
    } else {
      ClaimedLines(lines, role, n - 1);
      ClaimedStep(lines, role, n);
      IncreasingWider(Claimed(lines, role, n - 1), n - 1, n);
      if RoleAt(lines, n - 1) == role {
        IncreasingMore(Claimed(lines, role, n - 1), Numbered(n, lines[n - 1]), 0, n);
      }
    }
  }

  lemma {:induction false} IncreasingNone(low: int, high: int)
    ensures Increasing([], low, high)
  {
  }

  lemma {:induction false} IncreasingWider(nl: seq<Numbered>, high: int, higher: int)
    requires Increasing(nl, 0, high) && high <= higher
    ensures Increasing(nl, 0, higher) && forall x :: x in nl ==> x.no <= high
  {
  }

  /** A role claims exactly the lines that have it, once each. */
  lemma {:induction false} ClaimedOnce(lines: seq<string>, role: Role, n: nat, no: nat)
    requires n <= |lines|
    ensures Nos(Claimed(lines, role, n))[no] == if 1 <= no <= n && RoleAt(lines, no - 1) == role then 1 else 0
  {
    hide RoleAt, Nos, Claimed;
    if n == 0 {
      ClaimedNone(lines, role);
    } else {
      ClaimedOnce(lines, role, n - 1, no);
      ClaimedStep(lines, role, n);
      NosMore(Claimed(lines, role, n - 1), Numbered(n, lines[n - 1]));
    }
  }

  lemma {:induction false} NosMore(nl: seq<Numbered>, x: Numbered)
    ensures Nos(nl + [x]) == Nos(nl) + multiset{x.no}
  {
    assert (nl + [x])[..|nl|] == nl;
  }

  // --- how often a line is used ------------------------------------------------------------

  /** The line a block claims its lines from, by where it begins. */
  function Home(role: Role): Option<nat>
  {
    match role
    case InFrame(at) => Some(at)
    case InRun(at) => Some(at)
    case _ => None
  }

  /** The role whose lines the block beginning at `at` may use. */
  function BodyRole(lines: seq<string>, at: nat): Role
    requires at < |lines|
  {
    if RoleAt(lines, at) == Opens then InFrame(at) else InRun(at)
  }

  lemma {:induction false} FrameUses(o: Opener, body: seq<Numbered>)
    ensures Numbers(FrameBlocks(o, body)) <= Nos(body)
    ensures o.suppressed ==> Numbers(FrameBlocks(o, body)) == multiset{}
    ensures !o.suppressed && o.lang != "{eval-rst}" ==> Numbers(FrameBlocks(o, body)) == Nos(body)
  {
    hide BlocksFrom, Nos;
    ScanUsesLines(body, 0);
    assert body[0..] == body;
    OneBlock(Block(o.lang, body));
  }

  lemma {:induction false} OneBlock(b: Block)
    ensures Numbers([b]) == Nos(b.lines)
  {
    hide Nos;
    assert [b][1..] == [];
  }

  lemma {:induction false} ContributionUses(lines: seq<string>, at: nat, no: nat)
    requires at < |lines|
    ensures Numbers(Contribution(lines, at))[no] <=
      if 1 <= no <= |lines| && RoleAt(lines, no - 1) == BodyRole(lines, at) then 1 else 0
  {
    hide RoleAt, FrameAt, FrameBlocks, Claimed, Nos, Numbers;
    var role := BodyRole(lines, at);
    ClaimedOnce(lines, role, |lines|, no);
    if RoleAt(lines, at) == Opens {
      FrameUses(FrameAt(lines, at), Claimed(lines, role, |lines|));
    } else {
      OneBlock(Block("indented", Claimed(lines, role, |lines|)));
      NumbersNone();
    }
  }

  /** The blocks beginning in the first `n` lines use a line at most once, and only if it belongs to one of them. */
  lemma {:induction false} UsedOnce(lines: seq<string>, n: nat, no: nat)
    requires n <= |lines|
    ensures Numbers(Contributions(lines, n))[no] <= 1
    ensures Numbers(Contributions(lines, n))[no] > 0 ==>
      1 <= no <= |lines| && Home(RoleAt(lines, no - 1)).Some? && Home(RoleAt(lines, no - 1)).value < n
  {
    hide RoleAt, Contribution, Numbers;
    if n == 0 {
      NumbersNone();
    } else {
      UsedOnce(lines, n - 1, no);
      ContributionUses(lines, n - 1, no);
      NumbersConcat(Contributions(lines, n - 1), Contribution(lines, n - 1));
    }
  }

  /** How often the page's blocks should use line `at`. */
  predicate RightUse(lines: seq<string>, at: nat, uses: nat)
    requires at < |lines|
  {
    match RoleAt(lines, at)
    case InRun(k) => uses == 1
    case InFrame(k) =>
      k < |lines| && RoleAt(lines, k) == Opens
      && (if FrameAt(lines, k).suppressed then uses == 0
          else if FrameAt(lines, k).lang == "{eval-rst}" then uses <= 1 else uses == 1)
    case _ => uses == 0
  }

  predicate UsedRight(lines: seq<string>, at: nat, result: seq<Block>)
    requires at < |lines|
  {
    RightUse(lines, at, Numbers(result)[at + 1])
  }

  lemma {:induction false} HomeOpened(lines: seq<string>, at: nat)
    requires at < |lines|
    ensures match RoleAt(lines, at)
      case InRun(k) => k <= at && RoleAt(lines, k) == InRun(k)
      case InFrame(k) => k < at && RoleAt(lines, k) == Opens
      case _ => true
  {
    hide StateAt, RoleAt;
    Turn(lines, at);
    StackHolds(lines, at);
    var s := StateAt(lines, at);
    assert s.stack != [] ==> OpenedBefore(lines, Top(s), at);
  }

  /** The contribution of a line's own block, against all contributions so far. */
  lemma {:induction false} OwnContribution(lines: seq<string>, n: nat, k: nat, no: nat)
    requires k < n <= |lines| && 1 <= no <= |lines| && Home(RoleAt(lines, no - 1)) == Some(k)
    ensures Numbers(Contributions(lines, n))[no] == Numbers(Contribution(lines, k))[no]
    decreases n
  {
    hide RoleAt, Contribution, Numbers;
    NumbersConcat(Contributions(lines, n - 1), Contribution(lines, n - 1));
    if k == n - 1 {
      UsedOnce(lines, n - 1, no);
    } else {
      OwnContribution(lines, n - 1, k, no);
      ContributionUses(lines, n - 1, no);
    }
  }

  /** Every page line is used as its role says: by one block, or by none. */
  lemma {:induction false} UsesExact(lines: seq<string>, at: nat)
    requires at < |lines|
    ensures RightUse(lines, at, Numbers(Contributions(lines, |lines|))[at + 1])
  {
    hide RoleAt, FrameAt, Contributions, Claimed, Nos, Numbers;
    HomeOpened(lines, at);
    UsedOnce(lines, |lines|, at + 1);
    var home := Home(RoleAt(lines, at));
    if home.Some? {
      var k := home.value;
      OwnContribution(lines, |lines|, k, at + 1);
      ClaimedOnce(lines, RoleAt(lines, at), |lines|, at + 1);
      if RoleAt(lines, k) == Opens {
        FrameUses(FrameAt(lines, k), Claimed(lines, InFrame(k), |lines|));
      } else {
        OneBlock(Block("indented", Claimed(lines, InRun(k), |lines|)));
      }
    }
  }

  // --- the page's blocks -------------------------------------------------------------------

  lemma {:induction false} NumbersWithout(b: seq<Block>, k: nat)
    requires k < |b|
    ensures Numbers(b) == Nos(b[k].lines) + Numbers(b[..k] + b[k + 1..])
  {
    hide Nos, Numbers;
    assert b == b[..k] + ([b[k]] + b[k + 1..]);
    NumbersConcat(b[..k], [b[k]] + b[k + 1..]);
    NumbersConcat(b[..k], b[k + 1..]);
    NumbersConcat([b[k]], b[k + 1..]);
    OneBlock(b[k]);
  }

  lemma {:induction false} Counterpart(a: seq<Block>, b: seq<Block>) returns (k: nat)
    requires a != [] && multiset(a) == multiset(b)
    ensures k < |b| && b[k] == a[0] && multiset(a[..0] + a[1..]) == multiset(b[..k] + b[k + 1..])
  {
    assert a[0] in multiset(b);
    k :| 0 <= k < |b| && b[k] == a[0];
    Without(a, 0);
    Without(b, k);
    Cancel(a[0], multiset(a[..0] + a[1..]), multiset(b[..k] + b[k + 1..]));
  }

  lemma {:induction false} NumbersPermute(a: seq<Block>, b: seq<Block>)
    requires multiset(a) == multiset(b)
    ensures Numbers(a) == Numbers(b)
    decreases |a|
  {
    hide Nos, Numbers;
    if a == [] {
      assert |multiset(b)| == 0;
    } else {
      var k := Counterpart(a, b);
      NumbersWithout(a, 0);
      NumbersWithout(b, k);
      NumbersPermute(a[..0] + a[1..], b[..k] + b[k + 1..]);
    }
  }

  lemma {:induction false} Cancel<T>(x: T, a: multiset<T>, b: multiset<T>)
    requires multiset{x} + a == multiset{x} + b
    ensures a == b
  {
    assert a == (multiset{x} + a) - multiset{x};
    assert b == (multiset{x} + b) - multiset{x};
  }

  lemma {:induction false} ContributionLines(lines: seq<string>, at: nat)
    requires at < |lines|
    ensures forall b :: b in Contribution(lines, at) ==> Increasing(b.lines, 0, |lines|) && FromPage(lines, b.lines)
  {
    hide RoleAt, FrameAt, Claimed, BlocksFrom;
    var body := Claimed(lines, BodyRole(lines, at), |lines|);
    ClaimedLines(lines, BodyRole(lines, at), |lines|);
    ScanOrdered(body, 0, 0, |lines|);
  }

  lemma {:induction false} ContributionsLines(lines: seq<string>, n: nat)
    requires n <= |lines|
    ensures forall b :: b in Contributions(lines, n) ==> Increasing(b.lines, 0, |lines|) && FromPage(lines, b.lines)
  {
    hide Contribution, Increasing, FromPage;
    if n > 0 {
      ContributionsLines(lines, n - 1);
      ContributionLines(lines, n - 1);
    }
  }

  /** Whatever order the page's blocks come in: each is increasing page lines, and each page line is used
      as its role says. */
  lemma {:induction false} PageBlocks(lines: seq<string>, result: seq<Block>)
    requires multiset(result) == multiset(Contributions(lines, |lines|))
    ensures forall b :: b in result ==> Increasing(b.lines, 0, |lines|) && FromPage(lines, b.lines)
    ensures forall at :: 0 <= at < |lines| ==> UsedRight(lines, at, result)
    ensures forall no :: no in Numbers(result) ==> 1 <= no <= |lines|
  {
    hide Contributions, RightUse, Increasing, FromPage, Numbers;
    NumbersPermute(result, Contributions(lines, |lines|));
    ContributionsLines(lines, |lines|);
    forall b | b in result ensures b in Contributions(lines, |lines|) {
      assert b in multiset(result);
    }
    forall at | 0 <= at < |lines| ensures UsedRight(lines, at, result) { UsesExact(lines, at); }
    forall no | no in Numbers(result) ensures 1 <= no <= |lines| { UsedOnce(lines, |lines|, no); }
  }
}
