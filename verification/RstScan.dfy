/** The code blocks of RST lines, and that each line is used at most once. */
module RstScan {
  import opened Texts
  import opened PageLines

  /** A line with its number in the page. */
  datatype Numbered = Numbered(no: nat, text: string)

  datatype Block = Block(lang: string, lines: seq<Numbered>)

  // --- the scan ----------------------------------------------------------------------------

  /** The first line from `i` on that is not blank, or the end. */
  function SkipBlank(nl: seq<Numbered>, i: nat): (r: nat)
    requires i <= |nl|
    ensures i <= r <= |nl|
    decreases |nl| - i
  {
    if i < |nl| && Blank(nl[i].text) then SkipBlank(nl, i + 1) else i
  }

  /** The first blank line from `i` on, or the end. */
  function WhileText(nl: seq<Numbered>, i: nat): (r: nat)
    requires i <= |nl|
    ensures i <= r <= |nl|
    ensures i < |nl| && !Blank(nl[i].text) ==> i < r
    decreases |nl| - i
  {
    if i < |nl| && !Blank(nl[i].text) then WhileText(nl, i + 1) else i
  }

  /** The first line from `i` on that is neither blank nor indented by `indent`, or the end. */
  function WhileIndented(nl: seq<Numbered>, i: nat, indent: nat): (r: nat)
    requires i <= |nl|
    ensures i <= r <= |nl|
    ensures i < |nl| && Indent(nl[i].text) >= indent ==> i < r
    decreases |nl| - i
  {
    if i < |nl| && (Blank(nl[i].text) || Indent(nl[i].text) >= indent) then WhileIndented(nl, i + 1, indent) else i
  }

  /** The lines that are not blank. */
  function TextLines(nl: seq<Numbered>): seq<Numbered>
  {
    if nl == [] then []
    else TextLines(nl[..|nl| - 1]) + (if Blank(nl[|nl| - 1].text) then [] else [nl[|nl| - 1]])
  }

  /** The block whose opener is line `i`, if it announces one, and the line after it. */
  function IndentedBlock(nl: seq<Numbered>, i: nat, lang: string): (r: (Option<Block>, nat))
    requires i < |nl|
    ensures i < r.1 <= |nl|
  {
    var j := SkipBlank(nl, i + 1);
    if j == |nl| || Indent(nl[j].text) <= Indent(nl[i].text) then (None, j)
    else
      var e := WhileIndented(nl, j, Indent(nl[j].text));
      (Some(Block(lang, TextLines(nl[j..e]))), e)
  }

  /** The blocks from line `i` on. */
  function BlocksFrom(nl: seq<Numbered>, i: nat): seq<Block>
    requires i <= |nl|
    decreases |nl| - i
  {
    if i == |nl| then []
    else if (i == 0 || Blank(nl[i - 1].text)) && StartsDoctest(nl[i].text) then
      DoctestText(nl[i].text);
      var e := WhileText(nl, i);
      [Block("{doctest}", nl[i..e])] + BlocksFrom(nl, e)
    else if Announces(nl[i].text).None? then BlocksFrom(nl, i + 1)
    else
      var (block, next) := IndentedBlock(nl, i, Announces(nl[i].text).value);
      (if block.Some? then [block.value] else []) + BlocksFrom(nl, next)
  }

  lemma {:induction false} DoctestText(t: string)
    requires StartsDoctest(t)
    ensures !Blank(t)
  {
    StripBlank(t);
  }

  /** The loops of `_rst_indented_block`. */
  method ReadIndented(nl: seq<Numbered>, start: nat, lang: string) returns (block: Option<Block>, next: nat)
    requires start < |nl|
    ensures (block, next) == IndentedBlock(nl, start, lang)
  {
    hide Blank, Indent;
    var i := start + 1;
    while i < |nl| && Blank(nl[i].text)
      invariant start < i <= |nl| && SkipBlank(nl, start + 1) == SkipBlank(nl, i)
    {
      i := i + 1;
    }
    if i == |nl| || Indent(nl[i].text) <= Indent(nl[start].text) {
      return None, i;
    }
    var indent, body, first := Indent(nl[i].text), [], i;
    while i < |nl| && (Blank(nl[i].text) || Indent(nl[i].text) >= indent)
      invariant first <= i <= |nl| && WhileIndented(nl, first, indent) == WhileIndented(nl, i, indent)
      invariant body == TextLines(nl[first..i])
    {
      assert nl[first..i + 1][..i - first] == nl[first..i];
      if !Blank(nl[i].text) {
        body := body + [nl[i]];
      }
      i := i + 1;
    }
    return Some(Block(lang, body)), i;
  }

  /** The doctest loop: the first blank line from `start` on. */
  method ReadDoctest(nl: seq<Numbered>, start: nat) returns (run: seq<Numbered>, next: nat)
    requires start <= |nl|
    ensures next == WhileText(nl, start) && run == nl[start..next]
  {
    hide Blank;
    next, run := start, [];
    while next < |nl| && !Blank(nl[next].text)
      invariant start <= next <= |nl| && WhileText(nl, start) == WhileText(nl, next)
      invariant run == nl[start..next]
    {
      run, next := run + [nl[next]], next + 1;
    }
  }

  /** What the blocks from a line on are, by the kind of line. */
  lemma {:induction false} BlocksStep(nl: seq<Numbered>, i: nat)
    requires i < |nl|
    ensures (i == 0 || Blank(nl[i - 1].text)) && StartsDoctest(nl[i].text) ==>
      BlocksFrom(nl, i) == [Block("{doctest}", nl[i..WhileText(nl, i)])] + BlocksFrom(nl, WhileText(nl, i))
      && i < WhileText(nl, i)
    ensures !((i == 0 || Blank(nl[i - 1].text)) && StartsDoctest(nl[i].text)) && Announces(nl[i].text).None? ==>
      BlocksFrom(nl, i) == BlocksFrom(nl, i + 1)
    ensures !((i == 0 || Blank(nl[i - 1].text)) && StartsDoctest(nl[i].text)) && Announces(nl[i].text).Some? ==>
      var (block, next) := IndentedBlock(nl, i, Announces(nl[i].text).value);
      BlocksFrom(nl, i) == (if block.Some? then [block.value] else []) + BlocksFrom(nl, next)
  {
    hide Blank, Indent, StartsDoctest, Announces, IndentedBlock;
    if StartsDoctest(nl[i].text) { DoctestText(nl[i].text); }
  }

  /** `_rst_scan`: every code block in the numbered lines. */
  method Scan(nl: seq<Numbered>) returns (blocks: seq<Block>)
    ensures blocks == BlocksFrom(nl, 0)
  {
    hide Blank, Indent, StartsDoctest, Announces, IndentedBlock, BlocksFrom, WhileText;
    blocks := [];
    var i := 0;
    ghost var all := BlocksFrom(nl, 0);
    assert [] + all == all;
    while i < |nl|
      invariant 0 <= i <= |nl|
      invariant all == blocks + BlocksFrom(nl, i)
    {
      BlocksStep(nl, i);
      if (i == 0 || Blank(nl[i - 1].text)) && StartsDoctest(nl[i].text) {
        var run, next := ReadDoctest(nl, i);
        Assoc(blocks, [Block("{doctest}", run)], BlocksFrom(nl, next));
        blocks, i := blocks + [Block("{doctest}", run)], next;
      } else {
        var lang := Announces(nl[i].text);
        if lang.None? {
          i := i + 1;
        } else {
          var block, next := ReadIndented(nl, i, lang.value);
          var found := if block.Some? then [block.value] else [];
          Assoc(blocks, found, BlocksFrom(nl, next));
          blocks, i := blocks + found, next;
        }
      }
    }
    BlocksEnd(nl);
    assert blocks + [] == blocks;
  }

  lemma {:induction false} BlocksEnd(nl: seq<Numbered>)
    ensures BlocksFrom(nl, |nl|) == []
  {
  }

  // --- each line at most once --------------------------------------------------------------

  /** The line numbers of a list, with repetition. */
  function Nos(nl: seq<Numbered>): multiset<nat>
  {
    if nl == [] then multiset{} else Nos(nl[..|nl| - 1]) + multiset{nl[|nl| - 1].no}
  }

  /** The line numbers of some blocks, with repetition. */
  function Numbers(blocks: seq<Block>): multiset<nat>
  {
    if blocks == [] then multiset{} else Nos(blocks[0].lines) + Numbers(blocks[1..])
  }

  lemma {:induction false} NosConcat(a: seq<Numbered>, b: seq<Numbered>)
    ensures Nos(a + b) == Nos(a) + Nos(b)
  {
    if b == [] {
      assert a + b == a;
    } else {
      assert (a + b)[..|a + b| - 1] == a + b[..|b| - 1];
      NosConcat(a, b[..|b| - 1]);
    }
  }

  lemma {:induction false} NumbersConcat(a: seq<Block>, b: seq<Block>)
    ensures Numbers(a + b) == Numbers(a) + Numbers(b)
  {
    if a == [] {
      assert a + b == b;
    } else {
      assert (a + b)[1..] == a[1..] + b;
      NumbersConcat(a[1..], b);
    }
  }

  lemma {:induction false} TextLinesOf(nl: seq<Numbered>)
    ensures Nos(TextLines(nl)) <= Nos(nl)
  {
    if nl != [] {
      TextLinesOf(nl[..|nl| - 1]);
      NosConcat(TextLines(nl[..|nl| - 1]), [nl[|nl| - 1]]);
      assert Nos([nl[|nl| - 1]]) == multiset{nl[|nl| - 1].no} by { assert [nl[|nl| - 1]][..0] == []; }
      NosConcat(TextLines(nl[..|nl| - 1]), []);
    }
  }

  lemma {:induction false} NosParts(nl: seq<Numbered>, i: nat, j: nat)
    requires i <= j <= |nl|
    ensures Nos(nl[i..]) == Nos(nl[i..j]) + Nos(nl[j..])
  {
    assert nl[i..] == nl[i..j] + nl[j..];
    NosConcat(nl[i..j], nl[j..]);
  }

  /** The scan uses no line more often than the input has it. */
  lemma {:induction false} ScanUsesLines(nl: seq<Numbered>, i: nat)
    requires i <= |nl|
    ensures Numbers(BlocksFrom(nl, i)) <= Nos(nl[i..])
    decreases |nl| - i
  {
    hide Blank, StartsDoctest, Announces, Numbers, Nos, BlocksFrom, WhileText, IndentedBlock;
    if i == |nl| {
      BlocksEnd(nl);
      NumbersNone();
    } else {
      BlocksStep(nl, i);
      if (i == 0 || Blank(nl[i - 1].text)) && StartsDoctest(nl[i].text) {
        var e := WhileText(nl, i);
        ScanUsesLines(nl, e);
        NosParts(nl, i, e);
        OneThenMore(Block("{doctest}", nl[i..e]), BlocksFrom(nl, e));
      } else if Announces(nl[i].text).None? {
        ScanUsesLines(nl, i + 1);
        NosParts(nl, i, i + 1);
      } else {
        var lang := Announces(nl[i].text).value;
        var (block, next) := IndentedBlock(nl, i, lang);
        ScanUsesLines(nl, next);
        NosParts(nl, i, next);
        if block.Some? {
          BlockUsesLines(nl, i, lang);
          OneThenMore(block.value, BlocksFrom(nl, next));
        } else {
          assert [] + BlocksFrom(nl, next) == BlocksFrom(nl, next);
        }
      }
    }
  }

  lemma {:induction false} OneThenMore(block: Block, more: seq<Block>)
    ensures Numbers([block] + more) == Nos(block.lines) + Numbers(more)
  {
    assert ([block] + more)[1..] == more;
  }

  lemma {:induction false} NumbersNone()
    ensures Numbers([]) == multiset{}
  {
  }

  lemma {:induction false} BlockUsesLines(nl: seq<Numbered>, i: nat, lang: string)
    requires i < |nl| && IndentedBlock(nl, i, lang).0.Some?
    ensures var (block, next) := IndentedBlock(nl, i, lang); Nos(block.value.lines) <= Nos(nl[i..next])
  {
    hide Blank, Indent, Nos, TextLines;
    var j := SkipBlank(nl, i + 1);
    var e := WhileIndented(nl, j, Indent(nl[j].text));
    TextLinesOf(nl[j..e]);
    assert nl[i..e] == nl[i..j] + nl[j..e];
    NosConcat(nl[i..j], nl[j..e]);
  }

  // --- order -------------------------------------------------------------------------------

  /** Numbers strictly increase, all above `low` and at most `high`. */
  predicate Increasing(nl: seq<Numbered>, low: int, high: int)
  {
    (forall i :: 0 <= i < |nl| ==> low < nl[i].no <= high)
    && forall i, j :: 0 <= i < j < |nl| ==> nl[i].no < nl[j].no
  }

  lemma {:induction false} IncreasingMore(nl: seq<Numbered>, x: Numbered, low: int, high: int)
    requires Increasing(nl, low, high) && low < x.no <= high && forall y :: y in nl ==> y.no < x.no
    ensures Increasing(nl + [x], low, high)
  {
  }

  lemma {:induction false} TextLinesIn(nl: seq<Numbered>)
    ensures forall x :: x in TextLines(nl) ==> x in nl
  {
    hide Blank;
    if nl != [] { TextLinesIn(nl[..|nl| - 1]); }
  }

  lemma {:induction false} TextLinesIncrease(nl: seq<Numbered>, low: int, high: int)
    requires Increasing(nl, low, high)
    ensures Increasing(TextLines(nl), low, high)
  {
    hide Blank;
    if nl != [] {
      var init, last := nl[..|nl| - 1], nl[|nl| - 1];
      TextLinesIncrease(init, low, high);
      TextLinesIn(init);
      hide TextLines;
      IncreasingMore(TextLines(init), last, low, high);
      TextLinesStep(nl);
    }
  }

  lemma {:induction false} TextLinesStep(nl: seq<Numbered>)
    requires nl != []
    ensures TextLines(nl) == TextLines(nl[..|nl| - 1]) || TextLines(nl) == TextLines(nl[..|nl| - 1]) + [nl[|nl| - 1]]
  {
  }

  /** Blocks come out in page order, each strictly increasing, with lines of the input. */
  lemma {:induction false} ScanOrdered(nl: seq<Numbered>, i: nat, low: int, high: int)
    requires i <= |nl| && Increasing(nl, low, high)
    ensures forall b :: b in BlocksFrom(nl, i) ==>
      Increasing(b.lines, low, high) && b.lines != [] && forall x :: x in b.lines ==> x in nl
    decreases |nl| - i
  {
    hide Blank, Indent, StartsDoctest, Announces, TextLines;
    if i == |nl| {
    } else if (i == 0 || Blank(nl[i - 1].text)) && StartsDoctest(nl[i].text) {
      DoctestText(nl[i].text);
      ScanOrdered(nl, WhileText(nl, i), low, high);
    } else if Announces(nl[i].text).None? {
      ScanOrdered(nl, i + 1, low, high);
    } else {
      var lang := Announces(nl[i].text).value;
      ScanOrdered(nl, IndentedBlock(nl, i, lang).1, low, high);
      if IndentedBlock(nl, i, lang).0.Some? { BlockOrdered(nl, i, lang, low, high); }
    }
  }

  lemma {:induction false} BlockOrdered(nl: seq<Numbered>, i: nat, lang: string, low: int, high: int)
    requires i < |nl| && IndentedBlock(nl, i, lang).0.Some? && Increasing(nl, low, high)
    ensures var lines := IndentedBlock(nl, i, lang).0.value.lines;
      Increasing(lines, low, high) && lines != [] && forall x :: x in lines ==> x in nl
  {
    hide Indent, TextLines;
    var j := SkipBlank(nl, i + 1);
    SkippedBlank(nl, i + 1);
    var e := WhileIndented(nl, j, Indent(nl[j].text));
    TextLinesIncrease(nl[j..e], low, high);
    TextLinesIn(nl[j..e]);
    FirstTextLine(nl[j..e]);
  }

  lemma {:induction false} SkippedBlank(nl: seq<Numbered>, i: nat)
    requires i <= |nl|
    ensures SkipBlank(nl, i) < |nl| ==> !Blank(nl[SkipBlank(nl, i)].text)
    decreases |nl| - i
  {
    hide Blank;
    if i < |nl| && Blank(nl[i].text) { SkippedBlank(nl, i + 1); }
  }

  lemma {:induction false} FirstTextLine(nl: seq<Numbered>)
    requires nl != [] && !Blank(nl[0].text)
    ensures TextLines(nl) != []
  {
    hide Blank;
    if |nl| > 1 { FirstTextLine(nl[..|nl| - 1]); }
  }
}
