/** What the blocks of RST lines look like, line by line. */
module RstLaws {
  import opened Texts
  import opened PageLines
  import opened RstScan

  // --- where the loops stop ----------------------------------------------------------------

  /** The scan stops at the first line from `i` on that has text. */
  lemma {:induction false} SkipExact(nl: seq<Numbered>, i: nat)
    requires i <= |nl|
    ensures var r := SkipBlank(nl, i); (forall k :: i <= k < r ==> Blank(nl[k].text)) && (r < |nl| ==> !Blank(nl[r].text))
    decreases |nl| - i
  {
    hide Blank;
    if i < |nl| && Blank(nl[i].text) { SkipExact(nl, i + 1); }
  }

  /** A doctest runs up to the first blank line. */
  lemma {:induction false} TextExact(nl: seq<Numbered>, i: nat)
    requires i <= |nl|
    ensures var r := WhileText(nl, i); (forall k :: i <= k < r ==> !Blank(nl[k].text)) && (r < |nl| ==> Blank(nl[r].text))
    decreases |nl| - i
  {
    hide Blank;
    if i < |nl| && !Blank(nl[i].text) { TextExact(nl, i + 1); }
  }

  /** A body runs up to the first line with text that is indented less. */
  lemma {:induction false} IndentedExact(nl: seq<Numbered>, i: nat, indent: nat)
    requires i <= |nl|
    ensures var r := WhileIndented(nl, i, indent);
      (forall k :: i <= k < r ==> Blank(nl[k].text) || Indent(nl[k].text) >= indent)
      && (r < |nl| ==> !Blank(nl[r].text) && Indent(nl[r].text) < indent)
    decreases |nl| - i
  {
    hide Blank, Indent;
    if i < |nl| && (Blank(nl[i].text) || Indent(nl[i].text) >= indent) { IndentedExact(nl, i + 1, indent); }
  }

  /** The lines with text. */
  lemma {:induction false} TextLinesExact(nl: seq<Numbered>)
    ensures forall x :: x in TextLines(nl) <==> x in nl && !Blank(x.text)
  {
    hide Blank;
    if nl != [] {
      var last := |nl| - 1;
      TextLinesExact(nl[..last]);
      assert nl == nl[..last] + [nl[last]];
    }
  }

  // --- the shape of a block ----------------------------------------------------------------

  /** A doctest: it starts the page or follows a blank line, and its first line is a prompt. */
  ghost predicate IsDoctest(nl: seq<Numbered>, i: nat, e: nat, block: Block)
  {
    i < e <= |nl| && (i == 0 || Blank(nl[i - 1].text)) && StartsDoctest(nl[i].text)
    && block == Block("{doctest}", nl[i..e]) && (forall k :: i <= k < e ==> !Blank(nl[k].text)) && (e < |nl| ==> Blank(nl[e].text))
  }

  /** An announced body: after the opener and blank lines, the lines with text indented at least as the first
      of them, which is indented more than the opener. */
  ghost predicate IsAnnounced(nl: seq<Numbered>, i: nat, first: nat, e: nat, block: Block)
  {
    i < first < e <= |nl| && Announces(nl[i].text) == Some(block.lang) && block.lines == TextLines(nl[first..e])
    && (forall k :: i < k < first ==> Blank(nl[k].text)) && !Blank(nl[first].text)
    && Indent(nl[first].text) > Indent(nl[i].text)
    && (forall k :: first <= k < e ==> Blank(nl[k].text) || Indent(nl[k].text) >= Indent(nl[first].text))
    && (e < |nl| ==> !Blank(nl[e].text) && Indent(nl[e].text) < Indent(nl[first].text))
  }

  /** An announced block is there exactly when the next line with text is indented more than its opener. */
  lemma {:induction false} BlockExact(nl: seq<Numbered>, i: nat)
    requires i < |nl| && Announces(nl[i].text).Some?
    ensures var (block, next) := IndentedBlock(nl, i, Announces(nl[i].text).value);
      match block
      case Some(b) => exists first :: IsAnnounced(nl, i, first, next, b)
      case None =>
        (forall k :: i < k < next ==> Blank(nl[k].text))
        && (next < |nl| ==> !Blank(nl[next].text) && Indent(nl[next].text) <= Indent(nl[i].text))
  {
    var j := SkipBlank(nl, i + 1);
    SkipExact(nl, i + 1);
    if j < |nl| && Indent(nl[j].text) > Indent(nl[i].text) {
      IndentedExact(nl, j, Indent(nl[j].text));
      var e := WhileIndented(nl, j, Indent(nl[j].text));
      hide Blank, Indent, Announces, TextLines, SkipBlank, WhileIndented;
      assert IsAnnounced(nl, i, j, e, Block(Announces(nl[i].text).value, TextLines(nl[j..e])));
    }
  }

  /** A block that begins at line `i` or later. */
  ghost predicate Shaped(nl: seq<Numbered>, i: nat, block: Block)
  {
    (exists k, e :: i <= k && IsDoctest(nl, k, e, block)) || (exists k, first, e :: i <= k && IsAnnounced(nl, k, first, e, block))
  }

  lemma {:induction false} ShapedLater(nl: seq<Numbered>, i: nat, j: nat, block: Block)
    requires i <= j && Shaped(nl, j, block)
    ensures Shaped(nl, i, block)
  {
    hide IsDoctest, IsAnnounced;
  }

  /** The block at a line, if there is one. */
  lemma {:induction false} FirstShaped(nl: seq<Numbered>, i: nat)
    requires i < |nl|
    ensures (i == 0 || Blank(nl[i - 1].text)) && StartsDoctest(nl[i].text) ==> Shaped(nl, i, Block("{doctest}", nl[i..WhileText(nl, i)]))
    ensures Announces(nl[i].text).Some? ==>
      var block := IndentedBlock(nl, i, Announces(nl[i].text).value).0; block.Some? ==> Shaped(nl, i, block.value)
  {
    if StartsDoctest(nl[i].text) {
      DoctestText(nl[i].text);
      TextExact(nl, i);
      hide Blank, StartsDoctest, WhileText, Announces, IndentedBlock, IsAnnounced;
      var e := WhileText(nl, i);
      assert i == 0 || Blank(nl[i - 1].text) ==> IsDoctest(nl, i, e, Block("{doctest}", nl[i..e]));
    }
    if Announces(nl[i].text).Some? { BlockExact(nl, i); }
    hide Blank, StartsDoctest, WhileText, Announces, IndentedBlock, IsAnnounced, IsDoctest;
  }

  /** Every block is a doctest or an announced body. */
  lemma {:induction false} BlocksShaped(nl: seq<Numbered>, i: nat)
    requires i <= |nl|
    ensures forall block :: block in BlocksFrom(nl, i) ==> Shaped(nl, i, block)
    decreases |nl| - i
  {
    hide Blank, StartsDoctest, WhileText, Announces, IndentedBlock, Shaped, BlocksFrom;
    if i == |nl| {
      BlocksEnd(nl);
    } else {
      BlocksStep(nl, i);
      FirstShaped(nl, i);
      var next := if (i == 0 || Blank(nl[i - 1].text)) && StartsDoctest(nl[i].text) then WhileText(nl, i)
                  else if Announces(nl[i].text).None? then i + 1 else IndentedBlock(nl, i, Announces(nl[i].text).value).1;
      BlocksShaped(nl, next);
      forall block | block in BlocksFrom(nl, next) ensures Shaped(nl, i, block) { ShapedLater(nl, i, next, block); }
    }
  }
}
