/** The words a fence or an RST line is read by, character by character. */
module DirectiveLaws {
  import opened Texts
  import opened EncodedValues
  import opened PageLines
  import opened PageLaws

  predicate SpaceFree(t: string) { forall c :: c in t ==> !IsSpace(c) }

  /** The text goes on with white space, or ends. */
  predicate Parted(rest: string) { rest == "" || IsSpace(rest[0]) }

  lemma {:induction false} WordExact(w: string, rest: string)
    requires SpaceFree(w) && Parted(rest)
    ensures FirstWord(w + rest) == w
  {
    if w != "" {
      assert (w + rest)[1..] == w[1..] + rest;
      WordExact(w[1..], rest);
    } else {
      assert w + rest == rest;
    }
  }

  lemma {:induction false} SecondExact(w: string, gap: string, second: string, rest: string)
    requires SpaceFree(w) && SpaceFree(second) && Blank(gap) && Parted(rest) && (second != "" ==> gap != "") && (second == "" ==> rest == "")
    ensures var info := w + (gap + (second + rest)); |FirstWord(info)| <= |info| && SecondWord(info) == second
  {
    var info := w + (gap + (second + rest));
    if gap != "" { assert gap[0] in gap && (gap + (second + rest))[0] == gap[0]; } else { assert gap + (second + rest) == ""; }
    WordExact(w, gap + (second + rest));
    assert info[|w|..] == gap + (second + rest);
    if second != "" { assert second[0] in second && (second + rest)[0] == second[0]; }
    LStripOnly(gap + (second + rest), gap, second + rest);
    WordExact(second, rest);
  }

  /** The directives whose content is code. */
  predicate NamesCode(w: string)
  {
    w == "{code-block}" || w == "{code}" || w == "{sourcecode}" || w == "{literalinclude}"
    || w == "{doctest}" || w == "{testsetup}" || w == "{testcode}" || w == "{testcleanup}"
  }

  /** A word in braces. */
  predicate Braced(w: string) { |w| >= 2 && w[0] == '{' && w[|w| - 1] == '}' }

  /** What a fence holds: a colon fence without a directive is a division, `{code-block}` is its second word, anything
      else is its first. */
  lemma {:induction false} LangExact(w: string, gap: string, second: string, rest: string, mark: char)
    requires SpaceFree(w) && SpaceFree(second) && Blank(gap) && Parted(rest) && (second != "" ==> gap != "") && (second == "" ==> rest == "")
    requires w == "" ==> gap == ""
    ensures FrameLang(w + (gap + (second + rest)), mark)
      == if mark == ':' && !Braced(w) then ":::" else if w == "{code-block}" then second else w
  {
    var info := w + (gap + (second + rest));
    if gap != "" { assert gap[0] in gap && (gap + (second + rest))[0] == gap[0]; } else { assert gap + (second + rest) == ""; }
    WordExact(w, gap + (second + rest));
    SecondExact(w, gap, second, rest);
    assert w != "" ==> info[0] == w[0];
    hide FirstWord, SecondWord, LStrip, Blank, SpaceFree, Parted;
    LangOf(info, mark);
  }

  lemma {:induction false} LangOf(info: string, mark: char)
    requires |FirstWord(info)| <= |info|
    requires if FirstWord(info) == "" then info == "" else info[0] == FirstWord(info)[0]
    ensures var w := FirstWord(info);
      FrameLang(info, mark) == if mark == ':' && !Braced(w) then ":::" else if w == "{code-block}" then SecondWord(info) else w
  {
    var w := FirstWord(info);
    BraceOpens(info);
    BraceCloses(w);
    hide FirstWord, SecondWord, StartsWith, EndsWith;
    assert Braced(w) <==> |w| >= 1 && w[0] == '{' && w[|w| - 1] == '}';
  }

  lemma {:induction false} BraceOpens(t: string)
    ensures StartsWith(t, "{") <==> t != "" && t[0] == '{'
  {
    assert t != "" ==> t[..1] == [t[0]];
  }

  lemma {:induction false} BraceCloses(t: string)
    ensures EndsWith(t, "}") <==> t != "" && t[|t| - 1] == '}'
  {
    assert t != "" ==> t[|t| - 1..] == [t[|t| - 1]];
  }

  /** A fence is literal unless it is a division or a Markdown display, or a directive that is none of code. */
  lemma {:induction false} LiteralExact(w: string, rest: string, lang: string)
    requires SpaceFree(w) && Parted(rest)
    ensures IsLiteral(w + rest, lang) <==>
      lang !in [":::", "markdown", "md"]
      && (w != "" && w[0] == '{' ==> NamesCode(w))
  {
    WordExact(w, rest);
    hide FirstWord;
    assert StartsWith(w, "{") <==> w != "" && w[0] == '{' by { assert |w| >= 1 ==> w[..1] == [w[0]]; }
    assert IsLiteralDirective(w) <==> NamesCode(w);
    hide IsLiteralDirective, NamesCode;
  }

  // --- RST ---------------------------------------------------------------------------------

  /** A prompt after white space. */
  lemma {:induction false} DoctestExact(line: string)
    ensures StartsDoctest(line) <==> exists indent, rest :: Blank(indent) && line == indent + (">>>" + rest)
  {
    LStripStrips(line);
    var t := LStrip(line);
    if StartsDoctest(line) {
      var indent :| Blank(indent) && line == indent + t;
      assert t == ">>>" + t[3..];
      assert line == indent + (">>>" + t[3..]);
    }
    if indent, rest :| Blank(indent) && line == indent + (">>>" + rest) {
      assert (">>>" + rest)[0] == '>';
      LStripOnly(line, indent, ">>>" + rest);
      assert (">>>" + rest)[..3] == ">>>";
    }
  }

  lemma {:induction false} NameExact(name: string, rest: string)
    requires (forall c :: c in name ==> IsDirectiveChar(c)) && (rest == "" || !IsDirectiveChar(rest[0]))
    ensures DirectiveName(name + rest) == name
  {
    hide IsDirectiveChar;
    if name != "" {
      assert (name + rest)[1..] == name[1..] + rest;
      NameExact(name[1..], rest);
    } else {
      assert name + rest == rest;
    }
  }

  /** Letters, digits, `_` and `-`. */
  predicate NameChar(c: char) { IsNameStart(c) || IsDigit(c) || c == '-' }

  /** `.. <name>:: <argument>`, with white space wherever it may stand. */
  predicate WritesDirective(line: string, indent: string, gap: string, name: string, space: string, argument: string, tail: string)
  {
    line == indent + (".." + (gap + (name + ("::" + (space + (argument + tail))))))
    && Blank(indent) && Blank(gap) && gap != "" && Blank(space) && Blank(tail)
    && name != "" && (forall c :: c in name ==> NameChar(c)) && SpaceFree(argument)
  }

  lemma {:induction false} DotSolid()
    ensures !IsSpace('.') && !IsSpace(':') && !IsDirectiveChar(':')
  {
  }

  lemma {:induction false} DirectiveSolid(c: char)
    requires IsDirectiveChar(c)
    ensures !IsSpace(c)
  {
  }

  /** What is left of a directive line without the white space around it. */
  function Trimmed(gap: string, name: string, space: string, argument: string): string
  {
    ".." + (gap + (name + (if argument == "" then "::" else "::" + (space + argument))))
  }

  lemma {:induction false} TrimmedExact(line: string, indent: string, gap: string, name: string, space: string, argument: string, tail: string)
    requires WritesDirective(line, indent, gap, name, space, argument, tail)
    ensures LStrip(RStrip(line)) == Trimmed(gap, name, space, argument)
  {
    DotSolid();
    var last := if argument == "" then "::" else "::" + (space + argument);
    var left := if argument == "" then space + tail else tail;
    var body := Trimmed(gap, name, space, argument);
    BlankBoth(space, tail);
    assert argument != "" ==> argument[|argument| - 1] in argument;
    assert last != "" && !IsSpace(last[|last| - 1]);
    hide LStrip, RStrip, IsSpace, IsDirectiveChar, Blank;
    assert line == (indent + body) + left by { hide *; Regroup(indent, gap, name, space, argument, tail); }
    assert (indent + body)[|indent + body| - 1] == last[|last| - 1];
    RStripOnly(line, left, indent + body);
    assert body[0] == '.';
    LStripOnly(indent + body, indent, body);
  }

  lemma {:induction false} Regroup(indent: string, gap: string, name: string, space: string, argument: string, tail: string)
    ensures indent + (".." + (gap + (name + ("::" + (space + (argument + tail))))))
      == (indent + Trimmed(gap, name, space, argument)) + (if argument == "" then space + tail else tail)
  {
  }

  /** A directive line opens the block its name and argument say. */
  lemma {:induction false} DirectiveReads(line: string, indent: string, gap: string, name: string, space: string, argument: string, tail: string)
    requires WritesDirective(line, indent, gap, name, space, argument, tail)
    ensures DirectiveLang(line) ==
      if name == "code-block" then Some(argument)
      else if name in ["doctest", "testsetup", "testcode", "testcleanup"] then Some("{" + (name + "}")) else None
  {
    DotSolid();
    assert forall c :: NameChar(c) <==> IsDirectiveChar(c);
    assert name[0] in name && gap[0] in gap;
    DirectiveSolid(name[0]);
    TrimmedExact(line, indent, gap, name, space, argument, tail);
    assert argument != "" ==> argument[0] in argument;
    var last := if argument == "" then "::" else "::" + (space + argument);
    var body := Trimmed(gap, name, space, argument);
    hide RStrip, Trimmed, DirectiveBlockLang;
    TrimmedParts(gap, name, space, argument);
    LStripOnly(body[2..], gap, name + last);
    NameExact(name, last);
    assert (name + last)[|name|..] == last;
    if argument != "" { LStripOnly(last[2..], space, argument); }
    hide LStrip, DirectiveName, IsSpace, IsDirectiveChar, WritesDirective;
    BlockLangExact(name, argument);
  }

  lemma {:induction false} TrimmedParts(gap: string, name: string, space: string, argument: string)
    requires gap != "" && name != ""
    ensures var (body, last) := (Trimmed(gap, name, space, argument), if argument == "" then "::" else "::" + (space + argument));
      |body| >= 3 && body[..2] == ".." && body[2] == gap[0] && body[2..] == gap + (name + last)
      && (name + last)[0] == name[0] && |last| >= 2 && last[0] == ':' && last[..2] == "::" && last[2..] == if argument == "" then "" else space + argument
  {
  }

  lemma {:induction false} BlockLangExact(name: string, argument: string)
    ensures DirectiveBlockLang(name, argument) ==
      if name == "code-block" then Some(argument)
      else if name in ["doctest", "testsetup", "testcode", "testcleanup"] then Some("{" + (name + "}")) else None
  {
  }

  /** Any other line announces a literal block exactly if it ends in two colons. */
  lemma {:induction false} AnnouncesExact(line: string)
    ensures Announces(line) == if DirectiveLang(line).Some? then DirectiveLang(line) else if DoubleColon(line) then Some("") else None
  {
    DotSolid();
    var t := RStrip(line);
    RStripStrips(line);
    if EndsWith(t, "::") {
      var tail :| Blank(tail) && line == t + tail;
      assert t == t[..|t| - 2] + "::";
      assert line == t[..|t| - 2] + ("::" + tail);
    }
    if DoubleColon(line) {
      var head, tail :| Blank(tail) && line == head + ("::" + tail);
      assert line == (head + "::") + tail;
      RStripOnly(line, tail, head + "::");
      assert (head + "::")[|head|..] == "::";
    }
    hide RStrip, DirectiveLang;
  }

  ghost predicate DoubleColon(line: string) { exists head, tail :: Blank(tail) && line == head + ("::" + tail) }
}
