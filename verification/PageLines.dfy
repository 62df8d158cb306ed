/** Lines of a documentation page: indentation, fences and directives, as the scans read them. */
module PageLines {
  import opened Texts
  import opened EncodedValues

  predicate Blank(t: string) { forall c :: c in t ==> IsSpace(c) }

  function Indent(t: string): nat
  {
    if t == "" || t[0] != ' ' then 0 else 1 + Indent(t[1..])
  }

  function LStrip(t: string): string
  {
    if t == "" || !IsSpace(t[0]) then t else LStrip(t[1..])
  }

  function RStrip(t: string): string
  {
    if t == "" || !IsSpace(t[|t| - 1]) then t else RStrip(t[..|t| - 1])
  }

  predicate EndsWith(t: string, tail: string) { |tail| <= |t| && t[|t| - |tail|..] == tail }

  /** The first word of a text without leading space: `split(maxsplit=1)[0]`. */
  function FirstWord(t: string): string
  {
    if t == "" || IsSpace(t[0]) then "" else [t[0]] + FirstWord(t[1..])
  }

  function SecondWord(t: string): string
    requires |FirstWord(t)| <= |t|
  {
    FirstWord(LStrip(t[|FirstWord(t)|..]))
  }

  lemma {:induction false} WordInside(t: string)
    ensures |FirstWord(t)| <= |t|
  {
    if t != "" && !IsSpace(t[0]) { WordInside(t[1..]); }
  }

  /** How many times `t` repeats `c` at its start. */
  function RunLength(t: string, c: char): (r: nat)
    ensures r <= |t|
  {
    if t == "" || t[0] != c then 0 else 1 + RunLength(t[1..], c)
  }

  datatype Fence = Fence(ticks: nat, mark: char, info: string)

  /** The fence a line writes: three or more backticks, tildes or colons, then an info string. */
  function FenceOf(line: string): Option<Fence>
  {
    var t := LStrip(line);
    if t == "" || t[0] !in "`~:" || RunLength(t, t[0]) < 3 then None
    else
      var ticks := RunLength(t, t[0]);
      Some(Fence(ticks, t[0], RStrip(LStrip(t[ticks..]))))
  }

  /** `line` closes a fence of `mark` repeated `ticks` times. */
  predicate FenceCloses(line: string, ticks: nat, mark: char)
  {
    var fence := FenceOf(line);
    fence.Some? && fence.value.info == "" && fence.value.mark == mark && fence.value.ticks >= ticks
  }

  /** The effective code language of a fence. */
  function FrameLang(info: string, mark: char): string
  {
    WordInside(info);
    if mark == ':' && !(StartsWith(info, "{") && EndsWith(FirstWord(info), "}")) then ":::"
    else if FirstWord(info) == "{code-block}" then SecondWord(info)
    else FirstWord(info)
  }

  predicate IsDisplay(lang: string) { lang == "markdown" || lang == "md" }

  predicate IsLiteralDirective(word: string)
  {
    word in ["{code-block}", "{code}", "{sourcecode}", "{doctest}", "{testsetup}", "{testcode}", "{testcleanup}",
             "{literalinclude}"]
  }

  /** A fence whose content is literal text. */
  predicate IsLiteral(info: string, lang: string)
  {
    if lang == ":::" || IsDisplay(lang) then false
    else if StartsWith(FirstWord(info), "{") then IsLiteralDirective(FirstWord(info))
    else true
  }

  // --- RST ---------------------------------------------------------------------------------

  predicate IsDirectiveChar(c: char) { IsNameStart(c) || IsDigit(c) || c == '-' }

  function DirectiveName(t: string): (r: string)
    ensures |r| <= |t|
  {
    if t == "" || !IsDirectiveChar(t[0]) then "" else [t[0]] + DirectiveName(t[1..])
  }

  function DirectiveBlockLang(name: string, argument: string): Option<string>
  {
    if name == "code-block" then Some(argument)
    else if name in ["doctest", "testsetup", "testcode", "testcleanup"] then Some("{" + (name + "}"))
    else None
  }

  /** The language of the block a `.. <name>:: <argument>` line opens. */
  function DirectiveLang(line: string): Option<string>
  {
    var t := LStrip(RStrip(line));
    if |t| < 3 || t[..2] != ".." || !IsSpace(t[2]) then None
    else
      var rest := LStrip(t[2..]);
      var name := DirectiveName(rest);
      var after := rest[|name|..];
      if name == "" || !StartsWith(after, "::") then None
      else
        var argument := LStrip(after[2..]);
        if exists c :: c in argument && IsSpace(c) then None else DirectiveBlockLang(name, argument)
  }

  /** The language of the literal block an RST line announces, if it does. */
  function Announces(line: string): Option<string>
  {
    var lang := DirectiveLang(line);
    if lang.Some? then lang else if EndsWith(RStrip(line), "::") then Some("") else None
  }

  predicate StartsDoctest(line: string) { StartsWith(LStrip(line), ">>>") }

  lemma {:induction false} StripBlank(t: string)
    ensures Blank(t) <==> LStrip(t) == ""
  {
    if t != "" {
      StripBlank(t[1..]);
      assert t == [t[0]] + t[1..];
    }
  }
}
