/** `CmdDisplay`: rendering a command or pipeline shell-style. Words are the lossily decoded text. */
module CmdDisplay {
  import opened PosixShell

  datatype CmdDisplay = CmdDisplay(stages: seq<Stage>, secret: bool)

  const RESERVED_WORDS: seq<string> := [
    "case", "coproc", "do", "done", "elif", "else", "esac", "fi", "for", "function", "if", "in",
    "select", "then", "time", "until", "while"]

  predicate Safe(c: char) { Letter(c) || Digit(c) || c in "_-./:@%+=," }

  predicate NeedsQuote(word: string) { word == "" || exists c :: c in word && !Safe(c) }

  /** The text before the first `=`; the whole word when there is none. */
  function BeforeEquals(word: string): (name: string)
    ensures name <= word
  {
    if word == "" || word[0] == '=' then "" else [word[0]] + BeforeEquals(word[1..])
  }

  predicate IsAssignment(word: string) {
    var name := BeforeEquals(word);
    && '=' in word
    && name != "" && (name[0] == '_' || Letter(name[0]))
    && forall c :: c in name ==> NameChar(c)
  }

  function Escaped(word: string): string {
    if word == "" then ""
    else (if word[0] == '\'' then "'\\''" else [word[0]]) + Escaped(word[1..])
  }

  function Quote(word: string): string { "'" + Escaped(word) + "'" }

  method SingleQuote(word: string) returns (out: string)
    ensures out == Quote(word)
  {
    out := "'";
    for i := 0 to |word|
      invariant out + Escaped(word[i..]) == "'" + Escaped(word)
    {
      assert word[i..][1..] == word[i + 1..];
      if word[i] == '\'' {
        out := out + "'\\''";
      } else {
        out := out + [word[i]];
      }
    }
    assert out + Escaped(word[|word|..]) == out;
    out := out + "'";
  }

  function ShellQuote(word: string): string { if NeedsQuote(word) then Quote(word) else word }

  predicate ProgramNeedsQuote(word: string) {
    NeedsQuote(word) || IsAssignment(word) || word in RESERVED_WORDS
  }

  function ShellQuoteProgram(word: string): string { if ProgramNeedsQuote(word) then Quote(word) else word }

  // ---- The `Display` loop ----

  /** The first `k` texts, each after a space. */
  function Spaced(texts: seq<string>, k: nat): string
    requires k <= |texts|
  {
    if k == 0 then "" else Spaced(texts, k - 1) + (" " + texts[k - 1])
  }

  /** The first `k` texts, with ` | ` between. */
  function Piped(texts: seq<string>, k: nat): string
    requires k <= |texts|
  {
    if k == 0 then "" else Piped(texts, k - 1) + (if k > 1 then " | " else "") + texts[k - 1]
  }

  function QuotedArgs(args: seq<string>): (r: seq<string>)
    ensures |r| == |args| && forall i :: 0 <= i < |r| ==> r[i] == ShellQuote(args[i])
  {
    seq(|args|, i requires 0 <= i < |args| => ShellQuote(args[i]))
  }

  function RenderRest(args: seq<string>, secret: bool): string {
    if secret then " <secret>" else Spaced(QuotedArgs(args), |args|)
  }

  function RenderStage(stage: Stage, secret: bool): string {
    ShellQuoteProgram(stage.program) + RenderRest(stage.args, secret)
  }

  function Parts(stages: seq<Stage>, secret: bool): (r: seq<string>)
    ensures |r| == |stages| && forall i :: 0 <= i < |r| ==> r[i] == RenderStage(stages[i], secret)
  {
    seq(|stages|, i requires 0 <= i < |stages| => RenderStage(stages[i], secret))
  }

  function Render(d: CmdDisplay): string { Piped(Parts(d.stages, d.secret), |d.stages|) }

  method WriteWord(word: string, quote: bool) returns (text: string)
    ensures text == if quote then Quote(word) else word
  {
    if quote { text := SingleQuote(word); } else { text := word; }
  }

  method WriteStage(stage: Stage, secret: bool) returns (text: string)
    ensures text == RenderStage(stage, secret)
  {
    var program := WriteWord(stage.program, ProgramNeedsQuote(stage.program));
    var rest := "";
    if secret {
      rest := " <secret>";
    } else {
      for j := 0 to |stage.args|
        invariant rest == Spaced(QuotedArgs(stage.args), j)
      {
        var arg := WriteWord(stage.args[j], NeedsQuote(stage.args[j]));
        rest := rest + (" " + arg);
      }
    }
    text := program + rest;
  }

  method Fmt(d: CmdDisplay) returns (out: string)
    ensures out == Render(d)
  {
    ghost var parts := Parts(d.stages, d.secret);
    out := "";
    for i := 0 to |d.stages|
      invariant out == Piped(parts, i)
    {
      if i > 0 { out := out + " | "; }
      var text := WriteStage(d.stages[i], d.secret);
      out := out + text;
    }
  }
}
