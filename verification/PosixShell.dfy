/** How a shell reads a command line: the POSIX.1-2017 Shell Command Language, with bash as a
    second dialect. Quoting is section 2.2, token recognition 2.3, reserved words 2.4, and the
    grammar rules for the first word of a command 2.10.2. Nothing here knows of the renderer. */
module PosixShell {
  import opened Types

  /** Some words the standard leaves to each shell, to read as a command name or as something else:
      `claims` says which ones a POSIX shell takes for something else. */
  datatype Dialect = Posix(claims: seq<Piece> -> bool) | Bash

  /** A character of a word, quoted or not, or a quoting character itself, which quote removal
      (section 2.6.7) drops. */
  datatype Piece = Plain(c: char) | Quoted(c: char) | Mark

  /** The operators of section 2.10.2, and bash's own. */
  datatype Op =
    | Newline | And | Semi | Pipe | LParen | RParen | Less | Great
    | AndIf | OrIf | DSemi | DLess | DGreat | LessAnd | GreatAnd | LessGreat | DLessDash | Clobber
    | PipeAnd | AndGreat | AndDGreat | TLess | SemiAnd | DSemiAnd

  datatype Token = Word(pieces: seq<Piece>) | Operator(op: Op)

  // ---- Token recognition ----

  datatype Resume = ResumeStart | ResumeWord | ResumeOperator(op: Op)

  datatype Mode =
    | Start
    | InWord
    | InOperator(op: Op)
    | InSingle
    | InDouble
    | AfterBackslash(resume: Resume)
    | AfterBackslashInDouble
    | InComment
    | Unsupported     // a `$` or backquote expansion, whose result is not in the text

  datatype Lexer = Lexer(mode: Mode, word: seq<Piece>, tokens: seq<Token>)

  predicate Blank(c: char) { c == ' ' || c == '\t' }

  /** The operator a character starts. */
  function FirstOp(c: char): Option<Op> {
    if c == '|' then Some(Pipe) else if c == '<' then Some(Less) else if c == '>' then Some(Great)
    else if c == '&' then Some(And) else if c == ';' then Some(Semi)
    else if c == '(' then Some(LParen) else if c == ')' then Some(RParen) else None
  }

  /** The longer operator a character makes of one. */
  function Extend(d: Dialect, op: Op, c: char): Option<Op> {
    match op
    case And => if c == '&' then Some(AndIf) else if c == '>' && d.Bash? then Some(AndGreat) else None
    case Pipe => if c == '|' then Some(OrIf) else if c == '&' && d.Bash? then Some(PipeAnd) else None
    case Semi => if c == ';' then Some(DSemi) else if c == '&' && d.Bash? then Some(SemiAnd) else None
    case DSemi => if c == '&' && d.Bash? then Some(DSemiAnd) else None
    case Less =>
      if c == '<' then Some(DLess) else if c == '&' then Some(LessAnd) else if c == '>' then Some(LessGreat) else None
    case Great =>
      if c == '>' then Some(DGreat) else if c == '&' then Some(GreatAnd) else if c == '|' then Some(Clobber) else None
    case DLess => if c == '-' then Some(DLessDash) else if c == '<' && d.Bash? then Some(TLess) else None
    case AndGreat => if c == '>' then Some(AndDGreat) else None
    case _ => None
  }

  function Emit(s: Lexer, t: Token): Lexer { Lexer(Start, [], s.tokens + [t]) }

  /** A character that is part of a word, in or at the start of one. */
  function Continue(s: Lexer, c: char, resume: Resume): Lexer {
    if c == '\'' then s.(mode := InSingle, word := s.word + [Mark])
    else if c == '"' then s.(mode := InDouble, word := s.word + [Mark])
    else if c == '\\' then s.(mode := AfterBackslash(resume))
    else if c == '$' || c == '`' then s.(mode := Unsupported)
    else s.(mode := InWord, word := s.word + [Plain(c)])
  }

  /** A character outside any token. */
  function Begin(s: Lexer, c: char): Lexer {
    if Blank(c) then s.(mode := Start)
    else if c == '\n' then Emit(s, Operator(Newline))
    else if c == '#' then s.(mode := InComment)
    else if FirstOp(c).Some? then s.(mode := InOperator(FirstOp(c).value))
    else Continue(s.(word := []), c, ResumeStart)
  }

  function Step(d: Dialect, s: Lexer, c: char): Lexer {
    match s.mode
    case Start => Begin(s, c)
    case InWord =>
      if Blank(c) || c == '\n' || FirstOp(c).Some? then Begin(Emit(s, Word(s.word)), c)
      else Continue(s, c, ResumeWord)
    case InOperator(op) =>
      if Extend(d, op, c).Some? then s.(mode := InOperator(Extend(d, op, c).value))
      else if c == '\\' then s.(mode := AfterBackslash(ResumeOperator(op)))
      else Begin(Emit(s, Operator(op)), c)
    case InSingle =>
      if c == '\'' then s.(mode := InWord, word := s.word + [Mark])
      else s.(word := s.word + [Quoted(c)])
    case InDouble =>
      if c == '"' then s.(mode := InWord, word := s.word + [Mark])
      else if c == '\\' then s.(mode := AfterBackslashInDouble)
      else if c == '$' || c == '`' then s.(mode := Unsupported)
      else s.(word := s.word + [Quoted(c)])
    case AfterBackslash(resume) =>
      if c == '\n' then
        s.(mode := match resume
                   case ResumeStart => Start
                   case ResumeWord => InWord
                   case ResumeOperator(op) => InOperator(op))
      else
        var begun := if resume.ResumeOperator? then Emit(s, Operator(resume.op)) else s;
        begun.(mode := InWord, word := (if resume.ResumeWord? then s.word else []) + [Mark, Quoted(c)])
    case AfterBackslashInDouble =>
      var back := s.(mode := InDouble);
      if c == '\n' then back
      else if c in "$`\"\\" then back.(word := s.word + [Mark, Quoted(c)])
      else back.(word := s.word + [Quoted('\\'), Quoted(c)])
    case InComment => if c == '\n' then Emit(s, Operator(Newline)) else s
    case Unsupported => s
  }

  function Scan(d: Dialect, s: Lexer, text: string): Lexer
    decreases |text|
  {
    if text == "" then s else Scan(d, Step(d, s, text[0]), text[1..])
  }

  /** The tokens at the end of the input; `None` inside a quote, after a last backslash, or past
      an expansion. */
  function Finish(s: Lexer): Option<seq<Token>> {
    match s.mode
    case Start => Some(s.tokens)
    case InComment => Some(s.tokens)
    case InWord => Some(s.tokens + [Word(s.word)])
    case InOperator(op) => Some(s.tokens + [Operator(op)])
    case _ => None
  }

  const INITIAL := Lexer(Start, [], [])

  function Lex(d: Dialect, line: string): Option<seq<Token>> { Finish(Scan(d, INITIAL, line)) }

  // ---- Grammar ----

  datatype Stage = Stage(program: string, args: seq<string>)

  /** Quote removal. */
  function Value(pieces: seq<Piece>): string {
    if pieces == [] then ""
    else (if pieces[0].Mark? then "" else [pieces[0].c]) + Value(pieces[1..])
  }

  predicate AllPlain(pieces: seq<Piece>) { forall p :: p in pieces ==> p.Plain? }

  /** An unquoted character that may start a pathname, tilde, brace or history expansion, so that
      the word need not stand for itself. */
  predicate Expands(d: Dialect, pieces: seq<Piece>) {
    exists p :: p in pieces && p.Plain? && (p.c in "*?[~" || (d.Bash? && p.c in "{}!^"))
  }

  predicate Letter(c: char) { 'a' <= c <= 'z' || 'A' <= c <= 'Z' }

  predicate Digit(c: char) { '0' <= c <= '9' }

  predicate NameChar(c: char) { c == '_' || Letter(c) || Digit(c) }

  function NameLength(pieces: seq<Piece>): (n: nat)
    ensures n <= |pieces|
  {
    if pieces != [] && pieces[0].Plain? && NameChar(pieces[0].c) then 1 + NameLength(pieces[1..]) else 0
  }

  const RESERVED: set<string> :=
    {"!", "{", "}", "case", "do", "done", "elif", "else", "esac", "fi", "for", "if", "in", "then", "until", "while"}

  const RESERVED_IN_BASH: set<string> := {"[[", "]]", "coproc", "function", "select", "time"}

  /** Section 2.4 lets a shell reserve these too. */
  const MAY_BE_RESERVED: set<string> := {"[[", "]]", "function", "select"}

  /** The first `n` pieces, which are name characters, are a name. */
  predicate Name(pieces: seq<Piece>, n: nat)
    requires n <= |pieces|
  {
    n > 0 && pieces[0].Plain? && !Digit(pieces[0].c)
  }

  /** Section 2.4 reserves a name and a colon, with unspecified results. */
  predicate NameColon(pieces: seq<Piece>) {
    var n := NameLength(pieces);
    n + 1 == |pieces| && Name(pieces, n) && pieces[n] == Plain(':')
  }

  /** Quoting any part of a word stops it from being a reserved word. */
  predicate Reserved(d: Dialect, pieces: seq<Piece>) {
    && AllPlain(pieces)
    && var word := Value(pieces);
       || word in RESERVED
       || (d.Bash? && word in RESERVED_IN_BASH)
       || (d.Posix? && (word in MAY_BE_RESERVED || NameColon(pieces)) && d.claims(pieces))
  }

  /** Where the first unquoted `=` is. */
  function FirstEquals(pieces: seq<Piece>): (n: nat)
    ensures n <= |pieces|
  {
    if pieces == [] || pieces[0] == Plain('=') then 0 else 1 + FirstEquals(pieces[1..])
  }

  /** Rule 7 of section 2.10.2: `NAME=...`, and if the shell likes, any other text before the first
      `=`. Bash does not like that, but reads `NAME+=...` and `NAME[...` as assignments. */
  predicate Assignment(d: Dialect, pieces: seq<Piece>) {
    AssignmentAt(d, pieces, NameLength(pieces), FirstEquals(pieces))
  }

  predicate AssignmentAt(d: Dialect, pieces: seq<Piece>, n: nat, equals: nat)
    requires n <= |pieces| && equals <= |pieces|
  {
    || (n == equals < |pieces| && Name(pieces, n))
    || (d.Posix? && 0 < equals < |pieces| && d.claims(pieces))
    || (d.Bash? && n < |pieces| && Name(pieces, n)
        && (pieces[n] == Plain('[') || (n + 1 < |pieces| && pieces[n] == Plain('+') && pieces[n + 1] == Plain('='))))
  }

  function Values(tokens: seq<Token>): seq<string> {
    seq(|tokens|, i requires 0 <= i < |tokens| => if tokens[i].Word? then Value(tokens[i].pieces) else "")
  }

  /** A simple command of literal words, with no redirection and no assignment before the name. */
  function ParseCommand(d: Dialect, tokens: seq<Token>): Option<Stage> {
    if tokens == [] || exists t :: t in tokens && (t.Operator? || Expands(d, t.pieces)) then None
    else if Reserved(d, tokens[0].pieces) || Assignment(d, tokens[0].pieces) then None
    else Some(Stage(Value(tokens[0].pieces), Values(tokens[1..])))
  }

  /** The commands of a pipeline, between its `|` operators. */
  function SplitPipeline(tokens: seq<Token>): (r: seq<seq<Token>>)
    ensures r != []
  {
    if tokens == [] then [[]]
    else
      var n := |tokens| - 1;
      var r := SplitPipeline(tokens[..n]);
      if tokens[n] == Operator(Pipe) then r + [[]] else r[..|r| - 1] + [r[|r| - 1] + [tokens[n]]]
  }

  function ParseAll(d: Dialect, commands: seq<seq<Token>>): Option<seq<Stage>> {
    if forall i :: 0 <= i < |commands| ==> ParseCommand(d, commands[i]).Some? then
      Some(seq(|commands|, i requires 0 <= i < |commands| => ParseCommand(d, commands[i]).value))
    else None
  }

  /** The argv of every stage, if the line is one pipeline of literal simple commands. */
  function Read(d: Dialect, line: string): Option<seq<Stage>> {
    var tokens := Lex(d, line);
    if tokens.None? then None else ParseAll(d, SplitPipeline(tokens.value))
  }
}
