/** A rendered command line, read by a shell, gives back the argv of every stage. */
module RenderProofs {
  import opened Types
  import opened PosixShell
  import opened CmdDisplay

  // ---- Scanning ----

  lemma {:induction false} ScanAppend(d: Dialect, s: Lexer, a: string, b: string)
    ensures Scan(d, s, a + b) == Scan(d, Scan(d, s, a), b)
    decreases |a|
  {
    if a == "" {
      assert a + b == b;
    } else {
      ScanAppend(d, Step(d, s, a[0]), a[1..], b);
      assert (a + b)[1..] == a[1..] + b;
    }
  }

  lemma Regroup<T>(a: seq<T>, b: seq<T>, c: seq<T>)
    ensures a + b + c == a + (b + c)
  {
  }

  lemma Ungroup<T>(a: seq<T>)
    ensures [] + [] + a == a && [] + a == a
  {
  }

  lemma ScanThen(d: Dialect, s: Lexer, a: string, m: Lexer, b: string, e: Lexer)
    requires Scan(d, s, a) == m && Scan(d, m, b) == e
    ensures Scan(d, s, a + b) == e
  {
    ScanAppend(d, s, a, b);
  }

  lemma ScanChar(d: Dialect, s: Lexer, c: char)
    ensures Scan(d, s, [c]) == Step(d, s, c)
  {
    assert [c][1..] == "";
  }

  /** The lexer at the end of the tokens `ts`, before anything has delimited the last. */
  function After(ts: seq<Token>): Lexer
    requires ts != []
  {
    var n := |ts| - 1;
    match ts[n]
    case Word(pieces) => Lexer(InWord, pieces, ts[..n])
    case Operator(op) => Lexer(InOperator(op), [], ts[..n])
  }

  /** The lexer between tokens. */
  function Between(ts: seq<Token>): Lexer { Lexer(Start, [], ts) }

  lemma SpaceDelimits(d: Dialect, ts: seq<Token>)
    requires ts != []
    ensures Scan(d, After(ts), " ") == Between(ts)
    ensures Finish(After(ts)) == Some(ts)
  {
    assert ts[..|ts| - 1] + [ts[|ts| - 1]] == ts;
    assert Scan(d, After(ts), " ") == Step(d, After(ts), ' ');
  }

  // ---- Words ----

  function PlainPieces(word: string): (r: seq<Piece>)
    ensures AllPlain(r)
  {
    if word == "" then [] else [Plain(word[0])] + PlainPieces(word[1..])
  }

  function EscapedPieces(word: string): seq<Piece> {
    if word == "" then []
    else (if word[0] == '\'' then [Mark, Mark, Quoted('\''), Mark] else [Quoted(word[0])])
         + EscapedPieces(word[1..])
  }

  function QuotePieces(word: string): seq<Piece> { [Mark] + EscapedPieces(word) + [Mark] }

  lemma StepPlain(d: Dialect, s: Lexer, c: char)
    requires s.mode == InWord && Safe(c)
    ensures Step(d, s, c) == s.(word := s.word + [Plain(c)])
  {
  }

  lemma {:induction false} ScanPlain(d: Dialect, s: Lexer, word: string)
    requires s.mode == InWord && forall c :: c in word ==> Safe(c)
    ensures Scan(d, s, word) == s.(word := s.word + PlainPieces(word))
    decreases |word|
  {
    hide Step, Safe;
    if word == "" {
      assert s.word + [] == s.word;
    } else {
      StepPlain(d, s, word[0]);
      ScanPlain(d, s.(word := s.word + [Plain(word[0])]), word[1..]);
      Regroup(s.word, [Plain(word[0])], PlainPieces(word[1..]));
    }
  }

  lemma ScanQuoteMark(d: Dialect, s: Lexer)
    requires s.mode == InSingle
    ensures Scan(d, s, "'\\''") == s.(word := s.word + [Mark, Mark, Quoted('\''), Mark])
  {
    var a := Step(d, s, '\'');
    var b := Step(d, a, '\\');
    var c := Step(d, b, '\'');
    assert c == s.(mode := InWord, word := s.word + [Mark] + [Mark, Quoted('\'')]);
    var text := "'\\''";
    assert text[1..] == "\\''" && text[2..] == "''" && text[3..] == "'" && text[4..] == "";
    assert text[1..][1..] == text[2..] && text[2..][1..] == text[3..] && text[3..][1..] == text[4..];
    assert Scan(d, s, text) == Scan(d, a, text[1..]) == Scan(d, b, text[2..]) == Scan(d, c, text[3..]);
    assert Scan(d, c, text[3..]) == Step(d, c, '\'');
    assert s.word + [Mark] + [Mark, Quoted('\'')] + [Mark] == s.word + [Mark, Mark, Quoted('\''), Mark];
  }

  function EscapedHead(c: char): string { if c == '\'' then "'\\''" else [c] }

  function HeadPieces(c: char): seq<Piece> { if c == '\'' then [Mark, Mark, Quoted('\''), Mark] else [Quoted(c)] }

  lemma ScanHead(d: Dialect, s: Lexer, c: char)
    requires s.mode == InSingle
    ensures Scan(d, s, EscapedHead(c)) == s.(word := s.word + HeadPieces(c))
  {
    if c == '\'' { ScanQuoteMark(d, s); } else { ScanChar(d, s, c); }
  }

  lemma {:induction false} ScanEscaped(d: Dialect, s: Lexer, word: string)
    requires s.mode == InSingle
    ensures Scan(d, s, Escaped(word)) == s.(word := s.word + EscapedPieces(word))
    decreases |word|
  {
    if word == "" {
      assert s.word + [] == s.word;
    } else {
      var next := s.(word := s.word + HeadPieces(word[0]));
      ScanHead(d, s, word[0]);
      ScanEscaped(d, next, word[1..]);
      ScanThen(d, s, EscapedHead(word[0]), next, Escaped(word[1..]),
               next.(word := next.word + EscapedPieces(word[1..])));
      Regroup(s.word, HeadPieces(word[0]), EscapedPieces(word[1..]));
    }
  }

  /** A word between tokens, quoted or safe and bare, is read as one word. */
  lemma ScanWord(d: Dialect, ts: seq<Token>, word: string, quote: bool)
    requires !quote ==> !NeedsQuote(word)
    ensures Scan(d, Between(ts), if quote then Quote(word) else word)
            == After(ts + [Word(if quote then QuotePieces(word) else PlainPieces(word))])
  {
    var s := Between(ts);
    if quote {
      var inside := Step(d, s, '\'');
      var body := inside.(word := [Mark] + EscapedPieces(word));
      assert inside == s.(mode := InSingle, word := [Mark]);
      assert Quote(word)[1..] == Escaped(word) + "'";
      ScanAppend(d, inside, Escaped(word), "'");
      ScanEscaped(d, inside, word);
      assert Scan(d, body, "'") == Step(d, body, '\'');
    } else {
      var first := Step(d, s, word[0]);
      assert Safe(word[0]);
      assert first == s.(mode := InWord, word := [Plain(word[0])]);
      ScanPlain(d, first, word[1..]);
    }
    assert (ts + [Word([])])[..|ts|] == ts;
  }

  // ---- The tokens of a rendered line ----

  function ProgramPieces(word: string): seq<Piece> {
    if ProgramNeedsQuote(word) then QuotePieces(word) else PlainPieces(word)
  }

  function ArgPieces(word: string): seq<Piece> {
    if NeedsQuote(word) then QuotePieces(word) else PlainPieces(word)
  }

  function ArgTokens(args: seq<string>): (ts: seq<Token>)
    ensures |ts| == |args| && forall i :: 0 <= i < |args| ==> ts[i] == Word(ArgPieces(args[i]))
  {
    seq(|args|, i requires 0 <= i < |args| => Word(ArgPieces(args[i])))
  }

  const SECRET_TOKENS: seq<Token> := [Operator(Less), Word(PlainPieces("secret")), Operator(Great)]

  function RestTokens(args: seq<string>, secret: bool): seq<Token> {
    if secret then SECRET_TOKENS else ArgTokens(args)
  }

  function StageTokens(stage: Stage, secret: bool): seq<Token> {
    [Word(ProgramPieces(stage.program))] + RestTokens(stage.args, secret)
  }

  function Commands(stages: seq<Stage>, secret: bool): (r: seq<seq<Token>>)
    ensures |r| == |stages| && forall i :: 0 <= i < |r| ==> r[i] == StageTokens(stages[i], secret)
  {
    seq(|stages|, i requires 0 <= i < |stages| => StageTokens(stages[i], secret))
  }

  /** The first `k` commands, with a `|` between. */
  function Joined(commands: seq<seq<Token>>, k: nat): (ts: seq<Token>)
    requires k <= |commands|
    ensures k > 0 && commands[k - 1] != [] ==> ts != []
  {
    if k == 0 then []
    else Joined(commands, k - 1) + (if k > 1 then [Operator(Pipe)] else []) + commands[k - 1]
  }

  function LineTokens(stages: seq<Stage>, secret: bool): seq<Token> {
    Joined(Commands(stages, secret), |stages|)
  }

  lemma ScanSpaceWord(d: Dialect, ts: seq<Token>, word: string, quote: bool)
    requires ts != [] && (!quote ==> !NeedsQuote(word))
    ensures Scan(d, After(ts), " " + if quote then Quote(word) else word)
            == After(ts + [Word(if quote then QuotePieces(word) else PlainPieces(word))])
  {
    SpaceDelimits(d, ts);
    ScanWord(d, ts, word, quote);
    ScanThen(d, After(ts), " ", Between(ts), if quote then Quote(word) else word,
             After(ts + [Word(if quote then QuotePieces(word) else PlainPieces(word))]));
  }

  ghost predicate Leads(d: Dialect, s: Lexer, text: string, t: Lexer) { Scan(d, s, " " + text) == t }

  lemma {:induction false} ScanSpaced(d: Dialect, texts: seq<string>, states: seq<Lexer>, k: nat)
    requires k <= |texts| < |states|
    requires forall i, j :: 0 <= i < |texts| && j == i + 1 ==> Leads(d, states[i], texts[i], states[j])
    ensures Scan(d, states[0], Spaced(texts, k)) == states[k]
  {
    if k > 0 {
      ScanSpaced(d, texts, states, k - 1);
      assert Leads(d, states[k - 1], texts[k - 1], states[k]);
      ScanThen(d, states[0], Spaced(texts, k - 1), states[k - 1], " " + texts[k - 1], states[k]);
    }
  }

  /** After any token, a space and `text` are read as the one word `t`. */
  ghost predicate ReadAs(d: Dialect, text: string, t: Token) {
    forall ts: seq<Token> :: ts != [] ==> Leads(d, After(ts), text, After(ts + [t]))
  }

  lemma ArgReadAs(d: Dialect, arg: string)
    ensures ReadAs(d, ShellQuote(arg), Word(ArgPieces(arg)))
  {
    forall ts: seq<Token> | ts != []
      ensures Leads(d, After(ts), ShellQuote(arg), After(ts + [Word(ArgPieces(arg))]))
    {
      ScanSpaceWord(d, ts, arg, NeedsQuote(arg));
    }
  }

  function States(ts: seq<Token>, words: seq<Token>): (r: seq<Lexer>)
    requires ts != []
    ensures |r| == |words| + 1 && forall i :: 0 <= i <= |words| ==> r[i] == After(ts + words[..i])
  {
    seq(|words| + 1, i requires 0 <= i <= |words| => After(ts + words[..i]))
  }

  lemma WordLeads(d: Dialect, ts: seq<Token>, text: string, words: seq<Token>, i: nat)
    requires ts != [] && i < |words| && ReadAs(d, text, words[i])
    ensures Leads(d, After(ts + words[..i]), text, After(ts + words[..i + 1]))
  {
    assert ts + words[..i + 1] == ts + words[..i] + [words[i]];
  }

  lemma ScanWords(d: Dialect, ts: seq<Token>, texts: seq<string>, words: seq<Token>)
    requires ts != [] && |texts| == |words|
    requires forall i :: 0 <= i < |texts| ==> ReadAs(d, texts[i], words[i])
    ensures Scan(d, After(ts), Spaced(texts, |texts|)) == After(ts + words)
  {
    var states := States(ts, words);
    forall i, j | 0 <= i < |texts| && j == i + 1
      ensures Leads(d, states[i], texts[i], states[j])
    {
      WordLeads(d, ts, texts[i], words, i);
    }
    ScanSpaced(d, texts, states, |texts|);
    assert words[..|texts|] == words && ts + words[..0] == ts;
  }

  lemma ScanArgs(d: Dialect, ts: seq<Token>, args: seq<string>)
    requires ts != []
    ensures Scan(d, After(ts), Spaced(QuotedArgs(args), |args|)) == After(ts + ArgTokens(args))
  {
    forall i | 0 <= i < |args| ensures ReadAs(d, QuotedArgs(args)[i], ArgTokens(args)[i]) { ArgReadAs(d, args[i]); }
    ScanWords(d, ts, QuotedArgs(args), ArgTokens(args));
  }

  lemma ScanLess(d: Dialect, ts: seq<Token>)
    requires ts != []
    ensures Scan(d, After(ts), " <s") == Lexer(InWord, [Plain('s')], ts + [Operator(Less)])
  {
    var less := Lexer(InOperator(Less), [], ts);
    SpaceDelimits(d, ts);
    ScanChar(d, Between(ts), '<');
    ScanChar(d, less, 's');
    ScanThen(d, After(ts), " ", Between(ts), "<", less);
    ScanThen(d, After(ts), " <", less, "s", Lexer(InWord, [Plain('s')], ts + [Operator(Less)]));
  }

  lemma ScanSecretWord(d: Dialect, ts: seq<Token>)
    requires ts != []
    ensures Scan(d, After(ts), " <secret") == Lexer(InWord, PlainPieces("secret"), ts + [Operator(Less)])
  {
    var first := Lexer(InWord, [Plain('s')], ts + [Operator(Less)]);
    ScanLess(d, ts);
    ScanPlain(d, first, "ecret");
    hide Step, Scan;
    assert "secret"[1..] == "ecret";
    ScanThen(d, After(ts), " <s", first, "ecret", first.(word := PlainPieces("secret")));
    assert " <s" + "ecret" == " <secret";
  }

  lemma ScanRest(d: Dialect, ts: seq<Token>, args: seq<string>, secret: bool)
    requires ts != []
    ensures Scan(d, After(ts), RenderRest(args, secret)) == After(ts + RestTokens(args, secret))
  {
    if secret {
      var word := PlainPieces("secret");
      var last := Lexer(InWord, word, ts + [Operator(Less)]);
      var all := ts + SECRET_TOKENS;
      ScanSecretWord(d, ts);
      ScanChar(d, last, '>');
      assert all[..|all| - 1] == ts + [Operator(Less)] + [Word(word)];
      ScanThen(d, After(ts), " <secret", last, ">", After(all));
      assert " <secret" + ">" == " <secret>";
    } else {
      ScanArgs(d, ts, args);
    }
  }

  lemma ScanProgram(d: Dialect, ts: seq<Token>, program: string)
    ensures Scan(d, Between(ts), ShellQuoteProgram(program)) == After(ts + [Word(ProgramPieces(program))])
  {
    ScanWord(d, ts, program, ProgramNeedsQuote(program));
  }

  lemma ScanBoth(d: Dialect, ts: seq<Token>, text: string, word: Token, rest: string, tokens: seq<Token>)
    requires Scan(d, Between(ts), text) == After(ts + [word])
    requires Scan(d, After(ts + [word]), rest) == After(ts + [word] + tokens)
    ensures Scan(d, Between(ts), text + rest) == After(ts + ([word] + tokens))
  {
    ScanThen(d, Between(ts), text, After(ts + [word]), rest, After(ts + [word] + tokens));
    assert ts + [word] + tokens == ts + ([word] + tokens);
  }

  lemma ScanStage(d: Dialect, ts: seq<Token>, stage: Stage, secret: bool)
    ensures Scan(d, Between(ts), RenderStage(stage, secret)) == After(ts + StageTokens(stage, secret))
  {
    var word := Word(ProgramPieces(stage.program));
    ScanProgram(d, ts, stage.program);
    ScanRest(d, ts + [word], stage.args, secret);
    ScanBoth(d, ts, ShellQuoteProgram(stage.program), word,
             RenderRest(stage.args, secret), RestTokens(stage.args, secret));
  }

  lemma ScanPipe(d: Dialect, ts: seq<Token>)
    requires ts != []
    ensures Scan(d, After(ts), " | ") == Between(ts + [Operator(Pipe)])
  {
    var pipe := Lexer(InOperator(Pipe), [], ts);
    SpaceDelimits(d, ts);
    ScanChar(d, Between(ts), '|');
    ScanThen(d, After(ts), " ", Between(ts), "|", pipe);
    ScanChar(d, pipe, ' ');
    ScanThen(d, After(ts), " |", pipe, " ", Between(ts + [Operator(Pipe)]));
    assert " |" + " " == " | ";
  }

  /** Between tokens, `text` is read as the tokens `c`. */
  ghost predicate ReadAsAll(d: Dialect, text: string, c: seq<Token>) {
    c != [] && forall ts: seq<Token> :: Scan(d, Between(ts), text) == After(ts + c)
  }

  lemma StageReadAs(d: Dialect, stage: Stage, secret: bool)
    ensures ReadAsAll(d, RenderStage(stage, secret), StageTokens(stage, secret))
  {
    forall ts: seq<Token>
      ensures Scan(d, Between(ts), RenderStage(stage, secret)) == After(ts + StageTokens(stage, secret))
    {
      ScanStage(d, ts, stage, secret);
    }
  }

  ghost predicate PipeLeads(d: Dialect, s: Lexer, text: string, t: Lexer) { Scan(d, s, " | " + text) == t }

  lemma CommandLeads(d: Dialect, ts: seq<Token>, text: string, c: seq<Token>)
    requires ts != [] && ReadAsAll(d, text, c)
    ensures PipeLeads(d, After(ts), text, After(ts + [Operator(Pipe)] + c))
  {
    ScanPipe(d, ts);
    ScanThen(d, After(ts), " | ", Between(ts + [Operator(Pipe)]), text, After(ts + [Operator(Pipe)] + c));
  }

  lemma {:induction false} ScanPiped(d: Dialect, s: Lexer, texts: seq<string>, states: seq<Lexer>, k: nat)
    requires 0 < k <= |texts| == |states| && Scan(d, s, texts[0]) == states[0]
    requires forall i, j :: 0 <= i && j == i + 1 && j < |texts| ==> PipeLeads(d, states[i], texts[j], states[j])
    ensures Scan(d, s, Piped(texts, k)) == states[k - 1]
  {
    if k == 1 {
      Ungroup(texts[0]);
    } else {
      ScanPiped(d, s, texts, states, k - 1);
      assert PipeLeads(d, states[k - 2], texts[k - 1], states[k - 1]);
      Regroup(Piped(texts, k - 1), " | ", texts[k - 1]);
      ScanThen(d, s, Piped(texts, k - 1), states[k - 2], " | " + texts[k - 1], states[k - 1]);
    }
  }

  /** The lexer after each command in turn. */
  function Ends(commands: seq<seq<Token>>): (r: seq<Lexer>)
    requires forall i :: 0 <= i < |commands| ==> commands[i] != []
    ensures |r| == |commands| && forall i :: 0 <= i < |r| ==> r[i] == After(Joined(commands, i + 1))
  {
    seq(|commands|, i requires 0 <= i < |commands| => After(Joined(commands, i + 1)))
  }

  lemma ScanCommands(d: Dialect, texts: seq<string>, commands: seq<seq<Token>>)
    requires 0 < |texts| == |commands|
    requires forall i :: 0 <= i < |texts| ==> commands[i] != [] && ReadAsAll(d, texts[i], commands[i])
    ensures Joined(commands, |commands|) != []
    ensures Scan(d, INITIAL, Piped(texts, |texts|)) == After(Joined(commands, |commands|))
  {
    var states := Ends(commands);
    assert ReadAsAll(d, texts[0], commands[0]);
    Ungroup(commands[0]);
    assert Joined(commands, 0) == [] && Joined(commands, 1) == commands[0];
    assert Scan(d, Between([]), texts[0]) == After([] + commands[0]);
    forall i, j | 0 <= i && j == i + 1 && j < |texts|
      ensures PipeLeads(d, states[i], texts[j], states[j])
    {
      assert commands[i] != [] && ReadAsAll(d, texts[j], commands[j]);
      CommandLeads(d, Joined(commands, i + 1), texts[j], commands[j]);
    }
    ScanPiped(d, INITIAL, texts, states, |texts|);
  }

  lemma LexesTo(d: Dialect, stages: seq<Stage>, secret: bool)
    requires stages != []
    ensures Lex(d, Render(CmdDisplay(stages, secret))) == Some(LineTokens(stages, secret))
  {
    var texts, commands := Parts(stages, secret), Commands(stages, secret);
    forall i | 0 <= i < |stages| ensures ReadAsAll(d, texts[i], commands[i]) { StageReadAs(d, stages[i], secret); }
    ScanCommands(d, texts, commands);
    SpaceDelimits(d, LineTokens(stages, secret));
  }

  // ---- What the words mean ----

  lemma {:induction false} ValueAppend(a: seq<Piece>, b: seq<Piece>)
    ensures Value(a + b) == Value(a) + Value(b)
  {
    if a == [] {
      assert a + b == b;
    } else {
      var head := if a[0].Mark? then "" else [a[0].c];
      ValueAppend(a[1..], b);
      assert (a + b)[1..] == a[1..] + b;
      assert Value(a + b) == head + (Value(a[1..]) + Value(b));
    }
  }

  lemma {:induction false} PlainMeans(word: string)
    ensures Value(PlainPieces(word)) == word && |PlainPieces(word)| == |word|
    ensures forall i :: 0 <= i < |word| ==> PlainPieces(word)[i] == Plain(word[i])
  {
    if word != "" { PlainMeans(word[1..]); }
  }

  lemma {:induction false} EscapedMeans(word: string)
    ensures Value(EscapedPieces(word)) == word
    ensures forall p :: p in EscapedPieces(word) ==> !p.Plain?
  {
    if word != "" {
      EscapedMeans(word[1..]);
      var head := if word[0] == '\'' then [Mark, Mark, Quoted('\''), Mark] else [Quoted(word[0])];
      ValueAppend(head, EscapedPieces(word[1..]));
      assert Value(head) == [word[0]] by {
        assert [Mark, Mark, Quoted('\''), Mark][1..] == [Mark, Quoted('\''), Mark];
        assert [Mark, Quoted('\''), Mark][1..] == [Quoted('\''), Mark];
      }
    }
  }

  lemma QuoteMeans(word: string)
    ensures Value(QuotePieces(word)) == word
    ensures forall p :: p in QuotePieces(word) ==> !p.Plain?
    ensures QuotePieces(word) != [] && NameLength(QuotePieces(word)) == 0
  {
    EscapedMeans(word);
    ValueAppend([Mark] + EscapedPieces(word), [Mark]);
    ValueAppend([Mark], EscapedPieces(word));
    assert QuotePieces(word)[0] == Mark;
  }

  /** No rendered word holds an unquoted character that a shell would expand. */
  lemma NoExpansion(d: Dialect, word: string, quote: bool)
    requires !quote ==> !NeedsQuote(word)
    ensures !Expands(d, if quote then QuotePieces(word) else PlainPieces(word))
  {
    if quote {
      QuoteMeans(word);
    } else {
      PlainMeans(word);
      forall p | p in PlainPieces(word) ensures Safe(p.c) {
        var i :| 0 <= i < |word| && PlainPieces(word)[i] == p;
        assert word[i] in word;
      }
    }
  }

  // ---- Command position ----

  /** Every word that POSIX reserves or lets a shell reserve, or that bash does, is quoted as a
      program: listed, or not made of safe characters. */
  lemma ReservedAreQuoted(word: string)
    requires word in RESERVED + RESERVED_IN_BASH + MAY_BE_RESERVED
    ensures ProgramNeedsQuote(word)
  {
    if word == "!" { assert !Safe(word[0]); }
    else if word == "{" { assert !Safe(word[0]); }
    else if word == "}" { assert !Safe(word[0]); }
    else if word == "[[" { assert !Safe(word[0]); }
    else if word == "]]" { assert !Safe(word[0]); }
    else {
      assert RESERVED_WORDS[0] == "case" && RESERVED_WORDS[1] == "coproc" && RESERVED_WORDS[2] == "do"
        && RESERVED_WORDS[3] == "done" && RESERVED_WORDS[4] == "elif" && RESERVED_WORDS[5] == "else"
        && RESERVED_WORDS[6] == "esac" && RESERVED_WORDS[7] == "fi" && RESERVED_WORDS[8] == "for"
        && RESERVED_WORDS[9] == "function" && RESERVED_WORDS[10] == "if" && RESERVED_WORDS[11] == "in"
        && RESERVED_WORDS[12] == "select" && RESERVED_WORDS[13] == "then" && RESERVED_WORDS[14] == "time"
        && RESERVED_WORDS[15] == "until" && RESERVED_WORDS[16] == "while";
    }
  }

  /** Length of the longest prefix of name characters. */
  function NamePrefix(word: string): (n: nat)
    ensures n <= |word|
  {
    if word != "" && NameChar(word[0]) then 1 + NamePrefix(word[1..]) else 0
  }

  predicate PrefixIs(word: string, n: nat) {
    && n <= |word| && (forall i :: 0 <= i < n ==> NameChar(word[i]))
    && (n < |word| ==> !NameChar(word[n]))
  }

  lemma {:induction false} NamePrefixIs(word: string)
    ensures PrefixIs(word, NamePrefix(word)) && NameLength(PlainPieces(word)) == NamePrefix(word)
  {
    if word != "" && NameChar(word[0]) { NamePrefixIs(word[1..]); }
  }

  /** `name` is what comes before the first `=`, if there is one. */
  predicate EqualsIs(word: string, name: string) {
    && name <= word && '=' !in name
    && ('=' in word <==> name != word) && (name != word ==> word[|name|] == '=')
  }

  lemma {:induction false} BeforeEqualsIs(word: string)
    ensures EqualsIs(word, BeforeEquals(word)) && FirstEquals(PlainPieces(word)) == |BeforeEquals(word)|
  {
    if word != "" && word[0] != '=' {
      BeforeEqualsIs(word[1..]);
      assert word == [word[0]] + word[1..];
    }
  }

  lemma NameBeforeEquals(word: string, name: string, n: nat)
    requires PrefixIs(word, n) && EqualsIs(word, name) && '=' in word
    ensures n <= |name| && (n == |name| <==> forall c :: c in name ==> NameChar(c))
  {
    if n < |name| { assert name[n] == word[n] && name[n] in name; }
  }

  lemma IsAssignmentAt(word: string)
    ensures IsAssignment(word) <==>
            '=' in word && NamePrefix(word) == |BeforeEquals(word)| > 0 && !Digit(word[0])
  {
    NamePrefixIs(word);
    BeforeEqualsIs(word);
    if '=' in word {
      NameBeforeEquals(word, BeforeEquals(word), NamePrefix(word));
      if NamePrefix(word) > 0 { assert NameChar(word[0]); }
    }
  }

  ghost predicate EveryShell(pieces: seq<Piece>) {
    forall claims: seq<Piece> -> bool :: Assignment(Posix(claims), pieces)
  }

  ghost predicate SomeShell(pieces: seq<Piece>) {
    exists claims: seq<Piece> -> bool :: Assignment(Posix(claims), pieces)
  }

  predicate ClaimsNone(pieces: seq<Piece>) { false }

  predicate ClaimsAll(pieces: seq<Piece>) { true }

  lemma PosixAssignmentIs(claims: seq<Piece> -> bool, word: string)
    ensures Assignment(Posix(claims), PlainPieces(word)) <==>
            IsAssignment(word) || ('=' in word && word[0] != '=' && claims(PlainPieces(word)))
  {
    NamePrefixIs(word);
    BeforeEqualsIs(word);
    IsAssignmentAt(word);
    PlainMeans(word);
  }

  /** `is_assignment` picks out the bare words that rule 7 of section 2.10.2 makes assignments in
      every shell. The rule lets a shell add the others that have a `=` past the first character. */
  lemma IsAssignmentIsRule7(word: string)
    ensures IsAssignment(word) <==> EveryShell(PlainPieces(word))
    ensures '=' in word && word[0] != '=' <==> SomeShell(PlainPieces(word))
  {
    var pieces, maybe := PlainPieces(word), '=' in word && word[0] != '=';
    IsAssignmentMaybe(word);
    forall claims: seq<Piece> -> bool
      ensures Assignment(Posix(claims), pieces) <==> IsAssignment(word) || (maybe && claims(pieces))
    {
      PosixAssignmentIs(claims, word);
    }
    hide Assignment, IsAssignment;
    assert Assignment(Posix(ClaimsNone), pieces) <==> IsAssignment(word);
    assert Assignment(Posix(ClaimsAll), pieces) <==> maybe;
  }

  lemma IsAssignmentMaybe(word: string)
    ensures IsAssignment(word) ==> '=' in word && word[0] != '='
  {
    IsAssignmentAt(word);
    BeforeEqualsIs(word);
  }

  /** `NAME+=`, which bash reads as an assignment. */
  predicate Appends(word: string) { AppendsAt(word, NamePrefix(word)) }

  predicate AppendsAt(word: string, n: nat) {
    0 < n < |word| - 1 && !Digit(word[0]) && word[n] == '+' && word[n + 1] == '='
  }

  predicate NameThenColon(word: string) { ColonAt(word, NamePrefix(word)) }

  predicate ColonAt(word: string, n: nat) {
    0 < n == |word| - 1 && !Digit(word[0]) && word[n] == ':'
  }

  /** A `=` past the first character, after text that is not a name. */
  predicate EqualsAfterNonName(word: string) {
    '=' in word && word[0] != '=' && !(NamePrefix(word) == |BeforeEquals(word)| && !Digit(word[0]))
  }

  /** The programs that are printed bare although the standard leaves them to the shell. */
  predicate LeftOpen(word: string) { !NeedsQuote(word) && (NameThenColon(word) || EqualsAfterNonName(word)) }

  /** The shell does not take the printed program for a command name. */
  predicate ReadsAway(d: Dialect, word: string) {
    match d
    case Posix(claims) => LeftOpen(word) && claims(PlainPieces(word))
    case Bash => Appends(word) && !NeedsQuote(word)
  }

  lemma {:induction false} FirstEqualsQuoted(pieces: seq<Piece>)
    requires forall p :: p in pieces ==> !p.Plain?
    ensures FirstEquals(pieces) == |pieces|
  {
    if pieces != [] { FirstEqualsQuoted(pieces[1..]); }
  }

  lemma QuotedReadsAsCommand(d: Dialect, word: string)
    ensures !Reserved(d, QuotePieces(word)) && !Assignment(d, QuotePieces(word))
  {
    QuoteMeans(word);
    FirstEqualsQuoted(QuotePieces(word));
    assert QuotePieces(word)[0] in QuotePieces(word);
  }

  lemma BashAssignmentAt(word: string, pieces: seq<Piece>, n: nat, equals: nat)
    requires |pieces| == |word| && forall i :: 0 <= i < |word| ==> pieces[i] == Plain(word[i])
    requires n <= |word| && equals <= |word| && '[' !in word
    ensures AssignmentAt(Bash, pieces, n, equals) <==>
            (n == equals < |word| && n > 0 && !Digit(word[0])) || AppendsAt(word, n)
  {
    if n < |word| { assert word[n] in word; }
  }

  lemma BashAssignmentIs(word: string)
    requires '[' !in word
    ensures Assignment(Bash, PlainPieces(word)) <==> IsAssignment(word) || Appends(word)
  {
    NamePrefixIs(word);
    BeforeEqualsIs(word);
    PlainMeans(word);
    BashAssignmentAt(word, PlainPieces(word), NamePrefix(word), |BeforeEquals(word)|);
    IsAssignmentAt(word);
  }

  lemma BareReservedIff(d: Dialect, word: string)
    requires !ProgramNeedsQuote(word)
    ensures Reserved(d, PlainPieces(word)) <==> d.Posix? && NameThenColon(word) && d.claims(PlainPieces(word))
  {
    PlainMeans(word);
    NamePrefixIs(word);
    if word in RESERVED + RESERVED_IN_BASH + MAY_BE_RESERVED { ReservedAreQuoted(word); }
  }

  lemma BareReadsAsCommandIff(d: Dialect, word: string)
    requires !ProgramNeedsQuote(word)
    ensures Reserved(d, PlainPieces(word)) || Assignment(d, PlainPieces(word)) <==> ReadsAway(d, word)
  {
    BareReservedIff(d, word);
    match d
    case Posix(claims) =>
      PosixAssignmentIs(claims, word);
      IsAssignmentAt(word);
      BeforeEqualsIs(word);
    case Bash =>
      assert '[' !in word;
      BashAssignmentIs(word);
  }

  lemma NotListed(word: string, c: char)
    requires c in word && !Letter(c)
    ensures word !in RESERVED_WORDS
  {
    if word in RESERVED_WORDS { ListedAreLetters(word); }
  }

  /** Only words left to the shell are printed bare and can be read as anything but a command name. */
  lemma ReadsAwayIsBare(d: Dialect, word: string)
    requires ReadsAway(d, word)
    ensures !ProgramNeedsQuote(word)
  {
    var n := NamePrefix(word);
    NamePrefixIs(word);
    BeforeEqualsIs(word);
    IsAssignmentAt(word);
    if d.Bash? {
      AppendsHasEquals(word, BeforeEquals(word), n);
      NotListed(word, '=');
    } else if EqualsAfterNonName(word) {
      NotListed(word, '=');
    } else {
      ColonHasNoEquals(word, n);
      NotListed(word, ':');
    }
  }

  lemma AppendsHasEquals(word: string, name: string, n: nat)
    requires PrefixIs(word, n) && EqualsIs(word, name) && AppendsAt(word, n)
    ensures '=' in word && n != |name|
  {
    assert word[n + 1] in word;
  }

  lemma ColonHasNoEquals(word: string, n: nat)
    requires PrefixIs(word, n) && ColonAt(word, n)
    ensures '=' !in word && ':' in word
  {
    assert word[n] in word;
  }

  lemma ProgramReadsAsCommandIff(d: Dialect, word: string)
    ensures Reserved(d, ProgramPieces(word)) || Assignment(d, ProgramPieces(word)) <==> ReadsAway(d, word)
  {
    if ReadsAway(d, word) { ReadsAwayIsBare(d, word); }
    if ProgramNeedsQuote(word) { QuotedReadsAsCommand(d, word); } else { BareReadsAsCommandIff(d, word); }
  }

  lemma ListedAreLetters(word: string)
    requires word in RESERVED_WORDS
    ensures forall c :: c in word ==> Letter(c)
  {
    var i :| 0 <= i < 17 && word == RESERVED_WORDS[i];
    if i < 6 { assert i == 0 || i == 1 || i == 2 || i == 3 || i == 4 || i == 5; }
    else if i < 12 { assert i == 6 || i == 7 || i == 8 || i == 9 || i == 10 || i == 11; }
    else { assert i == 12 || i == 13 || i == 14 || i == 15 || i == 16; }
  }
}
