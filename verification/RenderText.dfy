/** What a rendered line looks like, apart from how a shell reads it: which words are left as they
    are, how the others are quoted, and where each word goes. */
module RenderText {
  import opened PosixShell
  import opened CmdDisplay
  import opened RenderProofs

  // ---- Quoting ----

  lemma {:induction false} PlainIsNotEscaped(word: string)
    requires '\'' !in word
    ensures Escaped(word) == word
  {
    if word != "" {
      PlainIsNotEscaped(word[1..]);
      assert word == [word[0]] + word[1..];
    }
  }

  lemma Grouped(a: string, b: string, c: string)
    ensures a + (b + c) == (a + b) + c
  {
  }

  lemma {:induction false} EscapedSplits(a: string, b: string)
    ensures Escaped(a + b) == Escaped(a) + Escaped(b)
  {
    if a == "" {
      assert a + b == b;
    } else {
      EscapedSplits(a[1..], b);
      assert (a + b)[0] == a[0] && (a + b)[1..] == a[1..] + b;
      Grouped(EscapedHead(a[0]), Escaped(a[1..]), Escaped(b));
    }
  }

  lemma PlainQuoteIs(word: string)
    requires '\'' !in word
    ensures Quote(word) == "'" + word + "'"
  {
    PlainIsNotEscaped(word);
  }

  lemma Requoted(q: string, a: string, e: string, b: string)
    ensures q + ((a + (q + e + q)) + b) + q == (q + a + q) + e + (q + b + q)
  {
    Grouped(q + a, q + e + q, b + q);
    Grouped(q + a + q, e, q + b + q);
  }

  /** A word is put in single quotes, each of its own closing them, escaped, and opening them again. */
  lemma QuoteIs(a: string, b: string)
    ensures '\'' !in a ==> Quote(a) == "'" + a + "'"
    ensures Quote(a + "'" + b) == Quote(a) + "\\'" + Quote(b)
  {
    if '\'' !in a { PlainQuoteIs(a); }
    EscapedSplits(a + "'", b);
    EscapedSplits(a, "'");
    assert Escaped("'") == "'\\''" + Escaped("'"[1..]) == "'" + "\\'" + "'";
    hide Escaped;
    Requoted("'", Escaped(a), "\\'", Escaped(b));
  }

  /** Not empty, and of characters no shell gives a meaning to. */
  predicate BareWord(word: string) {
    && word != ""
    && forall c :: c in word ==> 'a' <= c <= 'z' || 'A' <= c <= 'Z' || '0' <= c <= '9' || c in "_-./:@%+=,"
  }

  lemma {:induction false} EscapedIsNoShorter(word: string)
    ensures |Escaped(word)| >= |word|
  {
    if word != "" { EscapedIsNoShorter(word[1..]); }
  }

  /** Only words that need it are quoted. */
  lemma BareIff(word: string)
    ensures ShellQuote(word) == word <==> BareWord(word)
  {
    EscapedIsNoShorter(word);
    assert NeedsQuote(word) <==> !BareWord(word);
  }

  /** And so are programs that a shell would take for an assignment or for a reserved word. */
  lemma ProgramBareIff(word: string)
    ensures ShellQuoteProgram(word) == word <==>
            && BareWord(word) && !EveryShell(PlainPieces(word))
            && word !in RESERVED + RESERVED_IN_BASH + MAY_BE_RESERVED
  {
    hide EveryShell, IsAssignment;
    BareIff(word);
    EscapedIsNoShorter(word);
    IsAssignmentIsRule7(word);
    if word in RESERVED + RESERVED_IN_BASH + MAY_BE_RESERVED { ReservedAreQuoted(word); }
    if word in RESERVED_WORDS { ListedAreReserved(word); }
  }

  lemma ListedAreReserved(word: string)
    requires word in RESERVED_WORDS
    ensures word in RESERVED + RESERVED_IN_BASH
  {
    var i :| 0 <= i < 17 && word == RESERVED_WORDS[i];
  }

  // ---- Placing ----

  lemma OneStage(stage: Stage, secret: bool)
    ensures Render(CmdDisplay([stage], secret)) == RenderStage(stage, secret)
  {
    var parts := Parts([stage], secret);
    assert Piped(parts, 1) == Piped(parts, 0) + "" + parts[0];
  }

  /** A secret command shows its program and, for whatever arguments, one fixed mark. */
  lemma SecretHidesArgs(program: string, args: seq<string>)
    ensures Render(CmdDisplay([Stage(program, args)], true)) == ShellQuoteProgram(program) + " <secret>"
  {
    OneStage(Stage(program, args), true);
  }

  lemma ProgramAlone(program: string)
    ensures Render(CmdDisplay([Stage(program, [])], false)) == ShellQuoteProgram(program)
  {
    OneStage(Stage(program, []), false);
    assert QuotedArgs([]) == [] && Spaced([], 0) == "";
    assert ShellQuoteProgram(program) + "" == ShellQuoteProgram(program);
  }

  /** Another command shows its program, and each argument after a space. */
  lemma ArgsFollow(program: string, args: seq<string>, arg: string)
    ensures Render(CmdDisplay([Stage(program, [])], false)) == ShellQuoteProgram(program)
    ensures Render(CmdDisplay([Stage(program, args + [arg])], false)) ==
            Render(CmdDisplay([Stage(program, args)], false)) + " " + ShellQuote(arg)
  {
    ProgramAlone(program);
    OneStage(Stage(program, args), false);
    OneStage(Stage(program, args + [arg]), false);
    SpacedMore(args, arg);
    hide Spaced, ShellQuote, ShellQuoteProgram;
    var before := Spaced(QuotedArgs(args), |args|);
    Grouped(ShellQuoteProgram(program), before, " " + ShellQuote(arg));
    Grouped(ShellQuoteProgram(program) + before, " ", ShellQuote(arg));
  }

  lemma SpacedMore(args: seq<string>, arg: string)
    ensures Spaced(QuotedArgs(args + [arg]), |args| + 1) == Spaced(QuotedArgs(args), |args|) + (" " + ShellQuote(arg))
  {
    var all, n := QuotedArgs(args + [arg]), |args|;
    SpacedSame(QuotedArgs(args), all, n);
    assert all[n] == ShellQuote(arg);
  }

  lemma {:induction false} SpacedSame(a: seq<string>, b: seq<string>, k: nat)
    requires k <= |a| && k <= |b| && forall i :: 0 <= i < k ==> a[i] == b[i]
    ensures Spaced(a, k) == Spaced(b, k)
  {
    if k > 0 { SpacedSame(a, b, k - 1); }
  }
}
