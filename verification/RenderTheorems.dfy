/** Rendering and shell reading are inverse: what a pasted log line runs. */
module RenderTheorems {
  import opened Types
  import opened PosixShell
  import opened CmdDisplay
  import opened RenderProofs

  // ---- Splitting at the pipes ----

  predicate NoPipe(ts: seq<Token>) { forall i :: 0 <= i < |ts| ==> ts[i] != Operator(Pipe) }

  lemma {:induction false} SplitAppend(a: seq<Token>, b: seq<Token>)
    requires NoPipe(b)
    ensures var r := SplitPipeline(a);
            SplitPipeline(a + b) == r[..|r| - 1] + [r[|r| - 1] + b]
    decreases |b|
  {
    var r := SplitPipeline(a);
    if b == [] {
      assert a + b == a && r[|r| - 1] + b == r[|r| - 1];
    } else {
      var n := |b| - 1;
      SplitAppend(a, b[..n]);
      assert (a + b)[..|a| + n] == a + b[..n] && (a + b)[|a| + n] == b[n];
      assert r[|r| - 1] + b == r[|r| - 1] + b[..n] + [b[n]];
    }
  }

  lemma SplitMore(ts: seq<Token>, last: seq<Token>)
    requires NoPipe(last)
    ensures SplitPipeline(ts + [Operator(Pipe)] + last) == SplitPipeline(ts) + [last]
  {
    assert (ts + [Operator(Pipe)])[..|ts|] == ts;
    SplitAppend(ts + [Operator(Pipe)], last);
    assert [] + last == last;
  }

  lemma SplitOne(last: seq<Token>)
    requires NoPipe(last)
    ensures SplitPipeline(last) == [last]
  {
    SplitAppend([], last);
    assert [] + last == last;
  }

  lemma {:induction false} JoinedSplits(commands: seq<seq<Token>>, k: nat)
    requires 0 < k <= |commands| && forall i :: 0 <= i < |commands| ==> NoPipe(commands[i])
    ensures SplitPipeline(Joined(commands, k)) == commands[..k]
  {
    var last := commands[k - 1];
    if k == 1 {
      SplitOne(last);
      assert Joined(commands, 1) == Joined(commands, 0) + [] + last == last;
      assert commands[..1] == [last];
    } else {
      JoinedSplits(commands, k - 1);
      SplitMore(Joined(commands, k - 1), last);
      assert commands[..k] == commands[..k - 1] + [last];
    }
  }

  lemma LineSplits(stages: seq<Stage>)
    requires stages != []
    ensures SplitPipeline(LineTokens(stages, false)) == Commands(stages, false)
  {
    JoinedSplits(Commands(stages, false), |stages|);
  }

  // ---- Parsing the commands ----

  lemma ValuesAre(args: seq<string>)
    ensures Values(ArgTokens(args)) == args
  {
    forall i | 0 <= i < |args| ensures Value(ArgPieces(args[i])) == args[i] {
      QuoteMeans(args[i]);
      PlainMeans(args[i]);
    }
  }

  lemma CommandParses(d: Dialect, stage: Stage)
    ensures ParseCommand(d, StageTokens(stage, false)) == if ReadsAway(d, stage.program) then None else Some(stage)
  {
    var ts := StageTokens(stage, false);
    forall t | t in ts ensures t.Word? && !Expands(d, t.pieces) { WordIsLiteral(d, stage, t); }
    ProgramReadsAsCommandIff(d, stage.program);
    QuoteMeans(stage.program);
    PlainMeans(stage.program);
    assert ts[1..] == ArgTokens(stage.args);
    ValuesAre(stage.args);
  }

  lemma WordIsLiteral(d: Dialect, stage: Stage, t: Token)
    requires t in StageTokens(stage, false)
    ensures t.Word? && !Expands(d, t.pieces)
  {
    if t == Word(ProgramPieces(stage.program)) {
      NoExpansion(d, stage.program, ProgramNeedsQuote(stage.program));
    } else {
      var i :| 0 <= i < |stage.args| && t == Word(ArgPieces(stage.args[i]));
      NoExpansion(d, stage.args[i], NeedsQuote(stage.args[i]));
    }
  }

  predicate AnyReadsAway(d: Dialect, stages: seq<Stage>) {
    exists i :: 0 <= i < |stages| && ReadsAway(d, stages[i].program)
  }

  lemma CommandsParse(d: Dialect, stages: seq<Stage>)
    ensures ParseAll(d, Commands(stages, false)) == if AnyReadsAway(d, stages) then None else Some(stages)
  {
    forall i | 0 <= i < |stages|
      ensures ParseCommand(d, Commands(stages, false)[i])
              == if ReadsAway(d, stages[i].program) then None else Some(stages[i])
    {
      CommandParses(d, stages[i]);
    }
    if AnyReadsAway(d, stages) {
      var i :| 0 <= i < |stages| && ReadsAway(d, stages[i].program);
      assert ParseCommand(d, Commands(stages, false)[i]).None?;
    } else {
      assert ParseAll(d, Commands(stages, false)).value == stages;
    }
  }

  // ---- The main results ----

  /** What a shell makes of a rendered line: exactly the argv of every stage, whatever characters
      the words hold; except where it takes a bare program for something other than a command. */
  lemma ReadBack(d: Dialect, stages: seq<Stage>)
    requires stages != []
    ensures Read(d, Render(CmdDisplay(stages, false))) == if AnyReadsAway(d, stages) then None else Some(stages)
  {
    LexesTo(d, stages, false);
    LineSplits(stages);
    CommandsParse(d, stages);
  }

  /** However it settles what the standard leaves open, the shell runs the same argv. */
  ghost predicate EveryShellRuns(stages: seq<Stage>) {
    forall claims: seq<Piece> -> bool :: Read(Posix(claims), Render(CmdDisplay(stages, false))) == Some(stages)
  }

  /** Every POSIX shell runs the same argv exactly when no program made of safe characters is a name
      and a colon, or holds a `=` past the first character after text that is not a name. */
  lemma PosixRoundTripIff(stages: seq<Stage>)
    requires stages != []
    ensures EveryShellRuns(stages) <==> forall i :: 0 <= i < |stages| ==> !LeftOpen(stages[i].program)
  {
    if EveryShellRuns(stages) {
      assert Read(Posix(ClaimsAll), Render(CmdDisplay(stages, false))) == Some(stages);
      ReadBack(Posix(ClaimsAll), stages);
      forall i | 0 <= i < |stages| ensures !LeftOpen(stages[i].program) {
        assert !ReadsAway(Posix(ClaimsAll), stages[i].program);
      }
    } else {
      var claims: seq<Piece> -> bool :| Read(Posix(claims), Render(CmdDisplay(stages, false))) != Some(stages);
      ReadBack(Posix(claims), stages);
    }
  }

  /** Bash does exactly when no program reads as `NAME+=...` made of safe characters. */
  lemma BashRoundTripIff(stages: seq<Stage>)
    requires stages != []
    ensures Read(Bash, Render(CmdDisplay(stages, false))) == Some(stages)
            <==> forall i :: 0 <= i < |stages| ==> !(Appends(stages[i].program) && !NeedsQuote(stages[i].program))
  {
    ReadBack(Bash, stages);
    assert forall i :: 0 <= i < |stages| ==>
      (ReadsAway(Bash, stages[i].program) <==> Appends(stages[i].program) && !NeedsQuote(stages[i].program));
  }

  /** A program printed bare that some shell does not take for a command. */
  ghost predicate Misread(d: Dialect, word: string) {
    Render(CmdDisplay([Stage(word, [])], false)) == word && Read(d, word).None?
  }

  lemma BareRender(word: string)
    requires !ProgramNeedsQuote(word)
    ensures Render(CmdDisplay([Stage(word, [])], false)) == word
  {
    var stages := [Stage(word, [])];
    hide ProgramNeedsQuote;
    assert RenderRest([], false) == "" && word + "" == word;
    var parts := Parts(stages, false);
    assert parts[0] == word && Piped(parts, 0) == "";
    assert Piped(parts, 1) == "" + "" + word;
    Ungroup(word);
  }

  lemma ReadsAwayIsMisread(d: Dialect, word: string)
    requires ReadsAway(d, word)
    ensures Misread(d, word)
  {
    hide ReadsAway, Render, Read;
    var stages := [Stage(word, [])];
    ReadsAwayIsBare(d, word);
    BareRender(word);
    assert ReadsAway(d, stages[0].program);
    ReadBack(d, stages);
  }

  lemma AllSafe(word: string)
    requires word != "" && forall i :: 0 <= i < |word| ==> Safe(word[i])
    ensures !NeedsQuote(word)
  {
  }

  lemma BashAppendCounterexample()
    ensures Misread(Bash, "a+=b")
  {
    var word := "a+=b";
    assert word[1..] == "+=b" && NamePrefix("+=b") == 0 && NamePrefix(word) == 1;
    AllSafe(word);
    ReadsAwayIsMisread(Bash, word);
  }

  /** A name and a colon is a reserved word of section 2.4. */
  lemma NameColonCounterexample()
    ensures Misread(Posix(ClaimsAll), "a:")
  {
    var word := "a:";
    assert word[1..] == ":" && NamePrefix(":") == 0 && NamePrefix(word) == 1;
    AllSafe(word);
    ReadsAwayIsMisread(Posix(ClaimsAll), word);
  }

  /** Rule 7 of section 2.10.2 leaves it open whether this is an assignment. */
  lemma EqualsCounterexample()
    ensures Misread(Posix(ClaimsAll), "/=b")
  {
    var word := "/=b";
    assert NamePrefix(word) == 0 && word[1] == '=';
    AllSafe(word);
    ReadsAwayIsMisread(Posix(ClaimsAll), word);
  }

  /** Two commands render alike only if they are the same command. */
  lemma RenderIsInjective(a: seq<Stage>, b: seq<Stage>)
    requires a != [] && b != [] && Render(CmdDisplay(a, false)) == Render(CmdDisplay(b, false))
    ensures a == b
  {
    ReadBack(Posix(ClaimsNone), a);
    ReadBack(Posix(ClaimsNone), b);
  }

  /** Neither dialect finds anything in the line but literal words and the pipes between stages. */
  lemma NothingBareIsSpecial(d: Dialect, stages: seq<Stage>)
    requires stages != []
    ensures var ts := Lex(d, Render(CmdDisplay(stages, false)));
            ts.Some? && forall t :: t in ts.value ==> t == Operator(Pipe) || (t.Word? && !Expands(d, t.pieces))
  {
    LexesTo(d, stages, false);
    forall t | t in LineTokens(stages, false)
      ensures t == Operator(Pipe) || (t.Word? && !Expands(d, t.pieces))
    {
      JoinedHolds(Commands(stages, false), |stages|, t);
      if t != Operator(Pipe) {
        var i :| 0 <= i < |stages| && t in Commands(stages, false)[i];
        WordIsLiteral(d, stages[i], t);
      }
    }
  }

  lemma {:induction false} JoinedHolds(commands: seq<seq<Token>>, k: nat, t: Token)
    requires k <= |commands| && t in Joined(commands, k)
    ensures t == Operator(Pipe) || exists i :: 0 <= i < |commands| && t in commands[i]
  {
    if k > 0 && t in Joined(commands, k - 1) { JoinedHolds(commands, k - 1, t); }
  }

  // ---- Secrets ----

  predicate SamePrograms(a: seq<Stage>, b: seq<Stage>) {
    |a| == |b| && forall i :: 0 <= i < |a| ==> a[i].program == b[i].program
  }

  lemma SecretDependsOnPrograms(a: seq<Stage>, b: seq<Stage>)
    requires SamePrograms(a, b)
    ensures Parts(a, true) == Parts(b, true)
  {
  }

  lemma ProgramShown(a: string, b: string)
    requires ProgramPieces(a) == ProgramPieces(b)
    ensures a == b
  {
    QuoteMeans(a);
    QuoteMeans(b);
    PlainMeans(a);
    PlainMeans(b);
  }

  /** Four tokens a command, and a pipe before each but the first. */
  lemma {:induction false} JoinedFours(commands: seq<seq<Token>>, k: nat, i: nat)
    requires k <= |commands| && forall j :: 0 <= j < |commands| ==> |commands[j]| == 4
    ensures |Joined(commands, k)| == if k == 0 then 0 else 5 * k - 1
    ensures i < k ==> Joined(commands, k)[5 * i] == commands[i][0]
  {
    if k > 0 { JoinedFours(commands, k - 1, i); }
  }

  /** A secret render shows the programs, each in full, and nothing else: two commands render
      alike exactly when their programs are the same, whatever their arguments. */
  lemma SecretShowsExactlyPrograms(a: seq<Stage>, b: seq<Stage>)
    requires a != [] && b != []
    ensures Render(CmdDisplay(a, true)) == Render(CmdDisplay(b, true)) <==> SamePrograms(a, b)
  {
    if SamePrograms(a, b) {
      SecretDependsOnPrograms(a, b);
    } else if Render(CmdDisplay(a, true)) == Render(CmdDisplay(b, true)) {
      var x, y := Commands(a, true), Commands(b, true);
      LexesTo(Bash, a, true);
      LexesTo(Bash, b, true);
      JoinedFours(x, |a|, 0);
      JoinedFours(y, |b|, 0);
      forall i | 0 <= i < |a| ensures a[i].program == b[i].program {
        JoinedFours(x, |a|, i);
        JoinedFours(y, |b|, i);
        assert x[i][0] == y[i][0];
        ProgramShown(a[i].program, b[i].program);
      }
    }
  }

  // ---- Pipelines ----

  lemma {:induction false} PipedPrefix(a: seq<string>, b: seq<string>, k: nat)
    requires k <= |a|
    ensures Piped(a + b, k) == Piped(a, k)
  {
    if k > 0 { PipedPrefix(a, b, k - 1); }
  }

  lemma {:induction false} PipedJoins(a: seq<string>, b: seq<string>, k: nat)
    requires a != [] && 0 < k <= |b|
    ensures Piped(a + b, |a| + k) == Piped(a, |a|) + " | " + Piped(b, k)
  {
    if k == 1 {
      PipedPrefix(a, b, |a|);
      assert Piped(b, 1) == b[0];
    } else {
      PipedJoins(a, b, k - 1);
    }
  }

  lemma PartsJoin(a: seq<Stage>, b: seq<Stage>, secret: bool)
    ensures Parts(a + b, secret) == Parts(a, secret) + Parts(b, secret)
  {
    var c, parts := a + b, Parts(a, secret) + Parts(b, secret);
    forall i | 0 <= i < |c| ensures Parts(c, secret)[i] == parts[i] {
      if i < |a| { assert c[i] == a[i]; } else { assert c[i] == b[i - |a|]; }
    }
  }

  /** Piping two commands joins their renders. */
  lemma RenderJoins(a: seq<Stage>, b: seq<Stage>, secret: bool)
    requires a != [] && b != []
    ensures Render(CmdDisplay(a + b, secret))
            == Render(CmdDisplay(a, secret)) + " | " + Render(CmdDisplay(b, secret))
  {
    hide Piped;
    PartsJoin(a, b, secret);
    PipedJoins(Parts(a, secret), Parts(b, secret), |b|);
    RenderIs(a, secret, Parts(a, secret));
    RenderIs(b, secret, Parts(b, secret));
    RenderIs(a + b, secret, Parts(a, secret) + Parts(b, secret));
  }

  lemma RenderIs(stages: seq<Stage>, secret: bool, parts: seq<string>)
    requires parts == Parts(stages, secret)
    ensures Render(CmdDisplay(stages, secret)) == Piped(parts, |parts|)
  {
  }
}
