/** What becomes of the promise that a deadline bounds a whole run: when it can be missed, and by
    how much, in runs whose calls take no time of their own. */
module Deadline {
  import opened Types
  import opened Stdin
  import opened Retry
  import Attempt
  import Outcomes

  // ---- What the policy allows ----

  /** The longest an attempt can take of itself when the deadline is the only other limit. */
  function Longest(c: Config): nat
    requires c.deadline.Some?
  {
    if c.timeout.Some? then c.timeout.value else c.deadline.value
  }

  function BudgetAt(c: Config, at: nat): nat
    requires c.deadline.Some?
  {
    Min(Longest(c), Monus(c.deadline.value, at))
  }

  /** Some failure that can come at any time is retried: a failing exit, or a wait that fails where
      it may. */
  ghost predicate RetriesEarly(c: Config, calls: Calls) {
    exists o: Outcomes.Outcome, stdout: seq<Byte>, stderr: seq<Byte> ::
      && (o.Exited? || (o.WaitFailed? && !calls.waits)) && (c.cancel.Some? ==> c.timeout != Some(0))
      && c.Retries(Attempt.Finalize(o, stdout, stderr))
  }

  /** A failure to spawn, which takes no time, may happen and is retried. */
  predicate RetriesSpawn(c: Config, calls: Calls) { !calls.starts && c.Retries(Err(Spawn)) }

  /** Some timeout of an attempt that used up `budget` is retried. */
  ghost predicate RetriesTimeout(c: Config, budget: nat) {
    exists elapsed: nat, stdout: seq<Byte>, stderr: seq<Byte> ::
      && elapsed <= budget && (c.stages == 1 ==> elapsed == budget)
      && c.Retries(Attempt.Finalize(Outcomes.TimedOut(elapsed), stdout, stderr))
  }

  function Times(k: nat, each: nat): nat { if k == 0 then 0 else Times(k - 1, each) + each }

  /** Attempt `j` can start at `at`: the delays before it have been slept, and the attempts before it
      took any time up to their limit, if failures are retried that come at any time, or else `k` of
      them the whole of it, and the others none. */
  ghost predicate Reached(c: Config, calls: Calls, start: nat, j: nat, at: nat)
    requires c.deadline.Some?
  {
    && j <= |c.delays| && at < c.deadline.value
    && if RetriesEarly(c, calls) then start + Total(0, c.delays, j) <= at <= start + Total(Longest(c), c.delays, j)
       else exists k: nat :: Mixed(c, calls, start, j, k, at)
  }

  ghost predicate Mixed(c: Config, calls: Calls, start: nat, j: nat, k: nat, at: nat)
    requires c.deadline.Some? && j <= |c.delays|
  {
    && k <= j && at == start + Total(0, c.delays, j) + Times(k, Longest(c))
    && (k > 0 ==> RetriesTimeout(c, Longest(c))) && (k < j ==> RetriesSpawn(c, calls))
  }

  /** An attempt started at `at` can fail after `took`, and be retried. */
  ghost predicate Fails(c: Config, calls: Calls, at: nat, took: nat)
    requires c.deadline.Some?
  {
    || (RetriesEarly(c, calls) && took <= BudgetAt(c, at))
    || (RetriesTimeout(c, BudgetAt(c, at)) && took == BudgetAt(c, at))
    || (RetriesSpawn(c, calls) && took == 0)
  }

  /** The nap after attempt `j`, which started at `at`, can end past the deadline. */
  ghost predicate NapOverruns(c: Config, calls: Calls, j: nat, at: nat)
    requires c.deadline.Some?
  {
    && j < |c.delays|
    && ( || ((RetriesEarly(c, calls) || RetriesTimeout(c, BudgetAt(c, at)))
             && at + BudgetAt(c, at) + c.delays[j] > c.deadline.value)
         || (RetriesSpawn(c, calls) && at + c.delays[j] > c.deadline.value))
  }

  /** So can the grace of an attempt started at `at`, if it is cancelled as late as possible. */
  predicate GraceOverruns(c: Config, at: nat)
    requires c.deadline.Some?
  {
    c.cancel.Some? && BudgetAt(c, at) > 0 && at + BudgetAt(c, at) + c.cancel.value > c.deadline.value
  }

  // ---- The deadline ----

  ghost predicate DeadlineHolds(c: Config, calls: Calls, start: nat)
    requires c.deadline.Some?
  {
    forall flag: nat -> bool, run: Run :: Follows(c, Env(flag, true, calls), start, run) && Prompt(c, start, run) ==>
      run.finished <= c.deadline.value
  }

  ghost predicate NothingOverruns(c: Config, calls: Calls, start: nat)
    requires c.deadline.Some?
  {
    forall j: nat, at: nat :: Reached(c, calls, start, j, at) ==> !NapOverruns(c, calls, j, at) && !GraceOverruns(c, at)
  }

  /** The documentation promises that `deadline` bounds the whole operation, sleeps included. It does
      exactly when neither a delay nor a grace period that can begin before it can end after it: the
      loop cuts neither short. */
  lemma DeadlineHoldsIff(c: Config, calls: Calls, start: nat)
    requires c.deadline.Some? && start < c.deadline.value
    ensures DeadlineHolds(c, calls, start) <==> NothingOverruns(c, calls, start)
  {
    hide Follows, Prompt, Reached, NapOverruns, GraceOverruns;
    if NothingOverruns(c, calls, start) {
      forall flag: nat -> bool, run: Run | Follows(c, Env(flag, true, calls), start, run) && Prompt(c, start, run)
        ensures run.finished <= c.deadline.value
      {
        RunMeetsDeadline(c, Env(flag, true, calls), start, run);
      }
    } else {
      var j: nat, at: nat :| Reached(c, calls, start, j, at) && (NapOverruns(c, calls, j, at) || GraceOverruns(c, at));
      var flag, run;
      if NapOverruns(c, calls, j, at) {
        flag, run := LateNap(c, calls, start, j, at);
      } else {
        flag, run := LateGrace(c, calls, start, j, at);
      }
      assert Follows(c, Env(flag, true, calls), start, run);
    }
  }

  /** It is never missed by more than the last delay slept, or by a result by more than the grace
      period of a cancelled attempt. */
  lemma LateByOnePause(c: Config, env: Env, start: nat, run: Run)
    requires c.deadline.Some? && start < c.deadline.value && env.reliable
    requires Follows(c, env, start, run) && Prompt(c, start, run)
    ensures var n := |run.tries|;
            run.finished <= c.deadline.value +
              if run.end.Returned? then Grace(c.cancel, run.reply)
              else if 0 < n <= |c.delays| then c.delays[n - 1] else 0
  {
    var n := |run.tries|;
    if n > 0 {
      EndsInTime(c, env, run.tries[n - 1]);
    }
  }

  lemma EndsInTime(c: Config, env: Env, t: Try)
    requires c.deadline.Some? && env.reliable && MayStart(c, env, t) && Possible(c, env, t) && NoOverhead(t)
    ensures t.budget == Some(BudgetAt(c, t.at)) && t.at + BudgetAt(c, t.at) <= c.deadline.value
    ensures t.ended <= t.at + BudgetAt(c, t.at) + Grace(c.cancel, t.result)
    ensures Attempt.IsCancelled(t.result) ==> BudgetAt(c, t.at) > 0 && c.cancel.Some?
  {
  }

  // ---- No run is late unless something overruns ----

  /** A failed attempt that is retried is one the policy allows for. */
  lemma RetriedFails(c: Config, env: Env, t: Try)
    requires c.deadline.Some? && env.reliable && MayStart(c, env, t) && Possible(c, env, t) && NoOverhead(t)
    requires c.Retries(t.result)
    ensures Fails(c, env.calls, t.at, t.ended - t.at)
  {
    EndsInTime(c, env, t);
    var stdout, stderr :| t.result == Attempt.Finalize(t.outcome, stdout, stderr);
    assert c.timeout == Some(0) ==> t.budget == Some(0);
  }

  lemma ReachedMore(c: Config, calls: Calls, start: nat, j: nat, at: nat, took: nat)
    requires c.deadline.Some? && j < |c.delays| && Reached(c, calls, start, j, at) && Fails(c, calls, at, took)
    requires at + took + c.delays[j] < c.deadline.value
    ensures Reached(c, calls, start, j + 1, at + took + c.delays[j])
  {
    hide RetriesEarly, RetriesTimeout, RetriesSpawn;
    if !RetriesEarly(c, calls) {
      var k: nat :| Mixed(c, calls, start, j, k, at);
      var more := if took == 0 && RetriesSpawn(c, calls) then k else k + 1;
      assert Mixed(c, calls, start, j + 1, more, at + took + c.delays[j]);
    }
  }

  lemma {:induction false} StartsReached(c: Config, env: Env, start: nat, run: Run, i: nat)
    requires c.deadline.Some? && env.reliable && Follows(c, env, start, run) && Prompt(c, start, run) && i < |run.tries|
    ensures Reached(c, env.calls, start, i, run.tries[i].at)
  {
    hide RetriesEarly, RetriesTimeout, Possible, Fails;
    assert MayStart(c, env, run.tries[i]);
    if i == 0 {
      assert Mixed(c, env.calls, start, 0, 0, start);
    } else {
      var t := run.tries[i - 1];
      StartsReached(c, env, start, run, i - 1);
      RetriedFails(c, env, t);
      assert run.tries[i].at == t.ended + c.delays[i - 1];
      ReachedMore(c, env.calls, start, i - 1, t.at, t.ended - t.at);
    }
  }

  lemma RunMeetsDeadline(c: Config, env: Env, start: nat, run: Run)
    requires c.deadline.Some? && start < c.deadline.value && env.reliable
    requires Follows(c, env, start, run) && Prompt(c, start, run) && NothingOverruns(c, env.calls, start)
    ensures run.finished <= c.deadline.value
  {
    hide Possible, RetriesEarly, RetriesTimeout, RetriesSpawn, Reached;
    var n := |run.tries|;
    if n > 0 {
      var t := run.tries[n - 1];
      StartsReached(c, env, start, run, n - 1);
      EndsInTime(c, env, t);
      assert !NapOverruns(c, env.calls, n - 1, t.at) && !GraceOverruns(c, t.at);
      if c.Retries(t.result) { RetriedFails(c, env, t); }
    }
  }

  // ---- Something that overruns shows a late run ----

  /** An attempt whose calls take no time. */
  function Made(c: Config, o: Outcomes.Outcome, r: RunResult, at: nat, took: nat): Try {
    Try(at, at, PerAttempt(c.timeout, c.deadline, at), Nothing, o, r, at + took, 0)
  }

  /** Attempts made without a pause, the loop being awake at `at` to make another. */
  ghost predicate OnCourse(c: Config, env: Env, start: nat, tries: seq<Try>, at: nat) {
    && |tries| <= |c.delays| && Retried(c, env, start, tries) && Slept(c, start, tries, at)
    && Unbroken(c, start, tries) && at == Awake(c, start, tries)
  }

  lemma MadeMore(c: Config, env: Env, start: nat, tries: seq<Try>, t: Try)
    requires OnCourse(c, env, start, tries, t.at) && MayStart(c, env, t) && Possible(c, env, t) && NoOverhead(t)
    ensures Retried(c, env, start, tries + [t]) && Unbroken(c, start, tries + [t])
  {
    hide Possible, Retried, Unbroken;
    RetriedMore(c, env, start, tries, t);
    UnbrokenMore(c, start, tries, t);
  }

  /** An attempt that fails as the policy allows for. */
  lemma FailingTry(c: Config, env: Env, at: nat, took: nat) returns (t: Try)
    requires c.deadline.Some? && at < c.deadline.value && Fails(c, env.calls, at, took)
    requires !env.flag(at)
    ensures t.at == at && t.ended == at + took && c.Retries(t.result)
    ensures MayStart(c, env, t) && Possible(c, env, t) && NoOverhead(t)
  {
    var o: Outcomes.Outcome, stdout: seq<Byte>, stderr: seq<Byte>;
    if RetriesSpawn(c, env.calls) && took == 0 {
      o, stdout, stderr := Outcomes.WaitFailed, [], [];
    } else if RetriesEarly(c, env.calls) {
      var out: Outcomes.Outcome, x: seq<Byte>, y: seq<Byte> :|
        && (out.Exited? || (out.WaitFailed? && !env.calls.waits))
        && (c.cancel.Some? ==> c.timeout != Some(0))
        && c.Retries(Attempt.Finalize(out, x, y));
      o, stdout, stderr := out, x, y;
    } else {
      var elapsed: nat, x: seq<Byte>, y: seq<Byte> :|
        && elapsed <= took && (c.stages == 1 ==> elapsed == took)
        && c.Retries(Attempt.Finalize(Outcomes.TimedOut(elapsed), x, y));
      o, stdout, stderr := Outcomes.TimedOut(elapsed), x, y;
    }
    t := Made(c, o, Attempt.Finalize(o, stdout, stderr), at, took);
    assert Attempt.Reports(t.result, t.outcome);
  }

  lemma {:induction false} TotalIsMore(each: nat, delays: seq<nat>, n: nat)
    requires n <= |delays|
    ensures Total(0, delays, n) <= Total(each, delays, n)
  {
    if n > 0 { TotalIsMore(each, delays, n - 1); }
  }

  /** The attempt before one that can start at `at`. */
  lemma ReachedFrom(c: Config, calls: Calls, start: nat, j: nat, at: nat) returns (before: nat, took: nat)
    requires c.deadline.Some? && j < |c.delays| && Reached(c, calls, start, j + 1, at)
    ensures Reached(c, calls, start, j, before) && Fails(c, calls, before, took)
    ensures at == before + took + c.delays[j]
  {
    hide RetriesEarly, RetriesTimeout, RetriesSpawn;
    if RetriesEarly(c, calls) {
      TotalIsMore(Longest(c), c.delays, j);
      took := Min(Longest(c), at - (start + Total(0, c.delays, j + 1)));
      before := at - c.delays[j] - took;
    } else {
      var k: nat :| Mixed(c, calls, start, j + 1, k, at);
      took := if k > 0 then Longest(c) else 0;
      before := at - c.delays[j] - took;
      assert k > 0 ==> BudgetAt(c, before) == Longest(c);
      assert Mixed(c, calls, start, j, if k > 0 then k - 1 else 0, before);
    }
  }

  lemma {:induction false} CourseTo(c: Config, env: Env, start: nat, j: nat, at: nat) returns (tries: seq<Try>)
    requires c.deadline.Some? && Reached(c, env.calls, start, j, at)
    requires forall t: nat :: t <= at ==> !env.flag(t)
    ensures |tries| == j && OnCourse(c, env, start, tries, at)
  {
    hide Possible, Fails, Retried, Unbroken, RetriesEarly, RetriesTimeout;
    if j == 0 {
      tries := [];
      NothingYet(c, env, start);
    } else {
      var before, took := ReachedFrom(c, env.calls, start, j - 1, at);
      tries := CourseTo(c, env, start, j - 1, before);
      var t := FailingTry(c, env, before, took);
      MadeMore(c, env, start, tries, t);
      tries := tries + [t];
    }
  }

  lemma NothingYet(c: Config, env: Env, start: nat)
    ensures OnCourse(c, env, start, [], start)
  {
  }

  predicate Never(t: nat) { false }

  /** A run stopped by the deadline after its last nap. */
  function StoppedAt(tries: seq<Try>, at: nat): Run {
    Run(tries, Stopped(at, at), Err(Timeout(0, [], [], Count(|tries| + 1))), at)
  }

  lemma StoppedRun(c: Config, env: Env, start: nat, tries: seq<Try>, at: nat)
    requires c.deadline.Some? && tries != [] && |tries| <= |c.delays| && !env.flag(at)
    requires Retried(c, env, start, tries) && Unbroken(c, start, tries)
    requires c.Retries(tries[|tries| - 1].result) && at == Awake(c, start, tries) && at > c.deadline.value
    ensures Follows(c, env, start, StoppedAt(tries, at)) && Prompt(c, start, StoppedAt(tries, at))
  {
    hide Retried, Unbroken;
  }

  lemma LateNap(c: Config, calls: Calls, start: nat, j: nat, at: nat) returns (flag: nat -> bool, run: Run)
    requires c.deadline.Some? && Reached(c, calls, start, j, at) && NapOverruns(c, calls, j, at)
    ensures Follows(c, Env(flag, true, calls), start, run) && Prompt(c, start, run) && run.finished > c.deadline.value
  {
    hide Possible, Retried, Unbroken, Follows, Prompt, RetriesEarly, RetriesTimeout, RetriesSpawn;
    flag := Never;
    var env := Env(flag, true, calls);
    var tries := CourseTo(c, env, start, j, at);
    var took := if RetriesEarly(c, calls) || RetriesTimeout(c, BudgetAt(c, at)) then BudgetAt(c, at) else 0;
    var t := FailingTry(c, env, at, took);
    MadeMore(c, env, start, tries, t);
    StoppedRun(c, env, start, tries + [t], at + took + c.delays[j]);
    run := StoppedAt(tries + [t], at + took + c.delays[j]);
  }

  /** An attempt that sees the flag as its budget runs out, and whose child outlasts the grace period. */
  function CancelledTry(c: Config, at: nat): Try
    requires c.deadline.Some? && c.cancel.Some?
  {
    Made(c, Outcomes.Cancelled, Attempt.Finalize(Outcomes.Cancelled, [], []), at, BudgetAt(c, at) + c.cancel.value)
  }

  lemma CancelledIsPossible(c: Config, env: Env, at: nat)
    requires c.deadline.Some? && at < c.deadline.value && c.cancel.Some?
    requires !env.flag(at) && env.flag(at + BudgetAt(c, at))
    ensures var t := CancelledTry(c, at);
            MayStart(c, env, t) && Possible(c, env, t) && NoOverhead(t) && Attempt.IsCancelled(t.result)
  {
    var t := CancelledTry(c, at);
    assert Attempt.Reports(t.result, t.outcome);
    assert ReadInTime(env, t, at + BudgetAt(c, at));
  }

  lemma LateGrace(c: Config, calls: Calls, start: nat, j: nat, at: nat) returns (flag: nat -> bool, run: Run)
    requires c.deadline.Some? && Reached(c, calls, start, j, at) && GraceOverruns(c, at)
    ensures Follows(c, Env(flag, true, calls), start, run) && Prompt(c, start, run) && run.finished > c.deadline.value
  {
    hide Possible, Retried, Unbroken, RetriesEarly, RetriesTimeout, RetriesSpawn;
    flag := t => t >= at + BudgetAt(c, at);
    var env := Env(flag, true, calls);
    var tries := CourseTo(c, env, start, j, at);
    var t := CancelledTry(c, at);
    CancelledIsPossible(c, env, at);
    MadeMore(c, env, start, tries, t);
    run := Run(tries + [t], Returned, Stamped(t.result, j + 1), t.ended);
  }

  // ---- Two runs that miss it ----

  predicate OnlyTimeouts(e: RunError) { e.Timeout? }

  /** A deadline of 10 and one delay of 5: the attempt runs up to the deadline, and the nap past it. */
  lemma DeadlineIsMissed()
    ensures var c := Config(1, None, Some(10), None, [5], OnlyTimeouts);
            var env := Env(Never, true, Calls(true, true));
            exists run :: Follows(c, env, 0, run) && Prompt(c, 0, run) && run.finished == 15
  {
    var c := Config(1, None, Some(10), None, [5], OnlyTimeouts);
    var env := Env(Never, true, Calls(true, true));
    var t := Made(c, Outcomes.TimedOut(10), Attempt.Finalize(Outcomes.TimedOut(10), [], []), 0, 10);
    assert Attempt.Reports(t.result, t.outcome);
    NothingYet(c, env, 0);
    MadeMore(c, env, 0, [], t);
    assert [] + [t] == [t];
    StoppedRun(c, env, 0, [t], 15);
  }

  predicate FromNine(t: nat) { t >= 9 }

  /** A deadline of 10 and a grace period of 5, without a delay: the flag is set at 9, and the child
      is killed at 14. */
  lemma GraceMissesDeadline()
    ensures var c := Config(1, None, Some(10), Some(5), [], OnlyTimeouts);
            var env := Env(FromNine, true, Calls(true, true));
            exists run :: Follows(c, env, 0, run) && Prompt(c, 0, run) && run.finished == 14
  {
    var c := Config(1, None, Some(10), Some(5), [], OnlyTimeouts);
    var env := Env(FromNine, true, Calls(true, true));
    var t := Made(c, Outcomes.Cancelled, Attempt.Finalize(Outcomes.Cancelled, [], []), 0, 14);
    assert Attempt.Reports(t.result, t.outcome) && ReadInTime(env, t, 9);
    NothingYet(c, env, 0);
    MadeMore(c, env, 0, [], t);
    assert [] + [t] == [t];
    var run := Run([t], Returned, Stamped(t.result, 1), 14);
    assert Follows(c, env, 0, run) && Prompt(c, 0, run);
  }
}
