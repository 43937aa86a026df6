/** The retry loop: what it may do, when it stops, and how long it can take. */
module Retry {
  import opened Types
  import opened Machine
  import opened Stdin
  import Attempt
  import Outcomes
  import Supervisor

  const U32_MAX: nat := 0xFFFF_FFFF

  /** A command of `stages` stages with its `RetryPolicy`: the backoff is the delays it yields, and
      `cancel` holds the grace period. */
  datatype Config = Config(stages: nat, timeout: Option<nat>, deadline: Option<nat>, cancel: Option<nat>,
                           delays: seq<nat>, retryable: RunError -> bool)
  {
    /** A result after which the loop does not stop by itself. */
    predicate Retries(r: RunResult) { r.Err? && !r.error.Cancelled? && retryable(r.error) }
  }

  /** `per_attempt_timeout`. */
  function PerAttempt(timeout: Option<nat>, deadline: Option<nat>, now: nat): Option<nat> {
    match (timeout, deadline)
    case (None, None) => None
    case (Some(t), None) => Some(t)
    case (None, Some(d)) => Some(Monus(d, now))
    case (Some(t), Some(d)) => Some(Min(t, Monus(d, now)))
  }

  /** The most an attempt may take: within the timeout, and not past the deadline; nothing once that
      is past. */
  lemma PerAttemptIsLargest(timeout: Option<nat>, deadline: Option<nat>, now: nat, b: nat)
    ensures (PerAttempt(timeout, deadline, now).Some? ==> b <= PerAttempt(timeout, deadline, now).value) <==>
            && (timeout.Some? ==> b <= timeout.value)
            && (deadline.Some? ==> b == 0 || now + b <= deadline.value)
  {
  }

  /** An attempt that was started: the clock sampled before it, when the flag was read, what it was
      given, how it ended and when, and how much of its time its calls took for themselves. */
  datatype Try = Try(at: nat, read: nat, budget: Option<nat>, stdin: Given, outcome: Outcomes.Outcome,
                     result: RunResult, ended: nat, overhead: nat)

  /** What ended a run: the check before another attempt, a result, or a flag set during a backoff. */
  datatype End = Stopped(now: nat, read: nat) | Returned | Woken(read: nat)

  datatype Run = Run(tries: seq<Try>, end: End, reply: RunResult, finished: nat)

  function Count(n: nat): nat { Min(n, U32_MAX) }

  /** The same result, except that an error counts `n` attempts. */
  ghost predicate Restamped(r: RunResult, was: RunResult, n: nat) {
    match was
    case Ok(output) => r == Ok(output)
    case Err(Spawn) => r == Err(Spawn)
    case Err(NonZeroExit(status, stdout, stderr, _)) => r == Err(NonZeroExit(status, stdout, stderr, n))
    case Err(Timeout(elapsed, stdout, stderr, _)) => r == Err(Timeout(elapsed, stdout, stderr, n))
    case Err(Cancelled(stdout, stderr, _)) => r == Err(Cancelled(stdout, stderr, n))
  }

  function Stamped(r: RunResult, n: nat): RunResult {
    if r.Err? then Err(r.error.WithAttempts(Count(n))) else r
  }

  /** Which calls never fail: those that wait for, poll or kill a child, and those that start one. */
  datatype Calls = Calls(waits: bool, starts: bool)

  /** What a run meets: the cancel flag at each instant, whether the calls work that time bounds rely
      on, and which others do. */
  datatype Env = Env(flag: nat -> bool, reliable: bool, calls: Calls)

  ghost function Around(os: Os): Env { Env(os.flag, os.Reliable(), Calls(os.kills && os.polls, os.starts)) }

  function Grace(cancel: Option<nat>, r: RunResult): nat {
    if cancel.Some? && Attempt.IsCancelled(r) then cancel.value else 0
  }

  /** A result an attempt with that budget can report: a timeout once the budget is used up; a
      cancellation if the flag was read set before that; an exit or a failure to wait at any time, but
      not from polling a window that is over from the start; or a failure to spawn, which takes no time. */
  ghost predicate Possible(c: Config, env: Env, t: Try) {
    && Attempt.Reports(t.result, t.outcome) && Attempt.Tells(t.result, t.outcome)
    && (env.reliable && t.budget.Some? ==> t.ended <= t.read + t.budget.value + Grace(c.cancel, t.result) + t.overhead)
    && match t.outcome
       case TimedOut(elapsed) =>
         && t.budget.Some? && t.ended + t.overhead >= t.at + t.budget.value && elapsed <= t.ended - t.at
         && (c.stages == 1 ==> elapsed >= t.budget.value)
       case Exited(_) => c.cancel.Some? ==> t.budget != Some(0)
       case Cancelled =>
         c.cancel.Some? && exists s: nat :: t.read <= s <= t.ended && env.flag(s) && ReadInTime(env, t, s)
       case WaitFailed =>
         && (env.calls.waits ==> !env.calls.starts && t.ended <= t.read + t.overhead)
         && (c.cancel.Some? && t.budget == Some(0) ==> !env.calls.starts)
  }

  predicate ReadInTime(env: Env, t: Try, at: nat) {
    env.reliable && t.budget.Some? ==> at <= t.read + t.budget.value + t.overhead
  }

  /** An attempt starts only before the deadline and with the flag unset. */
  ghost predicate MayStart(c: Config, env: Env, t: Try) {
    && t.at <= t.read <= t.ended
    && (c.cancel.Some? ==> !env.flag(t.read))
    && (c.deadline.Some? ==> t.at < c.deadline.value)
    && t.budget == PerAttempt(c.timeout, c.deadline, t.at)
  }

  /** The attempts so far, each after the first being a retry of the one before, once its delay was over. */
  ghost predicate Retried(c: Config, env: Env, start: nat, tries: seq<Try>) {
    && |tries| <= |c.delays| + 1
    && (forall i :: 0 <= i < |tries| ==> MayStart(c, env, tries[i]) && Possible(c, env, tries[i]))
    && (tries != [] ==> start <= tries[0].at)
    && (forall i :: 0 <= i < |tries| - 1 ==> c.Retries(tries[i].result))
    && (forall i, j :: 0 <= i && j == i + 1 && j < |tries| ==> tries[i].ended + c.delays[i] <= tries[j].at)
  }

  /** The loop has slept the delay after its last attempt, and is about to check for another. */
  ghost predicate Slept(c: Config, start: nat, tries: seq<Try>, now: nat) {
    if tries == [] then start <= now
    else
      var last := tries[|tries| - 1];
      |tries| <= |c.delays| && c.Retries(last.result) && last.ended + c.delays[|tries| - 1] <= now
  }

  lemma RetriedMore(c: Config, env: Env, start: nat, tries: seq<Try>, t: Try)
    requires Retried(c, env, start, tries) && Slept(c, start, tries, t.at) && MayStart(c, env, t) && Possible(c, env, t)
    ensures Retried(c, env, start, tries + [t])
  {
    var more := tries + [t];
    assert forall i :: 0 <= i < |tries| ==> more[i] == tries[i];
    forall i, j | 0 <= i && j == i + 1 && j < |more|
      ensures more[i].ended + c.delays[i] <= more[j].at
    {
      if j < |tries| { assert more[j] == tries[j]; }
    }
  }

  /** What a run of the loop may be, entered at `start`. */
  ghost predicate Follows(c: Config, env: Env, start: nat, run: Run) {
    var n := |run.tries|;
    && Retried(c, env, start, run.tries)
    && match run.end
       case Stopped(now, read) =>
         && Slept(c, start, run.tries, now) && now <= read <= run.finished
         && if c.cancel.Some? && env.flag(read) then run.reply == Err(Cancelled([], [], Count(n + 1)))
            else c.deadline.Some? && c.deadline.value <= now && run.reply == Err(Timeout(0, [], [], Count(n + 1)))
       case Returned =>
         && n > 0 && run.tries[n - 1].ended <= run.finished
         && (c.Retries(run.tries[n - 1].result) ==> n == |c.delays| + 1)
         && run.reply == Stamped(run.tries[n - 1].result, n)
       case Woken(read) =>
         && 0 < n <= |c.delays| && c.Retries(run.tries[n - 1].result)
         && c.cancel.Some? && run.tries[n - 1].ended <= read <= run.finished && env.flag(read)
         && run.reply == Err(Cancelled([], [], Count(n)))
  }

  // ---- Runs whose calls take no time ----

  /** When the loop next looks at the clock. */
  function Awake(c: Config, start: nat, tries: seq<Try>): nat {
    var n := |tries|;
    if n == 0 then start else tries[n - 1].ended + if n <= |c.delays| then c.delays[n - 1] else 0
  }

  predicate NoOverhead(t: Try) { t.read == t.at && t.overhead == 0 }

  /** Every attempt follows the one before without a pause but its delay. */
  ghost predicate Unbroken(c: Config, start: nat, tries: seq<Try>) {
    && |tries| <= |c.delays| + 1
    && (tries != [] ==> tries[0].at == start)
    && (forall i :: 0 <= i < |tries| ==> NoOverhead(tries[i]))
    && (forall i, j :: 0 <= i && j == i + 1 && j < |tries| ==> tries[j].at == tries[i].ended + c.delays[i])
  }

  ghost predicate Prompt(c: Config, start: nat, run: Run) {
    && Unbroken(c, start, run.tries)
    && match run.end
       case Stopped(now, _) => run.finished == now == Awake(c, start, run.tries)
       case Returned => run.tries != [] && run.finished == run.tries[|run.tries| - 1].ended
       case Woken(_) => run.finished <= Awake(c, start, run.tries)
  }

  lemma UnbrokenMore(c: Config, start: nat, tries: seq<Try>, t: Try)
    requires Unbroken(c, start, tries) && |tries| <= |c.delays| && t.at == Awake(c, start, tries) && NoOverhead(t)
    ensures Unbroken(c, start, tries + [t])
  {
    var more := tries + [t];
    forall i, j | 0 <= i && j == i + 1 && j < |more|
      ensures more[j].at == more[i].ended + c.delays[i]
    {
      assert more[i] == tries[i];
      if j < |tries| { assert more[j] == tries[j]; }
    }
  }

  // ---- Every run ----

  function Total(each: nat, delays: seq<nat>, n: nat): nat
    requires n <= |delays|
  {
    if n == 0 then 0 else Total(each, delays, n - 1) + each + delays[n - 1]
  }

  /** The delays before an attempt have all been slept by the time it starts. */
  lemma {:induction false} BackoffIsSlept(c: Config, env: Env, start: nat, tries: seq<Try>, i: nat)
    requires Retried(c, env, start, tries) && i < |tries|
    ensures tries[i].at >= start + Total(0, c.delays, i)
  {
    if i > 0 {
      BackoffIsSlept(c, env, start, tries, i - 1);
      assert MayStart(c, env, tries[i - 1]);
    }
  }

  /** The attempt count of an error is the number of attempts made, and one more when the check
      before another one stopped the run; every delay before an attempt has been slept, and only the
      last attempt may have succeeded or been cancelled. */
  lemma RetryAccounting(c: Config, env: Env, start: nat, run: Run)
    requires Follows(c, env, start, run)
    ensures |run.tries| <= 1 + |c.delays|
    ensures forall i :: 0 <= i < |run.tries| ==> run.tries[i].at >= start + Total(0, c.delays, i)
    ensures run.reply.Err? && run.reply.error.Spawn? ==> run.reply.error.Attempts() == 1
    ensures run.reply.Err? && !run.reply.error.Spawn? ==>
              run.reply.error.attempts == Min(|run.tries| + if run.end.Stopped? then 1 else 0, 0xFFFF_FFFF)
    ensures run.end.Returned? ==>
              run.tries != [] && Restamped(run.reply, run.tries[|run.tries| - 1].result, Min(|run.tries|, 0xFFFF_FFFF))
    ensures forall i :: 0 <= i < |run.tries| && (run.tries[i].result.Ok? || Attempt.IsCancelled(run.tries[i].result))
              ==> i == |run.tries| - 1 && run.reply == Stamped(run.tries[i].result, |run.tries|)
  {
    hide Possible, MayStart;
    EveryDelaySlept(c, env, start, run);
    CountsAttempts(c, env, start, run);
    OnlyLastEnds(c, env, start, run);
  }

  lemma EveryDelaySlept(c: Config, env: Env, start: nat, run: Run)
    requires Follows(c, env, start, run)
    ensures forall i :: 0 <= i < |run.tries| ==> run.tries[i].at >= start + Total(0, c.delays, i)
  {
    hide Possible, MayStart, Total;
    forall i | 0 <= i < |run.tries|
      ensures run.tries[i].at >= start + Total(0, c.delays, i)
    {
      BackoffIsSlept(c, env, start, run.tries, i);
    }
  }

  lemma CountsAttempts(c: Config, env: Env, start: nat, run: Run)
    requires Follows(c, env, start, run)
    ensures run.reply.Err? && run.reply.error.Spawn? ==> run.reply.error.Attempts() == 1
    ensures run.reply.Err? && !run.reply.error.Spawn? ==>
              run.reply.error.attempts == Min(|run.tries| + if run.end.Stopped? then 1 else 0, 0xFFFF_FFFF)
    ensures run.end.Returned? ==>
              run.tries != [] && Restamped(run.reply, run.tries[|run.tries| - 1].result, Min(|run.tries|, 0xFFFF_FFFF))
  {
    hide Possible, MayStart, Retried, Slept;
  }

  lemma OnlyLastEnds(c: Config, env: Env, start: nat, run: Run)
    requires Follows(c, env, start, run)
    ensures forall i :: 0 <= i < |run.tries| && (run.tries[i].result.Ok? || Attempt.IsCancelled(run.tries[i].result))
              ==> i == |run.tries| - 1 && run.reply == Stamped(run.tries[i].result, |run.tries|)
  {
    hide Possible, MayStart;
  }

  /** No attempt starts once the flag is set for good. */
  lemma NoneAfterCancel(c: Config, env: Env, start: nat, run: Run, since: nat)
    requires Follows(c, env, start, run) && c.cancel.Some?
    requires forall t: nat :: t >= since ==> env.flag(t)
    ensures forall i :: 0 <= i < |run.tries| ==> run.tries[i].read < since
    ensures start >= since ==> run.tries == [] && run.reply == Err(Cancelled([], [], 1))
  {
    forall i | 0 <= i < |run.tries|
      ensures run.tries[i].read < since
    {
      assert MayStart(c, env, run.tries[i]);
    }
    if run.tries != [] { assert MayStart(c, env, run.tries[0]); }
  }

  // ---- The check ----

  /** `preflight::check`: cancellation is looked at first. */
  method Preflight(os: Os, cancel: bool, deadline: Option<nat>, now: nat, attempt: nat) returns (e: Option<RunError>)
    modifies os`now, os`spent, os`procs
    ensures os.Took(0) && Settle(old(os.procs), os.procs)
    ensures e == if cancel && os.flag(os.now) then Some(Cancelled([], [], attempt))
                 else if deadline.Some? && now >= deadline.value then Some(Timeout(0, [], [], attempt))
                 else None
  {
    os.Elapse(0);
    if cancel && os.IsSet() { return Some(Cancelled([], [], attempt)); }
    if deadline.Some? && now >= deadline.value { return Some(Timeout(0, [], [], attempt)); }
    return None;
  }

  /** By `now`, with `overhead` of it spent in the calls themselves, the loop is late by no more
      than `late`, nor has it missed the flag by more than `grace`. */
  ghost predicate Timely(os: Os, deadline: Option<nat>, cancel: Option<nat>, start: nat, now: nat, overhead: int,
                         late: nat, grace: nat) {
    && (deadline.Some? ==> now <= Supervisor.Max(start, deadline.value) + late + grace + overhead)
    && (cancel.Some? ==> Supervisor.Noticed(os, start, now, grace + overhead))
  }

  function LastDelay(c: Config, n: nat): nat { if 0 < n <= |c.delays| then c.delays[n - 1] else 0 }

  /** The loop's bounds carry over a call that keeps its own. */
  lemma StaysTimely(os: Os, deadline: Option<nat>, cancel: Option<nat>, start: nat, was: nat, overhead: int, late: nat,
                    now: nat, more: int, later: nat, grace: nat)
    requires start <= was && 0 <= overhead && 0 <= more
    requires Timely(os, deadline, cancel, start, was, overhead, late, 0)
    requires deadline.Some? ==> now <= Supervisor.Max(start, deadline.value) + later + grace + overhead + more
    requires cancel.Some? ==> Supervisor.Noticed(os, was, now, grace + more)
    ensures Timely(os, deadline, cancel, start, now, overhead + more, later, grace)
  {
    if cancel.Some? { Supervisor.NoticedTwice(os, start, was, now, overhead, grace + more); }
  }

  method Take(os: Os, stdin: SharedStdin) returns (g: Given)
    requires stdin.Valid() && (os.async || stdin.SyncCompatible())
    modifies stdin
    ensures stdin.Valid() && stdin.given == old(stdin.given) + [g]
  {
    if os.async { g := stdin.TakeForAsync(); } else { g := stdin.TakeForSync(); }
  }

  // ---- What a run leaves behind ----

  /** The children added since `procs` and `signals` were as given: the sync runner leaves none of
      them unreaped; none was sent a signal once reaped, nor SIGTERM but while the flag was set; and
      no other child was signalled. */
  ghost predicate Clean(os: Os, procs: seq<Proc>, signals: Signals, after: seq<Proc>, sent: Signals,
                        cancel: Option<nat>) {
    && |procs| <= |after| && (os.Reliable() && !os.async ==> NoneLeft(procs, after))
    && Supervisor.EarlierUnsent(signals, sent, |procs|)
    && forall i :: |procs| <= i < |after| ==> RightlySent(os, cancel, SentTo(sent, i))
  }

  ghost predicate RightlySent(os: Os, cancel: Option<nat>, sent: seq<Signal>) {
    forall s :: s in sent ==> !s.to.Reaped? && (s.SigTerm? ==> cancel.Some? && os.flag(s.at))
  }

  lemma CleanTwice(os: Os, procs: seq<Proc>, signals: Signals, between: seq<Proc>, since: Signals, after: seq<Proc>,
                   sent: Signals, cancel: Option<nat>)
    requires Clean(os, procs, signals, between, since, cancel) && Clean(os, between, since, after, sent, cancel)
    ensures Clean(os, procs, signals, after, sent, cancel)
  {
    if os.Reliable() && !os.async { NoneLeftTwice(procs, between, after); }
    forall i | |procs| <= i < |after|
      ensures RightlySent(os, cancel, SentTo(sent, i))
    {
      if i < |between| { assert SentTo(sent, i) == SentTo(since, i); }
    }
  }

  lemma CleanSettled(os: Os, procs: seq<Proc>, signals: Signals, between: seq<Proc>, after: seq<Proc>, sent: Signals,
                     cancel: Option<nat>)
    requires Clean(os, procs, signals, between, sent, cancel) && Settle(between, after)
    ensures Clean(os, procs, signals, after, sent, cancel)
  {
    hide RightlySent;
    if os.Reliable() && !os.async { NoneLeftSettled(procs, between, after); }
  }

  lemma SettledIsClean(os: Os, procs: seq<Proc>, signals: Signals, after: seq<Proc>, cancel: Option<nat>)
    requires Settle(procs, after)
    ensures Clean(os, procs, signals, after, signals, cancel)
  {
  }

  lemma AttemptIsClean(os: Os, procs: seq<Proc>, signals: Signals, n: nat, entry: nat, overhead: int, lim: Limits,
                       o: Outcomes.Outcome)
    requires Attempt.Ended(os, |procs|, n, entry, overhead, lim, o) && KeepsReaped(procs, os.procs)
    requires Supervisor.EarlierUnsent(signals, os.signals, |procs|)
    ensures Clean(os, procs, signals, os.procs, os.signals, lim.cancel)
  {
    var first, end := |procs|, |os.procs|;
    var c: Option<nat> :| (c.Some? <==> o.Cancelled?) &&
      Attempt.Justified(os, os.signals, first, end, end == first + n, entry, overhead, lim, c);
    forall i | first <= i < end
      ensures RightlySent(os, lim.cancel, SentTo(os.signals, i))
    {
      if c == Some(i) { NoticerIsRight(os, i, entry, overhead, lim.cancel, SentTo(os.signals, i)); }
    }
  }

  lemma NoticerIsRight(os: Os, i: nat, entry: nat, overhead: int, cancel: Option<nat>, sent: seq<Signal>)
    requires Attempt.Noticer(os, i, entry, overhead, cancel, sent)
    ensures RightlySent(os, cancel, sent)
  {
  }

  // ---- One attempt ----

  lemma ReportsCancelled(r: RunResult, o: Outcomes.Outcome)
    requires Attempt.Reports(r, o)
    ensures Attempt.IsCancelled(r) <==> o.Cancelled?
  {
  }

  /** What an attempt proves of its result. */
  lemma EndedIsPossible(os: Os, c: Config, t: Try, first: nat)
    requires Attempt.Ended(os, first, c.stages, t.read, t.overhead, Limits(t.budget, c.cancel), t.outcome)
    requires Attempt.Reports(t.result, t.outcome) && Attempt.Tells(t.result, t.outcome)
    requires t.ended == os.now && t.at <= t.read
    ensures Possible(c, Around(os), t)
  {
    hide Attempt.Justified, Attempt.RightmostFailure, Attempt.Disposed;
    ReportsCancelled(t.result, t.outcome);
    if t.outcome.Cancelled? {
      var s: nat :| t.read <= s <= t.ended && os.flag(s) &&
        Supervisor.ReadInTime(os, s, t.read, t.overhead, t.budget);
      assert ReadInTime(Around(os), t, s);
    }
  }

  lemma EndedInTime(os: Os, first: nat, n: nat, entry: nat, overhead: int, lim: Limits, o: Outcomes.Outcome,
                    r: RunResult)
    requires Attempt.Ended(os, first, n, entry, overhead, lim, o) && Attempt.Reports(r, o) && os.Reliable()
    ensures lim.timeout.Some? ==> os.now <= entry + lim.timeout.value + Grace(lim.cancel, r) + overhead
    ensures lim.cancel.Some? ==> Supervisor.Noticed(os, entry, os.now, Grace(lim.cancel, r) + overhead)
  {
    ReportsCancelled(r, o);
  }

  /** An attempt with what is left of the deadline for a budget keeps the loop's bounds. */
  lemma AttemptIsTimely(os: Os, first: nat, c: Config, start: nat, late: nat, at: nat, read: nat, overhead: int,
                        more: int, o: Outcomes.Outcome, r: RunResult)
    requires start <= at <= read <= at + overhead && 0 <= more && os.Reliable()
    requires Timely(os, c.deadline, c.cancel, start, read, overhead, late, 0)
    requires Attempt.Ended(os, first, c.stages, read, more, Limits(PerAttempt(c.timeout, c.deadline, at), c.cancel), o)
    requires Attempt.Reports(r, o)
    ensures c.deadline.None? || at <= c.deadline.value ==>
              Timely(os, c.deadline, c.cancel, start, os.now, overhead + more, 0, Grace(c.cancel, r))
  {
    hide Attempt.Ended;
    EndedInTime(os, first, c.stages, read, more, Limits(PerAttempt(c.timeout, c.deadline, at), c.cancel), o, r);
    if c.deadline.None? || at <= c.deadline.value {
      StaysTimely(os, c.deadline, c.cancel, start, read, overhead, late, os.now, more, 0, Grace(c.cancel, r));
    }
  }

  /** The check before an attempt, and the attempt if it may start. `start` and `spent` are those
      of the loop, which is no later than `late`. */
  method CheckAndRun(os: Os, c: Config, stdin: SharedStdin, attemptNo: nat, ghost start: nat, ghost spent: nat,
                     ghost late: nat)
    returns (stop: Option<RunError>, result: RunResult, ghost t: Try)
    requires c.stages >= 1 && stdin.Valid() && (os.async || stdin.SyncCompatible())
    requires start <= os.now && spent <= os.spent
    requires os.Reliable() ==> Timely(os, c.deadline, c.cancel, start, os.now, os.spent - spent, late, 0)
    modifies os`now, os`spent, os`procs, os`signals, stdin
    ensures t.result == result && old(os.now) <= t.at <= t.read <= t.ended == os.now && os.spent >= old(os.spent)
    ensures os.spent == old(os.spent) ==> NoOverhead(t) && t.at == old(os.now)
    ensures if stop.None? then
              && MayStart(c, Around(os), t) && Possible(c, Around(os), t)
              && Attempt.Ended(os, |old(os.procs)|, c.stages, t.read, t.overhead, Limits(t.budget, c.cancel), t.outcome)
            else if c.cancel.Some? && os.flag(t.read) then result == Err(Cancelled([], [], attemptNo))
            else result == Err(Timeout(0, [], [], attemptNo)) && c.deadline.Some? && t.at >= c.deadline.value
    ensures stop.Some? ==>
              && result == Err(stop.value) && t.ended == t.read
              && |os.procs| == |old(os.procs)| && os.signals == old(os.signals)
    ensures result.Ok? ==> AllSucceeded(os.procs, c.stages)
    ensures stdin.Valid() && stdin.given == old(stdin.given) + if stop.None? then [t.stdin] else []
    ensures Clean(os, old(os.procs), old(os.signals), os.procs, os.signals, c.cancel)
    ensures os.Reliable() ==>
              Timely(os, c.deadline, c.cancel, start, os.now, os.spent - spent, if stop.Some? then late else 0,
                     Grace(c.cancel, result))
  {
    hide Attempt.Ended, Clean, Possible, Timely, AllSucceeded, Supervisor.Noticed, Attempt.Reports;
    var now;
    now, stop := Check(os, c, attemptNo, start, spent, late);
    ghost var read, overhead, was := os.now, os.spent, os.procs;
    SettledIsClean(os, old(os.procs), old(os.signals), os.procs, c.cancel);
    if stop.Some? {
      result := Err(stop.value);
      t := Try(now, read, None, Nothing, Outcomes.WaitFailed, result, read, 0);
      return;
    }
    var budget := PerAttempt(c.timeout, c.deadline, now);
    var given := Take(os, stdin);
    ghost var o;
    result, o := Attempt.Execute(os, c.stages, budget, c.cancel);
    t := Try(now, read, budget, given, o, result, os.now, os.spent - overhead);
    AttemptIsClean(os, was, old(os.signals), c.stages, read, t.overhead, Limits(budget, c.cancel), o);
    CleanTwice(os, old(os.procs), old(os.signals), was, old(os.signals), os.procs, os.signals, c.cancel);
    EndedIsPossible(os, c, t, |was|);
    if os.Reliable() {
      AttemptIsTimely(os, |was|, c, start, late, now, read, overhead - spent, t.overhead, o, result);
    }
  }

  /** The clock and the check. */
  method Check(os: Os, c: Config, attemptNo: nat, ghost start: nat, ghost spent: nat, ghost late: nat)
    returns (now: nat, stop: Option<RunError>)
    requires start <= os.now && spent <= os.spent
    requires os.Reliable() ==> Timely(os, c.deadline, c.cancel, start, os.now, os.spent - spent, late, 0)
    modifies os`now, os`spent, os`procs
    ensures Settle(old(os.procs), os.procs) && old(os.now) <= now <= os.now && os.spent >= old(os.spent)
    ensures os.now == old(os.now) + (os.spent - old(os.spent))
    ensures if stop.None? then (c.cancel.Some? ==> !os.flag(os.now)) && (c.deadline.Some? ==> now < c.deadline.value)
            else if c.cancel.Some? && os.flag(os.now) then stop.value == Cancelled([], [], attemptNo)
            else stop.value == Timeout(0, [], [], attemptNo) && c.deadline.Some? && now >= c.deadline.value
    ensures os.Reliable() ==>
              Timely(os, c.deadline, c.cancel, start, os.now, os.spent - spent, late,
                     if stop.Some? then Grace(c.cancel, Err(stop.value)) else 0)
  {
    now := os.Now();
    stop := Preflight(os, c.cancel.Some?, c.deadline, now, attemptNo);
    if os.Reliable() {
      ghost var before, more := old(os.spent) - spent, os.spent - old(os.spent);
      NoticedAtOnce(os, old(os.now), os.now, more);
      StaysTimely(os, c.deadline, c.cancel, start, old(os.now), before, late, os.now, more, late, 0);
      LaterIsTimely(os, c.deadline, c.cancel, start, os.now, os.spent - spent, late,
                    if stop.Some? then Grace(c.cancel, Err(stop.value)) else 0);
    }
  }

  lemma NoticedAtOnce(os: Os, entry: nat, now: nat, late: int)
    requires now <= entry + late
    ensures Supervisor.Noticed(os, entry, now, late)
  {
  }

  lemma LaterIsTimely(os: Os, deadline: Option<nat>, cancel: Option<nat>, start: nat, now: nat, overhead: int,
                      late: nat, grace: nat)
    requires Timely(os, deadline, cancel, start, now, overhead, late, 0)
    ensures Timely(os, deadline, cancel, start, now, overhead, late, grace)
  {
  }

  // ---- The loop ----

  /** What is known at the top of the loop, and what it may rely on. */
  ghost predicate Going(os: Os, c: Config, start: nat, spent: nat, tries: seq<Try>)
    reads os
  {
    && start <= os.now && spent <= os.spent && |tries| <= |c.delays|
    && Retried(c, Around(os), start, tries) && Slept(c, start, tries, os.now)
    && (os.spent == spent ==> Unbroken(c, start, tries) && os.now == Awake(c, start, tries))
    && (os.Reliable() ==> Timely(os, c.deadline, c.cancel, start, os.now, os.spent - spent, LastDelay(c, |tries|), 0))
  }

  /** The loop has returned. */
  ghost predicate Done(os: Os, c: Config, start: nat, spent: nat, run: Run)
    reads os
  {
    && Follows(c, Around(os), start, run) && run.finished == os.now && start <= os.now && spent <= os.spent
    && (os.spent == spent ==> Prompt(c, start, run))
    && (os.Reliable() ==> Timely(os, c.deadline, c.cancel, start, os.now, os.spent - spent,
                                 if run.end.Returned? then 0 else LastDelay(c, |run.tries|),
                                 Grace(c.cancel, run.reply)))
  }

  /** What the loop does with a result: return it, or sleep before the next attempt. */
  method AfterRun(os: Os, c: Config, backoff: nat, attemptNo: nat, result: RunResult, ghost start: nat,
                  ghost spent: nat, ghost tries: seq<Try>, ghost before: seq<Proc>, ghost signals: Signals)
    returns (reply: Option<RunResult>, ghost end: End)
    requires start <= os.now && spent <= os.spent && attemptNo == Count(|tries|)
    requires Retried(c, Around(os), start, tries) && |tries| == backoff + 1
    requires tries[backoff].result == result && tries[backoff].ended == os.now
    requires os.spent == spent ==> Unbroken(c, start, tries)
    requires os.Reliable() ==>
               Timely(os, c.deadline, c.cancel, start, os.now, os.spent - spent, 0, Grace(c.cancel, result))
    requires Clean(os, before, signals, os.procs, os.signals, c.cancel)
    modifies os`now, os`spent, os`procs
    ensures os.spent >= old(os.spent) && Clean(os, before, signals, os.procs, os.signals, c.cancel)
    ensures if reply.None? then Going(os, c, start, spent, tries)
            else Done(os, c, start, spent, Run(tries, end, reply.value, os.now))
    ensures reply.Some? && reply.value.Ok? ==> reply == Some(result) && os.procs == old(os.procs)
  {
    hide Clean, Possible, MayStart, Supervisor.Noticed;
    end := Returned;
    if result.Ok? { return Some(result), end; }
    if result.error.Cancelled? || !c.retryable(result.error) || backoff == |c.delays| {
      return Some(Err(result.error.WithAttempts(attemptNo))), end;
    }
    var fired := Supervisor.CancellableSleep(os, c.delays[backoff], c.cancel.Some?);
    if os.Reliable() {
      StaysTimely(os, c.deadline, c.cancel, start, old(os.now), old(os.spent) - spent, 0, os.now,
                  os.spent - old(os.spent), c.delays[backoff], 0);
    }
    CleanSettled(os, before, signals, old(os.procs), os.procs, os.signals, c.cancel);
    end := Woken(os.now);
    if fired && os.Reliable() {
      LaterIsTimely(os, c.deadline, c.cancel, start, os.now, os.spent - spent, c.delays[backoff],
                    Grace(c.cancel, Err(Cancelled([], [], attemptNo))));
    }
    reply := if fired then Some(Err(Cancelled([], [], attemptNo))) else None;
  }

  lemma StopFollows(c: Config, env: Env, start: nat, tries: seq<Try>, t: Try, was: nat)
    requires Retried(c, env, start, tries) && Slept(c, start, tries, was) && was <= t.at <= t.read <= t.ended
    requires if c.cancel.Some? && env.flag(t.read) then t.result == Err(Cancelled([], [], Count(|tries| + 1)))
             else
               && c.deadline.Some? && t.at >= c.deadline.value
               && t.result == Err(Timeout(0, [], [], Count(|tries| + 1)))
    ensures Follows(c, env, start, Run(tries, Stopped(t.at, t.read), t.result, t.ended))
  {
  }

  /** What was handed out since is what the attempts got. */
  ghost predicate GivenTo(before: seq<Given>, given: seq<Given>, tries: seq<Try>) {
    && before <= given && |given| == |before| + |tries|
    && forall i :: 0 <= i < |tries| ==> given[|before| + i] == tries[i].stdin
  }

  lemma GivenMore(before: seq<Given>, given: seq<Given>, after: seq<Given>, tries: seq<Try>, more: seq<Try>)
    requires GivenTo(before, given, tries) && GivenOne(given, after, tries, more)
    ensures GivenTo(before, after, more)
  {
  }

  /** At most one more attempt, and what it was given. */
  ghost predicate GivenOne(given: seq<Given>, after: seq<Given>, tries: seq<Try>, more: seq<Try>) {
    || (more == tries && after == given)
    || (|more| == |tries| + 1 && more[..|tries|] == tries && after == given + [more[|tries|].stdin])
  }

  /** One turn of the loop: its attempts so far, and the run once it is over. */
  method Turn(os: Os, c: Config, stdin: SharedStdin, backoff: nat, attemptNo: nat, ghost start: nat, ghost spent: nat,
              ghost tries: seq<Try>)
    returns (reply: Option<RunResult>, ghost more: seq<Try>, ghost end: End)
    requires c.stages >= 1 && stdin.Valid() && (os.async || stdin.SyncCompatible())
    requires Going(os, c, start, spent, tries) && |tries| == backoff && attemptNo == Count(backoff + 1)
    modifies os`now, os`spent, os`procs, os`signals, stdin
    ensures if reply.None? then Going(os, c, start, spent, more) && |more| == backoff + 1
            else Done(os, c, start, spent, Run(more, end, reply.value, os.now))
    ensures stdin.Valid() && GivenOne(old(stdin.given), stdin.given, tries, more)
    ensures reply.Some? && reply.value.Ok? ==> AllSucceeded(os.procs, c.stages)
    ensures os.spent >= old(os.spent) && Clean(os, old(os.procs), old(os.signals), os.procs, os.signals, c.cancel)
  {
    hide Clean, Attempt.Ended, Timely, Possible, MayStart, Retried, Slept, Follows, AllSucceeded, Attempt.Reports;
    ghost var t;
    var stop, result;
    stop, result, t := CheckAndRun(os, c, stdin, attemptNo, start, spent, LastDelay(c, backoff));
    if stop.Some? {
      StopFollows(c, Around(os), start, tries, t, old(os.now));
      return Some(result), tries, Stopped(t.at, t.read);
    }
    SleptLater(c, start, tries, old(os.now), t.at);
    RetriedMore(c, Around(os), start, tries, t);
    if os.spent == spent { UnbrokenMore(c, start, tries, t); }
    more := tries + [t];
    reply, end := AfterRun(os, c, backoff, attemptNo, result, start, spent, more, old(os.procs), old(os.signals));
  }

  lemma SleptLater(c: Config, start: nat, tries: seq<Try>, now: nat, later: nat)
    requires Slept(c, start, tries, now) && now <= later
    ensures Slept(c, start, tries, later)
  {
  }

  /** `run_with_retry`. */
  method RunWithRetry(os: Os, c: Config, stdin: SharedStdin) returns (reply: RunResult, ghost run: Run)
    requires c.stages >= 1 && stdin.Valid() && (os.async || stdin.SyncCompatible())
    modifies os`now, os`spent, os`procs, os`signals, stdin
    ensures Done(os, c, old(os.now), old(os.spent), run) && run.reply == reply
    ensures reply.Ok? ==> AllSucceeded(os.procs, c.stages)
    ensures stdin.Valid() && GivenTo(old(stdin.given), stdin.given, run.tries)
    ensures Clean(os, old(os.procs), old(os.signals), os.procs, os.signals, c.cancel)
  {
    hide Clean, Done, AllSucceeded, Timely;
    ghost var tries: seq<Try> := [];
    var attemptNo, backoff: nat := 0, 0;
    StartsGoing(os, c);
    SettledIsClean(os, os.procs, os.signals, os.procs, c.cancel);
    while true
      invariant attemptNo == Count(backoff) && |tries| == backoff
      invariant Going(os, c, old(os.now), old(os.spent), tries)
      invariant stdin.Valid() && GivenTo(old(stdin.given), stdin.given, tries)
      invariant Clean(os, old(os.procs), old(os.signals), os.procs, os.signals, c.cancel)
      decreases |c.delays| - backoff
    {
      attemptNo := Min(attemptNo + 1, U32_MAX);
      ghost var procs, signals, given, more, end := os.procs, os.signals, stdin.given, *, *;
      var answer;
      answer, more, end := Turn(os, c, stdin, backoff, attemptNo, old(os.now), old(os.spent), tries);
      GivenMore(old(stdin.given), given, stdin.given, tries, more);
      CleanTwice(os, old(os.procs), old(os.signals), procs, signals, os.procs, os.signals, c.cancel);
      tries := more;
      if answer.Some? { return answer.value, Run(tries, end, answer.value, os.now); }
      backoff := backoff + 1;
    }
  }

  lemma StartsGoing(os: Os, c: Config)
    ensures Going(os, c, os.now, os.spent, [])
  {
    NoticedAtOnce(os, os.now, os.now, 0);
  }

  // ---- Cmd::run and Cmd::run_async ----

  datatype Policy = Policy(delays: seq<nat>, retryable: RunError -> bool)

  /** A command with its policy, if it has one. */
  function Configured(stages: nat, timeout: Option<nat>, deadline: Option<nat>, cancel: Option<nat>,
                      retry: Option<Policy>): Config
  {
    match retry
    case None => Config(stages, timeout, deadline, cancel, [], e => false)
    case Some(p) => Config(stages, timeout, deadline, cancel, p.delays, p.retryable)
  }

  predicate Accepts(p: Policy, r: RunResult) { r.Err? && !r.error.Cancelled? && p.retryable(r.error) }

  /** Attempt `i` retries one that failed as the policy accepts, once the delay between them was over. */
  predicate RetryOf(p: Policy, tries: seq<Try>, i: nat)
    requires 0 < i < |tries|
  {
    && i <= |p.delays| && Accepts(p, tries[i - 1].result)
    && tries[i - 1].ended + p.delays[i - 1] <= tries[i].at
  }

  /** A run keeps to the command's own timeout, deadline and policy: each attempt has the budget they
      leave; with a policy, attempts follow failures it accepts once its delay is over, until one it
      does not accept or none is left to make; without one there is one attempt at most. */
  ghost predicate Obeys(timeout: Option<nat>, deadline: Option<nat>, retry: Option<Policy>, run: Run) {
    var tries, n := run.tries, |run.tries|;
    && (forall i :: 0 <= i < n ==> tries[i].budget == PerAttempt(timeout, deadline, tries[i].at))
    && match retry
       case None => n <= 1 && (n == 1 ==> run.reply == tries[0].result)
       case Some(p) =>
         && n <= |p.delays| + 1
         && (forall i :: 0 < i < n ==> RetryOf(p, tries, i))
         && (run.end.Returned? ==>
               && n > 0 && Restamped(run.reply, tries[n - 1].result, Min(n, 0xFFFF_FFFF))
               && (Accepts(p, tries[n - 1].result) ==> n == |p.delays| + 1))
  }

  lemma RetriesObey(c: Config, env: Env, start: nat, run: Run, p: Policy)
    requires Follows(c, env, start, run) && c.delays == p.delays && c.retryable == p.retryable
    ensures |run.tries| <= |p.delays| + 1
    ensures forall i :: 0 <= i < |run.tries| ==>
              run.tries[i].budget == PerAttempt(c.timeout, c.deadline, run.tries[i].at)
    ensures forall i :: 0 < i < |run.tries| ==> RetryOf(p, run.tries, i)
    ensures run.end.Returned? && run.tries != [] && Accepts(p, run.tries[|run.tries| - 1].result) ==>
              |run.tries| == |p.delays| + 1
  {
    hide Possible, PerAttempt, Slept, Stamped;
    forall i | 0 <= i < |run.tries|
      ensures run.tries[i].budget == PerAttempt(c.timeout, c.deadline, run.tries[i].at)
    {
      assert MayStart(c, env, run.tries[i]);
    }
    forall i | 0 < i < |run.tries|
      ensures RetryOf(p, run.tries, i)
    {
      assert c.Retries(run.tries[i - 1].result);
    }
  }

  lemma RunObeys(async: bool, env: Env, stages: nat, timeout: Option<nat>, deadline: Option<nat>, cancel: Option<nat>,
                 retry: Option<Policy>, start: nat, run: Run)
    requires Ran(async, env, Configured(stages, timeout, deadline, cancel, retry), retry.Some?, start, run)
    ensures Obeys(timeout, deadline, retry, run)
  {
    hide Follows, Possible, PerAttempt, Restamped, Accepts, RetryOf;
    var c := Configured(stages, timeout, deadline, cancel, retry);
    if retry.Some? {
      RetriesObey(c, env, start, run, retry.value);
      RetryAccounting(c, env, start, run);
    }
  }

  /** Without a retry policy: one attempt, which the async runner refuses past the deadline. */
  ghost predicate Alone(async: bool, env: Env, c: Config, start: nat, run: Run) {
    if run.tries == [] then
      async && c.deadline.Some? && c.deadline.value <= run.finished && run.reply == Err(Timeout(0, [], [], 1))
    else
      var t := run.tries[0];
      && |run.tries| == 1 && start <= t.at <= t.read <= t.ended <= run.finished && Possible(c, env, t)
      && t.budget == PerAttempt(c.timeout, c.deadline, t.at) && run.reply == t.result
      && (async && c.deadline.Some? ==> t.at < c.deadline.value)
  }

  /** What a call may do, with a retry policy or without. */
  ghost predicate Ran(async: bool, env: Env, c: Config, retries: bool, start: nat, run: Run) {
    if retries then Follows(c, env, start, run) else Alone(async, env, c, start, run)
  }

  function Late(c: Config, retries: bool, run: Run): nat {
    if !retries || run.end.Returned? then 0 else LastDelay(c, |run.tries|)
  }

  lemma RanSince(async: bool, env: Env, c: Config, retries: bool, start: nat, entry: nat, run: Run)
    requires Ran(async, env, c, retries, entry, run) && start <= entry
    ensures Ran(async, env, c, retries, start, run)
  {
    hide Possible, MayStart;
  }

  /** Without a retry policy: only the async runner checks the deadline before its one attempt. */
  method RunUnretried(os: Os, c: Config, stdin: SharedStdin) returns (reply: RunResult, ghost run: Run)
    requires c.stages >= 1 && stdin.Valid() && (os.async || stdin.SyncCompatible())
    modifies os`now, os`spent, os`procs, os`signals, stdin
    ensures os.now >= old(os.now) && os.spent >= old(os.spent)
    ensures Alone(os.async, Around(os), c, old(os.now), run) && run.reply == reply && run.finished == os.now
    ensures stdin.Valid() && GivenTo(old(stdin.given), stdin.given, run.tries)
    ensures if run.tries == [] then |os.procs| == |old(os.procs)| && os.signals == old(os.signals)
            else
              var t := run.tries[0];
              Attempt.Ended(os, |old(os.procs)|, c.stages, t.read, t.overhead, Limits(t.budget, c.cancel), t.outcome)
    ensures os.async && c.deadline.Some? && c.deadline.value <= old(os.now) ==> run.tries == []
    ensures Clean(os, old(os.procs), old(os.signals), os.procs, os.signals, c.cancel)
    ensures reply.Ok? ==> AllSucceeded(os.procs, c.stages)
    ensures os.Reliable() && c.timeout.Some? ==>
              os.now <= old(os.now) + c.timeout.value + Grace(c.cancel, reply) + (os.spent - old(os.spent))
    ensures os.Reliable() ==>
              Timely(os, c.deadline, c.cancel, old(os.now), os.now, os.spent - old(os.spent), 0, Grace(c.cancel, reply))
  {
    hide Attempt.Ended, Clean, AllSucceeded, Possible, Supervisor.Noticed, Attempt.Reports;
    var now := os.Now();
    if os.async {
      var stop := Preflight(os, false, c.deadline, now, 1);
      if stop.Some? {
        NoticedAtOnce(os, old(os.now), os.now, os.spent - old(os.spent));
        SettledIsClean(os, old(os.procs), old(os.signals), os.procs, c.cancel);
        return Err(stop.value), Run([], Returned, Err(stop.value), os.now);
      }
    }
    ghost var read, overhead, was := os.now, os.spent, os.procs;
    SettledIsClean(os, old(os.procs), old(os.signals), os.procs, c.cancel);
    NoticedAtOnce(os, old(os.now), read, overhead - old(os.spent));
    var budget := PerAttempt(c.timeout, c.deadline, now);
    var given := Take(os, stdin);
    ghost var o;
    reply, o := Attempt.Execute(os, c.stages, budget, c.cancel);
    ghost var t := Try(now, read, budget, given, o, reply, os.now, os.spent - overhead);
    run := Run([t], Returned, reply, os.now);
    EndedIsPossible(os, c, t, |was|);
    AttemptIsClean(os, was, old(os.signals), c.stages, read, t.overhead, Limits(budget, c.cancel), o);
    CleanTwice(os, old(os.procs), old(os.signals), was, old(os.signals), os.procs, os.signals, c.cancel);
    if os.Reliable() {
      UnretriedIsTimely(os, |was|, c, old(os.now), now, read, overhead - old(os.spent), t.overhead, o, reply);
    }
  }

  /** Without the check, a budget cut to a deadline already past is empty. */
  lemma UnretriedIsTimely(os: Os, first: nat, c: Config, start: nat, at: nat, read: nat, overhead: int, more: int,
                          o: Outcomes.Outcome, r: RunResult)
    requires start <= at <= read <= start + overhead && 0 <= more && os.Reliable()
    requires Attempt.Ended(os, first, c.stages, read, more, Limits(PerAttempt(c.timeout, c.deadline, at), c.cancel), o)
    requires Attempt.Reports(r, o)
    ensures Timely(os, c.deadline, c.cancel, start, os.now, overhead + more, 0, Grace(c.cancel, r))
    ensures c.timeout.Some? ==> os.now <= start + c.timeout.value + Grace(c.cancel, r) + (overhead + more)
  {
    hide Attempt.Ended;
    EndedInTime(os, first, c.stages, read, more, Limits(PerAttempt(c.timeout, c.deadline, at), c.cancel), o, r);
    NoticedAtOnce(os, start, read, overhead);
    if c.cancel.Some? { Supervisor.NoticedTwice(os, start, read, os.now, overhead, Grace(c.cancel, r) + more); }
  }

  /** The rest of either, with a retry policy or without. */
  method RunChecked(os: Os, c: Config, retries: bool, stdin: SharedStdin) returns (reply: RunResult, ghost run: Run)
    requires c.stages >= 1 && stdin.Valid() && (os.async || stdin.SyncCompatible())
    modifies os`now, os`spent, os`procs, os`signals, stdin
    ensures os.now >= old(os.now) && os.spent >= old(os.spent)
    ensures Ran(os.async, Around(os), c, retries, old(os.now), run) && run.reply == reply && run.finished == os.now
    ensures stdin.Valid() && GivenTo(old(stdin.given), stdin.given, run.tries)
    ensures Clean(os, old(os.procs), old(os.signals), os.procs, os.signals, c.cancel)
    ensures reply.Ok? ==> AllSucceeded(os.procs, c.stages)
    ensures os.Reliable() && c.timeout.Some? && !retries ==>
              os.now <= old(os.now) + c.timeout.value + Grace(c.cancel, reply) + (os.spent - old(os.spent))
    ensures os.Reliable() ==>
              Timely(os, c.deadline, c.cancel, old(os.now), os.now, os.spent - old(os.spent), Late(c, retries, run),
                     Grace(c.cancel, reply))
  {
    hide Clean, Timely, AllSucceeded, Follows, Alone, Attempt.Ended;
    if retries {
      reply, run := RunWithRetry(os, c, stdin);
    } else {
      reply, run := RunUnretried(os, c, stdin);
    }
  }

  /** `run` and `run_async`, for a command of `stages` stages. The sync one refuses an async reader
      before anything else, so that it stays available to a clone. A flag set for good stops either
      before any child is spawned or any stdin taken. */
  method RunCmd(os: Os, stages: nat, timeout: Option<nat>, deadline: Option<nat>, cancel: Option<nat>,
                retry: Option<Policy>, stdin: SharedStdin)
    returns (reply: RunResult, ghost run: Option<Run>)
    requires stages >= 1 && stdin.Valid()
    modifies os`now, os`spent, os`procs, os`signals, stdin
    ensures stdin.Valid()
    ensures var c := Configured(stages, timeout, deadline, cancel, retry);
            if run.None? then
              && stdin.given == old(stdin.given) && |os.procs| == |old(os.procs)| && os.signals == old(os.signals)
              && if !os.async && !stdin.SyncCompatible() then reply == Err(Spawn) && os.procs == old(os.procs)
                 else reply == Err(Cancelled([], [], 1)) && cancel.Some? && os.flag(os.now)
            else
              && (os.async || stdin.SyncCompatible())
              && !(cancel.Some? && Supervisor.SetFrom(os, old(os.now)))
              && Ran(os.async, Around(os), c, retry.Some?, old(os.now), run.value)
              && run.value.reply == reply && run.value.finished == os.now
              && GivenTo(old(stdin.given), stdin.given, run.value.tries)
    ensures run.Some? ==> Obeys(timeout, deadline, retry, run.value)
    ensures Clean(os, old(os.procs), old(os.signals), os.procs, os.signals, cancel)
    ensures reply.Ok? ==> AllSucceeded(os.procs, stages)
    ensures os.Reliable() && timeout.Some? && retry.None? ==>
              os.now <= old(os.now) + timeout.value + Grace(cancel, reply) + (os.spent - old(os.spent))
    ensures os.Reliable() ==>
              Timely(os, deadline, cancel, old(os.now), os.now, os.spent - old(os.spent),
                     if run.None? then 0
                     else Late(Configured(stages, timeout, deadline, cancel, retry), retry.Some?, run.value),
                     Grace(cancel, reply))
  {
    hide Clean, Supervisor.Noticed, AllSucceeded, Ran, GivenTo, Obeys;
    SettledIsClean(os, os.procs, os.signals, os.procs, cancel);
    NoticedAtOnce(os, os.now, os.now, 0);
    if !os.async && !stdin.SyncCompatible() { return Err(Spawn), None; }
    var stop := Preflight(os, cancel.Some?, None, 0, 1);
    SettledIsClean(os, old(os.procs), old(os.signals), os.procs, cancel);
    NoticedAtOnce(os, old(os.now), os.now, os.spent - old(os.spent));
    if stop.Some? {
      LaterIsTimely(os, deadline, cancel, old(os.now), os.now, os.spent - old(os.spent), 0,
                    Grace(cancel, Err(stop.value)));
      return Err(stop.value), None;
    }
    ghost var entry, overhead, was := os.now, os.spent - old(os.spent), os.procs;
    var c := Configured(stages, timeout, deadline, cancel, retry);
    ghost var done;
    reply, done := RunChecked(os, c, retry.Some?, stdin);
    run := Some(done);
    RanSince(os.async, Around(os), c, retry.Some?, old(os.now), entry, done);
    RunObeys(os.async, Around(os), stages, timeout, deadline, cancel, retry, old(os.now), done);
    CleanTwice(os, old(os.procs), old(os.signals), was, old(os.signals), os.procs, os.signals, cancel);
    if os.Reliable() {
      StaysTimely(os, deadline, cancel, old(os.now), entry, overhead, 0, os.now, os.spent - old(os.spent) - overhead,
                  Late(c, retry.Some?, done), Grace(cancel, reply));
    }
  }
}
