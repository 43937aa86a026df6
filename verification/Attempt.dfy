/** One attempt of a command: wiring and spawning its stages, waiting for them, and cleaning up
    after a failure at any point. */
module Attempt {
  import opened Types
  import opened Machine
  import Handle
  import Outcomes
  import Supervisor
  import Tail

  // ---- Pipes between stages ----

  datatype End = Reader(pipe: nat) | Writer(pipe: nat)

  /** What is left in the parent of one pipe. */
  datatype Slots = Slots(reader: Option<End>, writer: Option<End>)

  /** A stage's own ends: the first reads, and the last writes, no pipe between stages. */
  datatype Stage = Stage(stdin: Option<End>, stdout: Option<End>) {
    ghost predicate Holds(e: End) { stdin == Some(e) || stdout == Some(e) }
  }

  /** Stage `i` of `n` reads pipe `i - 1` and writes pipe `i`. */
  function Wired(i: nat, n: nat): Stage {
    Stage(if i == 0 then None else Some(Reader(i - 1)), if i + 1 == n then None else Some(Writer(i)))
  }

  ghost predicate AllWired(stages: seq<Stage>, n: nat) {
    |stages| <= n && forall i :: 0 <= i < |stages| ==> stages[i] == Wired(i, n)
  }

  /** In a pipeline all spawned, each pipe has one writer and one reader, and they are neighbours:
      a stage sees the end of its input as soon as its left neighbour has closed its output. */
  lemma OneHolderPerEnd(stages: seq<Stage>, n: nat, e: End)
    requires AllWired(stages, n) && |stages| == n
    ensures (set i: nat | i < n && stages[i].Holds(e)) ==
            if e.pipe + 1 >= n then {} else {if e.Reader? then e.pipe + 1 else e.pipe}
  {
    assert forall i: nat :: i < n ==> stages[i] == Wired(i, n);
  }

  /** The ends still in the slots, after `i` stages have taken theirs. */
  function LeftAt(i: nat, k: nat): Slots {
    Slots(if i <= k + 1 then Some(Reader(k)) else None, if i <= k then Some(Writer(k)) else None)
  }

  /** After `n` stages were to be spawned: a sync attempt leaves no child unreaped, an async one none
      running, nor unreaped if it spawned them all. */
  ghost predicate Disposed(os: Os, procs: seq<Proc>, first: nat, n: nat) {
    os.Reliable() ==> forall i :: first <= i < |procs| ==>
      !procs[i].Running? && (!os.async || |procs| == first + n ==> procs[i].Reaped?)
  }

  /** One more child is as fresh as the others. */
  lemma SpawnedIsFresh(os: Os, was: seq<Proc>, signals: Signals, first: nat)
    requires first <= |was| && |os.procs| == |was| + 1 && !os.procs[|was|].Reaped?
    requires forall i :: first <= i < |was| ==> !was[i].Reaped? && SentTo(signals, i) == []
    requires Settle(was, os.procs[..|was|]) && os.signals == signals[|was| := []]
    ensures Supervisor.Fresh(os, first) && KeepsReaped(was, os.procs)
    ensures Supervisor.EarlierUnsent(signals, os.signals, first)
  {
    forall i | 0 <= i < |was|
      ensures MayBecome(was[i], os.procs[i])
    {
      assert os.procs[..|was|][i] == os.procs[i];
    }
    forall i | first <= i < |os.procs|
      ensures !os.procs[i].Reaped? && SentTo(os.signals, i) == []
    {
      if i < |was| { assert MayBecome(was[i], os.procs[i]) && SentTo(os.signals, i) == SentTo(signals, i); }
    }
  }

  method Prepare(os: Os, last: bool) returns (ok: bool)
    modifies os`now, os`spent, os`procs
    ensures Settle(old(os.procs), os.procs) && os.spent >= old(os.spent)
    ensures os.now == old(os.now) + (os.spent - old(os.spent)) && (os.starts ==> ok)
  {
    ok := true;
    if last { ok := os.Try(); }
    if ok { ok := os.Try(); }
    if ok { ok := os.Try(); }
  }

  /** Routing the last stage's stdout, routing stderr, the caller's hook, and `spawn`: if any of them
      fails, the children from `first` on are killed, and the sync runner reaps them. */
  method Launch(os: Os, first: nat, n: nat, last: bool) returns (ok: bool)
    requires Supervisor.Fresh(os, first) && |os.procs| < first + n
    modifies os`now, os`spent, os`procs, os`signals
    ensures KeepsReaped(old(os.procs), os.procs) && os.spent >= old(os.spent) && os.now >= old(os.now)
    ensures Supervisor.EarlierUnsent(old(os.signals), os.signals, first)
    ensures os.kills || ok ==> os.now <= old(os.now) + (os.spent - old(os.spent))
    ensures |os.procs| == |old(os.procs)| + (if ok then 1 else 0) && (os.starts ==> ok)
    ensures if ok then Supervisor.Fresh(os, first) else Disposed(os, os.procs, first, n) && OnlyKilled(os, first)
  {
    ok := Prepare(os, last);
    if ok {
      ghost var was := os.procs;
      ok := os.Spawn();
      if ok { SpawnedIsFresh(os, was, old(os.signals), first); }
    }
    if !ok {
      ghost var before := os.signals;
      if os.async { Supervisor.DropChildren(os, first); } else { Supervisor.KillAndWaitAll(os, first); }
      FreshKilled(os, before, first);
    }
  }

  /** The children from `first` on were sent nothing but SIGKILL, before they were reaped. */
  ghost predicate OnlyKilled(os: Os, first: nat)
    reads os
  {
    forall i :: first <= i < |os.procs| ==> Supervisor.Kills(SentTo(os.signals, i))
  }

  lemma FreshKilled(os: Os, before: Signals, first: nat)
    requires forall i :: first <= i < |os.procs| ==> SentTo(before, i) == []
    requires Supervisor.OnlyKills(before, os.signals, first)
    ensures OnlyKilled(os, first)
  {
    forall i | first <= i < |os.procs|
      ensures Supervisor.Kills(SentTo(os.signals, i))
    {
      assert Supervisor.Kills(SentTo(os.signals, i)[|SentTo(before, i)|..]);
    }
  }

  method OpenPipes(os: Os, count: nat) returns (ok: bool, pipes: seq<Slots>)
    modifies os`now, os`spent, os`procs
    ensures Settle(old(os.procs), os.procs)
    ensures os.spent >= old(os.spent) && os.now == old(os.now) + (os.spent - old(os.spent))
    ensures os.starts ==> ok
    ensures ok ==> |pipes| == count && forall k :: 0 <= k < count ==> pipes[k] == LeftAt(0, k)
  {
    pipes := [];
    for k := 0 to count
      invariant Settle(old(os.procs), os.procs)
      invariant os.spent >= old(os.spent) && os.now == old(os.now) + (os.spent - old(os.spent))
      invariant |pipes| == k && forall j :: 0 <= j < k ==> pipes[j] == LeftAt(0, j)
    {
      ok := os.Try();
      if !ok { return; }
      pipes := pipes + [Slots(Some(Reader(k)), Some(Writer(k)))];
    }
    ok := true;
  }

  /** The loop shared by `execute_pipeline`, `spawn_pipeline_stages` and their async twins. A stage
      takes its pipe ends out of the slots, and the parent's copies go when its `Command` is dropped,
      so once every stage is spawned the parent holds no end. On any failure the stages spawned
      before are disposed of. `left` is the slots on return. */
  method SpawnStages(os: Os, n: nat) returns (ok: bool, ghost stages: seq<Stage>, ghost left: seq<Slots>)
    requires n >= 2
    modifies os`now, os`spent, os`procs, os`signals
    ensures KeepsReaped(old(os.procs), os.procs) && os.now >= old(os.now) && os.spent >= old(os.spent)
    ensures Supervisor.EarlierUnsent(old(os.signals), os.signals, |old(os.procs)|)
    ensures os.kills || ok ==> os.now <= old(os.now) + (os.spent - old(os.spent))
    ensures AllWired(stages, n) && |os.procs| == |old(os.procs)| + |stages|
    ensures os.starts ==> ok
    ensures if ok then
              && |stages| == n && |left| == n - 1 && Supervisor.Fresh(os, |old(os.procs)|)
              && forall k :: 0 <= k < n - 1 ==> left[k].reader.None? && left[k].writer.None?
            else |stages| < n && Disposed(os, os.procs, |old(os.procs)|, n) && OnlyKilled(os, |old(os.procs)|)
  {
    var first := |os.procs|;
    stages := [];
    var pipes: seq<Slots>;
    ok, pipes := OpenPipes(os, n - 1);
    if !ok { return false, stages, pipes; }
    for i := 0 to n
      invariant |os.procs| == first + i && KeepsReaped(old(os.procs), os.procs) && Supervisor.Fresh(os, first)
      invariant Supervisor.EarlierUnsent(old(os.signals), os.signals, first)
      invariant os.spent >= old(os.spent) && old(os.now) <= os.now <= old(os.now) + (os.spent - old(os.spent))
      invariant AllWired(stages, n) && |stages| == i
      invariant |pipes| == n - 1 && forall k :: 0 <= k < n - 1 ==> pipes[k] == LeftAt(i, k)
    {
      var stdin, stdout := None, None;
      if i > 0 {
        stdin := Some(pipes[i - 1].reader.value);
        pipes := pipes[i - 1 := pipes[i - 1].(reader := None)];
      }
      if i < n - 1 {
        stdout := Some(pipes[i].writer.value);
        pipes := pipes[i := pipes[i].(writer := None)];
      }
      ok := Launch(os, first, n, i == n - 1);
      if !ok { return false, stages, pipes; }
      stages := stages + [Stage(stdin, stdout)];
    }
    return true, stages, pipes;
  }

  // ---- Running an attempt to its end ----

  /** `finalize_outcome`; a failed wait is reported as a failure to spawn. */
  function Finalize(o: Outcomes.Outcome, stdout: seq<Byte>, stderr: seq<Byte>): RunResult {
    var out, err := Tail.TruncateSuffix(stdout), Tail.TruncateSuffixString(stderr);
    match o
    case Exited(status) =>
      if status.Success() then Ok(RunOutput(stdout, stderr)) else Err(NonZeroExit(status, out, err, 1))
    case TimedOut(elapsed) => Err(Timeout(elapsed, out, err, 1))
    case WaitFailed => Err(Spawn)
    case Cancelled => Err(RunError.Cancelled(out, err, 1))
  }

  ghost predicate Reports(r: RunResult, o: Outcomes.Outcome) {
    exists stdout: seq<Byte>, stderr: seq<Byte> :: r == Finalize(o, stdout, stderr)
  }

  /** What a result says of the outcome it reports: the status of a failed exit, how long a timeout
      took, and one attempt. */
  ghost predicate Tells(r: RunResult, o: Outcomes.Outcome) {
    match o
    case Exited(status) =>
      if status.raw == 0 then r.Ok?
      else r.Err? && r.error.NonZeroExit? && r.error.status == status && r.error.attempts == 1
    case TimedOut(elapsed) => r.Err? && r.error.Timeout? && r.error.elapsed == elapsed && r.error.attempts == 1
    case WaitFailed => r == Err(Spawn)
    case Cancelled => r.Err? && r.error.Cancelled? && r.error.attempts == 1
  }

  /** It carries the output whole if it is a success, and otherwise the tails of the two streams. */
  lemma FinalizeTells(o: Outcomes.Outcome, stdout: seq<Byte>, stderr: seq<Byte>)
    ensures var r := Finalize(o, stdout, stderr);
            && Tells(r, o) && (r.Ok? ==> r.output.stdout == stdout && r.output.stderr == stderr)
            && (r.Err? && !r.error.Spawn? ==>
                  Tail.ByteTail(r.error.stdout, stdout) && Tail.TextTail(r.error.stderr, stderr))
  {
    Tail.ByteTailIs(stdout);
    Tail.TextTailIs(stderr);
  }

  /** `run` and `spawn` then `wait` report the same of stages that all exited: the same output, or
      the same failing status with the same tails. */
  lemma RunReportsWhatTheHandleReports(f: Handle.Finalized)
    requires f.statuses != []
    ensures Finalize(Outcomes.Combine(Outcomes.AllExited(f.statuses)), f.stdout, f.stderr) == Handle.Reconstruct(f)
  {
    Outcomes.RunAgreesWithHandle(f.statuses);
  }

  predicate IsCancelled(r: RunResult) { r.Err? && r.error.Cancelled? }

  /** Every child was reaped, `status` is that of the rightmost failure if there is one, and neither
      that child nor any to its right had been signalled. */
  ghost predicate RightmostFailure(procs: seq<Proc>, signals: Signals, first: nat, status: ExitStatus) {
    exists k :: first <= k < |procs| && procs[k] == Reaped(status) && SentTo(signals, k) == []
      && forall i :: (if status.Success() then first else k + 1) <= i < |procs| ==>
           procs[i] == Reaped(ExitStatus(0)) && SentTo(signals, i) == []
  }

  /** Why a child may be killed when nothing is cancelled: the timeout is over, a stage could not be
      spawned, or a call of the system failed. */
  ghost predicate KillDue(os: Os, spawned: bool, entry: nat, overhead: int, timeout: Option<nat>, s: Signal) {
    && s.SigKill? && !s.to.Reaped?
    && (Supervisor.Due(s.at, entry, overhead, timeout) || !spawned || !(os.kills && os.polls))
  }

  /** The child whose wait saw the flag: asked to end once it was set, and made to only after the
      grace period. */
  ghost predicate Noticer(os: Os, i: nat, entry: nat, overhead: int, cancel: Option<nat>, sent: seq<Signal>) {
    && cancel.Some? && (exists n :: 0 < n <= |sent| && GracedThenKilled(os, i, cancel.value, sent, n))
    && entry <= sent[0].at && os.flag(sent[0].at)
    && (os.Reliable() ==> Supervisor.Noticed(os, entry, sent[0].at, overhead))
  }

  /** It was killed again after its wait only if a call failed and left it unreaped. */
  ghost predicate GracedThenKilled(os: Os, i: nat, grace: nat, sent: seq<Signal>, n: nat)
    requires n <= |sent|
  {
    && Supervisor.Graced(os, i, grace, sent[..n]) && Supervisor.Kills(sent[n..])
    && (n < |sent| ==> !(os.kills && os.polls))
  }

  lemma GracedIsNoticer(os: Os, i: nat, entry: nat, overhead: int, cancel: Option<nat>, sent: seq<Signal>)
    requires cancel.Some? && Supervisor.Graced(os, i, cancel.value, sent)
    requires entry <= sent[0].at && os.flag(sent[0].at)
    requires os.Reliable() ==> Supervisor.Noticed(os, entry, sent[0].at, overhead)
    ensures Noticer(os, i, entry, overhead, cancel, sent)
  {
    assert sent[..|sent|] == sent && sent[|sent|..] == [];
    assert GracedThenKilled(os, i, cancel.value, sent, |sent|);
  }

  /** No child from `first` to `end` was signalled without cause, `c` being the one that saw the flag. */
  ghost predicate Justified(os: Os, signals: Signals, first: nat, end: nat, spawned: bool, entry: nat, overhead: int,
                            lim: Limits, c: Option<nat>) {
    && (c.Some? ==>
          first <= c.value < end && Noticer(os, c.value, entry, overhead, lim.cancel, SentTo(signals, c.value)))
    && forall i :: first <= i < end && c != Some(i) ==>
         forall s :: s in SentTo(signals, i) ==>
           || KillDue(os, spawned, entry, overhead, lim.timeout, s)
           || (c.Some? && s.SigKill? && !s.to.Reaped? && Supervisor.FlagSeen(os, entry, s.at))
  }

  /** What an attempt of `n` stages, with children from `first` on, has done when its outcome is
      `o`: each outcome, and each signal sent, has its cause. */
  ghost predicate Concluded(os: Os, procs: seq<Proc>, signals: Signals, span: Span, first: nat, n: nat, lim: Limits,
                            o: Outcomes.Outcome) {
    var end := |procs|;
    && first <= end <= first + n && Disposed(os, procs, first, n)
    && (os.starts ==> end == first + n)
    && (!o.WaitFailed? || (os.kills && os.polls) ==> (o.WaitFailed? <==> end < first + n))
    && (o.WaitFailed? && end == first + n && lim.cancel.Some? ==> lim.timeout != Some(0))
    && (o.WaitFailed? && os.kills && os.polls ==> span.now <= span.entry + span.overhead)
    && (o.Cancelled? ==> lim.cancel.Some? && Supervisor.FlagRead(os, span, lim.timeout))
    && (o.Exited? ==>
          RightmostFailure(procs, signals, first, o.status) && (lim.cancel.Some? ==> lim.timeout != Some(0)))
    && (o.TimedOut? ==>
          && Supervisor.TimedRight(span, lim.timeout, o)
          && (n == 1 ==> o.elapsed >= lim.timeout.value))
    && (exists c: Option<nat> :: (c.Some? <==> o.Cancelled?) &&
          Justified(os, signals, first, end, end == first + n, span.entry, span.overhead, lim, c))
    && (os.Reliable() ==> Supervisor.StagesInTime(os, span, lim, o.Cancelled?))
    && (os.Reliable() ==> Supervisor.ExitsSeen(os, first, end, span, lim.cancel))
  }

  ghost predicate Ended(os: Os, first: nat, n: nat, entry: nat, overhead: int, lim: Limits, o: Outcomes.Outcome)
    reads os
  {
    Concluded(os, os.procs, os.signals, Span(entry, os.now, overhead), first, n, lim, o)
  }

  lemma Conclude(os: Os, first: nat, n: nat, entry: nat, overhead: int, lim: Limits, o: Outcomes.Outcome,
                 c: Option<nat>)
    requires |os.procs| == first + n && Disposed(os, os.procs, first, n)
    requires o.WaitFailed? ==> !(os.kills && os.polls) && (lim.cancel.Some? ==> lim.timeout != Some(0))
    requires o.Exited? ==>
               RightmostFailure(os.procs, os.signals, first, o.status) && (lim.cancel.Some? ==> lim.timeout != Some(0))
    requires o.TimedOut? ==>
               && Supervisor.TimedRight(Span(entry, os.now, overhead), lim.timeout, o)
               && (n == 1 ==> o.elapsed >= lim.timeout.value)
    requires o.Cancelled? ==> lim.cancel.Some? && Supervisor.FlagRead(os, Span(entry, os.now, overhead), lim.timeout)
    requires c.Some? <==> o.Cancelled?
    requires Justified(os, os.signals, first, first + n, true, entry, overhead, lim, c)
    requires os.Reliable() ==> Supervisor.StagesInTime(os, Span(entry, os.now, overhead), lim, o.Cancelled?)
    requires os.Reliable() ==> Supervisor.ExitsSeen(os, first, first + n, Span(entry, os.now, overhead), lim.cancel)
    ensures Ended(os, first, n, entry, overhead, lim, o)
  {
  }

  lemma SuccessOfAll(procs: seq<Proc>, signals: Signals, first: nat, n: nat, status: ExitStatus)
    requires |procs| == first + n && status.Success() && RightmostFailure(procs, signals, first, status)
    ensures AllSucceeded(procs, n)
  {
  }

  // ---- Spawning failed ----

  lemma FailedIsEnded(os: Os, first: nat, n: nat, entry: nat, overhead: int, lim: Limits)
    requires first <= |os.procs| < first + n && Disposed(os, os.procs, first, n) && OnlyKilled(os, first)
    requires !os.starts
    requires 0 <= overhead
    requires os.kills ==> os.now <= entry + overhead
    ensures Ended(os, first, n, entry, overhead, lim, Outcomes.WaitFailed)
  {
    var c: Option<nat> := None;
    forall i, s | first <= i < |os.procs| && s in SentTo(os.signals, i)
      ensures KillDue(os, false, entry, overhead, lim.timeout, s)
    {
      assert Supervisor.Kills(SentTo(os.signals, i));
    }
    assert Justified(os, os.signals, first, |os.procs|, false, entry, overhead, lim, c);
  }

  // ---- One stage ----

  lemma NoticedSoon(os: Os, entry: nat, now: nat, late: int)
    requires now <= entry + late
    ensures Supervisor.Noticed(os, entry, now, late)
  {
  }

  lemma SingleIsJustified(os: Os, first: nat, entry: nat, since: nat, overhead: int, more: int, end: Option<nat>,
                          lim: Limits, sent: seq<Signal>, o: Outcomes.Outcome)
    requires SentTo(os.signals, first) == sent && entry <= since <= entry + overhead && 0 <= more
    requires end.Some? ==> Supervisor.Due(end.value, entry, overhead, lim.timeout)
    requires Supervisor.Caused(os, first, since, more, end, lim.cancel, sent, o)
    ensures Justified(os, os.signals, first, first + 1, true, entry, overhead + more, lim,
                      if o.Cancelled? then Some(first) else None)
  {
    NoticedSoon(os, entry, since, overhead);
    if o.Cancelled? {
      Supervisor.NoticedTwice(os, entry, since, sent[0].at, overhead, more);
      GracedIsNoticer(os, first, entry, overhead + more, lim.cancel, sent);
    }
  }

  lemma SingleIsInTime(os: Os, entry: nat, since: nat, overhead: int, more: int, lim: Limits, start: nat,
                       o: Outcomes.Outcome)
    requires entry <= start <= since <= entry + overhead && 0 <= more
    requires Supervisor.InTime(os, since, more, Supervisor.WindowEnd(lim.timeout, lim.cancel, since, start), lim.cancel,
                               o)
    ensures Supervisor.StagesInTime(os, Span(entry, os.now, overhead + more), lim, o.Cancelled?)
  {
    if lim.cancel.Some? {
      NoticedSoon(os, entry, since, overhead);
      var grace := if o.Cancelled? then lim.cancel.value else 0;
      Supervisor.NoticedTwice(os, entry, since, os.now, overhead, grace + more);
    }
  }

  lemma SingleExitSeen(os: Os, first: nat, entry: nat, since: nat, overhead: int, more: int, lim: Limits)
    requires entry <= since <= entry + overhead && 0 <= more
    requires Supervisor.ExitSeen(os, first, since, os.now, more, Supervisor.Lag(lim.cancel))
    ensures Supervisor.ExitsSeen(os, first, first + 1, Span(entry, os.now, overhead + more), lim.cancel)
  {
    assert os.now <= since + more || os.now <= os.exitsAt(first) + Supervisor.Lag(lim.cancel) + (overhead + more);
  }

  lemma SingleReadsFlag(os: Os, first: nat, entry: nat, since: nat, overhead: int, more: int, lim: Limits, start: nat,
                        sent: seq<Signal>)
    requires entry <= start <= since <= entry + overhead && lim.cancel.Some? && 0 <= more
    requires Supervisor.Caused(os, first, since, more, Supervisor.WindowEnd(lim.timeout, lim.cancel, since, start),
                               lim.cancel, sent, Outcomes.Cancelled)
    requires forall s :: s in sent ==> s.at <= os.now
    ensures Supervisor.FlagRead(os, Span(entry, os.now, overhead + more), lim.timeout)
  {
    assert sent[0] in sent && entry <= sent[0].at <= os.now;
    assert Supervisor.ReadInTime(os, sent[0].at, entry, overhead + more, lim.timeout);
  }

  /** A wait entered at `since`, `overhead` after the attempt began. */
  lemma SingleIsEnded(os: Os, first: nat, was: Proc, entry: nat, since: nat, spent: nat, overhead: int, lim: Limits,
                      start: nat, sent: seq<Signal>, o: Outcomes.Outcome)
    requires |os.procs| == first + 1 && SentTo(os.signals, first) == sent
    requires entry <= start <= since <= os.now && since <= entry + overhead && spent <= os.spent
    requires Supervisor.Waited(os, first, was, since, spent, lim.timeout, lim.cancel, start, sent, o)
    ensures Ended(os, first, 1, entry, overhead + (os.spent - spent), lim, o)
  {
    hide Justified, Supervisor.StagesInTime, Supervisor.ExitsSeen, Supervisor.InTime, Supervisor.Noticed,
      Supervisor.Graced, Supervisor.FlagRead;
    var more, end := os.spent - spent, Supervisor.WindowEnd(lim.timeout, lim.cancel, since, start);
    SingleIsJustified(os, first, entry, since, overhead, more, end, lim, sent, o);
    if os.Reliable() {
      SingleIsInTime(os, entry, since, overhead, more, lim, start, o);
      SingleExitSeen(os, first, entry, since, overhead, more, lim);
    }
    if o.TimedOut? { assert sent[0] in sent; }
    if o.Cancelled? { SingleReadsFlag(os, first, entry, since, overhead, more, lim, start, sent); }
    if o.Exited? {
      assert os.procs[first] == Reaped(o.status) && RightmostFailure(os.procs, os.signals, first, o.status);
    }
    Conclude(os, first, 1, entry, overhead + more, lim, o, if o.Cancelled? then Some(first) else None);
  }

  /** `execute_single`, up to its outcome. */
  method ExecuteSingle(os: Os, timeout: Option<nat>, cancel: Option<nat>) returns (o: Outcomes.Outcome)
    modifies os`now, os`spent, os`procs, os`signals
    ensures KeepsReaped(old(os.procs), os.procs) && os.now >= old(os.now) && os.spent >= old(os.spent)
    ensures Supervisor.EarlierUnsent(old(os.signals), os.signals, |old(os.procs)|)
    ensures Ended(os, |old(os.procs)|, 1, old(os.now), os.spent - old(os.spent), Limits(timeout, cancel), o)
  {
    hide Ended, Supervisor.Waited, Disposed, OnlyKilled;
    var first := |os.procs|;
    var ok := Launch(os, first, 1, true);
    if !ok {
      FailedIsEnded(os, first, 1, old(os.now), os.spent - old(os.spent), Limits(timeout, cancel));
      return Outcomes.WaitFailed;
    }
    var start := os.Now();
    ghost var was, since, spent, sent := os.procs[first], os.now, os.spent, [];
    o, sent := Supervisor.WaitSingle(os, first, timeout, cancel, start);
    SingleIsEnded(os, first, was, old(os.now), since, spent, spent - old(os.spent), Limits(timeout, cancel), start,
                  sent, o);
  }

  // ---- A pipeline ----

  /** A pipeline that ends with an exit status ends with its rightmost failure. */
  lemma ExitOfPipeline(os: Os, first: nat, outs: seq<Outcomes.Outcome>, span: Span, lim: Limits, status: ExitStatus)
    requires outs != [] && Supervisor.OutcomesOk(os.procs, os.Reliable(), first, outs) && first + |outs| == |os.procs|
    requires Supervisor.OnTrack(os, span, os.signals, first, outs, lim)
    requires Outcomes.Combine(outs) == Outcomes.Exited(status)
    ensures RightmostFailure(os.procs, os.signals, first, status)
  {
    Outcomes.CombineIsPipefail(outs);
    Outcomes.ChosenIsRightmostFailure(outs);
    var k := |outs| - 1;
    while k > 0 && outs[k].Success()
      invariant 0 <= k < |outs| && forall i :: k < i < |outs| ==> outs[i].Success()
    {
      k := k - 1;
    }
    assert outs[k] in outs && outs[k] == Outcomes.Exited(status);
    forall i | 0 <= i < |outs| && outs[i].Exited?
      ensures os.procs[first + i] == Reaped(outs[i].status) && SentTo(os.signals, first + i) == []
    {
      ExitedUnsent(os, first, outs, span, lim, i);
    }
    RightmostFailureAt(os.procs, os.signals, first, outs, k, status);
  }

  lemma ExitedUnsent(os: Os, first: nat, outs: seq<Outcomes.Outcome>, span: Span, lim: Limits, j: nat)
    requires Supervisor.OnTrack(os, span, os.signals, first, outs, lim)
    requires j < |outs| && outs[j].Exited?
    ensures SentTo(os.signals, first + j) == []
  {
    var i := first + j;
    assert Supervisor.StageCaused(os, i, outs, i - first, span.entry, span.overhead, lim, SentTo(os.signals, i));
  }

  lemma RightmostFailureAt(procs: seq<Proc>, signals: Signals, first: nat, outs: seq<Outcomes.Outcome>, k: nat,
                           status: ExitStatus)
    requires first + |outs| == |procs| && k < |outs| && outs[k] == Outcomes.Exited(status)
    requires forall i :: k < i < |outs| ==> outs[i].Success()
    requires status.Success() ==> forall o :: o in outs ==> o.Success()
    requires forall i :: 0 <= i < |outs| && outs[i].Exited? ==>
               procs[first + i] == Reaped(outs[i].status) && SentTo(signals, first + i) == []
    ensures RightmostFailure(procs, signals, first, status)
  {
    forall i | (if status.Success() then first else first + k + 1) <= i < |procs|
      ensures procs[i] == Reaped(ExitStatus(0)) && SentTo(signals, i) == []
    {
      assert outs[i - first] in outs && outs[i - first].Success();
      assert procs[first + (i - first)] == Reaped(outs[i - first].status);
    }
    assert procs[first + k] == Reaped(status);
  }

  /** The stage whose wait saw the flag. */
  lemma {:induction false} WhoNoticed(procs: seq<Proc>, reliable: bool, first: nat, outs: seq<Outcomes.Outcome>)
    returns (j: nat)
    requires Supervisor.OutcomesOk(procs, reliable, first, outs) && Outcomes.Cancelled in outs
    ensures Supervisor.Notices(outs, j)
  {
    j := |outs| - 1;
    while j > 0 && outs[j - 1].Cancelled?
      invariant 0 <= j < |outs| && outs[j].Cancelled?
    {
      j := j - 1;
    }
  }

  /** The causes the stages give are causes for the whole. */
  lemma StageIsJustified(os: Os, outs: seq<Outcomes.Outcome>, j: nat, i: nat, sent: seq<Signal>, entry: nat,
                         before: int, span: Span, lim: Limits, c: Option<nat>, s: Signal)
    requires j < |outs| && entry <= span.entry && 0 <= before && s in sent
    requires Supervisor.StageCaused(os, i, outs, j, span.entry, span.overhead, lim, sent)
    requires outs[j].Cancelled? ==> c.Some? && !Supervisor.Notices(outs, j)
    ensures KillDue(os, true, entry, before + span.overhead, lim.timeout, s)
            || (c.Some? && s.SigKill? && !s.to.Reaped? && Supervisor.FlagSeen(os, entry, s.at))
  {
    if outs[j].Cancelled? {
      var t: nat :| span.entry <= t <= s.at && os.flag(t);
      assert entry <= t <= s.at;
    }
  }

  lemma NoticerIs(os: Os, i: nat, outs: seq<Outcomes.Outcome>, j: nat, entry: nat, since: nat, before: int,
                  overhead: int, lim: Limits, sent: seq<Signal>)
    requires Supervisor.Notices(outs, j) && entry <= since && since <= entry + before && 0 <= before && 0 <= overhead
    requires Supervisor.StageCaused(os, i, outs, j, since, overhead, lim, sent)
    ensures Noticer(os, i, entry, before + overhead, lim.cancel, sent)
  {
    NoticedSoon(os, entry, since, before);
    if os.Reliable() { Supervisor.NoticedTwice(os, entry, since, sent[0].at, before, overhead); }
    GracedIsNoticer(os, i, entry, before + overhead, lim.cancel, sent);
  }

  lemma PipelineIsJustified(os: Os, first: nat, outs: seq<Outcomes.Outcome>, entry: nat, before: int, span: Span,
                            lim: Limits)
    returns (c: Option<nat>)
    requires |os.procs| == first + |outs| && Supervisor.OutcomesOk(os.procs, os.Reliable(), first, outs)
    requires entry <= span.entry <= entry + before && 0 <= span.overhead
    requires Supervisor.OnTrack(os, span, os.signals, first, outs, lim)
    ensures c.Some? <==> Outcomes.Cancelled in outs
    ensures Justified(os, os.signals, first, |os.procs|, true, entry, before + span.overhead, lim, c)
  {
    c := None;
    if Outcomes.Cancelled in outs {
      var j := WhoNoticed(os.procs, os.Reliable(), first, outs);
      c := Some(first + j);
      assert Supervisor.StageCaused(os, c.value, outs, c.value - first, span.entry, span.overhead, lim,
                                    SentTo(os.signals, c.value));
      NoticerIs(os, c.value, outs, j, entry, span.entry, before, span.overhead, lim, SentTo(os.signals, c.value));
    }
    forall i, s | first <= i < |os.procs| && c != Some(i) && s in SentTo(os.signals, i)
      ensures || KillDue(os, true, entry, before + span.overhead, lim.timeout, s)
              || (c.Some? && s.SigKill? && !s.to.Reaped? && Supervisor.FlagSeen(os, entry, s.at))
    {
      var sent := SentTo(os.signals, i);
      assert Supervisor.StageCaused(os, i, outs, i - first, span.entry, span.overhead, lim, sent);
      if outs[i - first].Cancelled? { NoticesOnce(os.procs, os.Reliable(), first, outs, i - first, c.value - first); }
      StageIsJustified(os, outs, i - first, i, sent, entry, before, span, lim, c, s);
    }
  }

  lemma NoticesOnce(procs: seq<Proc>, reliable: bool, first: nat, outs: seq<Outcomes.Outcome>, i: nat, j: nat)
    requires Supervisor.OutcomesOk(procs, reliable, first, outs) && Supervisor.Notices(outs, j) && i != j
    ensures !Supervisor.Notices(outs, i)
  {
  }

  lemma ChosenStage(os: Os, first: nat, outs: seq<Outcomes.Outcome>, span: Span, lim: Limits, o: Outcomes.Outcome)
    requires outs != [] && o == Outcomes.Combine(outs) && Outcomes.Cancelled !in outs
    requires Supervisor.OnTrack(os, span, os.signals, first, outs, lim)
    ensures o.TimedOut? ==> Supervisor.TimedRight(span, lim.timeout, o)
    ensures o.WaitFailed? ==> !(os.kills && os.polls) && (lim.cancel.Some? ==> lim.timeout != Some(0))
    ensures o.Exited? && lim.cancel.Some? ==> lim.timeout != Some(0)
  {
    Outcomes.ChosenIsRightmostFailure(outs);
    var j :| 0 <= j < |outs| && outs[j] == o;
    var i := first + j;
    assert Supervisor.StageCaused(os, i, outs, i - first, span.entry, span.overhead, lim, SentTo(os.signals, i));
    assert Supervisor.TimedRight(span, lim.timeout, outs[j]);
  }

  lemma PipelineInTime(os: Os, entry: nat, before: int, span: Span, lim: Limits, cancelled: bool)
    requires entry <= span.entry <= entry + before && 0 <= span.overhead
    requires Supervisor.StagesInTime(os, span, lim, cancelled)
    ensures Supervisor.StagesInTime(os, Span(entry, span.now, before + span.overhead), lim, cancelled)
  {
    if lim.cancel.Some? {
      NoticedSoon(os, entry, span.entry, before);
      var grace := if cancelled then lim.cancel.value else 0;
      Supervisor.NoticedTwice(os, entry, span.entry, span.now, before, grace + span.overhead);
    }
  }

  lemma PipelineExitsSeen(os: Os, first: nat, end: nat, entry: nat, before: int, span: Span, cancel: Option<nat>)
    requires entry <= span.entry <= entry + before && Supervisor.ExitsSeen(os, first, end, span, cancel)
    ensures Supervisor.ExitsSeen(os, first, end, Span(entry, span.now, before + span.overhead), cancel)
  {
    if span.now > span.entry + span.overhead {
      var i :| first <= i < end && span.now <= os.exitsAt(i) + Supervisor.Lag(cancel) + span.overhead;
      assert span.now <= os.exitsAt(i) + Supervisor.Lag(cancel) + (before + span.overhead);
    }
  }

  lemma PipelineReadsFlag(os: Os, signals: Signals, first: nat, outs: seq<Outcomes.Outcome>, entry: nat, before: int,
                          span: Span, lim: Limits)
    requires entry <= span.entry <= entry + before && 0 <= span.overhead && Outcomes.Cancelled in outs
    requires Supervisor.OnTrack(os, span, signals, first, outs, lim)
    ensures Supervisor.FlagRead(os, Span(entry, span.now, before + span.overhead), lim.timeout)
  {
    var t: nat :| span.entry <= t <= span.now && os.flag(t) &&
      Supervisor.ReadInTime(os, t, span.entry, span.overhead, lim.timeout);
    assert entry <= t && Supervisor.ReadInTime(os, t, entry, before + span.overhead, lim.timeout);
  }

  /** Stages waited for from `since` on, `before` of the attempt's time having gone into spawning them. */
  lemma PipelineIsEnded(os: Os, first: nat, outs: seq<Outcomes.Outcome>, entry: nat, before: int, span: Span,
                        lim: Limits, o: Outcomes.Outcome)
    requires |outs| >= 2 && entry <= span.entry <= entry + before && 0 <= span.overhead && o == Outcomes.Combine(outs)
    requires Supervisor.Standing(os, os.procs, os.signals, span, first, |os.procs|, outs, lim)
    requires span.now == os.now
    ensures Ended(os, first, |outs|, entry, before + span.overhead, lim, o)
  {
    hide Justified, Supervisor.OnTrack, Supervisor.StagesInTime, Supervisor.ExitsSeen, Supervisor.FlagRead,
      RightmostFailure;
    var c := PipelineIsJustified(os, first, outs, entry, before, span, lim);
    Outcomes.CombineIsPipefail(outs);
    if !o.Cancelled? { ChosenStage(os, first, outs, span, lim, o); }
    if o.Cancelled? {
      PipelineReadsFlag(os, os.signals, first, outs, entry, before, span, lim);
    }
    if o.Exited? { ExitOfPipeline(os, first, outs, span, lim, o.status); }
    if os.Reliable() {
      Supervisor.TrackInTime(os, span, os.signals, first, outs, lim);
      PipelineInTime(os, entry, before, span, lim, o.Cancelled?);
      PipelineExitsSeen(os, first, first + |outs|, entry, before, span, lim.cancel);
    }
    Conclude(os, first, |outs|, entry, before + span.overhead, lim, o, c);
  }

  /** `execute_pipeline`, up to its outcome. */
  method ExecutePipeline(os: Os, n: nat, timeout: Option<nat>, cancel: Option<nat>) returns (o: Outcomes.Outcome)
    requires n >= 2
    modifies os`now, os`spent, os`procs, os`signals
    ensures KeepsReaped(old(os.procs), os.procs) && os.now >= old(os.now) && os.spent >= old(os.spent)
    ensures Supervisor.EarlierUnsent(old(os.signals), os.signals, |old(os.procs)|)
    ensures Ended(os, |old(os.procs)|, n, old(os.now), os.spent - old(os.spent), Limits(timeout, cancel), o)
  {
    hide Ended, Disposed, OnlyKilled;
    var first := |os.procs|;
    var ok, _, _ := SpawnStages(os, n);
    if !ok {
      FailedIsEnded(os, first, n, old(os.now), os.spent - old(os.spent), Limits(timeout, cancel));
      return Outcomes.WaitFailed;
    }
    ghost var since, spent := os.now, os.spent;
    var outs := Supervisor.WaitStages(os, first, timeout, cancel);
    o := Outcomes.CombineOutcomes(outs);
    PipelineIsEnded(os, first, outs, old(os.now), spent - old(os.spent), Supervisor.Since(os, since, spent),
                    Limits(timeout, cancel), o);
  }

  // ---- Either ----

  /** A signal sent when the children are dropped: only to a child that should have been reaped. */
  lemma DropIsJustified(os: Os, procs: seq<Proc>, before: Signals, after: Signals, first: nat, spawned: bool,
                        entry: nat, overhead: int, more: int, lim: Limits, c: Option<nat>)
    requires overhead <= more && (c.Some? ==> spawned)
    requires Justified(os, before, first, |procs|, spawned, entry, overhead, lim, c)
    requires spawned && os.kills && os.polls ==> forall i :: first <= i < |procs| ==> procs[i].Reaped?
    requires forall i :: first <= i < |procs| ==>
               (procs[i].Reaped? ==> SentTo(after, i) == SentTo(before, i))
               && SentTo(before, i) <= SentTo(after, i) && Supervisor.Kills(SentTo(after, i)[|SentTo(before, i)|..])
    ensures Justified(os, after, first, |procs|, spawned, entry, more, lim, c)
  {
    forall i, s | first <= i < |procs| && c != Some(i) && s in SentTo(after, i)
      ensures || KillDue(os, spawned, entry, more, lim.timeout, s)
              || (c.Some? && s.SigKill? && !s.to.Reaped? && Supervisor.FlagSeen(os, entry, s.at))
    {
      var was, still := SentTo(before, i), SentTo(after, i);
      assert still == was + still[|was|..];
      if s in was {
        assert || KillDue(os, spawned, entry, overhead, lim.timeout, s)
               || (c.Some? && Supervisor.FlagSeen(os, entry, s.at));
      }
    }
    if c.Some? {
      assert Supervisor.Kills(SentTo(after, c.value)[|SentTo(before, c.value)|..]);
      NoticerKept(os, c.value, entry, overhead, more, lim.cancel, SentTo(before, c.value), SentTo(after, c.value));
    }
  }

  lemma NoticerKept(os: Os, i: nat, entry: nat, overhead: int, more: int, cancel: Option<nat>, before: seq<Signal>,
                    after: seq<Signal>)
    requires Noticer(os, i, entry, overhead, cancel, before) && overhead <= more && before <= after
    requires Supervisor.Kills(after[|before|..]) && (before != after ==> !(os.kills && os.polls))
    ensures Noticer(os, i, entry, more, cancel, after)
  {
    var n :| 0 < n <= |before| && GracedThenKilled(os, i, cancel.value, before, n);
    assert after[..n] == before[..n] && after[n..] == before[n..] + after[|before|..];
    assert GracedThenKilled(os, i, cancel.value, after, n);
    assert after[0] == before[0];
  }

  lemma DropKeepsEnded(os: Os, procs: seq<Proc>, before: Signals, was: Span, first: nat, n: nat, more: int, lim: Limits,
                       o: Outcomes.Outcome)
    requires Concluded(os, procs, before, was, first, n, lim, o)
    requires os.async && |os.procs| == |procs| && KeepsReaped(procs, os.procs)
    requires was.entry <= was.now && 0 <= was.overhead <= more
    requires os.now == was.now + (more - was.overhead) && Supervisor.OnlyKills(before, os.signals, first)
    requires forall i :: first <= i < |procs| && procs[i].Reaped? ==> SentTo(os.signals, i) == SentTo(before, i)
    requires os.kills ==> forall i :: first <= i < |procs| ==> !os.procs[i].Running?
    ensures Ended(os, first, n, was.entry, more, lim, o)
  {
    hide Justified, Supervisor.StagesInTime, Supervisor.ExitsSeen, Supervisor.FlagRead;
    var spawned := |procs| == first + n;
    var c: Option<nat> :| (c.Some? <==> o.Cancelled?) &&
      Justified(os, before, first, |procs|, spawned, was.entry, was.overhead, lim, c);
    DropIsJustified(os, procs, before, os.signals, first, spawned, was.entry, was.overhead, more, lim, c);
    if os.Reliable() {
      Supervisor.InTimeLater(os, lim, o.Cancelled?, was, Span(was.entry, os.now, more));
      Supervisor.ExitsStillSeen(os, first, |procs|, was, Span(was.entry, os.now, more), lim.cancel);
    }
    if o.Cancelled? { Supervisor.FlagStaysRead(os, was, Span(was.entry, os.now, more), lim.timeout); }
    if o.Exited? { FailureKept(procs, before, os.procs, os.signals, first, o.status); }
  }

  lemma FailureKept(procs: seq<Proc>, before: Signals, after: seq<Proc>, signals: Signals, first: nat,
                    status: ExitStatus)
    requires |procs| == |after| && KeepsReaped(procs, after) && RightmostFailure(procs, before, first, status)
    requires forall i :: first <= i < |procs| && procs[i].Reaped? ==> SentTo(signals, i) == SentTo(before, i)
    ensures RightmostFailure(after, signals, first, status)
  {
    var k :| first <= k < |procs| && procs[k] == Reaped(status) && SentTo(before, k) == []
      && forall i :: (if status.Success() then first else k + 1) <= i < |procs| ==>
           procs[i] == Reaped(ExitStatus(0)) && SentTo(before, i) == [];
    assert after[k] == Reaped(status) && SentTo(signals, k) == [];
  }

  /** Dropping the children when the attempt is over changes no outcome. */
  method DropAll(os: Os, first: nat, n: nat, lim: Limits, ghost o: Outcomes.Outcome, ghost entry: nat,
                 ghost spent: nat)
    requires entry <= os.now && spent <= os.spent
    requires first <= |os.procs| && Ended(os, first, n, entry, os.spent - spent, lim, o)
    modifies os`now, os`spent, os`procs, os`signals
    ensures |os.procs| == |old(os.procs)| && KeepsReaped(old(os.procs), os.procs)
    ensures os.now >= old(os.now) && os.spent >= old(os.spent)
    ensures Supervisor.EarlierUnsent(old(os.signals), os.signals, first)
    ensures Ended(os, first, n, entry, os.spent - spent, lim, o)
    ensures os.async && os.kills ==> forall i :: first <= i < |os.procs| ==> !os.procs[i].Running?
  {
    hide Concluded;
    if os.async {
      ghost var was, before, procs := Supervisor.Since(os, entry, spent), os.signals, os.procs;
      Supervisor.DropChildren(os, first);
      DropKeepsEnded(os, procs, before, was, first, n, os.spent - spent, lim, o);
    }
  }

  /** One attempt of a command with `n` stages, up to its outcome. */
  method Dispatch(os: Os, n: nat, timeout: Option<nat>, cancel: Option<nat>) returns (o: Outcomes.Outcome)
    requires n >= 1
    modifies os`now, os`spent, os`procs, os`signals
    ensures KeepsReaped(old(os.procs), os.procs) && os.now >= old(os.now) && os.spent >= old(os.spent)
    ensures Supervisor.EarlierUnsent(old(os.signals), os.signals, |old(os.procs)|)
    ensures Ended(os, |old(os.procs)|, n, old(os.now), os.spent - old(os.spent), Limits(timeout, cancel), o)
  {
    hide Ended;
    if n == 1 {
      o := ExecuteSingle(os, timeout, cancel);
    } else {
      o := ExecutePipeline(os, n, timeout, cancel);
    }
  }

  lemma EndedSuccess(os: Os, first: nat, n: nat, entry: nat, overhead: int, lim: Limits, o: Outcomes.Outcome)
    requires Ended(os, first, n, entry, overhead, lim, o) && o.Success()
    ensures AllSucceeded(os.procs, n)
  {
    hide Justified;
    SuccessOfAll(os.procs, os.signals, first, n, o.status);
  }

  /** One attempt of a command with `n` stages. Whether it fails to start, exits, times out or is
      cancelled, it leaves none of its children behind, keeps to its timeout and to the flag, and
      signals no child without cause. */
  method Execute(os: Os, n: nat, timeout: Option<nat>, cancel: Option<nat>)
    returns (r: RunResult, ghost o: Outcomes.Outcome)
    requires n >= 1
    modifies os`now, os`spent, os`procs, os`signals
    ensures KeepsReaped(old(os.procs), os.procs) && os.now >= old(os.now) && os.spent >= old(os.spent)
    ensures Supervisor.EarlierUnsent(old(os.signals), os.signals, |old(os.procs)|)
    ensures Ended(os, |old(os.procs)|, n, old(os.now), os.spent - old(os.spent), Limits(timeout, cancel), o)
    ensures os.async && os.kills ==> forall i :: |old(os.procs)| <= i < |os.procs| ==> !os.procs[i].Running?
    ensures r.Ok? ==> AllSucceeded(os.procs, n)
    ensures Reports(r, o) && Tells(r, o)
  {
    hide Ended, AllSucceeded, Finalize;
    var first := |os.procs|;
    var outcome := Dispatch(os, n, timeout, cancel);
    DropAll(os, first, n, Limits(timeout, cancel), outcome, old(os.now), old(os.spent));
    if outcome.Success() {
      EndedSuccess(os, first, n, old(os.now), os.spent - old(os.spent), Limits(timeout, cancel), outcome);
    }
    var stdout: seq<Byte>, stderr: seq<Byte> := *, *;
    FinalizeTells(outcome, stdout, stderr);
    r, o := Finalize(outcome, stdout, stderr), outcome;
  }
}
