/** Waiting for the stages of one attempt: timeout, cancellation, SIGTERM and SIGKILL, reaping. */
module Supervisor {
  import opened Types
  import opened Machine
  import Outcomes

  type Outcome = Outcomes.Outcome

  const CANCEL_POLL_INTERVAL: nat := 50

  function Max(a: nat, b: nat): nat { if a >= b then a else b }

  /** The cancel flag, once set, stays set from `c` on. */
  ghost predicate SetFrom(os: Os, c: nat) { forall t: nat :: t >= c ==> os.flag(t) }

  /** By when, in milliseconds, a flag set for good from `c` has been noticed by a loop entered at `entry`. */
  function NoticedBy(entry: nat, c: nat): nat { if entry >= c then entry else c + 50 }

  /** By `now`, a loop entered at `entry` has not missed such a flag by more than `late`. */
  ghost predicate Noticed(os: Os, entry: nat, now: nat, late: int) {
    forall c: nat :: SetFrom(os, c) ==> now <= NoticedBy(entry, c) + late
  }

  lemma NoticedTwice(os: Os, entry: nat, between: nat, now: nat, late: int, later: int)
    requires entry <= between && 0 <= late
    requires Noticed(os, entry, between, late) && Noticed(os, between, now, later)
    ensures Noticed(os, entry, now, late + later)
  {
    forall c: nat | SetFrom(os, c)
      ensures now <= NoticedBy(entry, c) + (late + later)
    {
      assert now <= NoticedBy(between, c) + later;
    }
  }

  /** `cancellable_sleep`: `true` when it saw the flag set. It never oversleeps, and never returns
      `false` early or with the flag set at its last look. `grace` stands for `Some(CancelControl)`. */
  method CancellableSleep(os: Os, delay: nat, cancel: bool) returns (fired: bool)
    modifies os`now, os`spent, os`procs
    ensures Settle(old(os.procs), os.procs) && os.spent >= old(os.spent) && os.now >= old(os.now)
    ensures fired ==> cancel && os.flag(os.now)
    ensures !fired ==> os.now >= old(os.now) + delay && (cancel ==> !os.flag(os.now))
    ensures os.now <= old(os.now) + delay + (os.spent - old(os.spent))
    ensures cancel ==> Noticed(os, old(os.now), os.now, os.spent - old(os.spent))
  {
    if !cancel {
      os.Sleep(delay);
      return false;
    }
    var start := os.Now();
    var deadline := start + delay;
    var now := os.Now();
    while now < deadline
      invariant Settle(old(os.procs), os.procs) && os.spent >= old(os.spent)
      invariant start <= now == os.now <= deadline + (os.spent - old(os.spent))
      invariant old(os.now) <= start <= old(os.now) + (os.spent - old(os.spent))
      invariant os.now <= old(os.now) + delay + (os.spent - old(os.spent))
      invariant Noticed(os, old(os.now), os.now, os.spent - old(os.spent))
      decreases deadline - now
    {
      if os.IsSet() { return true; }
      ghost var looked := os.now;
      assert forall c: nat :: SetFrom(os, c) ==> looked < c;
      var later := os.Now();
      var remaining := Monus(deadline, later);
      os.Sleep(Min(CANCEL_POLL_INTERVAL, remaining));
      now := os.Now();
    }
    fired := os.IsSet();
  }

  // ---- Killing one child ----

  ghost predicate OthersUnsent(before: Signals, after: Signals, i: nat) {
    forall j: nat :: j != i ==> SentTo(after, j) == SentTo(before, j)
  }

  ghost predicate Kills(sent: seq<Signal>) { forall s :: s in sent ==> s.SigKill? && !s.to.Reaped? }

  /** A child asked to end before it is made to: SIGTERM first, unless its pid does not fit, and
      SIGKILL only after the whole grace period, or after polling failed. */
  ghost predicate Graced(os: Os, i: nat, grace: nat, sent: seq<Signal>) {
    && sent != [] && !sent[0].to.Reaped? && (sent[0].SigTerm? <==> os.pidFits(i))
    && forall k :: 1 <= k < |sent| ==>
         && sent[k].SigKill? && !sent[k].to.Reaped?
         && (sent[k].at >= sent[0].at + grace || !os.polls)
  }

  /** A wait entered at `entry` was over, or still going on, by `now`: not long after the child's own exit. */
  ghost predicate ExitSeen(os: Os, i: nat, entry: nat, now: nat, overhead: int, lag: nat) {
    now <= Max(entry, os.exitsAt(i) + lag) + overhead
  }

  /** An exit is noticed at once, or at the next poll of a wait that looks at the flag too. */
  function Lag(cancel: Option<nat>): nat { if cancel.Some? then 50 else 0 }

  /** After SIGTERM: polls the child until it exits, the grace period is over, or polling fails. */
  method AwaitExit(os: Os, i: nat, grace: nat) returns (exited: bool)
    requires i < |os.procs| && !os.procs[i].Reaped?
    modifies os`now, os`spent, os`procs
    ensures OthersSettle(old(os.procs), os.procs, i) && os.spent >= old(os.spent) && old(os.now) <= os.now
    ensures exited ==> os.procs[i].Reaped?
    ensures !exited ==> MayBecome(old(os.procs)[i], os.procs[i]) && (os.now >= old(os.now) + grace || !os.polls)
    ensures os.now <= old(os.now) + grace + (os.spent - old(os.spent))
    ensures ExitSeen(os, i, old(os.now), os.now, os.spent - old(os.spent), 50)
    ensures os.polls && !old(os.procs)[i].Running? ==> os.now <= old(os.now) + (os.spent - old(os.spent))
  {
    var start := os.Now();
    var deadline := start + grace;
    var now := os.Now();
    while now < deadline
      invariant OthersSettle(old(os.procs), os.procs, i) && MayBecome(old(os.procs)[i], os.procs[i])
      invariant os.spent >= old(os.spent) && old(os.now) <= start <= now == os.now
      invariant start <= old(os.now) + (os.spent - old(os.spent))
      invariant os.now <= old(os.now) + grace + (os.spent - old(os.spent))
      invariant ExitSeen(os, i, old(os.now), os.now, os.spent - old(os.spent), 50)
      invariant !old(os.procs)[i].Running? ==> os.now <= old(os.now) + (os.spent - old(os.spent))
      decreases deadline - now
    {
      var polled := os.TryWait(i);
      match polled
      case Exited(_) => return true;
      case StillRunning =>
        var later := os.Now();
        var remaining := Monus(deadline, later);
        os.Sleep(Min(CANCEL_POLL_INTERVAL, remaining));
        now := os.Now();
      case Failed => return false;
    }
    return false;
  }

  /** `kill_with_grace`, and the signals it sent. */
  method KillWithGrace(os: Os, i: nat, grace: nat) returns (ghost sent: seq<Signal>)
    requires i < |os.procs| && !os.procs[i].Reaped?
    modifies os`now, os`spent, os`procs, os`signals
    ensures OthersSettle(old(os.procs), os.procs, i) && os.spent >= old(os.spent) && old(os.now) <= os.now
    ensures os.Reliable() ==> os.procs[i].Reaped?
    ensures os.Reliable() ==> os.now <= old(os.now) + grace + (os.spent - old(os.spent))
    ensures os.Reliable() ==> ExitSeen(os, i, old(os.now), os.now, os.spent - old(os.spent), 50)
    ensures os.kills && os.polls && !old(os.procs)[i].Running? ==> os.now <= old(os.now) + (os.spent - old(os.spent))
    ensures SentTo(os.signals, i) == SentTo(old(os.signals), i) + sent && OthersUnsent(old(os.signals), os.signals, i)
    ensures Graced(os, i, grace, sent) && sent[0].at == old(os.now) && |sent| <= 2
    ensures forall s :: s in sent ==> old(os.now) <= s.at <= os.now
    ensures |sent| == 1 && sent[0].SigTerm? ==> os.procs[i].Reaped?
  {
    sent := [];
    if os.pidFits(i) {
      sent := [SigTerm(os.now, os.procs[i])];
      os.Terminate(i);
      var exited := AwaitExit(os, i, grace);
      if exited { return; }
    }
    sent := sent + [SigKill(os.now, os.procs[i])];
    os.Kill(i);
    var _, _ := os.Wait(i);
  }

  /** `kill` then `wait`, ignoring what they return. */
  method KillAndWait(os: Os, i: nat)
    requires i < |os.procs|
    modifies os`now, os`spent, os`procs, os`signals
    ensures OthersSettle(old(os.procs), os.procs, i) && os.spent >= old(os.spent) && old(os.now) <= os.now
    ensures os.Reliable() ==> os.procs[i].Reaped?
    ensures os.kills ==> os.now <= old(os.now) + (os.spent - old(os.spent))
    ensures old(os.procs)[i].Reaped? ==> os.procs[i] == old(os.procs)[i]
    ensures os.signals == if old(os.procs)[i].Reaped? then old(os.signals)
                          else Signalled(old(os.signals), i, SigKill(old(os.now), old(os.procs)[i]))
  {
    os.Kill(i);
    var _, _ := os.Wait(i);
  }

  // ---- Waiting for one child ----

  /** When a wait must be over: by the end of its window, soon after the flag is set for good, and
      at once when the child has already exited. */
  ghost predicate InTime(os: Os, entry: nat, overhead: int, end: Option<nat>, cancel: Option<nat>, o: Outcome)
    reads os
  {
    var grace := if o.Cancelled? && cancel.Some? then cancel.value else 0;
    && (end.Some? ==> os.now <= Max(entry, end.value) + grace + overhead)
    && (cancel.Some? ==> Noticed(os, entry, os.now, grace + overhead))
    && (forall c: nat :: cancel.Some? && entry >= c && SetFrom(os, c) ==> o.Cancelled?)
  }

  /** The one cause of the signals a wait sent its child: none if it exited by itself, in a window
      not over from the start; SIGKILL once the window was over; and SIGTERM with grace once the flag
      was read set, before the window was over. */
  ghost predicate Caused(os: Os, i: nat, entry: nat, overhead: int, end: Option<nat>, cancel: Option<nat>,
                         sent: seq<Signal>, o: Outcome) {
    match o
    case Exited(_) => sent == [] && (cancel.Some? && end.Some? ==> entry < end.value)
    case TimedOut(_) =>
      && |sent| == 1 && Kills(sent) && end.Some? && sent[0].at >= end.value
      && (cancel.None? ==> sent[0].to.Running?)
    case WaitFailed =>
      && |sent| <= 1 && Kills(sent) && !(os.kills && os.polls)
      && (cancel.Some? && end.Some? ==> entry < end.value)
    case Cancelled =>
      && cancel.Some? && Graced(os, i, cancel.value, sent)
      && entry <= sent[0].at && os.flag(sent[0].at) && Noticed(os, entry, sent[0].at, overhead)
      && (end.Some? ==> sent[0].at <= Max(entry, end.value) + overhead)
  }

  /** The end of the wait's window: a plain timed wait counts from the call, a polled one from `start`. */
  function WindowEnd(timeout: Option<nat>, cancel: Option<nat>, entry: nat, start: nat): Option<nat> {
    if timeout.None? then None else Some((if cancel.None? then entry else start) + timeout.value)
  }

  ghost predicate Waited(os: Os, i: nat, was: Proc, entry: nat, spent: int, timeout: Option<nat>, cancel: Option<nat>,
                         start: nat, sent: seq<Signal>, o: Outcome)
    requires i < |os.procs|
    reads os
  {
    var overhead, end := os.spent - spent, WindowEnd(timeout, cancel, entry, start);
    && (os.Reliable() ==> os.procs[i].Reaped?)
    && (o.Exited? ==> os.procs[i] == Reaped(o.status) && Kept(was, o.status))
    && (o.TimedOut? ==> timeout.Some? && timeout.value <= o.elapsed <= os.now - start)
    && (os.kills && os.polls && !was.Running? ==> os.now <= entry + overhead)
    && (forall s :: s in sent ==> entry <= s.at <= os.now)
    && (os.Reliable() ==> InTime(os, entry, overhead, end, cancel, o))
    && (os.Reliable() ==> ExitSeen(os, i, entry, os.now, overhead, Lag(cancel)))
    && Caused(os, i, entry, overhead, end, cancel, sent, o)
  }

  /** Without cancellation: a blocking wait, or a timed one and then SIGKILL. */
  method WaitPlainly(os: Os, i: nat, timeout: Option<nat>, start: nat) returns (o: Outcome, ghost sent: seq<Signal>)
    requires i < |os.procs| && !os.procs[i].Reaped? && start <= os.now
    modifies os`now, os`spent, os`procs, os`signals
    ensures OthersSettle(old(os.procs), os.procs, i) && os.spent >= old(os.spent) && os.now >= old(os.now)
    ensures SentTo(os.signals, i) == SentTo(old(os.signals), i) + sent && OthersUnsent(old(os.signals), os.signals, i)
    ensures Waited(os, i, old(os.procs)[i], old(os.now), old(os.spent), timeout, None, start, sent, o)
  {
    if timeout.None? {
      var polled, _ := os.Wait(i);
      return if polled.Exited? then Outcomes.Exited(polled.status) else Outcomes.WaitFailed, [];
    }
    var polled, _ := os.WaitTimeout(i, timeout.value);
    match polled
    case Exited(status) => return Outcomes.Exited(status), [];
    case StillRunning =>
      sent := [SigKill(os.now, os.procs[i])];
      KillAndWait(os, i);
      var end := os.Now();
      return Outcomes.TimedOut(end - start), sent;
    case Failed =>
      sent := [SigKill(os.now, os.procs[i])];
      KillAndWait(os, i);
      return Outcomes.WaitFailed, sent;
  }

  /** `wait_single_with_cancel`, and the signals it sent. `cancel` holds the grace period of the
      `CancelControl`. */
  method WaitSingle(os: Os, i: nat, timeout: Option<nat>, cancel: Option<nat>, start: nat)
    returns (o: Outcome, ghost sent: seq<Signal>)
    requires i < |os.procs| && !os.procs[i].Reaped? && start <= os.now
    modifies os`now, os`spent, os`procs, os`signals
    ensures OthersSettle(old(os.procs), os.procs, i) && os.spent >= old(os.spent) && os.now >= old(os.now)
    ensures SentTo(os.signals, i) == SentTo(old(os.signals), i) + sent && OthersUnsent(old(os.signals), os.signals, i)
    ensures Waited(os, i, old(os.procs)[i], old(os.now), old(os.spent), timeout, cancel, start, sent, o)
  {
    hide Waited;
    if os.async {
      o, sent := WaitSingleAsync(os, i, timeout, cancel, start);
    } else if cancel.None? {
      o, sent := WaitPlainly(os, i, timeout, start);
    } else {
      o, sent := PollChild(os, i, timeout, cancel.value, start);
    }
  }

  /** A poll still waiting at `now` for a running child is inside its window, and has not missed the flag. */
  ghost predicate Polling(os: Os, i: nat, was: Proc, now: nat, entry: nat, overhead: int, timeout: Option<nat>,
                          start: nat) {
    && (timeout.Some? ==> now <= Max(entry, start + timeout.value) + overhead)
    && Noticed(os, entry, now, overhead) && ExitSeen(os, i, entry, now, overhead, 50)
    && (now == entry || forall c: nat :: SetFrom(os, c) ==> entry < c)
    && (!was.Running? ==> now <= entry + overhead)
  }

  /** It read the flag set, and asked the child to end. */
  lemma CancelIsWaited(os: Os, i: nat, was: Proc, looked: nat, entry: nat, spent: int, spentThen: int,
                       timeout: Option<nat>, grace: nat, start: nat, sent: seq<Signal>)
    requires i < |os.procs| && entry <= looked <= os.now && spent <= spentThen <= os.spent
    requires Polling(os, i, was, looked, entry, spentThen - spent, timeout, start) && os.flag(looked)
    requires Graced(os, i, grace, sent) && sent[0].at == looked && forall s :: s in sent ==> looked <= s.at <= os.now
    requires os.Reliable() ==>
               && os.procs[i].Reaped? && os.now <= looked + grace + (os.spent - spentThen)
               && ExitSeen(os, i, looked, os.now, os.spent - spentThen, 50)
    requires os.kills && os.polls && !was.Running? ==> os.now <= looked + (os.spent - spentThen)
    ensures Waited(os, i, was, entry, spent, timeout, Some(grace), start, sent, Outcomes.Cancelled)
  {
    forall c: nat | SetFrom(os, c)
      ensures os.Reliable() ==> os.now <= NoticedBy(entry, c) + (grace + (os.spent - spent))
      ensures looked <= NoticedBy(entry, c) + (os.spent - spent)
    {
      assert looked <= NoticedBy(entry, c) + (spentThen - spent);
    }
  }

  lemma StartsPolling(os: Os, i: nat, timeout: Option<nat>, start: nat)
    requires i < |os.procs| && start <= os.now
    ensures Polling(os, i, os.procs[i], os.now, os.now, 0, timeout, start)
  {
  }

  /** Its polling loop, for a command that can be cancelled. */
  method PollChild(os: Os, i: nat, timeout: Option<nat>, grace: nat, start: nat)
    returns (o: Outcome, ghost sent: seq<Signal>)
    requires i < |os.procs| && !os.procs[i].Reaped? && start <= os.now
    modifies os`now, os`spent, os`procs, os`signals
    ensures OthersSettle(old(os.procs), os.procs, i) && os.spent >= old(os.spent) && os.now >= old(os.now)
    ensures SentTo(os.signals, i) == SentTo(old(os.signals), i) + sent && OthersUnsent(old(os.signals), os.signals, i)
    ensures Waited(os, i, old(os.procs)[i], old(os.now), old(os.spent), timeout, Some(grace), start, sent, o)
  {
    hide Polling, Waited, Graced, ExitSeen;
    StartsPolling(os, i, timeout, start);
    while true
      invariant OthersSettle(old(os.procs), os.procs, i) && !os.procs[i].Reaped?
      invariant MayBecome(old(os.procs)[i], os.procs[i])
      invariant os.spent >= old(os.spent) && os.now >= old(os.now) && os.signals == old(os.signals)
      invariant Polling(os, i, old(os.procs)[i], os.now, old(os.now), os.spent - old(os.spent), timeout, start)
      decreases os.exitsAt(i) - os.now
    {
      if os.IsSet() {
        ghost var looked, spentThen := os.now, os.spent;
        sent := KillWithGrace(os, i, grace);
        CancelIsWaited(os, i, old(os.procs)[i], looked, old(os.now), old(os.spent), spentThen, timeout, grace, start,
                       sent);
        return Outcomes.Cancelled, sent;
      }
      var ended;
      ended, sent := PollOnce(os, i, timeout, grace, start, old(os.procs)[i], old(os.now), old(os.spent));
      if ended.Some? { return ended.value, sent; }
    }
  }

  /** The window is over: the child is killed. */
  method Expire(os: Os, i: nat, timeout: nat, grace: nat, start: nat, elapsed: nat, ghost was: Proc, ghost entry: nat,
                ghost spent: nat)
    returns (o: Outcome, ghost sent: seq<Signal>)
    requires i < |os.procs| && !os.procs[i].Reaped? && timeout <= elapsed <= os.now - start
    requires entry <= os.now && spent <= os.spent
    requires Polling(os, i, was, os.now, entry, os.spent - spent, Some(timeout), start)
    requires forall c: nat :: SetFrom(os, c) ==> entry < c
    modifies os`now, os`spent, os`procs, os`signals
    ensures OthersSettle(old(os.procs), os.procs, i) && os.spent >= old(os.spent) && os.now >= old(os.now)
    ensures SentTo(os.signals, i) == SentTo(old(os.signals), i) + sent && OthersUnsent(old(os.signals), os.signals, i)
    ensures Waited(os, i, was, entry, spent, Some(timeout), Some(grace), start, sent, o)
  {
    sent := [SigKill(os.now, os.procs[i])];
    KillAndWait(os, i);
    o := Outcomes.TimedOut(if os.async then os.now - start else elapsed);
  }

  /** Polling failed: the sync runner kills the child. */
  method GiveUp(os: Os, i: nat, timeout: Option<nat>, grace: nat, start: nat, ghost was: Proc, ghost entry: nat,
                ghost spent: nat)
    returns (ghost sent: seq<Signal>)
    requires i < |os.procs| && !os.procs[i].Reaped? && !os.polls
    requires timeout.Some? ==> entry < start + timeout.value
    requires entry <= os.now && spent <= os.spent
    requires Polling(os, i, was, os.now, entry, os.spent - spent, timeout, start)
    requires forall c: nat :: SetFrom(os, c) ==> entry < c
    modifies os`now, os`spent, os`procs, os`signals
    ensures OthersSettle(old(os.procs), os.procs, i) && os.spent >= old(os.spent) && os.now >= old(os.now)
    ensures SentTo(os.signals, i) == SentTo(old(os.signals), i) + sent && OthersUnsent(old(os.signals), os.signals, i)
    ensures Waited(os, i, was, entry, spent, timeout, Some(grace), start, sent, Outcomes.WaitFailed)
  {
    sent := [SigKill(os.now, os.procs[i])];
    KillAndWait(os, i);
  }

  lemma ExitIsWaited(os: Os, i: nat, was: Proc, entry: nat, spent: int, timeout: Option<nat>, grace: nat, start: nat,
                     status: ExitStatus)
    requires i < |os.procs| && os.procs[i] == Reaped(status) && Kept(was, status)
    requires timeout.Some? ==> entry < start + timeout.value
    requires Polling(os, i, was, os.now, entry, os.spent - spent, timeout, start)
    requires forall c: nat :: SetFrom(os, c) ==> entry < c
    ensures Waited(os, i, was, entry, spent, timeout, Some(grace), start, [], Outcomes.Exited(status))
  {
  }

  /** The async runner leaves a child it cannot poll as it is. */
  lemma FailIsWaited(os: Os, i: nat, was: Proc, entry: nat, spent: int, timeout: Option<nat>, grace: nat, start: nat)
    requires i < |os.procs| && os.async && !os.polls && (timeout.Some? ==> entry < start + timeout.value)
    ensures Waited(os, i, was, entry, spent, timeout, Some(grace), start, [], Outcomes.WaitFailed)
  {
  }

  /** Time passes while a running child is polled, no longer than the window allows. */
  lemma PollingGoesOn(os: Os, i: nat, was: Proc, looked: nat, now: nat, entry: nat, overhead: int, waited: nat,
                      more: nat, timeout: Option<nat>, start: nat)
    requires entry <= looked && !os.flag(looked) && Polling(os, i, was, looked, entry, overhead, timeout, start)
    requires 0 <= overhead
    requires now == looked + waited + more && waited <= CANCEL_POLL_INTERVAL && (!was.Running? ==> waited == 0)
    requires waited > 0 ==> looked < os.exitsAt(i)
    requires timeout.Some? && waited > 0 ==> now <= start + timeout.value + more
    ensures Polling(os, i, was, now, entry, overhead + more, timeout, start)
  {
    forall c: nat | SetFrom(os, c)
      ensures now <= NoticedBy(entry, c) + (overhead + more)
    {
      assert looked < c;
    }
  }

  /** One turn of that loop, after it read the flag unset. */
  method PollOnce(os: Os, i: nat, timeout: Option<nat>, grace: nat, start: nat, ghost was: Proc, ghost entry: nat,
                  ghost spent: nat)
    returns (ended: Option<Outcome>, ghost sent: seq<Signal>)
    requires i < |os.procs| && !os.procs[i].Reaped? && MayBecome(was, os.procs[i]) && start <= os.now && !os.IsSet()
    requires entry <= os.now && spent <= os.spent
    requires Polling(os, i, was, os.now, entry, os.spent - spent, timeout, start)
    modifies os`now, os`spent, os`procs, os`signals
    ensures OthersSettle(old(os.procs), os.procs, i) && os.spent >= old(os.spent) && os.now >= old(os.now)
    ensures ended.None? ==>
              && os.signals == old(os.signals) && was.Running? && os.procs[i].Running?
              && old(os.now) < os.now && old(os.now) < os.exitsAt(i)
              && Polling(os, i, was, os.now, entry, os.spent - spent, timeout, start)
    ensures ended.Some? ==>
              && SentTo(os.signals, i) == SentTo(old(os.signals), i) + sent
              && OthersUnsent(old(os.signals), os.signals, i)
              && Waited(os, i, was, entry, spent, timeout, Some(grace), start, sent, ended.value)
  {
    hide Waited, Polling;
    assert forall c: nat :: SetFrom(os, c) ==> old(os.now) < c;
    var remaining := CANCEL_POLL_INTERVAL;
    ghost var looked, overhead := os.now, os.spent - spent;
    if timeout.Some? {
      var now := os.Now();
      var elapsed := now - start;
      if elapsed >= timeout.value {
        PollingGoesOn(os, i, was, looked, os.now, entry, overhead, 0, os.now - looked, timeout, start);
        var o;
        o, sent := Expire(os, i, timeout.value, grace, start, elapsed, was, entry, spent);
        return Some(o), sent;
      }
      remaining := Min(CANCEL_POLL_INTERVAL, timeout.value - elapsed);
    }
    sent := [];
    var polled, waited := os.WaitTimeout(i, remaining);
    PollingGoesOn(os, i, was, looked, os.now, entry, overhead, waited, os.now - looked - waited, timeout, start);
    match polled
    case Exited(status) =>
      ExitIsWaited(os, i, was, entry, spent, timeout, grace, start, status);
      return Some(Outcomes.Exited(status)), [];
    case StillRunning => return None, [];
    case Failed =>
      sent := GiveUp(os, i, timeout, grace, start, was, entry, spent);
      return Some(Outcomes.WaitFailed), sent;
  }

  /** `wait_single_async_with_cancel`: the same wait, except that it does not kill a child it
      cannot poll. */
  method WaitSingleAsync(os: Os, i: nat, timeout: Option<nat>, cancel: Option<nat>, start: nat)
    returns (o: Outcome, ghost sent: seq<Signal>)
    requires os.async && i < |os.procs| && !os.procs[i].Reaped? && start <= os.now
    modifies os`now, os`spent, os`procs, os`signals
    ensures OthersSettle(old(os.procs), os.procs, i) && os.spent >= old(os.spent) && os.now >= old(os.now)
    ensures SentTo(os.signals, i) == SentTo(old(os.signals), i) + sent && OthersUnsent(old(os.signals), os.signals, i)
    ensures Waited(os, i, old(os.procs)[i], old(os.now), old(os.spent), timeout, cancel, start, sent, o)
  {
    if cancel.Some? {
      o, sent := PollChildAsync(os, i, timeout, cancel.value, start);
      return;
    }
    var polled: Polled;
    ghost var waited: nat;
    if timeout.None? {
      polled, waited := os.Wait(i);
    } else {
      polled, waited := os.WaitTimeout(i, timeout.value);
    }
    match polled
    case Exited(status) => return Outcomes.Exited(status), [];
    case StillRunning =>
      sent := [SigKill(os.now, os.procs[i])];
      KillAndWait(os, i);
      var end := os.Now();
      return Outcomes.TimedOut(end - start), sent;
    case Failed => return Outcomes.WaitFailed, [];
  }

  method PollChildAsync(os: Os, i: nat, timeout: Option<nat>, grace: nat, start: nat)
    returns (o: Outcome, ghost sent: seq<Signal>)
    requires os.async && i < |os.procs| && !os.procs[i].Reaped? && start <= os.now
    modifies os`now, os`spent, os`procs, os`signals
    ensures OthersSettle(old(os.procs), os.procs, i) && os.spent >= old(os.spent) && os.now >= old(os.now)
    ensures SentTo(os.signals, i) == SentTo(old(os.signals), i) + sent && OthersUnsent(old(os.signals), os.signals, i)
    ensures Waited(os, i, old(os.procs)[i], old(os.now), old(os.spent), timeout, Some(grace), start, sent, o)
  {
    hide Polling, Waited, Graced, ExitSeen;
    StartsPolling(os, i, timeout, start);
    while true
      invariant OthersSettle(old(os.procs), os.procs, i) && !os.procs[i].Reaped?
      invariant MayBecome(old(os.procs)[i], os.procs[i])
      invariant os.spent >= old(os.spent) && os.now >= old(os.now) && os.signals == old(os.signals)
      invariant Polling(os, i, old(os.procs)[i], os.now, old(os.now), os.spent - old(os.spent), timeout, start)
      decreases timeout.None? || os.now < start + timeout.value, os.exitsAt(i) - os.now
    {
      if os.IsSet() {
        ghost var looked, spentThen := os.now, os.spent;
        sent := KillWithGrace(os, i, grace);
        CancelIsWaited(os, i, old(os.procs)[i], looked, old(os.now), old(os.spent), spentThen, timeout, grace, start,
                       sent);
        return Outcomes.Cancelled, sent;
      }
      var ended;
      ended, sent := PollOnceAsync(os, i, timeout, grace, start, old(os.procs)[i], old(os.now), old(os.spent));
      if ended.Some? { return ended.value, sent; }
    }
  }

  /** Its sleep before the next turn: no longer than the window, and none once that is over. */
  method PollPause(os: Os, timeout: Option<nat>, start: nat) returns (step: nat)
    requires start <= os.now
    modifies os`now, os`spent, os`procs
    ensures os.Took(step) && Settle(old(os.procs), os.procs) && step <= CANCEL_POLL_INTERVAL
    ensures timeout.Some? && step > 0 ==> os.now <= start + timeout.value + (os.spent - old(os.spent))
    ensures step == 0 ==> timeout.Some? && os.now >= start + timeout.value
  {
    step := CANCEL_POLL_INTERVAL;
    if timeout.Some? {
      var now := os.Now();
      step := Min(CANCEL_POLL_INTERVAL, Monus(timeout.value, now - start));
    }
    if step > 0 { os.Sleep(step); }
  }

  /** One turn of that loop, after it read the flag unset. It may not sleep at all, but then its
      window is over and the next turn ends it. */
  method PollOnceAsync(os: Os, i: nat, timeout: Option<nat>, grace: nat, start: nat, ghost was: Proc, ghost entry: nat,
                       ghost spent: nat)
    returns (ended: Option<Outcome>, ghost sent: seq<Signal>)
    requires os.async && i < |os.procs| && !os.procs[i].Reaped? && MayBecome(was, os.procs[i])
    requires start <= os.now && !os.IsSet()
    requires entry <= os.now && spent <= os.spent
    requires Polling(os, i, was, os.now, entry, os.spent - spent, timeout, start)
    modifies os`now, os`spent, os`procs, os`signals
    ensures OthersSettle(old(os.procs), os.procs, i) && os.spent >= old(os.spent) && os.now >= old(os.now)
    ensures ended.None? ==>
              && os.signals == old(os.signals) && was.Running? && MayBecome(was, os.procs[i])
              && (timeout.Some? ==> old(os.now) < start + timeout.value)
              && ((timeout.Some? && os.now >= start + timeout.value) ||
                  (old(os.now) < os.now && old(os.now) < os.exitsAt(i)))
              && Polling(os, i, was, os.now, entry, os.spent - spent, timeout, start)
    ensures ended.Some? ==>
              && SentTo(os.signals, i) == SentTo(old(os.signals), i) + sent
              && OthersUnsent(old(os.signals), os.signals, i)
              && Waited(os, i, was, entry, spent, timeout, Some(grace), start, sent, ended.value)
  {
    hide Waited, Polling;
    assert forall c: nat :: SetFrom(os, c) ==> old(os.now) < c;
    ghost var looked, overhead := os.now, os.spent - spent;
    if timeout.Some? {
      var now := os.Now();
      var elapsed := now - start;
      if elapsed >= timeout.value {
        PollingGoesOn(os, i, was, looked, os.now, entry, overhead, 0, os.now - looked, timeout, start);
        var o;
        o, sent := Expire(os, i, timeout.value, grace, start, elapsed, was, entry, spent);
        return Some(o), sent;
      }
    }
    var polled := os.TryWait(i);
    ghost var more := os.now - looked;
    PollingGoesOn(os, i, was, looked, os.now, entry, overhead, 0, more, timeout, start);
    match polled
    case Exited(status) =>
      ExitIsWaited(os, i, was, entry, spent, timeout, grace, start, status);
      return Some(Outcomes.Exited(status)), [];
    case StillRunning =>
      var step := PollPause(os, timeout, start);
      PollingGoesOn(os, i, was, looked, os.now, entry, overhead, step, os.now - looked - step, timeout, start);
      return None, [];
    case Failed =>
      FailIsWaited(os, i, was, entry, spent, timeout, grace, start);
      return Some(Outcomes.WaitFailed), [];
  }

  // ---- All the stages of a pipeline ----

  ghost function Since(os: Os, entry: nat, spent: int): Span
    reads os
  {
    Span(entry, os.now, os.spent - spent)
  }

  /** Later in the same wait. */
  predicate Later(was: Span, span: Span) {
    was.entry == span.entry <= was.now <= span.now && 0 <= was.overhead <= span.overhead
  }

  /** But for the time spent in the calls themselves, the stages have not outlasted the one timeout,
      nor a flag set for good, by more than the grace period. */
  ghost predicate StagesInTime(os: Os, span: Span, lim: Limits, cancelled: bool) {
    var grace := if cancelled && lim.cancel.Some? then lim.cancel.value else 0;
    && (lim.timeout.Some? ==> span.now <= span.entry + lim.timeout.value + grace + span.overhead)
    && (lim.cancel.Some? ==> Noticed(os, span.entry, span.now, grace + span.overhead))
  }

  /** The shared timeout is over, but for the time spent in the calls themselves. */
  predicate Due(at: nat, entry: nat, overhead: int, timeout: Option<nat>) {
    timeout.Some? && at + overhead >= entry + timeout.value
  }

  ghost predicate FlagSeen(os: Os, entry: nat, at: nat) { exists t: nat :: entry <= t <= at && os.flag(t) }

  /** A wait read the flag set, before the shared timeout was over. */
  ghost predicate FlagRead(os: Os, span: Span, timeout: Option<nat>) {
    exists t: nat :: span.entry <= t <= span.now && os.flag(t) && ReadInTime(os, t, span.entry, span.overhead, timeout)
  }

  ghost predicate ReadInTime(os: Os, at: nat, entry: nat, overhead: int, timeout: Option<nat>) {
    os.Reliable() && timeout.Some? ==> at <= entry + timeout.value + overhead
  }

  lemma FlagStaysRead(os: Os, was: Span, span: Span, timeout: Option<nat>)
    requires FlagRead(os, was, timeout) && Later(was, span)
    ensures FlagRead(os, span, timeout) && FlagSeen(os, was.entry, was.now)
  {
    var t: nat :| was.entry <= t <= was.now && os.flag(t) && ReadInTime(os, t, was.entry, was.overhead, timeout);
    assert span.entry <= t <= span.now && ReadInTime(os, t, span.entry, span.overhead, timeout);
  }

  /** The stage whose wait saw the flag; the later ones are cancelled with it. */
  predicate Notices(outs: seq<Outcome>, j: nat) {
    j < |outs| && outs[j].Cancelled? && (j == 0 || !outs[j - 1].Cancelled?)
  }

  /** The one cause of the signals sent to stage `j`, its child being `i`. */
  ghost predicate StageCaused(os: Os, i: nat, outs: seq<Outcome>, j: nat, entry: nat, overhead: int, lim: Limits,
                              sent: seq<Signal>)
    requires j < |outs|
  {
    match outs[j]
    case Exited(_) => sent == [] && (lim.cancel.Some? ==> lim.timeout != Some(0))
    case TimedOut(_) => sent != [] && Kills(sent) && forall s :: s in sent ==> Due(s.at, entry, overhead, lim.timeout)
    case WaitFailed =>
      Kills(sent) && !(os.kills && os.polls) && (lim.cancel.Some? ==> lim.timeout != Some(0))
    case Cancelled =>
      if Notices(outs, j) then
        && lim.cancel.Some? && Graced(os, i, lim.cancel.value, sent)
        && entry <= sent[0].at && os.flag(sent[0].at)
        && (os.Reliable() ==> Noticed(os, entry, sent[0].at, overhead))
      else KilledByFlag(os, entry, sent)
  }

  ghost predicate KilledByFlag(os: Os, entry: nat, sent: seq<Signal>) {
    Kills(sent) && forall s :: s in sent ==> FlagSeen(os, entry, s.at)
  }

  /** What a stage that timed out reports, and when. */
  predicate TimedRight(span: Span, timeout: Option<nat>, o: Outcome) {
    o.TimedOut? ==> Due(span.now, span.entry, span.overhead, timeout) && o.elapsed <= span.now - span.entry
  }

  /** The outcomes so far of the children from `first` on: each tells what became of its child,
      and once one is a cancellation so are all the later ones. */
  predicate OutcomesOk(procs: seq<Proc>, reliable: bool, first: nat, outs: seq<Outcome>) {
    && first + |outs| <= |procs|
    && (forall i, j :: 0 <= i < j < |outs| && outs[i].Cancelled? ==> outs[j].Cancelled?)
    && (forall i :: 0 <= i < |outs| && outs[i].Exited? ==> procs[first + i] == Reaped(outs[i].status))
    && (reliable ==> forall i :: first <= i < first + |outs| ==> procs[i].Reaped?)
  }

  /** The children from `first` to `end` have not been waited for long past the exits of all of them. */
  ghost predicate ExitsSeen(os: Os, first: nat, end: nat, span: Span, cancel: Option<nat>) {
    || span.now <= span.entry + span.overhead
    || exists i :: first <= i < end && span.now <= os.exitsAt(i) + Lag(cancel) + span.overhead
  }

  lemma ExitsStillSeen(os: Os, first: nat, end: nat, was: Span, span: Span, cancel: Option<nat>)
    requires ExitsSeen(os, first, end, was, cancel) && was.entry == span.entry
    requires span.now <= was.now + (span.overhead - was.overhead)
    ensures ExitsSeen(os, first, end, span, cancel)
  {
    if was.now > was.entry + was.overhead {
      var i :| first <= i < end && was.now <= os.exitsAt(i) + Lag(cancel) + was.overhead;
      assert span.now <= os.exitsAt(i) + Lag(cancel) + span.overhead;
    }
  }

  /** One more child, waited for since `between`. */
  lemma OneMoreExitSeen(os: Os, first: nat, i: nat, was: Span, between: Span, span: Span, cancel: Option<nat>)
    requires first <= i && ExitsSeen(os, first, i, was, cancel) && was.entry == between.entry == span.entry
    requires between.now == was.now + (between.overhead - was.overhead) && 0 <= between.overhead <= span.overhead
    requires ExitSeen(os, i, between.now, span.now, span.overhead - between.overhead, Lag(cancel))
    ensures ExitsSeen(os, first, i + 1, span, cancel)
  {
    if span.now <= os.exitsAt(i) + Lag(cancel) + (span.overhead - between.overhead) {
      assert span.now <= os.exitsAt(i) + Lag(cancel) + span.overhead;
    } else if was.now > was.entry + was.overhead {
      var j :| first <= j < i && was.now <= os.exitsAt(j) + Lag(cancel) + was.overhead;
      assert span.now <= os.exitsAt(j) + Lag(cancel) + span.overhead;
    }
  }

  /** Where `wait_stages` stands: within the shared budget, and no child signalled without
      its cause. */
  ghost predicate OnTrack(os: Os, span: Span, signals: Signals, first: nat, outs: seq<Outcome>, lim: Limits) {
    && (os.Reliable() ==> StagesInTime(os, span, lim, Outcomes.Cancelled in outs))
    && (os.Reliable() ==> ExitsSeen(os, first, first + |outs|, span, lim.cancel))
    && (forall j :: 0 <= j < |outs| ==> TimedRight(span, lim.timeout, outs[j]))
    && (Outcomes.Cancelled in outs ==> FlagRead(os, span, lim.timeout))
    && (forall i :: first <= i < first + |outs| ==>
          StageCaused(os, i, outs, i - first, span.entry, span.overhead, lim, SentTo(signals, i)))
  }

  /** The children not yet waited for: left alone, or killed when a stage before them was cancelled. */
  ghost predicate RestCaused(os: Os, signals: Signals, from: nat, end: nat, entry: nat, cancelled: bool) {
    forall i :: from <= i < end ==>
      if cancelled then KilledByFlag(os, entry, SentTo(signals, i)) else SentTo(signals, i) == []
  }

  lemma OneMoreOutcome(before: seq<Proc>, procs: seq<Proc>, reliable: bool, first: nat, outs: seq<Outcome>, o: Outcome)
    requires OutcomesOk(before, reliable, first, outs) && KeepsReaped(before, procs)
    requires first + |outs| < |before|
    requires o.Exited? ==> procs[first + |outs|] == Reaped(o.status)
    requires reliable ==> procs[first + |outs|].Reaped?
    requires Outcomes.Cancelled in outs ==> o.Cancelled?
    ensures OutcomesOk(procs, reliable, first, outs + [o])
    ensures Outcomes.Cancelled in outs + [o] <==> o.Cancelled?
  {
  }

  /** Later, with the signals to a stage unchanged, their cause still stands. */
  lemma CauseKept(os: Os, i: nat, outs: seq<Outcome>, all: seq<Outcome>, j: nat, entry: nat, overhead: int, more: int,
                  lim: Limits, sent: seq<Signal>)
    requires j < |outs| && outs <= all && overhead <= more
    requires StageCaused(os, i, outs, j, entry, overhead, lim, sent)
    ensures StageCaused(os, i, all, j, entry, more, lim, sent)
  {
  }

  /** A wait whose window ends with the shared budget, and whose child had been sent nothing, has
      the cause of its outcome as its stage's. */
  lemma StageIsCaused(os: Os, i: nat, outs: seq<Outcome>, o: Outcome, entry: nat, overhead: int, between: nat,
                      more: int, end: Option<nat>, lim: Limits, sent: seq<Signal>)
    requires Outcomes.Cancelled !in outs && entry <= between && 0 <= overhead && 0 <= more
    requires Caused(os, i, between, more, end, lim.cancel, sent, o)
    requires lim.timeout.Some? ==> end.Some? && (lim.timeout.value == 0 ==> end.value <= between)
    requires end.Some? ==> Due(end.value, entry, overhead, lim.timeout)
    requires os.Reliable() && lim.cancel.Some? ==> Noticed(os, entry, between, overhead)
    ensures StageCaused(os, i, outs + [o], |outs|, entry, overhead + more, lim, sent)
  {
    if o.Cancelled? && os.Reliable() {
      NoticedTwice(os, entry, between, sent[0].at, overhead, more);
    }
  }

  /** A signal added to a child still to be reaped. */
  ghost predicate KilledOnce(was: Proc, before: seq<Signal>, after: seq<Signal>, since: nat, now: nat) {
    || after == before
    || (!was.Reaped? && |after| == |before| + 1 && after[..|before|] == before
        && var s := after[|before|]; s.SigKill? && !s.to.Reaped? && since <= s.at <= now)
  }

  /** A stage that is killed once another one was cancelled. */
  lemma CauseKilled(os: Os, i: nat, child: Proc, outs: seq<Outcome>, j: nat, lim: Limits, was: Span,
                    before: seq<Signal>, span: Span, after: seq<Signal>)
    requires j < |outs| && Later(was, span) && !outs[j].Cancelled?
    requires StageCaused(os, i, outs, j, was.entry, was.overhead, lim, before)
    requires KilledOnce(child, before, after, was.now, span.now)
    requires outs[j].Exited? ==> child.Reaped?
    requires outs[j].TimedOut? ==> Due(was.now, was.entry, was.overhead, lim.timeout)
    ensures StageCaused(os, i, outs, j, span.entry, span.overhead, lim, after)
  {
    assert forall s :: s in after ==> s in before || (after != before && s == after[|before|]);
  }

  lemma FlagStaysSeen(os: Os, entry: nat, at: nat, later: nat)
    requires FlagSeen(os, entry, at) && at <= later
    ensures FlagSeen(os, entry, later)
  {
    var t: nat :| entry <= t <= at && os.flag(t);
    assert entry <= t <= later;
  }

  lemma FlagKilled(os: Os, was: Proc, entry: nat, before: seq<Signal>, after: seq<Signal>, since: nat, now: nat)
    requires KilledByFlag(os, entry, before) && KilledOnce(was, before, after, since, now) && FlagSeen(os, entry, since)
    ensures KilledByFlag(os, entry, after)
  {
    if after != before {
      FlagStaysSeen(os, entry, since, after[|before|].at);
      assert forall s :: s in after ==> s in before || s == after[|before|];
    }
  }

  // ---- Staying on track ----

  lemma OneMoreTimed(outs: seq<Outcome>, o: Outcome, was: Span, span: Span, timeout: Option<nat>)
    requires Later(was, span) && TimedRight(span, timeout, o)
    requires forall j :: 0 <= j < |outs| ==> TimedRight(was, timeout, outs[j])
    ensures forall j :: 0 <= j < |outs + [o]| ==> TimedRight(span, timeout, (outs + [o])[j])
  {
  }

  /** The causes of the earlier stages, one stage later. */
  lemma CausesKept(os: Os, first: nat, outs: seq<Outcome>, o: Outcome, lim: Limits, was: Span, before: Signals,
                   span: Span, after: Signals, j: nat)
    requires OnTrack(os, was, before, first, outs, lim) && Later(was, span) && j < |outs|
    requires SentTo(after, first + j) == SentTo(before, first + j)
    ensures StageCaused(os, first + j, outs + [o], j, span.entry, span.overhead, lim, SentTo(after, first + j))
  {
    assert outs[j] == (outs + [o])[j];
    CauseKept(os, first + j, outs, outs + [o], j, was.entry, was.overhead, span.overhead, lim,
              SentTo(before, first + j));
  }

  /** A stage that ends with its cause, and in time, leaves the pipeline on track. */
  lemma StageKeepsTrack(os: Os, first: nat, outs: seq<Outcome>, o: Outcome, lim: Limits, was: Span, before: Signals,
                        span: Span, after: Signals)
    requires OnTrack(os, was, before, first, outs, lim)
    requires Later(was, span) && TimedRight(span, lim.timeout, o)
    requires forall i :: first <= i < first + |outs| ==> SentTo(after, i) == SentTo(before, i)
    requires StageCaused(os, first + |outs|, outs + [o], |outs|, span.entry, span.overhead, lim,
                         SentTo(after, first + |outs|))
    requires Outcomes.Cancelled in outs ==> o.Cancelled?
    requires o.Cancelled? ==> FlagRead(os, span, lim.timeout)
    requires os.Reliable() ==>
               && StagesInTime(os, span, lim, o.Cancelled?)
               && ExitsSeen(os, first, first + |outs| + 1, span, lim.cancel)
    ensures OnTrack(os, span, after, first, outs + [o], lim)
  {
    var all := outs + [o];
    OneMoreTimed(outs, o, was, span, lim.timeout);
    forall i | first <= i < first + |all|
      ensures StageCaused(os, i, all, i - first, span.entry, span.overhead, lim, SentTo(after, i))
    {
      if i < first + |outs| {
        assert SentTo(after, i) == SentTo(before, i);
        CausesKept(os, first, outs, o, lim, was, before, span, after, i - first);
      }
    }
  }

  /** Killing the other stages, once one is cancelled, leaves the pipeline on track too. */
  lemma KillKeepsTrack(os: Os, first: nat, procs: seq<Proc>, outs: seq<Outcome>, lim: Limits, was: Span,
                       before: Signals, span: Span, after: Signals)
    requires OnTrack(os, was, before, first, outs, lim) && Later(was, span)
    requires outs != [] && Notices(outs, |outs| - 1) && OutcomesOk(procs, os.Reliable(), first, outs)
    requires SentTo(after, first + |outs| - 1) == SentTo(before, first + |outs| - 1)
    requires forall i :: first <= i < first + |outs| - 1 ==>
               KilledOnce(procs[i], SentTo(before, i), SentTo(after, i), was.now, span.now)
    requires os.Reliable() ==>
               StagesInTime(os, span, lim, true) && ExitsSeen(os, first, first + |outs|, span, lim.cancel)
    ensures OnTrack(os, span, after, first, outs, lim)
  {
    assert outs[|outs| - 1] in outs;
    FlagStaysRead(os, was, span, lim.timeout);
    forall j | 0 <= j < |outs|
      ensures TimedRight(span, lim.timeout, outs[j])
    {
      assert TimedRight(was, lim.timeout, outs[j]);
    }
    forall i | first <= i < first + |outs|
      ensures StageCaused(os, i, outs, i - first, span.entry, span.overhead, lim, SentTo(after, i))
    {
      KillKeepsCause(os, first, procs, outs, lim, was, before, span, after, i);
    }
  }

  lemma KillKeepsCause(os: Os, first: nat, procs: seq<Proc>, outs: seq<Outcome>, lim: Limits, was: Span,
                       before: Signals, span: Span, after: Signals, i: nat)
    requires OnTrack(os, was, before, first, outs, lim) && Later(was, span)
    requires outs != [] && Notices(outs, |outs| - 1) && OutcomesOk(procs, os.Reliable(), first, outs)
    requires SentTo(after, first + |outs| - 1) == SentTo(before, first + |outs| - 1) && first <= i < first + |outs|
    requires i < first + |outs| - 1 ==> KilledOnce(procs[i], SentTo(before, i), SentTo(after, i), was.now, span.now)
    ensures StageCaused(os, i, outs, i - first, span.entry, span.overhead, lim, SentTo(after, i))
  {
    var j := i - first;
    assert TimedRight(was, lim.timeout, outs[j]);
    assert StageCaused(os, i, outs, j, was.entry, was.overhead, lim, SentTo(before, i));
    if j == |outs| - 1 {
      CauseKept(os, i, outs, outs, j, was.entry, was.overhead, span.overhead, lim, SentTo(before, i));
    } else {
      assert !outs[j].Cancelled?;
      CauseKilled(os, i, procs[i], outs, j, lim, was, SentTo(before, i), span, SentTo(after, i));
    }
  }

  // ---- The loop over the stages ----

  /** The children from `first` on, all just spawned. */
  ghost predicate Fresh(os: Os, first: nat)
    reads os
  {
    first <= |os.procs| && forall i :: first <= i < |os.procs| ==> !os.procs[i].Reaped? && SentTo(os.signals, i) == []
  }

  ghost predicate EarlierUnsent(before: Signals, after: Signals, first: nat) {
    forall i :: 0 <= i < first ==> SentTo(after, i) == SentTo(before, i)
  }

  lemma NoticedLater(os: Os, entry: nat, since: nat, late: int, now: nat, more: int)
    requires Noticed(os, entry, since, late) && now <= since + more
    ensures Noticed(os, entry, now, late + more)
  {
    forall c: nat | SetFrom(os, c)
      ensures now <= NoticedBy(entry, c) + (late + more)
    {
      assert since <= NoticedBy(entry, c) + late;
    }
  }

  /** Calls that only take time of their own keep the bounds. */
  lemma InTimeLater(os: Os, lim: Limits, cancelled: bool, was: Span, span: Span)
    requires StagesInTime(os, was, lim, cancelled)
    requires was.entry == span.entry && span.now <= was.now + (span.overhead - was.overhead)
    ensures StagesInTime(os, span, lim, cancelled)
  {
    var grace := if cancelled && lim.cancel.Some? then lim.cancel.value else 0;
    if lim.cancel.Some? {
      NoticedLater(os, was.entry, was.now, grace + was.overhead, span.now, span.overhead - was.overhead);
    }
  }

  /** So does a wait that keeps its own, in a window that ends with the shared budget. */
  lemma InTimeAfter(os: Os, lim: Limits, o: Outcome, was: Span, end: Option<nat>, more: int)
    requires StagesInTime(os, was, lim, false)
    requires was.entry <= was.now && 0 <= was.overhead && 0 <= more && InTime(os, was.now, more, end, lim.cancel, o)
    requires lim.timeout.Some? ==>
               end.Some? && Max(was.now, end.value) <= Max(was.now, was.entry + lim.timeout.value + was.overhead)
    ensures StagesInTime(os, Span(was.entry, os.now, was.overhead + more), lim, o.Cancelled?)
  {
    var grace := if o.Cancelled? && lim.cancel.Some? then lim.cancel.value else 0;
    if lim.cancel.Some? { NoticedTwice(os, was.entry, was.now, os.now, was.overhead, grace + more); }
  }

  lemma SkipKeepsTrack(os: Os, first: nat, child: Proc, outs: seq<Outcome>, lim: Limits, was: Span, before: Signals,
                       span: Span, after: Signals)
    requires OnTrack(os, was, before, first, outs, lim) && Later(was, span)
    requires Outcomes.Cancelled in outs && outs[|outs| - 1].Cancelled?
    requires os.Reliable() ==> span.now <= was.now + (span.overhead - was.overhead)
    requires KilledByFlag(os, was.entry, SentTo(before, first + |outs|))
    requires KilledOnce(child, SentTo(before, first + |outs|), SentTo(after, first + |outs|), was.now, span.now)
    requires forall i: nat :: i != first + |outs| ==> SentTo(after, i) == SentTo(before, i)
    ensures OnTrack(os, span, after, first, outs + [Outcomes.Cancelled], lim)
  {
    var i := first + |outs|;
    FlagStaysRead(os, was, span, lim.timeout);
    FlagKilled(os, child, was.entry, SentTo(before, i), SentTo(after, i), was.now, span.now);
    if os.Reliable() {
      InTimeLater(os, lim, true, was, span);
      ExitsStillSeen(os, first, first + |outs|, was, span, lim.cancel);
    }
    StageKeepsTrack(os, first, outs, Outcomes.Cancelled, lim, was, before, span, after);
  }

  /** A turn of its loop once a stage has been cancelled: the child, killed with that stage, is
      killed and waited for again. */
  method SkipStage(os: Os, ghost first: nat, i: nat, ghost outs: seq<Outcome>, ghost lim: Limits, ghost entry: nat,
                   ghost spent: nat)
    requires i == first + |outs| < |os.procs| && Outcomes.Cancelled in outs && outs[|outs| - 1].Cancelled?
    requires entry <= os.now && spent <= os.spent && RestCaused(os, os.signals, i, |os.procs|, entry, true)
    requires OnTrack(os, Since(os, entry, spent), os.signals, first, outs, lim)
    modifies os`now, os`spent, os`procs, os`signals
    ensures OthersSettle(old(os.procs), os.procs, i) && (old(os.procs)[i].Reaped? ==> os.procs[i] == old(os.procs)[i])
    ensures os.now >= old(os.now) && os.spent >= old(os.spent) && OthersUnsent(old(os.signals), os.signals, i)
    ensures os.Reliable() ==> os.procs[i].Reaped?
    ensures RestCaused(os, os.signals, i + 1, |os.procs|, entry, true)
    ensures OnTrack(os, Since(os, entry, spent), os.signals, first, outs + [Outcomes.Cancelled], lim)
  {
    hide OnTrack, KilledByFlag;
    assert KilledByFlag(os, entry, SentTo(os.signals, i));
    KillAndWait(os, i);
    SkipKeepsTrack(os, first, old(os.procs)[i], outs, lim, old(Since(os, entry, spent)), old(os.signals),
                   Since(os, entry, spent), os.signals);
  }

  /** The wait of one stage: when it was entered, what it got of the budget, and its start. */
  datatype Stint = Stint(span: Span, budget: Option<nat>, start: nat)

  /** A stage's window, cut from the shared budget, ends with it but for the time between the readings
      of the clock. */
  predicate Fits(w: Stint, lim: Limits) {
    var now, entry, overhead := w.span.now, w.span.entry, w.span.overhead;
    var end := WindowEnd(w.budget, lim.cancel, now, w.start);
    && 0 <= overhead && (w.budget.Some? <==> lim.timeout.Some?)
    && (lim.timeout.Some? ==>
          && Due(end.value, entry, overhead, lim.timeout) && (lim.timeout.value == 0 ==> end.value <= now)
          && Max(now, end.value) <= Max(now, entry + lim.timeout.value + overhead))
  }

  /** What a wait proves of its stage. */
  lemma WaitIsCaused(os: Os, i: nat, child: Proc, outs: seq<Outcome>, o: Outcome, lim: Limits, spent: nat, w: Stint,
                     sent: seq<Signal>)
    requires i < |os.procs| && Outcomes.Cancelled !in outs && w.span.entry <= w.start && w.span.entry <= w.span.now
    requires 0 <= w.span.overhead <= os.spent - spent && Fits(w, lim)
    requires Waited(os, i, child, w.span.now, spent + w.span.overhead, w.budget, lim.cancel, w.start, sent, o)
    requires os.Reliable() && lim.cancel.Some? ==> Noticed(os, w.span.entry, w.span.now, w.span.overhead)
    requires os.Reliable() && lim.timeout.Some? ==>
               w.span.now <= w.span.entry + lim.timeout.value + w.span.overhead
    ensures StageCaused(os, i, outs + [o], |outs|, w.span.entry, os.spent - spent, lim, sent)
    ensures TimedRight(Since(os, w.span.entry, spent), lim.timeout, o)
    ensures o.Cancelled? ==> lim.cancel.Some? && FlagRead(os, Since(os, w.span.entry, spent), lim.timeout)
    ensures (os.Reliable() ==> os.procs[i].Reaped?) && (o.Exited? ==> os.procs[i] == Reaped(o.status))
  {
    var Span(entry, between, overhead) := w.span;
    var more, end := os.spent - spent - overhead, WindowEnd(w.budget, lim.cancel, between, w.start);
    StageIsCaused(os, i, outs, o, entry, overhead, between, more, end, lim, sent);
    if o.Cancelled? {
      assert sent[0] in sent && entry <= sent[0].at <= os.now && os.flag(sent[0].at);
      assert ReadInTime(os, sent[0].at, entry, os.spent - spent, lim.timeout);
    }
    if o.TimedOut? { assert sent[0] in sent; }
  }

  lemma WaitInTime(os: Os, first: nat, child: Proc, outs: seq<Outcome>, o: Outcome, lim: Limits, spent: nat, was: Span,
                   before: Signals, w: Stint, sent: seq<Signal>)
    requires first + |outs| < |os.procs| && Outcomes.Cancelled !in outs && os.Reliable() && Later(was, w.span)
    requires w.span.now == was.now + (w.span.overhead - was.overhead) && spent + w.span.overhead <= os.spent
    requires OnTrack(os, was, before, first, outs, lim) && Fits(w, lim)
    requires Waited(os, first + |outs|, child, w.span.now, spent + w.span.overhead, w.budget, lim.cancel, w.start, sent,
                    o)
    ensures lim.cancel.Some? ==> Noticed(os, w.span.entry, w.span.now, w.span.overhead)
    ensures lim.timeout.Some? ==> w.span.now <= w.span.entry + lim.timeout.value + w.span.overhead
    ensures StagesInTime(os, Since(os, w.span.entry, spent), lim, o.Cancelled?)
    ensures ExitsSeen(os, first, first + |outs| + 1, Since(os, w.span.entry, spent), lim.cancel)
  {
    assert StagesInTime(os, was, lim, false);
    InTimeLater(os, lim, false, was, w.span);
    OneMoreExitSeen(os, first, first + |outs|, was, w.span, Since(os, w.span.entry, spent), lim.cancel);
    InTimeAfter(os, lim, o, w.span, WindowEnd(w.budget, lim.cancel, w.span.now, w.start),
                os.spent - spent - w.span.overhead);
  }

  /** All of it together: the pipeline stays on track. */
  lemma WaitKeepsTrack(os: Os, first: nat, child: Proc, outs: seq<Outcome>, o: Outcome, lim: Limits, spent: nat,
                       was: Span, before: Signals, w: Stint, sent: seq<Signal>)
    requires var i := first + |outs|;
             && i < |os.procs| && SentTo(before, i) == []
             && SentTo(os.signals, i) == SentTo(before, i) + sent && OthersUnsent(before, os.signals, i)
             && Waited(os, i, child, w.span.now, spent + w.span.overhead, w.budget, lim.cancel, w.start, sent, o)
    requires Outcomes.Cancelled !in outs && OnTrack(os, was, before, first, outs, lim) && Fits(w, lim)
    requires Later(was, w.span) && was.now <= w.start && Later(w.span, Since(os, w.span.entry, spent))
    requires w.span.now == was.now + (w.span.overhead - was.overhead)
    ensures OnTrack(os, Since(os, was.entry, spent), os.signals, first, outs + [o], lim)
    ensures o.Cancelled? ==> lim.cancel.Some? && FlagRead(os, Since(os, was.entry, spent), lim.timeout)
    ensures os.Reliable() ==> os.procs[first + |outs|].Reaped?
    ensures o.Exited? ==> os.procs[first + |outs|] == Reaped(o.status)
  {
    hide OnTrack, Waited, WindowEnd, Fits, TimedRight, StagesInTime, ExitsSeen, Noticed, FlagRead, StageCaused;
    var i := first + |outs|;
    assert SentTo(os.signals, i) == sent by { assert [] + sent == sent; }
    if os.Reliable() { WaitInTime(os, first, child, outs, o, lim, spent, was, before, w, sent); }
    WaitIsCaused(os, i, child, outs, o, lim, spent, w, sent);
    StageKeepsTrack(os, first, outs, o, lim, was, before, Since(os, was.entry, spent), os.signals);
  }

  /** Its start, and what is left for it of the shared budget. */
  method CutBudget(os: Os, lim: Limits, start: nat, ghost entry: nat, ghost spent: nat)
    returns (stageStart: nat, budget: Option<nat>)
    requires entry <= start <= os.now && spent <= os.spent && start <= entry + (os.spent - spent)
    modifies os`now, os`spent, os`procs
    ensures Settle(old(os.procs), os.procs) && os.spent >= old(os.spent)
    ensures os.now == old(os.now) + (os.spent - old(os.spent)) && old(os.now) <= stageStart <= os.now
    ensures Fits(Stint(Since(os, entry, spent), budget, stageStart), lim)
  {
    stageStart := os.Now();
    var now := os.Now();
    budget := if lim.timeout.None? then None else Some(Monus(lim.timeout.value, now - start));
  }

  /** Its wait. */
  method WaitOnce(os: Os, ghost first: nat, i: nat, ghost outs: seq<Outcome>, lim: Limits, start: nat, ghost entry: nat,
                  ghost spent: nat)
    returns (o: Outcome)
    requires i == first + |outs| < |os.procs| && Outcomes.Cancelled !in outs
    requires !os.procs[i].Reaped? && SentTo(os.signals, i) == []
    requires entry <= start <= os.now && os.spent >= spent && start <= entry + (os.spent - spent)
    requires OnTrack(os, Since(os, entry, spent), os.signals, first, outs, lim)
    modifies os`now, os`spent, os`procs, os`signals
    ensures OthersSettle(old(os.procs), os.procs, i) && OthersUnsent(old(os.signals), os.signals, i)
    ensures os.spent >= old(os.spent) && os.now >= old(os.now)
    ensures os.Reliable() ==> os.procs[i].Reaped?
    ensures o.Exited? ==> os.procs[i] == Reaped(o.status)
    ensures o.Cancelled? ==> lim.cancel.Some? && FlagRead(os, Since(os, entry, spent), lim.timeout)
    ensures OnTrack(os, Since(os, entry, spent), os.signals, first, outs + [o], lim)
  {
    var stageStart, budget := CutBudget(os, lim, start, entry, spent);
    ghost var w, child := Stint(Since(os, entry, spent), budget, stageStart), os.procs[i];
    ghost var sent;
    o, sent := WaitSingle(os, i, budget, lim.cancel, stageStart);
    hide OnTrack, Waited, WindowEnd, Fits;
    WaitKeepsTrack(os, first, child, outs, o, lim, spent, old(Since(os, entry, spent)), old(os.signals), w, sent);
  }

  lemma TrackInTime(os: Os, span: Span, signals: Signals, first: nat, outs: seq<Outcome>, lim: Limits)
    requires OnTrack(os, span, signals, first, outs, lim) && os.Reliable()
    ensures StagesInTime(os, span, lim, Outcomes.Cancelled in outs)
    ensures ExitsSeen(os, first, first + |outs|, span, lim.cancel)
  {
  }

  lemma RestIsKilled(os: Os, procs: seq<Proc>, before: Signals, after: Signals, from: nat, end: nat, entry: nat,
                     since: nat, now: nat)
    requires end <= |procs| && RestCaused(os, before, from, end, entry, false) && FlagSeen(os, entry, since)
    requires forall i :: from <= i < end ==> KilledOnce(procs[i], SentTo(before, i), SentTo(after, i), since, now)
    ensures RestCaused(os, after, from, end, entry, true)
  {
    forall i | from <= i < end
      ensures KilledByFlag(os, entry, SentTo(after, i))
    {
      assert SentTo(before, i) == [];
      FlagKilled(os, procs[i], entry, [], SentTo(after, i), since, now);
    }
  }

  /** A turn of its loop for a pipeline not cancelled so far. */
  method WaitStage(os: Os, first: nat, i: nat, ghost outs: seq<Outcome>, lim: Limits, start: nat, ghost entry: nat,
                   ghost spent: nat)
    returns (o: Outcome)
    requires i == first + |outs| < |os.procs| && Outcomes.Cancelled !in outs
    requires forall j :: i <= j < |os.procs| ==> !os.procs[j].Reaped?
    requires RestCaused(os, os.signals, i, |os.procs|, entry, false)
    requires OutcomesOk(os.procs, os.Reliable(), first, outs)
    requires entry <= start <= os.now && os.spent >= spent && start <= entry + (os.spent - spent)
    requires OnTrack(os, Since(os, entry, spent), os.signals, first, outs, lim)
    modifies os`now, os`spent, os`procs, os`signals
    ensures |os.procs| == |old(os.procs)| && KeepsReaped(old(os.procs), os.procs)
    ensures os.spent >= old(os.spent) && os.now >= old(os.now) && EarlierUnsent(old(os.signals), os.signals, first)
    ensures os.Reliable() ==> os.procs[i].Reaped?
    ensures o.Exited? ==> os.procs[i] == Reaped(o.status)
    ensures if o.Cancelled?
            then lim.cancel.Some? && (os.Reliable() ==> forall j :: first <= j < |os.procs| ==> os.procs[j].Reaped?)
            else forall j :: i < j < |os.procs| ==> !os.procs[j].Reaped?
    ensures RestCaused(os, os.signals, i + 1, |os.procs|, entry, o.Cancelled?)
    ensures OnTrack(os, Since(os, entry, spent), os.signals, first, outs + [o], lim)
  {
    hide OnTrack, OutcomesOk, StagesInTime, ExitsSeen, FlagSeen, FlagRead;
    assert SentTo(os.signals, i) == [];
    o := WaitOnce(os, first, i, outs, lim, start, entry, spent);
    if o.Cancelled? {
      ghost var was, before, procs := Since(os, entry, spent), os.signals, os.procs;
      OneMoreOutcome(old(os.procs), os.procs, os.Reliable(), first, outs, o);
      KillOthers(os, first, i);
      if os.Reliable() {
        TrackInTime(os, was, before, first, outs + [o], lim);
        InTimeLater(os, lim, true, was, Since(os, entry, spent));
        ExitsStillSeen(os, first, first + |outs| + 1, was, Since(os, entry, spent), lim.cancel);
      }
      KillKeepsTrack(os, first, procs, outs + [o], lim, was, before, Since(os, entry, spent), os.signals);
      FlagStaysRead(os, was, was, lim.timeout);
      RestIsKilled(os, procs, before, os.signals, i + 1, |os.procs|, entry, was.now, os.now);
    }
  }

  /** Where the loop stands before child `i`. */
  ghost predicate Standing(os: Os, procs: seq<Proc>, signals: Signals, span: Span, first: nat, i: nat,
                           outs: seq<Outcome>, lim: Limits) {
    && first <= i <= |procs| && |outs| == i - first && OutcomesOk(procs, os.Reliable(), first, outs)
    && (Outcomes.Cancelled in outs ==> lim.cancel.Some?)
    && (if Outcomes.Cancelled in outs
        then os.Reliable() ==> forall j :: first <= j < |procs| ==> procs[j].Reaped?
        else forall j :: i <= j < |procs| ==> !procs[j].Reaped?)
    && RestCaused(os, signals, i, |procs|, span.entry, Outcomes.Cancelled in outs)
    && OnTrack(os, span, signals, first, outs, lim)
  }

  lemma StartsOnTrack(os: Os, span: Span, signals: Signals, first: nat, lim: Limits)
    requires span.now == span.entry + span.overhead && 0 <= span.overhead && first <= |os.procs|
    requires forall i :: first <= i < |os.procs| ==> SentTo(signals, i) == []
    requires forall i :: first <= i < |os.procs| ==> !os.procs[i].Reaped?
    ensures Standing(os, os.procs, signals, span, first, first, [], lim)
  {
  }

  lemma StandsThere(os: Os, before: seq<Proc>, procs: seq<Proc>, signals: Signals, span: Span, first: nat, i: nat,
                    outs: seq<Outcome>, o: Outcome, lim: Limits)
    requires first <= i < |procs| == |before| && |outs| == i - first && KeepsReaped(before, procs)
    requires OutcomesOk(before, os.Reliable(), first, outs)
    requires Outcomes.Cancelled in outs ==> o.Cancelled?
    requires o.Exited? ==> procs[i] == Reaped(o.status)
    requires os.Reliable() ==> procs[i].Reaped?
    requires o.Cancelled? ==> lim.cancel.Some?
    requires if o.Cancelled?
             then os.Reliable() ==> forall j :: first <= j < |procs| ==> procs[j].Reaped?
             else forall j :: i < j < |procs| ==> !procs[j].Reaped?
    requires RestCaused(os, signals, i + 1, |procs|, span.entry, o.Cancelled?)
    requires OnTrack(os, span, signals, first, outs + [o], lim)
    ensures Standing(os, procs, signals, span, first, i + 1, outs + [o], lim)
  {
    hide RestCaused, OnTrack;
    OneMoreOutcome(before, procs, os.Reliable(), first, outs, o);
  }

  lemma CancelledLast(procs: seq<Proc>, reliable: bool, first: nat, outs: seq<Outcome>)
    requires OutcomesOk(procs, reliable, first, outs)
    ensures Outcomes.Cancelled in outs <==> outs != [] && outs[|outs| - 1].Cancelled?
  {
  }

  /** One turn of the loop. */
  method StageTurn(os: Os, first: nat, i: nat, outs: seq<Outcome>, lim: Limits, start: nat, ghost entry: nat,
                   ghost spent: nat, ghost procs: seq<Proc>, ghost signals: Signals)
    returns (o: Outcome)
    requires |procs| == |os.procs| && KeepsReaped(procs, os.procs) && EarlierUnsent(signals, os.signals, first)
    requires i < |os.procs| && spent <= os.spent && entry <= start <= os.now && start <= entry + (os.spent - spent)
    requires Standing(os, os.procs, os.signals, Since(os, entry, spent), first, i, outs, lim)
    modifies os`now, os`spent, os`procs, os`signals
    ensures |os.procs| == |procs| && KeepsReaped(procs, os.procs) && EarlierUnsent(signals, os.signals, first)
    ensures os.spent >= old(os.spent) && os.now >= old(os.now)
    ensures Standing(os, os.procs, os.signals, Since(os, entry, spent), first, i + 1, outs + [o], lim)
  {
    hide OnTrack, RestCaused, OutcomesOk;
    CancelledLast(os.procs, os.Reliable(), first, outs);
    if outs != [] && outs[|outs| - 1].Cancelled? {
      SkipStage(os, first, i, outs, lim, entry, spent);
      o := Outcomes.Cancelled;
    } else {
      o := WaitStage(os, first, i, outs, lim, start, entry, spent);
    }
    StandsThere(os, old(os.procs), os.procs, os.signals, Since(os, entry, spent), first, i, outs, o, lim);
  }

  /** Its start. */
  method StartStages(os: Os, first: nat, lim: Limits) returns (start: nat)
    requires Fresh(os, first)
    modifies os`now, os`spent, os`procs
    ensures |os.procs| == |old(os.procs)| && KeepsReaped(old(os.procs), os.procs)
    ensures old(os.now) <= start == os.now && os.spent >= old(os.spent)
    ensures start <= old(os.now) + (os.spent - old(os.spent))
    ensures Standing(os, os.procs, os.signals, Since(os, old(os.now), old(os.spent)), first, first, [], lim)
  {
    start := os.Now();
    StartsOnTrack(os, Since(os, old(os.now), old(os.spent)), os.signals, first, lim);
  }

  /** `wait_stages`, for the children from `first` on. However many stages there are, and whatever
      mix of exits, timeouts and cancellation ends them, it leaves no child unreaped, keeps to the one
      shared timeout and to the flag, and signals no child without cause. */
  method WaitStages(os: Os, first: nat, timeout: Option<nat>, cancel: Option<nat>) returns (outs: seq<Outcome>)
    requires Fresh(os, first)
    modifies os`now, os`spent, os`procs, os`signals
    ensures |os.procs| == |old(os.procs)| && KeepsReaped(old(os.procs), os.procs)
    ensures os.now >= old(os.now) && os.spent >= old(os.spent) && EarlierUnsent(old(os.signals), os.signals, first)
    ensures Standing(os, os.procs, os.signals, Since(os, old(os.now), old(os.spent)), first, |os.procs|, outs,
                     Limits(timeout, cancel))
  {
    hide Standing;
    var start := StartStages(os, first, Limits(timeout, cancel));
    outs := [];
    for i := first to |os.procs|
      invariant |os.procs| == |old(os.procs)| && KeepsReaped(old(os.procs), os.procs)
      invariant old(os.now) <= start <= os.now && os.spent >= old(os.spent)
      invariant start <= old(os.now) + (os.spent - old(os.spent))
      invariant EarlierUnsent(old(os.signals), os.signals, first)
      invariant Standing(os, os.procs, os.signals, Since(os, old(os.now), old(os.spent)), first, i, outs,
                         Limits(timeout, cancel))
    {
      var o := StageTurn(os, first, i, outs, Limits(timeout, cancel), start, old(os.now), old(os.spent), old(os.procs),
                         old(os.signals));
      outs := outs + [o];
    }
  }

  /** On cancellation every other stage is killed and reaped at once. */
  method KillOthers(os: Os, first: nat, i: nat)
    requires first <= i < |os.procs|
    modifies os`now, os`spent, os`procs, os`signals
    ensures |os.procs| == |old(os.procs)| && KeepsReaped(old(os.procs), os.procs)
    ensures os.spent >= old(os.spent) && os.now >= old(os.now)
    ensures EarlierUnsent(old(os.signals), os.signals, first) && SentTo(os.signals, i) == SentTo(old(os.signals), i)
    ensures forall j :: first <= j < |os.procs| && j != i ==>
              KilledOnce(old(os.procs)[j], SentTo(old(os.signals), j), SentTo(os.signals, j), old(os.now), os.now)
    ensures os.Reliable() ==> forall j :: first <= j < |os.procs| && j != i ==> os.procs[j].Reaped?
    ensures os.kills ==> os.now <= old(os.now) + (os.spent - old(os.spent))
  {
    for j := first to |os.procs|
      invariant |os.procs| == |old(os.procs)| && KeepsReaped(old(os.procs), os.procs)
      invariant os.spent >= old(os.spent) && os.now >= old(os.now)
      invariant EarlierUnsent(old(os.signals), os.signals, first) && SentTo(os.signals, i) == SentTo(old(os.signals), i)
      invariant forall k :: first <= k < |os.procs| && k != i ==>
                  if k < j then
                    KilledOnce(old(os.procs)[k], SentTo(old(os.signals), k), SentTo(os.signals, k), old(os.now), os.now)
                  else SentTo(os.signals, k) == SentTo(old(os.signals), k)
      invariant os.Reliable() ==> forall k :: first <= k < j && k != i ==> os.procs[k].Reaped?
      invariant os.kills ==> os.now <= old(os.now) + (os.spent - old(os.spent))
    {
      if j != i { KillAndWait(os, j); }
    }
  }

  // ---- Cleaning up ----

  /** Nothing but SIGKILL, to children from `first` on still to be reaped. */
  ghost predicate OnlyKills(before: Signals, after: Signals, first: nat) {
    && EarlierUnsent(before, after, first)
    && forall i: nat :: SentTo(before, i) <= SentTo(after, i) && Kills(SentTo(after, i)[|SentTo(before, i)|..])
  }

  lemma OneMoreKill(before: Signals, since: Signals, first: nat, i: nat, s: Signal)
    requires OnlyKills(before, since, first) && first <= i && s.SigKill? && !s.to.Reaped?
    ensures OnlyKills(before, Signalled(since, i, s), first)
  {
    var after := Signalled(since, i, s);
    forall j: nat
      ensures SentTo(before, j) <= SentTo(after, j) && Kills(SentTo(after, j)[|SentTo(before, j)|..])
    {
      assert SentTo(before, j) <= SentTo(since, j) && Kills(SentTo(since, j)[|SentTo(before, j)|..]);
      if j == i {
        var n := |SentTo(before, j)|;
        assert SentTo(after, j)[n..] == SentTo(since, j)[n..] + [s];
      }
    }
    assert forall j :: 0 <= j < first ==> SentTo(after, j) == SentTo(since, j);
  }

  /** `kill_and_wait_std_children` and `kill_and_wait_shared_children`: what a failure to spawn a
      later stage does to the earlier ones. */
  method KillAndWaitAll(os: Os, first: nat)
    requires first <= |os.procs|
    modifies os`now, os`spent, os`procs, os`signals
    ensures |os.procs| == |old(os.procs)| && KeepsReaped(old(os.procs), os.procs)
    ensures os.spent >= old(os.spent) && os.now >= old(os.now) && OnlyKills(old(os.signals), os.signals, first)
    ensures os.Reliable() ==> forall i :: first <= i < |os.procs| ==> os.procs[i].Reaped?
    ensures os.kills ==> os.now <= old(os.now) + (os.spent - old(os.spent))
  {
    for i := first to |os.procs|
      invariant |os.procs| == |old(os.procs)| && KeepsReaped(old(os.procs), os.procs)
      invariant os.spent >= old(os.spent) && os.now >= old(os.now) && OnlyKills(old(os.signals), os.signals, first)
      invariant os.Reliable() ==> forall j :: first <= j < i ==> os.procs[j].Reaped?
      invariant os.kills ==> os.now <= old(os.now) + (os.spent - old(os.spent))
    {
      if !os.procs[i].Reaped? { OneMoreKill(old(os.signals), os.signals, first, i, SigKill(os.now, os.procs[i])); }
      KillAndWait(os, i);
    }
  }

  /** Dropping the children of an async attempt, which are spawned with `kill_on_drop`: one not yet
      reaped is killed, and the runtime reaps it later. */
  method DropChildren(os: Os, first: nat)
    requires first <= |os.procs|
    modifies os`now, os`spent, os`procs, os`signals
    ensures |os.procs| == |old(os.procs)| && KeepsReaped(old(os.procs), os.procs)
    ensures os.spent >= old(os.spent) && os.now == old(os.now) + (os.spent - old(os.spent))
    ensures OnlyKills(old(os.signals), os.signals, first)
    ensures forall i :: first <= i < |os.procs| && old(os.procs)[i].Reaped? ==>
              SentTo(os.signals, i) == SentTo(old(os.signals), i)
    ensures os.kills ==> forall i :: first <= i < |os.procs| ==> !os.procs[i].Running?
  {
    for i := first to |os.procs|
      invariant |os.procs| == |old(os.procs)| && KeepsReaped(old(os.procs), os.procs)
      invariant os.spent >= old(os.spent) && os.now == old(os.now) + (os.spent - old(os.spent))
      invariant OnlyKills(old(os.signals), os.signals, first)
      invariant forall j :: first <= j < |os.procs| && old(os.procs)[j].Reaped? ==>
                  SentTo(os.signals, j) == SentTo(old(os.signals), j)
      invariant os.kills ==> forall j :: first <= j < i ==> !os.procs[j].Running?
    {
      if !os.procs[i].Reaped? { OneMoreKill(old(os.signals), os.signals, first, i, SigKill(os.now, os.procs[i])); }
      os.Kill(i);
    }
  }

  /** `Drop for SpawnedProcess`. A child whose poll fails is left alone, and so is one that has
      exited; every other is killed, not waited for as it is, and all but the first are reaped. */
  method DropHandle(os: Os) returns (ghost unpolled: set<nat>)
    modifies os`now, os`spent, os`procs, os`signals
    ensures |os.procs| == |old(os.procs)| && (os.polls ==> unpolled == {})
    ensures os.Reliable() ==> forall i :: 0 <= i < |os.procs| && i !in unpolled ==> os.procs[i].Reaped?
    ensures forall i :: 0 <= i < |os.procs| && (i in unpolled || !old(os.procs)[i].Running?) ==>
              SentTo(os.signals, i) == SentTo(old(os.signals), i)
    ensures OnlyKills(old(os.signals), os.signals, 0)
    ensures os.spent >= old(os.spent) && (os.kills ==> os.now <= old(os.now) + (os.spent - old(os.spent)))
  {
    unpolled := {};
    for i := 0 to |os.procs|
      invariant |os.procs| == |old(os.procs)| && OnlyKills(old(os.signals), os.signals, 0)
      invariant os.polls ==> unpolled == {}
      invariant os.spent >= old(os.spent) && (os.kills ==> os.now <= old(os.now) + (os.spent - old(os.spent)))
      invariant os.Reliable() ==> forall j :: 0 <= j < i && j !in unpolled ==> os.procs[j].Reaped?
      invariant forall j :: j in unpolled ==> j < i
      invariant forall j :: i <= j < |os.procs| && !old(os.procs)[j].Running? ==> !os.procs[j].Running?
      invariant forall j :: 0 <= j < |os.procs| && (j >= i || j in unpolled || !old(os.procs)[j].Running?) ==>
                  SentTo(os.signals, j) == SentTo(old(os.signals), j)
    {
      var polled := os.TryWait(i);
      if polled.StillRunning? {
        OneMoreKill(old(os.signals), os.signals, 0, i, SigKill(os.now, os.procs[i]));
        KillAndWait(os, i);
      } else if polled.Failed? {
        unpolled := unpolled + {i};
      }
    }
  }
}
