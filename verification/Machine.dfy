/** The operating system as the run supervisor sees it: a process table, a clock, signals and the
    caller's cancel flag. The contracts are the assumptions made of it; the bodies only show that
    they can be met. Any call may take time of its own, which `spent` adds up. */
module Machine {
  import opened Types

  /** A zombie has exited and waits to be reaped. */
  datatype Proc = Running | Zombie(status: ExitStatus) | Reaped(status: ExitStatus)

  datatype Polled = Exited(status: ExitStatus) | StillRunning | Failed

  /** A signal sent to a child: when, and what the child was at that moment. */
  datatype Signal = SigTerm(at: nat, to: Proc) | SigKill(at: nat, to: Proc)

  /** The signals each child has been sent, in order. */
  type Signals = map<nat, seq<Signal>>

  function SentTo(signals: Signals, i: nat): seq<Signal> { if i in signals then signals[i] else [] }

  function Signalled(signals: Signals, i: nat, s: Signal): Signals { signals[i := SentTo(signals, i) + [s]] }

  /** An exit status never changes. */
  predicate Kept(was: Proc, status: ExitStatus) { was.Running? || was.status == status }

  /** Children may exit by themselves at any time; nothing else happens to them unasked. */
  predicate MayBecome(a: Proc, b: Proc) { a == b || (a.Running? && b.Zombie?) }

  predicate OthersSettle(before: seq<Proc>, after: seq<Proc>, i: nat) {
    |after| == |before| && forall j :: 0 <= j < |before| && j != i ==> MayBecome(before[j], after[j])
  }

  predicate Settle(before: seq<Proc>, after: seq<Proc>) {
    |after| == |before| && forall j :: 0 <= j < |before| ==> MayBecome(before[j], after[j])
  }

  /** Reaped children stay as they are. New ones may have been added. */
  predicate KeepsReaped(before: seq<Proc>, after: seq<Proc>) {
    |before| <= |after| && forall i :: 0 <= i < |before| && before[i].Reaped? ==> after[i] == before[i]
  }

  /** Every child added since is reaped. */
  predicate NoneLeft(before: seq<Proc>, after: seq<Proc>) {
    KeepsReaped(before, after) && forall i :: |before| <= i < |after| ==> after[i].Reaped?
  }

  /** The last `n` children all exited with success. */
  predicate AllSucceeded(procs: seq<Proc>, n: nat) {
    n <= |procs| && forall i :: |procs| - n <= i < |procs| ==> procs[i] == Reaped(ExitStatus(0))
  }

  lemma NoneLeftTwice(before: seq<Proc>, between: seq<Proc>, after: seq<Proc>)
    requires NoneLeft(before, between) && NoneLeft(between, after)
    ensures NoneLeft(before, after)
  {
  }

  lemma NoneLeftSettled(before: seq<Proc>, between: seq<Proc>, after: seq<Proc>)
    requires NoneLeft(before, between) && Settle(between, after)
    ensures NoneLeft(before, after)
  {
  }

  class Os {
    var now: nat
    var procs: seq<Proc>
    ghost var spent: nat
    ghost var signals: Signals

    const flag: nat -> bool          // the cancel flag at each instant
    const pidFits: nat -> bool       // the pid of each child fits an `i32`
    const async: bool                // children belong to the async runtime
    ghost const kills: bool          // `kill` and the blocking `wait` do not fail
    ghost const polls: bool          // `try_wait` and `wait_timeout` do not fail
    ghost const starts: bool         // no pipe, file, hook or `spawn` fails
    ghost const exitsAt: nat -> nat  // by when each child has exited by itself

    constructor (procs: seq<Proc>, flag: nat -> bool, pidFits: nat -> bool, async: bool,
                 ghost kills: bool, ghost polls: bool, ghost starts: bool, ghost exitsAt: nat -> nat)
      ensures this.procs == procs && this.flag == flag && this.pidFits == pidFits && this.async == async
      ensures this.kills == kills && this.polls == polls && this.starts == starts && this.exitsAt == exitsAt
      ensures signals == map[]
    {
      this.procs, this.flag, this.pidFits, this.async := procs, flag, pidFits, async;
      this.kills, this.polls, this.starts, this.exitsAt := kills, polls, starts, exitsAt;
      now, spent, signals := 0, 0, map[];
    }

    /** No call fails that the runner relies on: the async one does not kill a child it cannot poll. */
    ghost predicate Reliable() { kills && (async ==> polls) }

    /** `waited` of the time since a call began was asked for; the rest is its overhead. */
    twostate predicate Took(waited: nat)
      reads this
    {
      spent >= old(spent) && now == old(now) + waited + (spent - old(spent))
    }

    method Elapse(waited: nat)
      modifies this`now, this`spent, this`procs
      ensures Took(waited) && Settle(old(procs), procs)
    {
      var overhead: nat :| true;
      now, spent := now + waited + overhead, spent + overhead;
      assert Settle(procs, procs);
      var settled :| Settle(procs, settled);
      procs := settled;
    }

    /** `Instant::now()`. */
    method Now() returns (t: nat)
      modifies this`now, this`spent, this`procs
      ensures Took(0) && Settle(old(procs), procs) && t == now
    {
      Elapse(0);
      t := now;
    }

    /** A call outside this model that may fail: opening a pipe or a file, or the caller's hook. */
    method Try() returns (ok: bool)
      modifies this`now, this`spent, this`procs
      ensures Took(0) && Settle(old(procs), procs) && (starts ==> ok)
    {
      Elapse(0);
      ok := true;
    }

    /** A new child, at the end of the table; it may have exited by the time it is looked at. */
    method Spawn() returns (ok: bool)
      modifies this`now, this`spent, this`procs, this`signals
      ensures Took(0) && (starts ==> ok)
      ensures signals == if ok then old(signals)[|old(procs)| := []] else old(signals)
      ensures !ok ==> Settle(old(procs), procs)
      ensures ok ==>
                |procs| == |old(procs)| + 1 && Settle(old(procs), procs[..|old(procs)|]) && !procs[|old(procs)|].Reaped?
    {
      Elapse(0);
      ok := true;
      signals := signals[|procs| := []];
      procs := procs + [Running];
    }

    method Sleep(d: nat)
      modifies this`now, this`spent, this`procs
      ensures Took(d) && Settle(old(procs), procs)
    {
      Elapse(d);
    }

    /** Waits no longer than `d`, nor past the child's exit, and for `d` if it finds the child still
        running. A child that has exited is reaped with its own status. */
    method WaitTimeout(i: nat, d: nat) returns (r: Polled, ghost waited: nat)
      requires i < |procs|
      modifies this`now, this`spent, this`procs
      ensures waited <= d && Took(waited) && OthersSettle(old(procs), procs, i)
      ensures (!old(procs)[i].Running? ==> waited == 0) && waited <= Monus(exitsAt(i), old(now))
      ensures r.Exited? ==> procs[i] == Reaped(r.status) && Kept(old(procs)[i], r.status)
      ensures r.StillRunning? ==> old(procs)[i].Running? && procs[i].Running? && waited == d && old(now) < exitsAt(i)
      ensures r.Failed? ==> !polls && MayBecome(old(procs)[i], procs[i])
      ensures old(procs)[i].Reaped? ==> r == Exited(old(procs)[i].status)
    {
      if procs[i].Reaped? {
        Elapse(0);
        return Exited(procs[i].status), 0;
      }
      waited := 0;
      Elapse(0);
      var status: ExitStatus := if procs[i].Zombie? then procs[i].status else ExitStatus(0);
      procs := procs[i := Reaped(status)];
      r := Exited(status);
    }

    method TryWait(i: nat) returns (r: Polled)
      requires i < |procs|
      modifies this`now, this`spent, this`procs
      ensures Took(0) && OthersSettle(old(procs), procs, i)
      ensures r.Exited? ==> procs[i] == Reaped(r.status) && Kept(old(procs)[i], r.status)
      ensures r.StillRunning? ==> old(procs)[i].Running? && procs[i].Running? && old(now) < exitsAt(i)
      ensures r.Failed? ==> !polls && MayBecome(old(procs)[i], procs[i])
      ensures old(procs)[i].Reaped? ==> r == Exited(old(procs)[i].status)
    {
      ghost var waited;
      r, waited := WaitTimeout(i, 0);
    }

    /** Blocks until the child exits; a child that already has is reaped at once. */
    method Wait(i: nat) returns (r: Polled, ghost waited: nat)
      requires i < |procs|
      modifies this`now, this`spent, this`procs
      ensures Took(waited) && OthersSettle(old(procs), procs, i) && !r.StillRunning?
      ensures (!old(procs)[i].Running? ==> waited == 0) && waited <= Monus(exitsAt(i), old(now))
      ensures r.Exited? ==> procs[i] == Reaped(r.status) && Kept(old(procs)[i], r.status)
      ensures r.Failed? ==> !kills && MayBecome(old(procs)[i], procs[i])
      ensures old(procs)[i].Reaped? ==> r == Exited(old(procs)[i].status)
    {
      Elapse(0);
      waited := 0;
      var status: ExitStatus := if procs[i].Running? then ExitStatus(0) else procs[i].status;
      procs := procs[i := Reaped(status)];
      r := Exited(status);
    }

    /** `Child::kill`. A reaped child is sent nothing; a signal that arrives ends a running one. */
    method Kill(i: nat)
      requires i < |procs|
      modifies this`now, this`spent, this`procs, this`signals
      ensures Took(0) && OthersSettle(old(procs), procs, i)
      ensures signals == if old(procs)[i].Reaped? then old(signals)
                         else Signalled(old(signals), i, SigKill(old(now), old(procs)[i]))
      ensures if old(procs)[i].Running? then procs[i].Zombie? || (!kills && procs[i].Running?)
              else procs[i] == old(procs)[i]
    {
      if !procs[i].Reaped? { signals := Signalled(signals, i, SigKill(now, procs[i])); }
      if procs[i].Running? { procs := procs[i := Zombie(ExitStatus(9))]; }
      Elapse(0);
    }

    /** `kill(2)` with `SIGTERM`, on a raw pid: a reaped child's pid may be another process's. */
    method Terminate(i: nat)
      requires i < |procs| && !procs[i].Reaped?
      modifies this`now, this`spent, this`procs, this`signals
      ensures Took(0) && Settle(old(procs), procs)
      ensures signals == Signalled(old(signals), i, SigTerm(old(now), old(procs)[i]))
    {
      signals := Signalled(signals, i, SigTerm(now, procs[i]));
      Elapse(0);
    }

    /** A relaxed load of the flag. */
    function IsSet(): bool
      reads this
    {
      flag(now)
    }
  }
}
