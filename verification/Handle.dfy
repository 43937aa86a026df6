/** The critical sections of a `SpawnedProcess`: what each does to the guarded state. The class in
    HandleClass.dfy and the interleaving machine in HandleMachine.dfy both use these. */
module Handle {
  import opened Types
  import Outcomes
  import Tail

  /** `Cached` means this handle owns the pipe; the other two hold nothing. */
  datatype StdoutState = NotTaken | Cached | GivenAway

  /** The guarded stdout state, and whether the rightmost child still has its pipe to give. */
  datatype Outlet = Outlet(state: StdoutState, pipe: bool)

  /** `take_stdout`: the new outlet, and whether the caller got the pipe. */
  function Take(o: Outlet): (Outlet, bool) {
    if o.state.NotTaken? then (Outlet(GivenAway, false), o.pipe) else (o, false)
  }

  /** The first half of `read_via_handle`, before any byte is read. */
  function OpenForRead(o: Outlet): Outlet {
    if !o.state.NotTaken? then o
    else if o.pipe then Outlet(Cached, false)
    else Outlet(GivenAway, false)
  }

  /** The first half of `drain_remaining_stdout`: the new outlet, and whether there is a pipe to
      read to its end. */
  function OpenForDrain(o: Outlet): (Outlet, bool) {
    match o.state
    case NotTaken => (Outlet(GivenAway, false), o.pipe)
    case Cached => (Outlet(GivenAway, o.pipe), true)
    case GivenAway => (o, false)
  }

  /** `FinalizedState`. */
  datatype Finalized = Finalized(statuses: seq<ExitStatus>, stdout: seq<Byte>, stderr: seq<Byte>)

  /** Every child has exited, with these statuses. */
  predicate AllExited(exits: seq<Option<ExitStatus>>, statuses: seq<ExitStatus>) {
    && |statuses| == |exits|
    && forall k :: 0 <= k < |statuses| ==> exits[k] == Some(statuses[k])
  }

  function Reconstruct(f: Finalized): RunResult
    requires f.statuses != []
  {
    var chosen := Outcomes.Pipefail(f.statuses);
    if chosen.Success() then Ok(RunOutput(f.stdout, f.stderr))
    else Err(NonZeroExit(chosen, Tail.TruncateSuffix(f.stdout), Tail.TruncateSuffixString(f.stderr), 1))
  }

  /** A stderr reader thread and what joining it yields; a thread that panicked yields nothing. */
  datatype StderrThread = StderrThread(id: nat, result: Option<seq<Byte>>) {
    function Bytes(): seq<Byte> { if result.Some? then result.value else [] }
  }

  /** What joining the threads in order collects. */
  function Joined(threads: seq<StderrThread>): seq<Byte> {
    if threads == [] then [] else threads[0].Bytes() + Joined(threads[1..])
  }

  /** `out` is what the threads yielded, each in full and in order: `cuts` are where one's ends and
      the next one's begins. */
  ghost predicate Splits(threads: seq<StderrThread>, out: seq<Byte>, cuts: seq<nat>) {
    && |cuts| == |threads| + 1 && cuts[0] == 0 && cuts[|threads|] == |out|
    && forall k, j :: 0 <= k < |threads| && j == k + 1 ==>
         cuts[k] <= cuts[j] <= |out|
         && out[cuts[k]..cuts[j]] == match threads[k].result case Some(bytes) => bytes case None => []
  }

  ghost predicate InOrder(threads: seq<StderrThread>, out: seq<Byte>) {
    exists cuts: seq<nat> :: Splits(threads, out, cuts)
  }

  lemma NoThreads()
    ensures InOrder([], [])
  {
    assert Splits([], [], [0]);
  }

  lemma OneMoreThread(threads: seq<StderrThread>, out: seq<Byte>, t: StderrThread)
    requires InOrder(threads, out)
    ensures InOrder(threads + [t], out + match t.result case Some(bytes) => bytes case None => [])
  {
    var cuts: seq<nat> :| Splits(threads, out, cuts);
    var bytes := match t.result case Some(bytes) => bytes case None => [];
    var all, more, ends := threads + [t], out + bytes, cuts + [|out| + |bytes|];
    forall k, j | 0 <= k < |all| && j == k + 1
      ensures ends[k] <= ends[j] <= |more|
      ensures more[ends[k]..ends[j]] == match all[k].result case Some(bytes) => bytes case None => []
    {
      if j < |cuts| { assert more[cuts[k]..cuts[j]] == out[cuts[k]..cuts[j]]; }
    }
    assert Splits(all, more, ends);
  }

  lemma {:induction false} JoinedMore(threads: seq<StderrThread>, t: StderrThread)
    ensures Joined(threads + [t]) == Joined(threads) + t.Bytes()
  {
    var all := threads + [t];
    if threads == [] {
      assert all[1..] == [] && t.Bytes() + [] == t.Bytes() && [] + t.Bytes() == t.Bytes();
    } else {
      JoinedMore(threads[1..], t);
      assert all[1..] == threads[1..] + [t];
      Associates(threads[0].Bytes(), Joined(threads[1..]), t.Bytes());
    }
  }

  lemma Associates(a: seq<Byte>, b: seq<Byte>, c: seq<Byte>)
    ensures a + (b + c) == (a + b) + c
  {
  }

  lemma {:induction false} JoinedIsInOrder(threads: seq<StderrThread>)
    ensures InOrder(threads, Joined(threads))
    decreases |threads|
  {
    if threads == [] {
      NoThreads();
    } else {
      var init, t := threads[..|threads| - 1], threads[|threads| - 1];
      assert threads == init + [t];
      JoinedIsInOrder(init);
      OneMoreThread(init, Joined(init), t);
      JoinedMore(init, t);
      assert t.Bytes() == match t.result case Some(bytes) => bytes case None => [];
    }
  }

  lemma OneThreadFewer(threads: seq<StderrThread>, out: seq<Byte>, cuts: seq<nat>)
    requires Splits(threads, out, cuts) && threads != []
    ensures var n := |threads| - 1;
            && cuts[n] <= |out| && InOrder(threads[..n], out[..cuts[n]])
            && out == out[..cuts[n]] + threads[n].Bytes()
  {
    var n := |threads| - 1;
    assert cuts[n] <= cuts[n + 1];
    CutsRise(threads, out, cuts, n);
    var init, before := threads[..n], out[..cuts[n]];
    forall k, j | 0 <= k < n && j == k + 1
      ensures cuts[k] <= cuts[j] <= |before|
      ensures before[cuts[k]..cuts[j]] == match init[k].result case Some(bytes) => bytes case None => []
    {
      assert before[cuts[k]..cuts[j]] == out[cuts[k]..cuts[j]];
    }
    assert Splits(init, before, cuts[..n + 1]);
  }

  lemma CutsOf(threads: seq<StderrThread>, out: seq<Byte>) returns (cuts: seq<nat>)
    requires InOrder(threads, out)
    ensures Splits(threads, out, cuts)
  {
    cuts :| Splits(threads, out, cuts);
  }

  lemma NothingIsEmpty(out: seq<Byte>)
    requires InOrder([], out)
    ensures out == []
  {
  }

  /** There is only one such way to put them together. */
  lemma {:induction false} InOrderIsJoined(threads: seq<StderrThread>, out: seq<Byte>)
    requires InOrder(threads, out)
    ensures out == Joined(threads)
    decreases |threads|
  {
    if threads == [] {
      NothingIsEmpty(out);
    } else {
      hide InOrder;
      var cuts := CutsOf(threads, out);
      var n := |threads| - 1;
      OneThreadFewer(threads, out, cuts);
      InOrderIsJoined(threads[..n], out[..cuts[n]]);
      JoinedMore(threads[..n], threads[n]);
      assert threads == threads[..n] + [threads[n]];
    }
  }

  lemma InOrderIff(threads: seq<StderrThread>, out: seq<Byte>)
    ensures InOrder(threads, out) <==> out == Joined(threads)
  {
    hide InOrder, Joined;
    if InOrder(threads, out) { InOrderIsJoined(threads, out); }
    JoinedIsInOrder(threads);
  }

  lemma {:induction false} CutsRise(threads: seq<StderrThread>, out: seq<Byte>, cuts: seq<nat>, n: nat)
    requires Splits(threads, out, cuts) && n < |cuts|
    ensures forall k :: 0 <= k <= n ==> cuts[k] <= cuts[n]
  {
    if n > 0 {
      CutsRise(threads, out, cuts, n - 1);
      assert cuts[n - 1] <= cuts[n];
    }
  }

  /** What a wait reports of its cached state: the output if every stage succeeded, and otherwise the
      rightmost failing status and the tails of the output. */
  ghost predicate Reported(r: RunResult, f: Finalized) {
    if forall k :: 0 <= k < |f.statuses| ==> f.statuses[k].raw == 0 then r == Ok(RunOutput(f.stdout, f.stderr))
    else
      && r.Err? && r.error.NonZeroExit? && r.error.attempts == 1
      && Tail.ByteTail(r.error.stdout, f.stdout) && Tail.TextTail(r.error.stderr, f.stderr)
      && exists k :: 0 <= k < |f.statuses| && f.statuses[k].raw != 0 && r.error.status == f.statuses[k]
           && forall m :: k < m < |f.statuses| ==> f.statuses[m].raw == 0
  }

  lemma ReconstructReports(f: Finalized)
    requires f.statuses != []
    ensures Reported(Reconstruct(f), f)
  {
    Outcomes.PipefailIsRightmostFailure(f.statuses);
    Tail.ByteTailIs(f.stdout);
    Tail.TextTailIs(f.stderr);
    if exists s :: s in f.statuses && !s.Success() {
      var k := Outcomes.LastFailure(f.statuses);
    }
  }
}
