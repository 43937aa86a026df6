/** What holds of a shared `SpawnedProcess` in every interleaving. */
module HandleTheorems {
  import opened Types
  import opened Handle
  import opened HandleMachine

  // ---- Waits agree ----

  /** All final outcomes are made from one cached state, written once: every child's own exit
      status, every stderr thread's bytes in stage order. A caller still on its way to the cache
      has polled the same statuses. */
  lemma WaitAgreement(run: seq<State>, cfg: Config)
    requires Run(run, cfg)
    ensures var s := run[|run| - 1];
            && s.mem.stores <= 1
            && (forall f, g :: f in s.mem.returned && g in s.mem.returned ==> f == g)
            && (forall f :: f in s.mem.returned ==>
                  && s.mem.finalized == Some(f) && f.statuses != []
                  && AllExited(s.mem.exits, f.statuses) && InOrder(cfg.stderr, f.stderr))
            && (forall t :: 0 <= t < |s.threads| && HasStatuses(s.threads[t]) && s.mem.finalized.Some?
                  ==> s.threads[t].statuses == s.mem.finalized.value.statuses)
  {
    RunKeeps(run, cfg);
    JoinedIsInOrder(cfg.stderr);
    var s := run[|run| - 1];
    forall t | 0 <= t < |s.threads| && HasStatuses(s.threads[t]) && s.mem.finalized.Some?
      ensures s.threads[t].statuses == s.mem.finalized.value.statuses
    {
      assert PcOk(s.mem, s.threads[t]);
    }
  }

  ghost predicate KeptByEachStep(run: seq<State>) {
    forall i, j :: 0 <= i < |run| && 0 <= j < |run| && j == i + 1 && run[i].mem.finalized.Some?
      ==> run[j].mem.finalized == run[i].mem.finalized
  }

  lemma {:induction false} KeptThroughout(run: seq<State>, i: nat, j: nat)
    requires KeptByEachStep(run) && i <= j < |run| && run[i].mem.finalized.Some?
    ensures run[j].mem.finalized == run[i].mem.finalized
  {
    if i < j { KeptThroughout(run, i, j - 1); }
  }

  /** Once filled, the cache never changes, so outcomes returned at different times agree too. */
  lemma CacheNeverChanges(run: seq<State>, cfg: Config, i: nat, j: nat)
    requires Run(run, cfg) && i <= j < |run| && run[i].mem.finalized.Some?
    ensures run[j].mem.finalized == run[i].mem.finalized
  {
    forall a, b | 0 <= a < |run| && 0 <= b < |run| && b == a + 1 && run[a].mem.finalized.Some?
      ensures run[b].mem.finalized == run[a].mem.finalized
    {
      CacheKeptOnce(run, cfg, a, b);
    }
    KeptThroughout(run, i, j);
  }

  lemma PrefixKeeps(run: seq<State>, cfg: Config, j: nat)
    requires Run(run, cfg) && j < |run|
    ensures Inv(run[j])
  {
    var prefix := run[..j + 1];
    assert prefix[0] == run[0] && prefix[j] == run[j];
    RunKeeps(prefix, cfg);
  }

  lemma CacheKeptOnce(run: seq<State>, cfg: Config, i: nat, j: nat)
    requires Run(run, cfg) && j == i + 1 < |run|
    ensures run[i].mem.finalized.Some? ==> run[j].mem.finalized == run[i].mem.finalized
  {
    PrefixKeeps(run, cfg, i);
    assert Next(run[i], run[j]);
    if run[i].mem.finalized.Some? { NextKeepsCache(run[i], run[j]); }
  }

  lemma NextKeepsCache(s: State, s': State)
    requires Inv(s) && Next(s, s') && s.mem.finalized.Some?
    ensures s'.mem.finalized == s.mem.finalized
  {
    if !Environment(s, s') {
      var t: nat :| Start(s, t, s') || Step(s, t, s') || OsError(s, t, s');
      assert PcOk(s.mem, s.threads[t]);
    }
  }

  // ---- What a call returns ----

  /** Why thread `t` leaves the handle by its own action: a final outcome, which is recorded; a child
      still running, but never for `wait`; a take, which gets the pipe if it is the first to ask for
      it; or a read, which returns bytes unless none were asked for or there are none to come. */
  ghost predicate ReturnsWith(s: State, t: nat, s': State)
    requires t < |s.threads|
  {
    var m, m' := s.mem, s'.mem;
    match s.threads[t]
    case Returning(f) => m.finalized == Some(f) && m' == m.(returned := m.returned + [f])
    case Polling(call, statuses) =>
      call != Wait && m' == m && |statuses| < |m.exits| && m.exits[|statuses|].None?
    case Taking =>
      if m.outlet.state.NotTaken? then
        && m'.outlet.state.GivenAway? && !m'.outlet.pipe && m.takes == 0
        && m'.takes == (if m.cfg.hasPipe then 1 else 0) && m' == m.(outlet := m'.outlet, takes := m'.takes)
      else m' == m
    case Reading(n) =>
      && m' == m.(pos := m'.pos, delivered := m'.delivered) && |m.delivered| <= |m'.delivered| <= |m.delivered| + n
      && (m.outlet.state.Cached? && n > 0 && !(m.eof && m.pos == |m.produced|) ==> |m'.delivered| > |m.delivered|)
      && (!m.outlet.state.Cached? ==> m' == m)
    case _ => false
  }

  lemma EveryReturnHasItsReason(run: seq<State>, cfg: Config, i: nat, j: nat, t: nat)
    requires Run(run, cfg) && j == i + 1 < |run| && Step(run[i], t, run[j])
    requires !run[i].threads[t].Idle? && run[j].threads[t].Idle?
    ensures ReturnsWith(run[i], t, run[j])
  {
    hide CacheOk, LocksOk, Joined, Run;
    PrefixKeeps(run, cfg, i);
    var s, s' := run[i], run[j];
    assert PcOk(s.mem, s.threads[t]);
  }

  // ---- No byte of stdout is lost, repeated or reordered ----

  lemma StdoutConservation(run: seq<State>, cfg: Config)
    requires Run(run, cfg)
    ensures var m := run[|run| - 1].mem;
            var collected := if m.drained.Some? then m.drained.value else [];
            && m.takes <= 1
            // handed over whole
            && (m.takes == 1 ==> m.pos == 0 && m.delivered + collected == [])
            // or read through the handle: a prefix, in order, each byte once
            && (m.takes == 0 ==> m.pos <= |m.produced| && m.delivered + collected == m.produced[..m.pos])
            // and all of it once finalized
            && (m.finalized.Some? ==> m.finalized.value.stdout == collected)
            && (m.finalized.Some? && cfg.hasPipe && m.takes == 0 && !m.drainFailed
                ==> m.eof && m.delivered + m.finalized.value.stdout == m.produced)
  {
    RunKeeps(run, cfg);
  }

  // ---- No deadlock ----

  predicate BlockedBy(s: State, t: nat, u: nat) {
    && t < |s.threads| && u < |s.threads|
    && Wants(s.threads[t]).Some? && Owns(s.owner, u, Wants(s.threads[t]).value)
  }

  function Rank(l: Lock): nat {
    match l case FinalizedLock => 0 case StderrLock => 1 case StdoutLock => 2
  }

  /** A mutex is only ever requested by a thread whose held mutexes all rank below it. */
  lemma LockOrder(pc: Pc, held: Lock)
    requires Wants(pc).Some? && Holds(pc, held)
    ensures Rank(held) < Rank(Wants(pc).value)
  {
  }

  ghost predicate Chain(s: State, c: seq<nat>) {
    |c| >= 1 && forall i, j :: 0 <= i < |c| && 0 <= j < |c| && j == i + 1 ==> BlockedBy(s, c[i], c[j])
  }

  /** Along a chain of blocked threads the requested mutex ranks ever higher. */
  lemma {:induction false} RanksRise(s: State, c: seq<nat>, i: nat)
    requires Inv(s) && Chain(s, c) && 0 < i < |c|
    requires c[0] < |s.threads| && Wants(s.threads[c[0]]).Some?
    requires c[i] < |s.threads| && Wants(s.threads[c[i]]).Some?
    ensures Rank(Wants(s.threads[c[0]]).value) + i <= Rank(Wants(s.threads[c[i]]).value)
  {
    assert BlockedBy(s, c[i - 1], c[i]) && LocksOk(s.owner, c[i], s.threads[c[i]]);
    LockOrder(s.threads[c[i]], Wants(s.threads[c[i - 1]]).value);
    if i > 1 { RanksRise(s, c, i - 1); }
  }

  /** No thread waits on itself through others, and at most three wait in line. */
  lemma NoCycle(run: seq<State>, cfg: Config, c: seq<nat>)
    requires Run(run, cfg) && Chain(run[|run| - 1], c) && |c| >= 2
    ensures c[0] != c[|c| - 1] && |c| <= 4
  {
    RunKeeps(run, cfg);
    var s := run[|run| - 1];
    if c[0] == c[|c| - 1] {
      assert BlockedBy(s, c[0], c[1]);
      RanksRise(s, c, |c| - 1);
    }
    if |c| > 4 {
      assert BlockedBy(s, c[0], c[1]) && BlockedBy(s, c[3], c[4]);
      RanksRise(s, c, 3);
    }
  }

  /** The thread at the end of the chain that starts at `t`. */
  function Root(s: State, t: nat): (r: nat)
    requires Inv(s) && t < |s.threads|
    ensures r < |s.threads| && (Wants(s.threads[r]).Some? ==> Wants(s.threads[r]).value !in s.owner)
    ensures r != t ==> Wants(s.threads[t]).Some?
    decreases if Wants(s.threads[t]).Some? then 3 - Rank(Wants(s.threads[t]).value) else 0
  {
    if Wants(s.threads[t]).Some? && Wants(s.threads[t]).value in s.owner then
      var u := s.owner[Wants(s.threads[t]).value];
      assert LocksOk(s.owner, u, s.threads[u]);
      Root(s, u)
    else t
  }

  /** A thread waits for a child to exit or a pipe to produce or close, which takes no thread. */
  predicate WaitsForChildren(m: Mem, pc: Pc) {
    || (pc.Polling? && pc.call == Wait && |pc.statuses| < |m.exits| && m.exits[|pc.statuses|].None?)
    || (pc.Joining? && m.readers != [] && m.readers[0].id !in m.readersDone)
    || (pc.Draining? && m.pos == |m.produced| && !m.eof)
    || (pc.Reading? && m.outlet.state.Cached? && pc.n > 0 && m.pos == |m.produced| && !m.eof)
  }

  lemma ActEnabled(m: Mem, pc: Pc) returns (m': Mem, pc': Pc, e: Effect)
    requires MemOk(m) && PcOk(m, pc) && !pc.Idle? && !WaitsForChildren(m, pc)
    ensures Act(m, pc, m', pc', e) && (e.Acquire? ==> Wants(pc) == Some(e.lock))
  {
    m', e := m, Keep;
    if Wants(pc).Some? {
      pc', e := Granted(pc), Acquire(Wants(pc).value);
      return;
    }
    match pc
    case Polling(call, statuses) =>
      pc' := if |statuses| >= |m.exits| then WantFinalized(statuses)
             else if m.exits[|statuses|].Some? then Polling(call, statuses + [m.exits[|statuses|].value])
             else Idle;
      assert CallAct(m, pc, m', pc', e);
    case Returning(f) =>
      m', pc' := m.(returned := m.returned + [f]), Idle;
      assert CallAct(m, pc, m', pc', e);
    case CheckCache(statuses) =>
      if m.finalized.Some? { pc', e := Returning(m.finalized.value), Release(FinalizedLock); }
      else { pc' := WantStderr(statuses); }
      assert CacheAct(m, pc, m', pc', e);
    case Storing(statuses, err, buf) =>
      var f := Finalized(statuses, buf, err);
      m', pc' := m.(finalized := Some(f), stores := m.stores + 1), Releasing(f);
      assert CacheAct(m, pc, m', pc', e);
    case Releasing(f) =>
      pc', e := Returning(f), Release(FinalizedLock);
      assert CacheAct(m, pc, m', pc', e);
    case Joining(statuses, err) =>
      if m.readers == [] { pc', e := WantStdout(statuses, err), Release(StderrLock); }
      else { m', pc' := m.(readers := m.readers[1..]), Joining(statuses, err + m.readers[0].Bytes()); }
      assert JoinAct(m, pc, m', pc', e);
    case OpeningDrain(statuses, err) =>
      m' := m.(outlet := OpenForDrain(m.outlet).0, drained := Some([]));
      if OpenForDrain(m.outlet).1 { pc' := Draining(statuses, err, []); }
      else { pc', e := Storing(statuses, err, []), Release(StdoutLock); }
      assert DrainAct(m, pc, m', pc', e);
    case Draining(statuses, err, buf) =>
      if m.pos == |m.produced| {
        pc', e := Storing(statuses, err, buf), Release(StdoutLock);
      } else {
        var more := buf + m.produced[m.pos..m.pos + 1];
        m', pc' := m.(pos := m.pos + 1, drained := Some(more)), Draining(statuses, err, more);
        assert DrainSome(m, pc, 1, m', pc', e);
      }
      assert DrainAct(m, pc, m', pc', e);
    case Taking =>
      m' := m.(outlet := Take(m.outlet).0, takes := m.takes + if Take(m.outlet).1 then 1 else 0);
      pc', e := Idle, Release(StdoutLock);
      assert OutletAct(m, pc, m', pc', e);
    case OpeningRead(n) =>
      m', pc' := m.(outlet := OpenForRead(m.outlet)), Reading(n);
      assert OutletAct(m, pc, m', pc', e);
    case Reading(n) =>
      pc', e := Idle, Release(StdoutLock);
      if m.outlet.state.Cached? && n > 0 && m.pos < |m.produced| {
        m' := m.(pos := m.pos + 1, delivered := m.delivered + m.produced[m.pos..m.pos + 1]);
        assert ReadSome(m, n, 1, m');
      }
      assert OutletAct(m, pc, m', pc', e);
  }

  /** Every thread inside a method is, through a chain of mutex owners, held up only by a child or
      by nothing: the thread at the end of the chain can act, or waits for a child. A thread that
      waits for a child to exit holds no mutex. */
  lemma NoDeadlock(run: seq<State>, cfg: Config, t: nat)
    requires Run(run, cfg) && t < |run[|run| - 1].threads| && !run[|run| - 1].threads[t].Idle?
    ensures Inv(run[|run| - 1])
    ensures var s := run[|run| - 1];
            var r := Root(s, t);
            WaitsForChildren(s.mem, s.threads[r]) || exists s' :: Step(s, r, s')
    ensures run[|run| - 1].threads[t].Polling? ==> t !in run[|run| - 1].owner.Values
  {
    RunKeeps(run, cfg);
    RootCanAct(run[|run| - 1], t);
    var s := run[|run| - 1];
    assert LocksOk(s.owner, t, s.threads[t]);
    if s.threads[t].Polling? && t in s.owner.Values {
      var l :| l in s.owner && s.owner[l] == t;
      match l { case FinalizedLock => case StderrLock => case StdoutLock => }
    }
  }

  lemma RootIsBusy(s: State, t: nat)
    requires Inv(s) && t < |s.threads| && !s.threads[t].Idle?
    ensures !s.threads[Root(s, t)].Idle?
    decreases if Wants(s.threads[t]).Some? then 3 - Rank(Wants(s.threads[t]).value) else 0
  {
    if Wants(s.threads[t]).Some? && Wants(s.threads[t]).value in s.owner {
      var u := s.owner[Wants(s.threads[t]).value];
      assert LocksOk(s.owner, u, s.threads[u]);
      RootIsBusy(s, u);
    }
  }

  lemma RootCanAct(s: State, t: nat)
    requires Inv(s) && t < |s.threads| && !s.threads[t].Idle?
    ensures var r := Root(s, t); WaitsForChildren(s.mem, s.threads[r]) || exists s' :: Step(s, r, s')
  {
    var r := Root(s, t);
    RootIsBusy(s, t);
    assert PcOk(s.mem, s.threads[r]);
    if !WaitsForChildren(s.mem, s.threads[r]) {
      var m', pc', e := ActEnabled(s.mem, s.threads[r]);
      assert Step(s, r, Moved(s, r, m', pc', e));
    }
  }

  // ---- Every call returns ----

  /** How many more actions a thread can take before its method returns, apart from the bytes and
      stderr threads left for it. */
  function PcWork(m: Mem, pc: Pc): nat {
    match pc
    case Idle => 0
    case Polling(_, statuses) => 12 + Monus(|m.exits|, |statuses|)
    case WantFinalized(_) => 11
    case CheckCache(_) => 10
    case WantStderr(_) => 9
    case Joining(_, _) => 8
    case WantStdout(_, _) => 7
    case OpeningDrain(_, _) => 6
    case Draining(_, _, _) => 5
    case Storing(_, _, _) => 4
    case Releasing(_) => 3
    case Returning(_) => 2
    case WantTake => 2
    case Taking => 1
    case WantRead(_) => 3
    case OpeningRead(_) => 2
    case Reading(_) => 1
  }

  function Total(m: Mem, threads: seq<Pc>): nat {
    if threads == [] then 0 else PcWork(m, threads[0]) + Total(m, threads[1..])
  }

  function Work(s: State): nat {
    Total(s.mem, s.threads) + Monus(|s.mem.produced|, s.mem.pos) + |s.mem.readers|
  }

  lemma {:induction false} TotalMoves(m: Mem, m': Mem, threads: seq<Pc>, t: nat, pc': Pc)
    requires t < |threads| && |m'.exits| == |m.exits|
    ensures Total(m', threads[t := pc']) == Total(m, threads) - PcWork(m, threads[t]) + PcWork(m, pc')
  {
    if t == 0 {
      TotalSame(m, m', threads[1..]);
      assert threads[0 := pc'][1..] == threads[1..];
    } else {
      TotalMoves(m, m', threads[1..], t - 1, pc');
      assert threads[t := pc'][1..] == threads[1..][t - 1 := pc'];
    }
  }

  lemma {:induction false} TotalSame(m: Mem, m': Mem, threads: seq<Pc>)
    requires |m'.exits| == |m.exits|
    ensures Total(m', threads) == Total(m, threads)
  {
    if threads != [] { TotalSame(m, m', threads[1..]); }
  }

  ghost predicate LessWork(m: Mem, pc: Pc, m': Mem, pc': Pc) {
    && |m'.exits| == |m.exits|
    && PcWork(m', pc') + Monus(|m'.produced|, m'.pos) + |m'.readers|
       < PcWork(m, pc) + Monus(|m.produced|, m.pos) + |m.readers|
  }

  lemma FinalizingUsesWork(m: Mem, pc: Pc, m': Mem, pc': Pc, e: Effect)
    requires MemOk(m) && PcOk(m, pc)
    requires CacheAct(m, pc, m', pc', e) || JoinAct(m, pc, m', pc', e) || DrainAct(m, pc, m', pc', e)
    ensures LessWork(m, pc, m', pc')
  {
  }

  lemma CallingUsesWork(m: Mem, pc: Pc, m': Mem, pc': Pc, e: Effect)
    requires MemOk(m) && PcOk(m, pc)
    requires LockAct(m, pc, m', pc', e) || CallAct(m, pc, m', pc', e) || OutletAct(m, pc, m', pc', e)
    ensures LessWork(m, pc, m', pc')
  {
  }

  lemma FailingUsesWork(m: Mem, pc: Pc, m': Mem, pc': Pc, e: Effect)
    requires MemOk(m) && PcOk(m, pc) && ErrorAct(m, pc, m', pc', e)
    ensures LessWork(m, pc, m', pc')
  {
  }

  lemma ErrorUsesWork(s: State, t: nat, s': State)
    requires Inv(s) && OsError(s, t, s')
    ensures Inv(s') && Work(s') < Work(s)
  {
    StepKeeps(s, t, s');
    var m', pc', e :| ErrorAct(s.mem, s.threads[t], m', pc', e) && s' == Moved(s, t, m', pc', e);
    FailingUsesWork(s.mem, s.threads[t], m', pc', e);
    TotalMoves(s.mem, m', s.threads, t, pc');
  }

  lemma StepUsesWork(s: State, t: nat, s': State)
    requires Inv(s) && Step(s, t, s')
    ensures Inv(s') && Work(s') < Work(s)
  {
    StepKeeps(s, t, s');
    var m', pc', e :| Act(s.mem, s.threads[t], m', pc', e) && Allowed(s.owner, t, e)
                      && s' == Moved(s, t, m', pc', e);
    if CacheAct(s.mem, s.threads[t], m', pc', e) || JoinAct(s.mem, s.threads[t], m', pc', e)
       || DrainAct(s.mem, s.threads[t], m', pc', e) {
      FinalizingUsesWork(s.mem, s.threads[t], m', pc', e);
    } else {
      CallingUsesWork(s.mem, s.threads[t], m', pc', e);
    }
    TotalMoves(s.mem, m', s.threads, t, pc');
  }

  ghost predicate ThreadsMove(s: State, s': State) { exists t: nat :: Step(s, t, s') || OsError(s, t, s') }

  /** The threads alone act, from `s`, their calls of the OS failing or not: no new calls of the
      handle and nothing from the children. */
  ghost predicate Schedule(s: State, run: seq<State>) {
    && run != [] && run[0] == s
    && forall i, j :: 0 <= i < |run| && 0 <= j < |run| && j == i + 1 ==> ThreadsMove(run[i], run[j])
  }

  ghost predicate ChildrenDone(m: Mem) {
    && m.eof && (forall i :: 0 <= i < |m.exits| ==> m.exits[i].Some?)
    && (forall r :: r in m.readers ==> r.id in m.readersDone)
  }

  lemma MoveUsesWork(s: State, s': State)
    requires Inv(s) && ThreadsMove(s, s')
    ensures Inv(s') && Work(s') < Work(s)
  {
    var t: nat :| Step(s, t, s') || OsError(s, t, s');
    if Step(s, t, s') { StepUsesWork(s, t, s'); } else { ErrorUsesWork(s, t, s'); }
  }

  lemma MoveKeepsDone(s: State, s': State)
    requires ThreadsMove(s, s') && ChildrenDone(s.mem)
    ensures ChildrenDone(s'.mem)
  {
  }

  lemma {:induction false} ScheduleIsBounded(s: State, run: seq<State>)
    requires Inv(s) && Schedule(s, run)
    ensures Inv(run[|run| - 1]) && |run| - 1 + Work(run[|run| - 1]) <= Work(s)
    ensures ChildrenDone(s.mem) ==> ChildrenDone(run[|run| - 1].mem)
    decreases |run|
  {
    if |run| > 1 {
      var init := run[..|run| - 1];
      ScheduleIsBounded(s, init);
      var last, s' := init[|init| - 1], run[|run| - 1];
      assert ThreadsMove(last, s');
      MoveUsesWork(last, s');
      if ChildrenDone(last.mem) { MoveKeepsDone(last, s'); }
    }
  }

  /** Once every child has exited and every pipe is closed, the calls under way all return,
      whatever the scheduler does: it runs out of steps after at most `Work(s)`, and a schedule
      that cannot be extended has left every thread outside the handle. */
  lemma CallsReturn(s: State, run: seq<State>)
    requires Inv(s) && ChildrenDone(s.mem) && Schedule(s, run)
    ensures |run| - 1 <= Work(s)
    ensures var last := run[|run| - 1];
            (forall s' :: !ThreadsMove(last, s')) ==> forall t :: 0 <= t < |last.threads| ==> last.threads[t].Idle?
  {
    ScheduleIsBounded(s, run);
    var last := run[|run| - 1];
    if t :| 0 <= t < |last.threads| && !last.threads[t].Idle? {
      RootCanAct(last, t);
      assert forall s' :: Step(last, Root(last, t), s') ==> ThreadsMove(last, s');
    }
  }
}
