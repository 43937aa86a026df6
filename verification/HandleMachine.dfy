/** `SpawnedProcess` shared by any number of threads, one lock, OS or unlock action at a time.
    The three mutexes are `finalized`, `stderr_threads` and `stdout`. */
module HandleMachine {
  import opened Types
  import opened Handle

  datatype Call = Wait | TryWait | WaitTimeout

  /** Where a thread is inside a method of the handle. The comments name the mutexes it holds. */
  datatype Pc =
    | Idle
    | Polling(call: Call, statuses: seq<ExitStatus>)              // the loop over the children
    | WantFinalized(statuses: seq<ExitStatus>)
    | CheckCache(statuses: seq<ExitStatus>)                       // finalized
    | WantStderr(statuses: seq<ExitStatus>)                       // finalized
    | Joining(statuses: seq<ExitStatus>, err: seq<Byte>)          // finalized, stderr_threads
    | WantStdout(statuses: seq<ExitStatus>, err: seq<Byte>)       // finalized
    | OpeningDrain(statuses: seq<ExitStatus>, err: seq<Byte>)     // finalized, stdout
    | Draining(statuses: seq<ExitStatus>, err: seq<Byte>, buf: seq<Byte>) // finalized, stdout
    | Storing(statuses: seq<ExitStatus>, err: seq<Byte>, buf: seq<Byte>)  // finalized
    | Releasing(result: Finalized)                                // finalized
    | Returning(result: Finalized)
    | WantTake
    | Taking                                                      // stdout
    | WantRead(n: nat)
    | OpeningRead(n: nat)                                         // stdout
    | Reading(n: nat)                                             // stdout

  datatype Lock = FinalizedLock | StderrLock | StdoutLock

  datatype Config = Config(children: nat, hasPipe: bool, stderr: seq<StderrThread>)

  /** What the threads share. */
  datatype Mem = Mem(
    cfg: Config,
    // the children, as the OS reports them
    exits: seq<Option<ExitStatus>>,
    produced: seq<Byte>,          // what the rightmost child has written so far
    eof: bool,                    // the write end is closed
    readersDone: set<nat>,        // stderr threads that have reached the end of their pipe
    // the handle
    outlet: Outlet,
    readers: seq<StderrThread>,   // stderr threads not yet joined
    finalized: Option<Finalized>,
    // history
    pos: nat,                     // bytes read from the pipe through the handle
    delivered: seq<Byte>,         // bytes returned by `Read` calls, in order
    drained: Option<seq<Byte>>,   // bytes collected by the finalizing thread, once it opened stdout
    drainFailed: bool,            // `read_to_end` stopped on an I/O error
    takes: nat,                   // successful `take_stdout` calls
    stores: nat,                  // writes to the cache
    returned: seq<Finalized>      // what each wait, try_wait and wait_timeout made its outcome from
  )

  datatype State = State(threads: seq<Pc>, owner: map<Lock, nat>, mem: Mem)

  // ---- What one thread does ----

  datatype Effect = Keep | Acquire(lock: Lock) | Release(lock: Lock)

  /** The mutex a thread is about to lock, and where it is once it has. */
  function Wants(pc: Pc): Option<Lock> {
    if pc.WantFinalized? then Some(FinalizedLock)
    else if pc.WantStderr? then Some(StderrLock)
    else if pc.WantStdout? || pc.WantTake? || pc.WantRead? then Some(StdoutLock)
    else None
  }

  function Granted(pc: Pc): Pc
    requires Wants(pc).Some?
  {
    match pc
    case WantFinalized(statuses) => CheckCache(statuses)
    case WantStderr(statuses) => Joining(statuses, [])
    case WantStdout(statuses, err) => OpeningDrain(statuses, err)
    case WantTake => Taking
    case WantRead(n) => OpeningRead(n)
  }

  ghost predicate LockAct(m: Mem, pc: Pc, m': Mem, pc': Pc, e: Effect) {
    Wants(pc).Some? && m' == m && pc' == Granted(pc) && e == Acquire(Wants(pc).value)
  }

  /** The loop over the children, and the return of a final outcome. */
  ghost predicate CallAct(m: Mem, pc: Pc, m': Mem, pc': Pc, e: Effect) {
    e == Keep && match pc
    case Polling(call, statuses) =>
      m' == m && var i := |statuses|;
      if i >= |m.exits| then pc' == WantFinalized(statuses)
      else if m.exits[i].Some? then pc' == Polling(call, statuses + [m.exits[i].value])
      else call != Wait && pc' == Idle
    case Returning(f) => m' == m.(returned := m.returned + [f]) && pc' == Idle
    case _ => false
  }

  /** `finalize_or_cached` around the draining. */
  ghost predicate CacheAct(m: Mem, pc: Pc, m': Mem, pc': Pc, e: Effect) {
    match pc
    case CheckCache(statuses) =>
      m' == m && if m.finalized.Some? then pc' == Returning(m.finalized.value) && e == Release(FinalizedLock)
                 else pc' == WantStderr(statuses) && e == Keep
    case Storing(statuses, err, buf) =>
      var f := Finalized(statuses, buf, err);
      m' == m.(finalized := Some(f), stores := m.stores + 1) && pc' == Releasing(f) && e == Keep
    case Releasing(f) => m' == m && pc' == Returning(f) && e == Release(FinalizedLock)
    case _ => false
  }

  /** `join_stderr_threads`. */
  ghost predicate JoinAct(m: Mem, pc: Pc, m': Mem, pc': Pc, e: Effect) {
    && pc.Joining?
    && if m.readers == [] then
         m' == m && pc' == WantStdout(pc.statuses, pc.err) && e == Release(StderrLock)
       else
         && m.readers[0].id in m.readersDone && m' == m.(readers := m.readers[1..]) && e == Keep
         && pc' == Joining(pc.statuses, pc.err + m.readers[0].Bytes())
  }

  /** Bytes `k` of the pipe are readable; a read returns between 1 and `n` of them. */
  predicate Readable(m: Mem, n: nat, k: nat) { 0 < k <= n && m.pos + k <= |m.produced| }

  predicate AtEof(m: Mem) { m.eof && m.pos == |m.produced| }

  /** `drain_remaining_stdout`; `read_to_end` takes some bytes at a time. */
  ghost predicate DrainAct(m: Mem, pc: Pc, m': Mem, pc': Pc, e: Effect) {
    match pc
    case OpeningDrain(statuses, err) =>
      && m' == m.(outlet := OpenForDrain(m.outlet).0, drained := Some([]))
      && if OpenForDrain(m.outlet).1 then pc' == Draining(statuses, err, []) && e == Keep
         else pc' == Storing(statuses, err, []) && e == Release(StdoutLock)
    case Draining(statuses, err, buf) =>
      || (AtEof(m) && m' == m && pc' == Storing(statuses, err, buf) && e == Release(StdoutLock))
      || exists k: nat :: DrainSome(m, pc, k, m', pc', e)
    case _ => false
  }

  ghost predicate DrainSome(m: Mem, pc: Pc, k: nat, m': Mem, pc': Pc, e: Effect)
    requires pc.Draining?
  {
    && Readable(m, |m.produced|, k) && e == Keep
    && var more := pc.buf + m.produced[m.pos..m.pos + k];
       m' == m.(pos := m.pos + k, drained := Some(more)) && pc' == Draining(pc.statuses, pc.err, more)
  }

  /** `take_stdout` and `read_via_handle` once they hold the lock. */
  ghost predicate OutletAct(m: Mem, pc: Pc, m': Mem, pc': Pc, e: Effect) {
    match pc
    case Taking =>
      && m' == m.(outlet := Take(m.outlet).0, takes := m.takes + if Take(m.outlet).1 then 1 else 0)
      && pc' == Idle && e == Release(StdoutLock)
    case OpeningRead(n) => m' == m.(outlet := OpenForRead(m.outlet)) && pc' == Reading(n) && e == Keep
    case Reading(n) =>
      && pc' == Idle && e == Release(StdoutLock)
      && if m.outlet.state.Cached? then ((n == 0 || AtEof(m)) && m' == m) || exists k: nat :: ReadSome(m, n, k, m')
         else m' == m
    case _ => false
  }

  ghost predicate ReadSome(m: Mem, n: nat, k: nat, m': Mem) {
    && Readable(m, n, k)
    && m' == m.(pos := m.pos + k, delivered := m.delivered + m.produced[m.pos..m.pos + k])
  }

  /** One action of a thread inside a method. */
  ghost predicate Act(m: Mem, pc: Pc, m': Mem, pc': Pc, e: Effect) {
    || LockAct(m, pc, m', pc', e) || CallAct(m, pc, m', pc', e) || CacheAct(m, pc, m', pc', e)
    || JoinAct(m, pc, m', pc', e) || DrainAct(m, pc, m', pc', e) || OutletAct(m, pc, m', pc', e)
  }

  /** A thread enters a method. `read(&mut [])` is `WantRead(0)`. */
  predicate Entry(pc: Pc) { (pc.Polling? && pc.statuses == []) || pc.WantTake? || pc.WantRead? }

  /** An OS call made by a thread fails. A failed read of the pipe takes no bytes from it. */
  ghost predicate ErrorAct(m: Mem, pc: Pc, m': Mem, pc': Pc, e: Effect) {
    match pc
    case Polling(_, statuses) => |statuses| < |m.exits| && m' == m && pc' == Idle && e == Keep
    case Reading(_) => m.outlet.state.Cached? && m' == m && pc' == Idle && e == Release(StdoutLock)
    case Draining(statuses, err, buf) =>
      m' == m.(drainFailed := true) && pc' == Storing(statuses, err, buf) && e == Release(StdoutLock)
    case _ => false
  }

  // ---- Interleaving ----

  predicate Allowed(owner: map<Lock, nat>, t: nat, e: Effect) { e.Acquire? ==> e.lock !in owner }

  function After(owner: map<Lock, nat>, t: nat, e: Effect): map<Lock, nat> {
    match e
    case Keep => owner
    case Acquire(l) => owner[l := t]
    case Release(l) => owner - {l}
  }

  function Moved(s: State, t: nat, m': Mem, pc': Pc, e: Effect): State
    requires t < |s.threads|
  {
    State(s.threads[t := pc'], After(s.owner, t, e), m')
  }

  ghost predicate Step(s: State, t: nat, s': State) {
    t < |s.threads| && exists m', pc', e ::
      Act(s.mem, s.threads[t], m', pc', e) && Allowed(s.owner, t, e) && s' == Moved(s, t, m', pc', e)
  }

  ghost predicate OsError(s: State, t: nat, s': State) {
    t < |s.threads| && exists m', pc', e ::
      ErrorAct(s.mem, s.threads[t], m', pc', e) && s' == Moved(s, t, m', pc', e)
  }

  ghost predicate Start(s: State, t: nat, s': State) {
    t < |s.threads| && s.threads[t].Idle? && exists pc' :: Entry(pc') && s' == Moved(s, t, s.mem, pc', Keep)
  }

  /** The children and their pipes move on by themselves; an exit status never changes. */
  ghost predicate World(m: Mem, m': Mem) {
    || (exists i: nat, st: ExitStatus ::
          i < |m.exits| && m.exits[i].None? && m' == m.(exits := m.exits[i := Some(st)]))
    || (exists b: seq<Byte> :: !m.eof && m' == m.(produced := m.produced + b))
    || m' == m.(eof := true)
    || (exists r: nat :: m' == m.(readersDone := m.readersDone + {r}))
  }

  ghost predicate Environment(s: State, s': State) {
    s' == s.(mem := s'.mem) && World(s.mem, s'.mem)
  }

  ghost predicate Init(s: State, cfg: Config) {
    && cfg.children > 0 && s.owner == map[]
    && (forall t :: 0 <= t < |s.threads| ==> s.threads[t].Idle?)
    && s.mem == Mem(cfg, seq(cfg.children, i => None), [], false, {}, Outlet(NotTaken, cfg.hasPipe),
                    cfg.stderr, None, 0, [], None, false, 0, 0, [])
  }

  ghost predicate Next(s: State, s': State) {
    || Environment(s, s')
    || exists t: nat :: Start(s, t, s') || Step(s, t, s') || OsError(s, t, s')
  }

  ghost predicate Run(run: seq<State>, cfg: Config) {
    && run != [] && Init(run[0], cfg)
    && forall i, j :: 0 <= i < |run| && 0 <= j < |run| && j == i + 1 ==> Next(run[i], run[j])
  }

  // ---- The invariant ----

  predicate Holds(pc: Pc, l: Lock) {
    match l
    case FinalizedLock => pc.CheckCache? || pc.WantStderr? || Collecting(pc) || pc.Releasing?
    case StderrLock => pc.Joining?
    case StdoutLock => pc.OpeningDrain? || pc.Draining? || pc.Taking? || pc.OpeningRead? || pc.Reading?
  }

  /** Between locking `finalized` on an empty cache and filling it, past the stderr threads. */
  predicate HasStderr(pc: Pc) { pc.WantStdout? || pc.OpeningDrain? || pc.Draining? || pc.Storing? }

  predicate Collecting(pc: Pc) { pc.Joining? || HasStderr(pc) }

  predicate HasStatuses(pc: Pc) { pc.WantFinalized? || pc.CheckCache? || pc.WantStderr? || Collecting(pc) }

  /** `statuses` are the exit statuses of the first children. */
  ghost predicate StatusesOk(m: Mem, statuses: seq<ExitStatus>) {
    && |statuses| <= |m.exits|
    && forall k :: 0 <= k < |statuses| ==> m.exits[k] == Some(statuses[k])
  }

  ghost predicate AllStatuses(m: Mem, statuses: seq<ExitStatus>) {
    StatusesOk(m, statuses) && |statuses| == |m.exits|
  }

  /** No thread has begun to finalize. */
  predicate Untouched(m: Mem) {
    m.finalized.None? && m.drained.None? && m.readers == m.cfg.stderr
  }

  /** Where the rightmost child's output has gone. */
  predicate StdoutOk(m: Mem) {
    && m.pos <= |m.produced| && m.takes <= 1
    && (m.outlet.pipe ==> m.cfg.hasPipe && m.outlet.state.NotTaken?)
    && match m.outlet.state
       case NotTaken =>
         m.outlet.pipe == m.cfg.hasPipe && m.pos == 0 && m.delivered == [] && m.takes == 0 && m.drained.None?
       case Cached =>
         m.cfg.hasPipe && m.takes == 0 && m.delivered == m.produced[..m.pos] && m.drained.None?
       case GivenAway =>
         if m.takes == 1 || !m.cfg.hasPipe then
           && m.pos == 0 && m.delivered == [] && (m.drained.Some? ==> m.drained.value == [])
           && (m.takes == 1 ==> m.cfg.hasPipe)
         else m.drained.Some? && m.delivered + m.drained.value == m.produced[..m.pos]
  }

  /** The finalizing thread has everything it could ever get from the pipe. */
  predicate DrainComplete(m: Mem) { m.cfg.hasPipe && m.takes == 0 && !m.drainFailed ==> AtEof(m) }

  ghost predicate CacheOk(m: Mem) {
    && m.stores == (if m.finalized.Some? then 1 else 0)
    && (m.finalized.Some? ==>
          && AllStatuses(m, m.finalized.value.statuses)
          && m.drained == Some(m.finalized.value.stdout)
          && m.finalized.value.stderr == Joined(m.cfg.stderr)
          && m.readers == [] && DrainComplete(m))
    && (forall f :: f in m.returned ==> m.finalized == Some(f))
  }

  ghost predicate MemOk(m: Mem) {
    && m.cfg.children == |m.exits| > 0
    && StdoutOk(m) && CacheOk(m) && (m.drainFailed ==> m.drained.Some?)
  }

  ghost predicate PcOk(m: Mem, pc: Pc) {
    && (pc.Polling? ==> StatusesOk(m, pc.statuses))
    && (HasStatuses(pc) ==> AllStatuses(m, pc.statuses))
    && (pc.WantStderr? || (pc.CheckCache? && m.finalized.None?) ==> Untouched(m))
    && (Collecting(pc) ==> m.finalized.None?)
    && (pc.Joining? ==> m.drained.None? && pc.err + Joined(m.readers) == Joined(m.cfg.stderr))
    && (HasStderr(pc) ==> m.readers == [] && pc.err == Joined(m.cfg.stderr))
    && (pc.WantStdout? || pc.OpeningDrain? ==> m.drained.None?)
    && (pc.Draining? ==> m.drained == Some(pc.buf) && m.cfg.hasPipe && m.takes == 0)
    && (pc.Storing? ==> m.drained == Some(pc.buf) && DrainComplete(m))
    && (pc.Releasing? || pc.Returning? ==> m.finalized == Some(pc.result))
    && (pc.Reading? ==> !m.outlet.state.NotTaken?)
  }

  predicate Owns(owner: map<Lock, nat>, t: nat, l: Lock) { l in owner && owner[l] == t }

  /** A thread owns exactly the mutexes its place in the code says it holds. */
  predicate LocksOk(owner: map<Lock, nat>, t: nat, pc: Pc) {
    && (Holds(pc, FinalizedLock) <==> Owns(owner, t, FinalizedLock))
    && (Holds(pc, StderrLock) <==> Owns(owner, t, StderrLock))
    && (Holds(pc, StdoutLock) <==> Owns(owner, t, StdoutLock))
  }

  ghost predicate Inv(s: State) {
    && MemOk(s.mem)
    && (forall l :: l in s.owner ==> s.owner[l] < |s.threads|)
    && (FinalizedLock !in s.owner && s.mem.finalized.None? ==> Untouched(s.mem))
    && forall t :: 0 <= t < |s.threads| ==> LocksOk(s.owner, t, s.threads[t]) && PcOk(s.mem, s.threads[t])
  }

  // ---- Every action keeps the invariant ----

  predicate Disjoint(a: Pc, b: Pc) {
    && !(Holds(a, FinalizedLock) && Holds(b, FinalizedLock))
    && !(Holds(a, StderrLock) && Holds(b, StderrLock))
    && !(Holds(a, StdoutLock) && Holds(b, StdoutLock))
  }

  /** What an action guarantees about the mutexes and about the cache being left unstarted. */
  ghost predicate EffectOk(m: Mem, pc: Pc, m': Mem, pc': Pc, e: Effect) {
    && (forall l :: Holds(pc', l) <==> (Holds(pc, l) && e != Release(l)) || e == Acquire(l))
    && (e.Acquire? ==> !Holds(pc, e.lock)) && (e.Release? ==> Holds(pc, e.lock))
    && (!Holds(pc', FinalizedLock) && m'.finalized.None?
        ==> !Holds(pc, FinalizedLock) && m.finalized.None? && (Untouched(m) ==> Untouched(m')))
  }

  lemma LockActKeeps(m: Mem, pc: Pc, m': Mem, pc': Pc, e: Effect)
    requires MemOk(m) && PcOk(m, pc) && LockAct(m, pc, m', pc', e)
    requires e == Acquire(FinalizedLock) && m.finalized.None? ==> Untouched(m)
    ensures MemOk(m') && PcOk(m', pc') && EffectOk(m, pc, m', pc', e)
  {
  }

  lemma CallActKeeps(m: Mem, pc: Pc, m': Mem, pc': Pc, e: Effect)
    requires MemOk(m) && PcOk(m, pc) && CallAct(m, pc, m', pc', e)
    ensures MemOk(m') && PcOk(m', pc') && EffectOk(m, pc, m', pc', e)
  {
  }

  lemma CacheActKeeps(m: Mem, pc: Pc, m': Mem, pc': Pc, e: Effect)
    requires MemOk(m) && PcOk(m, pc) && CacheAct(m, pc, m', pc', e)
    ensures MemOk(m') && PcOk(m', pc') && EffectOk(m, pc, m', pc', e)
  {
  }

  lemma JoinActKeeps(m: Mem, pc: Pc, m': Mem, pc': Pc, e: Effect)
    requires MemOk(m) && PcOk(m, pc) && JoinAct(m, pc, m', pc', e)
    ensures MemOk(m') && PcOk(m', pc') && EffectOk(m, pc, m', pc', e)
  {
    if m.readers != [] {
      var bytes, rest := m.readers[0].Bytes(), Joined(m.readers[1..]);
      assert (pc.err + bytes) + rest == pc.err + (bytes + rest);
    }
  }

  lemma DrainActKeeps(m: Mem, pc: Pc, m': Mem, pc': Pc, e: Effect)
    requires MemOk(m) && PcOk(m, pc) && DrainAct(m, pc, m', pc', e)
    ensures MemOk(m') && PcOk(m', pc') && EffectOk(m, pc, m', pc', e)
  {
  }

  lemma OutletActKeeps(m: Mem, pc: Pc, m': Mem, pc': Pc, e: Effect)
    requires MemOk(m) && PcOk(m, pc) && OutletAct(m, pc, m', pc', e)
    ensures MemOk(m') && PcOk(m', pc') && EffectOk(m, pc, m', pc', e)
  {
  }

  lemma ErrorActKeeps(m: Mem, pc: Pc, m': Mem, pc': Pc, e: Effect)
    requires MemOk(m) && PcOk(m, pc) && ErrorAct(m, pc, m', pc', e)
    ensures MemOk(m') && PcOk(m', pc') && EffectOk(m, pc, m', pc', e)
  {
  }

  lemma FinalizeKeepsOther(m: Mem, pc: Pc, m': Mem, pc': Pc, e: Effect, other: Pc)
    requires MemOk(m) && PcOk(m, pc) && PcOk(m, other) && Disjoint(pc, other)
    requires CacheAct(m, pc, m', pc', e) || JoinAct(m, pc, m', pc', e)
    ensures PcOk(m', other)
  {
  }

  lemma DrainKeepsOther(m: Mem, pc: Pc, m': Mem, pc': Pc, e: Effect, other: Pc)
    requires MemOk(m) && PcOk(m, pc) && PcOk(m, other) && Disjoint(pc, other)
    requires DrainAct(m, pc, m', pc', e) || ErrorAct(m, pc, m', pc', e)
    ensures PcOk(m', other)
  {
  }

  lemma ReadKeepsOther(m: Mem, pc: Pc, m': Mem, pc': Pc, e: Effect, other: Pc)
    requires MemOk(m) && PcOk(m, pc) && PcOk(m, other) && Disjoint(pc, other)
    requires OutletAct(m, pc, m', pc', e) || CallAct(m, pc, m', pc', e)
    ensures PcOk(m', other)
  {
  }

  /** The effect of an action on the map of owners is the effect on what its thread holds. */
  lemma OwnersFollow(s: State, t: nat, m': Mem, pc': Pc, e: Effect, u: nat)
    requires Inv(s) && t < |s.threads| && u < |s.threads|
    requires EffectOk(s.mem, s.threads[t], m', pc', e) && Allowed(s.owner, t, e)
    ensures LocksOk(After(s.owner, t, e), u, if u == t then pc' else s.threads[u])
  {
    hide MemOk, PcOk, Untouched;
    assert LocksOk(s.owner, t, s.threads[t]) && LocksOk(s.owner, u, s.threads[u]);
  }

  lemma AnyActKeeps(m: Mem, pc: Pc, m': Mem, pc': Pc, e: Effect)
    requires MemOk(m) && PcOk(m, pc) && (Act(m, pc, m', pc', e) || ErrorAct(m, pc, m', pc', e))
    requires e == Acquire(FinalizedLock) && m.finalized.None? ==> Untouched(m)
    ensures MemOk(m') && PcOk(m', pc') && EffectOk(m, pc, m', pc', e)
  {
    if LockAct(m, pc, m', pc', e) { LockActKeeps(m, pc, m', pc', e); }
    else if CallAct(m, pc, m', pc', e) { CallActKeeps(m, pc, m', pc', e); }
    else if CacheAct(m, pc, m', pc', e) { CacheActKeeps(m, pc, m', pc', e); }
    else if JoinAct(m, pc, m', pc', e) { JoinActKeeps(m, pc, m', pc', e); }
    else if DrainAct(m, pc, m', pc', e) { DrainActKeeps(m, pc, m', pc', e); }
    else if OutletAct(m, pc, m', pc', e) { OutletActKeeps(m, pc, m', pc', e); }
    else { ErrorActKeeps(m, pc, m', pc', e); }
  }

  lemma ActKeeps(s: State, t: nat, m': Mem, pc': Pc, e: Effect)
    requires Inv(s) && t < |s.threads| && Allowed(s.owner, t, e)
    requires Act(s.mem, s.threads[t], m', pc', e) || ErrorAct(s.mem, s.threads[t], m', pc', e)
    ensures Inv(Moved(s, t, m', pc', e))
  {
    hide Act, ErrorAct, MemOk, PcOk, LocksOk, Untouched, EffectOk;
    AnyActKeeps(s.mem, s.threads[t], m', pc', e);
    forall u | 0 <= u < |s.threads|
      ensures PcOk(m', if u == t then pc' else s.threads[u])
      ensures LocksOk(After(s.owner, t, e), u, if u == t then pc' else s.threads[u])
    {
      OwnersFollow(s, t, m', pc', e, u);
      if u != t { ActKeepsOther(s, t, m', pc', e, u); }
    }
    OwnerInRange(s, t, m', pc', e);
  }

  lemma OwnerInRange(s: State, t: nat, m': Mem, pc': Pc, e: Effect)
    requires Inv(s) && t < |s.threads| && Allowed(s.owner, t, e)
    requires EffectOk(s.mem, s.threads[t], m', pc', e)
    ensures forall l :: l in After(s.owner, t, e) ==> After(s.owner, t, e)[l] < |s.threads|
    ensures FinalizedLock !in After(s.owner, t, e) && m'.finalized.None? ==> Untouched(m')
  {
    assert LocksOk(s.owner, t, s.threads[t]);
    OwnersFollow(s, t, m', pc', e, t);
  }

  lemma ActKeepsOther(s: State, t: nat, m': Mem, pc': Pc, e: Effect, u: nat)
    requires Inv(s) && t < |s.threads| && u < |s.threads| && u != t
    requires Act(s.mem, s.threads[t], m', pc', e) || ErrorAct(s.mem, s.threads[t], m', pc', e)
    ensures PcOk(m', s.threads[u])
  {
    var m, pc, other := s.mem, s.threads[t], s.threads[u];
    assert LocksOk(s.owner, t, pc) && LocksOk(s.owner, u, other);
    if CacheAct(m, pc, m', pc', e) || JoinAct(m, pc, m', pc', e) {
      FinalizeKeepsOther(m, pc, m', pc', e, other);
    } else if DrainAct(m, pc, m', pc', e) || ErrorAct(m, pc, m', pc', e) {
      DrainKeepsOther(m, pc, m', pc', e, other);
    } else if OutletAct(m, pc, m', pc', e) || CallAct(m, pc, m', pc', e) {
      ReadKeepsOther(m, pc, m', pc', e, other);
    }
  }

  lemma WorldKeeps(m: Mem, m': Mem)
    requires MemOk(m) && World(m, m')
    ensures MemOk(m') && (Untouched(m) ==> Untouched(m')) && m'.finalized == m.finalized
  {
    assert m.produced[..m.pos] == m'.produced[..m.pos];
  }

  lemma WorldKeepsPc(m: Mem, m': Mem, pc: Pc)
    requires MemOk(m) && World(m, m') && PcOk(m, pc)
    ensures PcOk(m', pc)
  {
  }

  lemma EnvironmentKeeps(s: State, s': State)
    requires Inv(s) && Environment(s, s')
    ensures Inv(s')
  {
    WorldKeeps(s.mem, s'.mem);
    forall t | 0 <= t < |s.threads| ensures PcOk(s'.mem, s.threads[t]) {
      WorldKeepsPc(s.mem, s'.mem, s.threads[t]);
    }
  }

  lemma StartKeeps(s: State, t: nat, s': State)
    requires Inv(s) && Start(s, t, s')
    ensures Inv(s')
  {
    assert LocksOk(s.owner, t, s.threads[t]);
  }

  lemma StepKeeps(s: State, t: nat, s': State)
    requires Inv(s) && (Step(s, t, s') || OsError(s, t, s'))
    ensures Inv(s')
  {
    var m', pc', e :| (Act(s.mem, s.threads[t], m', pc', e) || ErrorAct(s.mem, s.threads[t], m', pc', e))
                      && Allowed(s.owner, t, e) && s' == Moved(s, t, m', pc', e);
    ActKeeps(s, t, m', pc', e);
  }

  lemma NextKeeps(s: State, s': State)
    requires Inv(s) && Next(s, s')
    ensures Inv(s')
  {
    if Environment(s, s') {
      EnvironmentKeeps(s, s');
    } else {
      var t: nat :| Start(s, t, s') || Step(s, t, s') || OsError(s, t, s');
      if Start(s, t, s') { StartKeeps(s, t, s'); } else { StepKeeps(s, t, s'); }
    }
  }

  lemma {:induction false} RunKeeps(run: seq<State>, cfg: Config)
    requires Run(run, cfg)
    ensures Inv(run[|run| - 1]) && run[|run| - 1].mem.cfg == cfg
  {
    if |run| > 1 {
      var init := run[..|run| - 1];
      RunKeeps(init, cfg);
      NextKeeps(init[|init| - 1], run[|run| - 1]);
      NextKeepsConfig(init[|init| - 1], run[|run| - 1]);
    }
  }

  lemma NextKeepsConfig(s: State, s': State)
    requires Next(s, s')
    ensures s'.mem.cfg == s.mem.cfg && |s'.threads| == |s.threads|
  {
  }
}
