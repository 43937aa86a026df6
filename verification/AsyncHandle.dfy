/** `AsyncSpawnedProcess`: one owner, so no interleaving, but any `wait` future may be dropped at
    one of its awaits, as `wait_timeout` does when its time is up, and an await may fail. */
module AsyncHandle {
  import opened Types
  import opened Handle

  /** The handle once its children have exited. `caller` is what `take_stdout` gave away. */
  datatype View = View(
    statuses: seq<ExitStatus>, tasks: seq<StderrThread>, stdout: Option<seq<Byte>>,
    caller: seq<Byte>, finalized: Option<Finalized>)

  /** What may go wrong in `wait`, if it gets that far: the future is dropped while it awaits a
      child's exit, a stderr task or the rest of stdout; waiting for a child fails; or reading
      stdout fails after some bytes. */
  datatype Upset =
    | ChildExit(child: nat)
    | StderrTask(task: nat)
    | StdoutEnd
    | ChildError(child: nat)
    | ReadError(bytes: nat)

  /** A call on the handle. */
  datatype Call = Wait(upset: Option<Upset>) | TakeStdout

  /** The child whose exit the call does not get past. */
  function StopsAt(upset: Option<Upset>): Option<nat> {
    match upset
    case Some(ChildExit(i)) => Some(i)
    case Some(ChildError(i)) => Some(i)
    case _ => None
  }

  /** What reading a pipe to its end yields. */
  function ReadToEnd(pipe: Option<seq<Byte>>, upset: Option<Upset>): seq<Byte> {
    match upset
    case Some(ReadError(k)) => Bytes(pipe)[..Min(k, |Bytes(pipe)|)]
    case _ => Bytes(pipe)
  }

  function Bytes(o: Option<seq<Byte>>): seq<Byte> { if o.Some? then o.value else [] }

  /** The state after a call: only a drop inside `finalize` changes anything without finishing. */
  function Apply(v: View, c: Call): View {
    match c
    case TakeStdout => v.(stdout := None, caller := v.caller + Bytes(v.stdout))
    case Wait(upset) =>
      if v.finalized.Some? then v
      else if StopsAt(upset).Some? && StopsAt(upset).value < |v.statuses| then v
      else if upset.Some? && upset.value.StderrTask? && upset.value.task < |v.tasks| then v.(tasks := [])
      else if upset == Some(StdoutEnd) && v.stdout.Some? then v.(tasks := [], stdout := None)
      else v.(tasks := [], stdout := None,
              finalized := Some(Finalized(v.statuses, ReadToEnd(v.stdout, upset), Joined(v.tasks))))
  }

  function ApplyAll(v: View, calls: seq<Call>): View
    decreases |calls|
  {
    if calls == [] then v else ApplyAll(Apply(v, calls[0]), calls[1..])
  }

  class AsyncSpawnedProcess {
    const statuses: seq<ExitStatus>   // what each child's `wait` resolves to
    var stderrTasks: seq<StderrThread>
    var stdout: Option<seq<Byte>>     // the rightmost child's pipe, if it still has it
    var finalized: Option<Finalized>
    ghost var caller: seq<Byte>

    constructor (statuses: seq<ExitStatus>, stderrTasks: seq<StderrThread>, stdout: Option<seq<Byte>>)
      ensures Now() == View(statuses, stderrTasks, stdout, [], None)
    {
      this.statuses, this.stderrTasks, this.stdout := statuses, stderrTasks, stdout;
      finalized, caller := None, [];
    }

    ghost function Now(): View
      reads this
    {
      View(statuses, stderrTasks, stdout, caller, finalized)
    }

    method TakeStdout() returns (pipe: Option<seq<Byte>>)
      modifies this
      ensures pipe == old(stdout) && stdout.None? && caller == old(caller) + Bytes(pipe)
      ensures stderrTasks == old(stderrTasks) && finalized == old(finalized)
      ensures Now() == Apply(old(Now()), Call.TakeStdout)
    {
      pipe := stdout;
      stdout := None;
      caller := caller + Bytes(pipe);
    }

    /** `None` when the future was dropped at one of the tasks. */
    method DrainStderrTasks(upset: Option<Upset>) returns (err: Option<seq<Byte>>)
      modifies this`stderrTasks
      ensures stderrTasks == []
      ensures err.None? <==> upset.Some? && upset.value.StderrTask? && upset.value.task < |old(stderrTasks)|
      ensures err.Some? ==> InOrder(old(stderrTasks), err.value) && err.value == Joined(old(stderrTasks))
    {
      hide InOrder, Joined;
      // `drain(..)` empties the vector however the loop is left
      var tasks := stderrTasks;
      stderrTasks := [];
      var out: seq<Byte> := [];
      NoThreads();
      for i := 0 to |tasks|
        invariant stderrTasks == [] && InOrder(tasks[..i], out)
        invariant upset.Some? && upset.value.StderrTask? ==> upset.value.task >= i
      {
        if upset == Some(StderrTask(i)) { return None; }
        OneMoreThread(tasks[..i], out, tasks[i]);
        assert tasks[..i + 1] == tasks[..i] + [tasks[i]];
        if tasks[i].result.Some? { out := out + tasks[i].result.value; } else { assert out + [] == out; }
      }
      assert tasks[..|tasks|] == tasks;
      InOrderIsJoined(tasks, out);
      err := Some(out);
    }

    /** `wait`; `None` when the future was dropped before it resolved. It resolves to an error
        exactly when waiting for a child failed, and then nothing has changed. */
    method Wait(upset: Option<Upset>) returns (r: Option<RunResult>)
      requires statuses != [] && (finalized.Some? ==> finalized.value.statuses != [])
      modifies this
      ensures caller == old(caller) && (old(finalized).Some? ==> Now() == old(Now()))
      ensures finalized.Some? ==>
                finalized.value.statuses != [] && r.Some? && Reported(r.value, finalized.value)
      ensures finalized.None? ==>
                r == if upset.Some? && upset.value.ChildError? && upset.value.child < |statuses| then Some(Err(Spawn))
                     else None
      ensures old(finalized).None? && finalized.Some? ==>
                && finalized.value.statuses == statuses && InOrder(old(stderrTasks), finalized.value.stderr)
                && finalized.value.stdout <= Bytes(old(stdout)) && stderrTasks == [] && stdout.None?
                && (upset.None? || !upset.value.ReadError? ==> finalized.value.stdout == Bytes(old(stdout)))
      ensures old(finalized).None? && upset.None? ==> finalized.Some?
      ensures Now() == Apply(old(Now()), Call.Wait(upset))
    {
      hide InOrder, Joined, Reported, Reconstruct;
      if finalized.Some? {
        ReconstructReports(finalized.value);
        return Some(Reconstruct(finalized.value));
      }
      var polled: seq<ExitStatus> := [];
      for i := 0 to |statuses|
        invariant polled == statuses[..i] && Now() == old(Now())
        invariant StopsAt(upset).Some? ==> StopsAt(upset).value >= i
      {
        if upset == Some(ChildExit(i)) { return None; }
        if upset == Some(ChildError(i)) { return Some(Err(Spawn)); }
        polled := polled + [statuses[i]];
      }
      assert polled == statuses;
      var err := DrainStderrTasks(upset);
      if err.None? { return None; }
      var pipe := stdout;
      stdout := None;
      if pipe.Some? && upset == Some(StdoutEnd) { return None; }
      finalized := Some(Finalized(polled, ReadToEnd(pipe, upset), err.value));
      ReconstructReports(finalized.value);
      r := Some(Reconstruct(finalized.value));
    }
  }

  // ---- When the outcome is complete ----

  /** The call drops the future while it holds output that only it could have returned, or is cut
      off in the middle of reading it. */
  predicate Loses(v: View, c: Call) {
    && c.Wait? && c.upset.Some? && v.finalized.None?
    && match c.upset.value
       case ChildExit(_) => false
       case ChildError(_) => false
       case StderrTask(i) => i < |v.tasks| && Joined(v.tasks) != []
       case StdoutEnd => v.stdout.Some? && (Joined(v.tasks) != [] || v.stdout.value != [])
       case ReadError(k) => k < |Bytes(v.stdout)|
  }

  predicate EverLoses(v: View, calls: seq<Call>)
    decreases |calls|
  {
    calls != [] && (Loses(v, calls[0]) || EverLoses(Apply(v, calls[0]), calls[1..]))
  }

  /** The cached outcome, with what the caller took, is everything `v` still had to give. */
  ghost predicate Complete(v: View, last: View) {
    && last.finalized.Some? && last.finalized.value.statuses == v.statuses
    && InOrder(v.tasks, last.finalized.value.stderr)
    && last.finalized.value.stdout + last.caller[Min(|v.caller|, |last.caller|)..] == Bytes(v.stdout)
  }

  lemma {:induction false} NeverMore(v: View, calls: seq<Call>)
    requires v.finalized.None?
    ensures var last := ApplyAll(v, calls);
            && v.caller <= last.caller && last.statuses == v.statuses
            && (last.finalized.Some? ==>
                  && last.finalized.value.statuses == v.statuses
                  && |last.finalized.value.stderr| <= |Joined(v.tasks)|
                  && |last.finalized.value.stdout| + |last.caller| <= |Bytes(v.stdout)| + |v.caller|)
    decreases |calls|
  {
    if calls != [] {
      var w := Apply(v, calls[0]);
      if w.finalized.None? { NeverMore(w, calls[1..]); } else { CacheStays(w, calls[1..]); }
    }
  }

  lemma {:induction false} CacheStays(v: View, calls: seq<Call>)
    requires v.finalized.Some? && v.stdout.None?
    ensures ApplyAll(v, calls).finalized == v.finalized && ApplyAll(v, calls).caller == v.caller
    ensures ApplyAll(v, calls).statuses == v.statuses
    decreases |calls|
  {
    if calls != [] { CacheStays(Apply(v, calls[0]), calls[1..]); }
  }

  /** Dropping a `wait` and waiting again is promised to give the same outcome. It does exactly
      when no future was dropped inside `finalize` while it held some output, and no read failed. */
  lemma {:induction false} OutcomeIsCompleteIff(v: View, calls: seq<Call>)
    requires v.finalized.None? && ApplyAll(v, calls).finalized.Some?
    ensures Complete(v, ApplyAll(v, calls)) <==> !EverLoses(v, calls)
    decreases |calls|
  {
    var c, rest := calls[0], calls[1..];
    var w := Apply(v, c);
    if w.finalized.Some? {
      CacheStays(w, rest);
      NothingLeftToLose(w, rest);
      CompleteOnceIff(v, c, ApplyAll(w, rest));
    } else {
      NeverMore(w, rest);
      OutcomeIsCompleteIff(w, rest);
      CompleteLaterIff(v, c, ApplyAll(w, rest));
    }
  }

  /** The call that fills the cache. */
  lemma CompleteOnceIff(v: View, c: Call, last: View)
    requires v.finalized.None? && Apply(v, c).finalized.Some?
    requires last.finalized == Apply(v, c).finalized && last.caller == v.caller
    ensures Complete(v, last) <==> !Loses(v, c)
  {
    InOrderIff(v.tasks, last.finalized.value.stderr);
    assert last.caller[|v.caller|..] == [];
    var out := last.finalized.value.stdout;
    assert out + [] == out;
  }

  /** A call before that one. */
  lemma CompleteLaterIff(v: View, c: Call, last: View)
    requires v.finalized.None? && Apply(v, c).finalized.None? && last.finalized.Some?
    requires Apply(v, c).caller <= last.caller
    requires |last.finalized.value.stderr| <= |Joined(Apply(v, c).tasks)|
    requires |last.finalized.value.stdout| + |last.caller| <= |Bytes(Apply(v, c).stdout)| + |Apply(v, c).caller|
    ensures Complete(v, last) <==> !Loses(v, c) && Complete(Apply(v, c), last)
  {
    InOrderIff(v.tasks, last.finalized.value.stderr);
    InOrderIff(Apply(v, c).tasks, last.finalized.value.stderr);
    if c.TakeStdout? {
      var w := Apply(v, c);
      assert last.caller[..|w.caller|] == w.caller;
      assert last.caller[|v.caller|..] == Bytes(v.stdout) + last.caller[|w.caller|..];
    }
  }

  lemma {:induction false} NothingLeftToLose(v: View, calls: seq<Call>)
    requires v.finalized.Some?
    ensures !EverLoses(v, calls)
    decreases |calls|
  {
    if calls != [] { NothingLeftToLose(Apply(v, calls[0]), calls[1..]); }
  }

  /** A call that times out while a stderr task is still reading leaves nothing of it for the next. */
  lemma TimedOutWaitLosesStderr()
    ensures var v := View([ExitStatus(0)], [StderrThread(0, Some([7]))], Some([1]), [], None);
            var last := ApplyAll(v, [Wait(Some(StderrTask(0))), Wait(None)]);
            last.finalized == Some(Finalized([ExitStatus(0)], [1], []))
  {
    var v := View([ExitStatus(0)], [StderrThread(0, Some([7]))], Some([1]), [], None);
    var w := Apply(v, Wait(Some(StderrTask(0))));
    assert ApplyAll(w, [Wait(None)]) == Apply(w, Wait(None));
  }
}
