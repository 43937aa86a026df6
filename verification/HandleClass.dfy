/** The methods of `SpawnedProcess`, each as it runs while it holds its mutex. */
module HandleClass {
  import opened Types
  import opened Handle
  import Outcomes

  /** The read end of a child's stdout: the bytes still to come before the end of the file. Reading
      a `sound` one never fails. */
  class Pipe {
    var rest: seq<Byte>
    ghost const sound: bool

    constructor (output: seq<Byte>, ghost sound: bool)
      ensures rest == output && this.sound == sound
    {
      rest, this.sound := output, sound;
    }

    /** One `read`; `None` is an I/O error, which takes no bytes. */
    method ReadSome(n: nat) returns (bytes: Option<seq<Byte>>)
      modifies this
      ensures bytes.None? ==> !sound && rest == old(rest)
      ensures bytes.Some? ==> |bytes.value| <= n && bytes.value + rest == old(rest)
      ensures bytes.Some? && bytes.value == [] ==> n == 0 || rest == []
    {
      var k: nat :| k <= n && k <= |rest| && (k == 0 ==> n == 0 || rest == []);
      bytes, rest := Some(rest[..k]), rest[k..];
    }

    /** `read_to_end`, which an I/O error may stop early; what it had read by then is kept. */
    method ReadToEnd() returns (buf: seq<Byte>)
      modifies this
      ensures buf + rest == old(rest) && (sound ==> rest == [])
    {
      buf, rest := rest, [];
    }
  }

  /** What polling a child once can say. */
  datatype Polled = Exited(status: ExitStatus) | Running | Failed

  datatype StdoutSlot = NotTaken | Cached(pipe: Pipe) | GivenAway

  class SpawnedProcess {
    var exits: seq<Option<ExitStatus>>    // what the OS reports of each child
    ghost const polls: bool               // polling a child does not fail
    var childStdout: Pipe?                // still inside the rightmost `SharedChild`
    var stdout: StdoutSlot
    var stderrThreads: seq<StderrThread>
    var finalized: Option<Finalized>

    constructor (exits: seq<Option<ExitStatus>>, ghost polls: bool, childStdout: Pipe?,
                 stderrThreads: seq<StderrThread>)
      ensures this.exits == exits && this.polls == polls
      ensures this.childStdout == childStdout && this.stderrThreads == stderrThreads
      ensures stdout == StdoutSlot.NotTaken && finalized.None?
    {
      this.exits, this.polls, this.childStdout, this.stderrThreads := exits, polls, childStdout, stderrThreads;
      stdout, finalized := StdoutSlot.NotTaken, None;
    }

    function View(): Outlet
      reads this
    {
      Outlet(match stdout case NotTaken => Handle.NotTaken case Cached(_) => Handle.Cached
                          case GivenAway => Handle.GivenAway,
             childStdout != null)
    }

    /** The bytes this handle could still read. */
    function Pending(): seq<Byte>
      reads this, if childStdout == null then {} else {childStdout},
            if stdout.Cached? then {stdout.pipe} else {}
    {
      if stdout.Cached? then stdout.pipe.rest
      else if stdout.NotTaken? && childStdout != null then childStdout.rest
      else []
    }

    /** Reading what is pending cannot fail. */
    ghost predicate PendingIsSound()
      reads this
    {
      && (stdout.Cached? ==> stdout.pipe.sound)
      && (stdout.NotTaken? && childStdout != null ==> childStdout.sound)
    }

    /** The first call gets the pipe, if the child has one and no read came before. */
    method TakeStdout() returns (pipe: Pipe?)
      modifies this`stdout, this`childStdout
      ensures old(stdout).NotTaken? ==> pipe == old(childStdout) && stdout.GivenAway? && childStdout == null
      ensures !old(stdout).NotTaken? ==> pipe == null && unchanged(this)
      ensures pipe != null ==> Pending() == []
      ensures View() == Take(old(View())).0 && (pipe != null <==> Take(old(View())).1)
    {
      if stdout.NotTaken? {
        stdout := StdoutSlot.GivenAway;
        pipe := childStdout;
        childStdout := null;
      } else {
        pipe := null;
      }
    }

    /** A read returns at least one byte unless the pipe is at its end, nothing was asked for, or it
        fails, which only a pipe can. */
    method Read(n: nat) returns (bytes: Option<seq<Byte>>)
      modifies this`stdout, this`childStdout, if childStdout == null then {} else {childStdout},
               if stdout.Cached? then {stdout.pipe} else {}
      ensures old(stdout).NotTaken? ==>
                && childStdout == null
                && stdout == if old(childStdout) == null then StdoutSlot.GivenAway
                             else StdoutSlot.Cached(old(childStdout))
      ensures !old(stdout).NotTaken? ==> stdout == old(stdout) && childStdout == old(childStdout)
      ensures View() == OpenForRead(old(View()))
      ensures bytes.None? ==> stdout.Cached? && !stdout.pipe.sound && Pending() == old(Pending())
      ensures bytes.Some? ==> |bytes.value| <= n && bytes.value + Pending() == old(Pending())
      ensures bytes.Some? && bytes.value == [] ==> n == 0 || Pending() == []
    {
      if stdout.NotTaken? {
        if childStdout != null {
          stdout := StdoutSlot.Cached(childStdout);
          childStdout := null;
        } else {
          stdout := StdoutSlot.GivenAway;
        }
      }
      bytes := Some([]);
      if stdout.Cached? {
        bytes := stdout.pipe.ReadSome(n);
      }
    }

    method JoinStderrThreads() returns (out: seq<Byte>)
      modifies this`stderrThreads
      ensures stderrThreads == [] && InOrder(old(stderrThreads), out)
      ensures out == Joined(old(stderrThreads))
    {
      hide InOrder, Joined;
      out := [];
      NoThreads();
      ghost var done: seq<StderrThread> := [];
      while stderrThreads != []
        invariant done + stderrThreads == old(stderrThreads) && InOrder(done, out)
        decreases |stderrThreads|
      {
        var t := stderrThreads[0];
        OneMoreThread(done, out, t);
        ghost var before := done + stderrThreads;
        stderrThreads := stderrThreads[1..];
        done := done + [t];
        assert done + stderrThreads == before;
        if t.result.Some? {
          out := out + t.result.value;
        } else {
          assert out + [] == out;
        }
      }
      assert done == done + stderrThreads;
      InOrderIsJoined(done, out);
    }

    /** Everything the handle could still read, or as much as came before an I/O error. */
    method DrainRemainingStdout() returns (buf: seq<Byte>)
      modifies this`stdout, this`childStdout, if childStdout == null then {} else {childStdout},
               if stdout.Cached? then {stdout.pipe} else {}
      ensures stdout.GivenAway? && childStdout == if old(stdout).NotTaken? then null else old(childStdout)
      ensures View() == OpenForDrain(old(View())).0
      ensures buf <= old(Pending()) && Pending() == []
      ensures old(PendingIsSound()) ==> buf == old(Pending())
      ensures !OpenForDrain(old(View())).1 ==> buf == []
    {
      var was := stdout;
      stdout := StdoutSlot.GivenAway;
      var pipe: Pipe?;
      match was {
        case NotTaken =>
          pipe := childStdout;
          childStdout := null;
          if pipe == null { return []; }
        case Cached(p) => pipe := p;
        case GivenAway => return [];
      }
      buf := pipe.ReadToEnd();
    }

    /** The first call fills the cache; every call returns what the cache says. */
    method FinalizeOrCached(statuses: seq<ExitStatus>) returns (r: RunResult)
      requires statuses != [] && (finalized.Some? ==> finalized.value.statuses != [])
      modifies this`stdout, this`childStdout, this`stderrThreads, this`finalized,
               if childStdout == null then {} else {childStdout},
               if stdout.Cached? then {stdout.pipe} else {}
      ensures old(finalized).Some? ==> unchanged(this)
      ensures finalized.Some? && finalized.value.statuses != []
      ensures old(finalized).None? ==>
                && Pending() == [] && stderrThreads == []
                && Collected(finalized.value, statuses, old(Pending()), old(stderrThreads), old(PendingIsSound()))
      ensures Reported(r, finalized.value) && r == Reconstruct(finalized.value)
    {
      hide InOrder, Reported, Reconstruct, Joined;
      if finalized.None? {
        var err := JoinStderrThreads();
        var out := DrainRemainingStdout();
        finalized := Some(Finalized(statuses, out, err));
      }
      ReconstructReports(finalized.value);
      r := Reconstruct(finalized.value);
    }

    /** One poll of child `i`, which the OS may fail. */
    method Poll(i: nat) returns (p: Polled)
      requires i < |exits|
      ensures match p
              case Exited(status) => exits[i] == Some(status)
              case Running => exits[i].None?
              case Failed => !polls
    {
      p := if exits[i].Some? then Exited(exits[i].value) else Running;
    }

    /** `Ok(None)` at the first child still running, an error at the first whose poll fails, and
        neither changes anything; otherwise the outcome of all that the OS reports. */
    method TryWait() returns (r: Option<RunResult>)
      requires exits != [] && (finalized.Some? ==> finalized.value.statuses != [])
      modifies this`stdout, this`childStdout, this`stderrThreads, this`finalized,
               if childStdout == null then {} else {childStdout},
               if stdout.Cached? then {stdout.pipe} else {}
      ensures r.None? || r == Some(Err(Spawn)) ==> unchanged(this) && Pending() == old(Pending())
      ensures r.None? ==> exists i :: 0 <= i < |exits| && exits[i].None?
      ensures r == Some(Err(Spawn)) ==> !polls
      ensures r.Some? && r != Some(Err(Spawn)) ==>
                && finalized.Some? && finalized.value.statuses != [] && Reported(r.value, finalized.value)
                && (old(finalized).Some? ==> finalized == old(finalized))
                && (forall i :: 0 <= i < |exits| ==> exits[i].Some?)
                && (old(finalized).None? ==>
                      && AllExited(exits, finalized.value.statuses)
                      && Collected(finalized.value, finalized.value.statuses, old(Pending()), old(stderrThreads),
                                   old(PendingIsSound())))
    {
      var statuses: seq<ExitStatus> := [];
      for i := 0 to |exits|
        invariant |statuses| == i && unchanged(this) && Pending() == old(Pending())
        invariant forall k :: 0 <= k < i ==> exits[k] == Some(statuses[k])
      {
        var p := Poll(i);
        match p
        case Exited(status) => statuses := statuses + [status];
        case Running => return None;
        case Failed => return Some(Err(Spawn));
      }
      var out := FinalizeOrCached(statuses);
      r := Some(out);
    }
  }

  /** The cache holds all that was left: `pending` in full unless a read failed. */
  ghost predicate Collected(f: Finalized, statuses: seq<ExitStatus>, pending: seq<Byte>, threads: seq<StderrThread>,
                            sound: bool) {
    && statuses != [] && f.statuses == statuses && InOrder(threads, f.stderr)
    && f.stdout <= pending && (sound ==> f.stdout == pending)
  }
}
