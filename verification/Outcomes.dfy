/** Pipefail: how the outcomes of the stages become the outcome of the pipeline. */
module Outcomes {
  import opened Types

  datatype Outcome = Exited(status: ExitStatus) | TimedOut(elapsed: nat) | WaitFailed | Cancelled {
    predicate Success() { Exited? && status.Success() }
  }

  // ---- SpawnedProcess and AsyncSpawnedProcess ----

  /** `pipefail_status` over the first `n` statuses. */
  function Pipefail(statuses: seq<ExitStatus>): ExitStatus
    requires statuses != []
  {
    var last := statuses[|statuses| - 1];
    if |statuses| == 1 then last
    else
      var before := Pipefail(statuses[..|statuses| - 1]);
      if !last.Success() || before.Success() then last else before
  }

  method PipefailStatus(statuses: seq<ExitStatus>) returns (chosen: ExitStatus)
    requires statuses != []
    ensures chosen == Pipefail(statuses)
  {
    chosen := statuses[0];
    assert statuses[..1] == [chosen];
    for i := 1 to |statuses|
      invariant chosen == Pipefail(statuses[..i])
    {
      assert statuses[..i + 1][..i] == statuses[..i];
      if !statuses[i].Success() || chosen.Success() {
        chosen := statuses[i];
      }
    }
    assert statuses[..|statuses|] == statuses;
  }

  /** The rightmost failure if any stage failed, else the rightmost success. */
  lemma {:induction false} PipefailIsRightmostFailure(statuses: seq<ExitStatus>)
    requires statuses != []
    ensures Pipefail(statuses) in statuses
    ensures Pipefail(statuses).Success() <==> forall s :: s in statuses ==> s.Success()
    ensures forall k :: 0 <= k < |statuses| && !statuses[k].Success()
              && (forall m :: k < m < |statuses| ==> statuses[m].Success())
              ==> Pipefail(statuses) == statuses[k]
  {
    if |statuses| > 1 {
      var init := statuses[..|statuses| - 1];
      PipefailIsRightmostFailure(init);
      assert statuses == init + [statuses[|statuses| - 1]];
      assert Pipefail(init) in statuses;
      forall k | 0 <= k < |statuses| && !statuses[k].Success()
                 && (forall m :: k < m < |statuses| ==> statuses[m].Success())
        ensures Pipefail(statuses) == statuses[k]
      {
        if k < |init| {
          assert statuses[|init|].Success();
          assert init[k] == statuses[k];
          assert forall m :: k < m < |init| ==> init[m] == statuses[m];
        }
      }
    }
  }

  // ---- Cmd::run ----

  /** The choice of `combine_outcomes` among stages of which none was cancelled. */
  function Chosen(outcomes: seq<Outcome>): (c: Option<Outcome>)
    ensures outcomes == [] <==> c.None?
  {
    if outcomes == [] then None
    else
      var o := outcomes[|outcomes| - 1];
      var before := Chosen(outcomes[..|outcomes| - 1]);
      if o.Success() && before.Some? then before else Some(o)
  }

  function Combine(outcomes: seq<Outcome>): Outcome {
    if Outcome.Cancelled in outcomes then Outcome.Cancelled
    else if outcomes == [] then WaitFailed
    else Chosen(outcomes).value
  }

  method CombineOutcomes(outcomes: seq<Outcome>) returns (r: Outcome)
    ensures r == Combine(outcomes)
  {
    if exists o :: o in outcomes && o.Cancelled? {
      return Outcome.Cancelled;
    }
    var chosen: Option<Outcome> := None;
    for i := 0 to |outcomes|
      invariant chosen == Chosen(outcomes[..i])
    {
      assert outcomes[..i + 1][..i] == outcomes[..i];
      if outcomes[i].Success() {
        if chosen.None? { chosen := Some(outcomes[i]); }
      } else {
        chosen := Some(outcomes[i]);
      }
    }
    assert outcomes[..|outcomes|] == outcomes;
    r := if chosen.Some? then chosen.value else WaitFailed;
  }

  /** What `Chosen` picks: the rightmost failure, and with no failure the first success. */
  lemma {:induction false} ChosenIsRightmostFailure(outcomes: seq<Outcome>)
    requires outcomes != []
    ensures Chosen(outcomes).value in outcomes
    ensures Chosen(outcomes).value.Success() <==> forall o :: o in outcomes ==> o.Success()
    ensures Chosen(outcomes).value.Success() ==> Chosen(outcomes).value == outcomes[0]
    ensures forall k :: 0 <= k < |outcomes| && !outcomes[k].Success()
              && (forall m :: k < m < |outcomes| ==> outcomes[m].Success())
              ==> Chosen(outcomes).value == outcomes[k]
  {
    if |outcomes| > 1 {
      var init := outcomes[..|outcomes| - 1];
      ChosenIsRightmostFailure(init);
      assert outcomes == init + [outcomes[|init|]];
      assert Chosen(init).value in outcomes;
      forall k | 0 <= k < |outcomes| && !outcomes[k].Success()
                 && (forall m :: k < m < |outcomes| ==> outcomes[m].Success())
        ensures Chosen(outcomes).value == outcomes[k]
      {
        if k < |init| {
          assert outcomes[|init|].Success();
          assert init[k] == outcomes[k];
          assert forall m :: k < m < |init| ==> init[m] == outcomes[m];
        }
      }
    }
  }

  /** Cancellation of any stage cancels the pipeline; otherwise the rightmost failure wins, and
      only a pipeline whose every stage succeeded succeeds. */
  lemma CombineIsPipefail(outcomes: seq<Outcome>)
    requires outcomes != []
    ensures Combine(outcomes) == Outcome.Cancelled <==> Outcome.Cancelled in outcomes
    ensures Combine(outcomes).Success() <==> forall o :: o in outcomes ==> o.Success()
    ensures Outcome.Cancelled !in outcomes ==>
              forall k :: 0 <= k < |outcomes| && !outcomes[k].Success()
                && (forall m :: k < m < |outcomes| ==> outcomes[m].Success())
                ==> Combine(outcomes) == outcomes[k]
  {
    ChosenIsRightmostFailure(outcomes);
  }

  function AllExited(statuses: seq<ExitStatus>): (os: seq<Outcome>) {
    seq(|statuses|, i requires 0 <= i < |statuses| => Exited(statuses[i]))
  }

  /** `run` and the spawned handles agree on stages that all exited: on whether the pipeline
      succeeded, and on the failing status when it did not. One keeps
      the first success and the other the last, but a success is the zero status. */
  lemma {:induction false} RunAgreesWithHandle(statuses: seq<ExitStatus>)
    requires statuses != []
    ensures Combine(AllExited(statuses)) == Exited(Pipefail(statuses))
  {
    CombineIsPipefail(AllExited(statuses));
    PipefailIsRightmostFailure(statuses);
    var p := Pipefail(statuses);
    if p.Success() {
      assert forall s :: s in statuses ==> s == ExitStatus(0);
      ChosenIsRightmostFailure(AllExited(statuses));
    } else {
      var k := LastFailure(statuses);
      assert AllExited(statuses)[k] == Exited(statuses[k]);
      assert forall m :: k < m < |statuses| ==> AllExited(statuses)[m].Success();
    }
  }

  lemma LastFailure(statuses: seq<ExitStatus>) returns (k: nat)
    requires exists s :: s in statuses && !s.Success()
    ensures k < |statuses| && !statuses[k].Success()
    ensures forall m :: k < m < |statuses| ==> statuses[m].Success()
  {
    k := |statuses| - 1;
    while statuses[k].Success()
      invariant 0 <= k < |statuses|
      invariant exists m :: 0 <= m <= k && !statuses[m].Success()
      decreases k
      invariant forall m :: k < m < |statuses| ==> statuses[m].Success()
    {
      k := k - 1;
    }
  }
}
