/** How far frontier spend can overshoot the global breaker: the workflows already past the check
    when it trips. */
module BreakerOvershoot {
  import opened Options
  import opened RoutingModel
  import opened TaskWorkflow
  import opened Orchestration
  import opened SpendBreaker
  import Conservation
  import opened SpendLimits
  import Router

  const FRONTIER_COST := DEFAULT_COST_MODEL.frontier

  /** Running, past the breaker check, and not yet recorded in the breaker. */
  predicate InFlight(wf: Workflow) {
    wf.local.Active? && HasCheck(wf.local.at) && !HasRecorded(wf.local.at)
  }

  /** In flight with a check that allowed frontier. */
  predicate Live(wf: Workflow) {
    InFlight(wf) && !wf.local.at.degraded
  }

  function LiveCount(wfs: seq<Workflow>): nat {
    if wfs == [] then 0
    else LiveCount(wfs[..|wfs| - 1]) + (if Live(wfs[|wfs| - 1]) then 1 else 0)
  }

  // ---- what has been recorded ------------------------------------------------------------

  /** The step records a cost in the breaker, whether or not it is reported as failed. */
  predicate Records(c: Config, s: System, l: Label) {
    Enabled(c, s, l) && l.Attempt? && Conservation.Effective(l) && CommandOf(s, l.i).BreakerRecord?
  }

  /** Every cost the run has recorded, in order. */
  function RecordedCosts(c: Config, labels: seq<Label>): seq<real> {
    if labels == [] then []
    else
      var front, l := labels[..|labels| - 1], labels[|labels| - 1];
      RecordedCosts(c, front) + (if Records(c, Exec(c, front), l) then [CommandOf(Exec(c, front), l.i).cost] else [])
  }

  /** What a step records for a frontier-routed task. */
  function FrontierRecord(c: Config, s: System, l: Label): real {
    if Records(c, s, l) && RoutedFrontier(s.wfs[l.i]) then CommandOf(s, l.i).cost else 0.0
  }

  /** The cost ever recorded by frontier-routed tasks, repeated records included. */
  function FrontierRecorded(c: Config, labels: seq<Label>): real {
    if labels == [] then 0.0
    else
      var front := labels[..|labels| - 1];
      FrontierRecorded(c, front) + FrontierRecord(c, Exec(c, front), labels[|labels| - 1])
  }

  lemma CostAppend(threshold: real, costs: seq<real>, cost: real)
    ensures AfterCosts(threshold, costs + [cost]) == AfterRecord(threshold, AfterCosts(threshold, costs), cost)
  {
    assert (costs + [cost])[..|costs|] == costs;
  }

  lemma StepBreaker(c: Config, s: System, l: Label)
    requires c.breaker.Some? && Enabled(c, s, l)
    ensures Step(c, s, l).breaker
            == if Records(c, s, l) then AfterRecord(c.breaker.value, s.breaker, CommandOf(s, l.i).cost) else s.breaker
  {
  }

  /** The shared breaker is the breaker object after those costs. */
  lemma {:induction false} BreakerHoldsRecords(c: Config, labels: seq<Label>)
    requires c.breaker.Some? && ValidRun(c, labels)
    ensures Exec(c, labels).breaker == AfterCosts(c.breaker.value, RecordedCosts(c, labels))
  {
    if labels != [] {
      var front, l := labels[..|labels| - 1], labels[|labels| - 1];
      var s := Exec(c, front);
      BreakerHoldsRecords(c, front);
      StepBreaker(c, s, l);
      if Records(c, s, l) {
        CostAppend(c.breaker.value, RecordedCosts(c, front), CommandOf(s, l.i).cost);
      } else {
        assert RecordedCosts(c, labels) == RecordedCosts(c, front);
      }
    }
  }

  // ---- what can still be recorded --------------------------------------------------------

  /** A frontier-routed task's record takes effect and is reported as failed, so that it is made again. */
  predicate Repeats(c: Config, s: System, l: Label) {
    Records(c, s, l) && l.report.Failed? && RoutedFrontier(s.wfs[l.i])
  }

  ghost predicate NoneRepeated(c: Config, labels: seq<Label>) {
    labels == []
    || (&& NoneRepeated(c, labels[..|labels| - 1])
        && !Repeats(c, Exec(c, labels[..|labels| - 1]), labels[|labels| - 1]))
  }

  /** How often `n` checked workflows can record: once each, or at every attempt. */
  function RecordsOf(repeats: bool, n: nat): nat {
    if repeats then MAX_ATTEMPTS * n else n
  }

  /** How often a workflow can still record with a check that allowed frontier. */
  function Exposure(repeats: bool, wf: Workflow): nat {
    if !Live(wf) then 0
    else if wf.local.at.Settled? && repeats && wf.failed < MAX_ATTEMPTS then MAX_ATTEMPTS - wf.failed
    else RecordsOf(repeats, 1)
  }

  function AllExposure(repeats: bool, wfs: seq<Workflow>): nat {
    if wfs == [] then 0 else AllExposure(repeats, wfs[..|wfs| - 1]) + Exposure(repeats, wfs[|wfs| - 1])
  }

  lemma {:induction false} ExposureUpdate(repeats: bool, wfs: seq<Workflow>, i: nat, wf: Workflow)
    requires i < |wfs|
    ensures AllExposure(repeats, wfs[i := wf]) == AllExposure(repeats, wfs) - Exposure(repeats, wfs[i]) + Exposure(repeats, wf)
  {
    var last := |wfs| - 1;
    if i == last {
      assert wfs[i := wf][..last] == wfs[..last];
    } else {
      ExposureUpdate(repeats, wfs[..last], i, wf);
      assert wfs[i := wf][..last] == wfs[..last][i := wf];
    }
  }

  lemma ExposureAppend(repeats: bool, wfs: seq<Workflow>, wf: Workflow)
    requires !Live(wf)
    ensures AllExposure(repeats, wfs + [wf]) == AllExposure(repeats, wfs)
  {
    assert (wfs + [wf])[..|wfs|] == wfs;
  }

  lemma {:induction false} ExposureByCount(repeats: bool, wfs: seq<Workflow>)
    ensures AllExposure(repeats, wfs) <= RecordsOf(repeats, LiveCount(wfs))
  {
    if wfs != [] {
      ExposureByCount(repeats, wfs[..|wfs| - 1]);
    }
  }

  /** In every state of the run at most `n` workflows are in flight with a check that allowed
      frontier; bounding all workflows in flight by `n` implies this. */
  ghost predicate LiveBounded(c: Config, labels: seq<Label>, n: nat) {
    LiveCount(Exec(c, labels).wfs) <= n && (labels == [] || LiveBounded(c, labels[..|labels| - 1], n))
  }

  /** What an attempt does to its workflow's exposure: it records and has one record fewer to make,
      or records nothing for frontier and gains no exposure, or was just checked before the trip. */
  ghost predicate ExposureMove(repeats: bool, c: Config, s: System, l: Label, after: Workflow)
    requires l.Attempt? && l.i < |s.wfs|
  {
    var before := s.wfs[l.i];
    || (FrontierRecord(c, s, l) == FRONTIER_COST && Exposure(repeats, after) + 1 <= Exposure(repeats, before))
    || (FrontierRecord(c, s, l) == 0.0 && Exposure(repeats, after) <= Exposure(repeats, before))
    || (FrontierRecord(c, s, l) == 0.0 && !s.breaker.tripped && !Records(c, s, l))
  }

  lemma AttemptMovesExposure(repeats: bool, c: Config, s: System, l: Label)
    requires c.breaker.Some? && SystemOk(c, s) && Enabled(c, s, l) && l.Attempt? && (!repeats ==> !Repeats(c, s, l))
    ensures ExposureMove(repeats, c, s, l, Moved(c, s, l))
  {
    assert WorkflowOk(c, s.wfs[l.i]);
    if CommandOf(s, l.i).BreakerRecord? {
      RecordMovesExposure(repeats, c, s, l);
    } else if l.report.Success? {
      SuccessMovesExposure(repeats, c, s, l);
    } else {
      assert Exposure(repeats, Moved(c, s, l)) <= Exposure(repeats, s.wfs[l.i]);
    }
  }

  lemma RecordMovesExposure(repeats: bool, c: Config, s: System, l: Label)
    requires SystemOk(c, s) && Enabled(c, s, l) && l.Attempt? && CommandOf(s, l.i).BreakerRecord?
    requires !repeats ==> !Repeats(c, s, l)
    ensures ExposureMove(repeats, c, s, l, Moved(c, s, l))
  {
    var before, after := s.wfs[l.i], Moved(c, s, l);
    assert WorkflowOk(c, before);
    assert before.local.Active? && before.local.at.Settled? && CommandOf(s, l.i).cost == before.local.at.dec.cost;
    FrontierOwesItsCost(c, before);
    if RoutedFrontier(before) {
      assert Live(before);
    }
    if l.report.Success? {
      assert !Live(after);
    } else if after.local.Active? {
      assert after.local == before.local && after.failed == before.failed + 1;
    } else {
      assert !Live(after);
    }
  }

  lemma SuccessMovesExposure(repeats: bool, c: Config, s: System, l: Label)
    requires c.breaker.Some? && SystemOk(c, s) && Enabled(c, s, l) && l.Attempt? && l.report.Success?
    requires !CommandOf(s, l.i).BreakerRecord?
    ensures ExposureMove(repeats, c, s, l, Moved(c, s, l))
  {
    var before, after := s.wfs[l.i], Moved(c, s, l);
    if before.local.Active? && before.local.at.Reserved? {
      assert Live(after) ==> !s.breaker.tripped;
    } else {
      assert Live(after) ==> Live(before) && !before.local.at.Settled?;
    }
  }

  // ---- the bound -------------------------------------------------------------------------

  /** Strictly below a positive threshold plus an allowance; at zero, at most the allowance. */
  ghost predicate Below(threshold: real, amount: real, allowance: real) {
    amount <= threshold + allowance && (threshold > 0.0 ==> amount < threshold + allowance)
  }

  ghost predicate BreakerOk(c: Config, b: Breaker, recorded: real)
    requires c.breaker.Some?
  {
    0.0 <= recorded <= b.aggregate && (!b.tripped ==> Below(c.breaker.value, b.aggregate, 0.0))
  }

  /** What has been recorded, with what can still be, is within the bound. */
  ghost predicate OvershootOk(repeats: bool, c: Config, wfs: seq<Workflow>, recorded: real, n: nat)
    requires c.breaker.Some?
  {
    Below(c.breaker.value, recorded + FrontierCost(AllExposure(repeats, wfs)), FrontierCost(RecordsOf(repeats, n)))
  }

  lemma CostOrder(m: nat, n: nat)
    requires m <= n
    ensures FrontierCost(m) <= FrontierCost(n)
  {
  }

  lemma CostPlus(m: nat, n: nat)
    ensures FrontierCost(m + n) == FrontierCost(m) + FrontierCost(n)
  {
  }

  lemma CheckedWithin(repeats: bool, c: Config, wfs: seq<Workflow>, b: Breaker, recorded: real, n: nat)
    requires c.breaker.Some? && BreakerOk(c, b, recorded) && !b.tripped && LiveCount(wfs) <= n
    ensures OvershootOk(repeats, c, wfs, recorded, n)
  {
    ExposureByCount(repeats, wfs);
    CostOrder(AllExposure(repeats, wfs), RecordsOf(repeats, n));
  }

  lemma RecordedWithin(repeats: bool, c: Config, wfs: seq<Workflow>, wfs': seq<Workflow>, recorded: real, n: nat)
    requires c.breaker.Some? && OvershootOk(repeats, c, wfs, recorded, n) && AllExposure(repeats, wfs') + 1 <= AllExposure(repeats, wfs)
    ensures OvershootOk(repeats, c, wfs', recorded + FRONTIER_COST, n)
  {
    CostOrder(AllExposure(repeats, wfs') + 1, AllExposure(repeats, wfs));
    CostPlus(AllExposure(repeats, wfs'), 1);
    assert FrontierCost(1) == FRONTIER_COST;
  }

  lemma OtherwiseWithin(repeats: bool, c: Config, wfs: seq<Workflow>, wfs': seq<Workflow>, recorded: real, n: nat)
    requires c.breaker.Some? && OvershootOk(repeats, c, wfs, recorded, n) && AllExposure(repeats, wfs') <= AllExposure(repeats, wfs)
    ensures OvershootOk(repeats, c, wfs', recorded, n)
  {
    CostOrder(AllExposure(repeats, wfs'), AllExposure(repeats, wfs));
  }

  lemma RecordCosts(c: Config, s: System, l: Label)
    requires SystemOk(c, s) && Records(c, s, l)
    ensures 0.0 <= FrontierRecord(c, s, l) <= CommandOf(s, l.i).cost
  {
    var wf := s.wfs[l.i];
    assert WorkflowOk(c, wf) && wf.local.Active? && wf.local.at.Settled?;
    FrontierOwesItsCost(c, wf);
  }

  lemma StepBreakerOk(c: Config, s: System, l: Label, recorded: real)
    requires c.breaker.Some? && c.breaker.value >= 0.0 && SystemOk(c, s) && Enabled(c, s, l)
    requires BreakerOk(c, s.breaker, recorded)
    ensures BreakerOk(c, Step(c, s, l).breaker, recorded + FrontierRecord(c, s, l))
  {
    StepBreaker(c, s, l);
    if Records(c, s, l) {
      RecordCosts(c, s, l);
    }
  }

  lemma AttemptOvershootOk(repeats: bool, c: Config, s: System, l: Label, recorded: real, n: nat)
    requires c.breaker.Some? && SystemOk(c, s) && Enabled(c, s, l) && l.Attempt?
    requires BreakerOk(c, s.breaker, recorded) && OvershootOk(repeats, c, s.wfs, recorded, n)
    requires !repeats ==> !Repeats(c, s, l)
    requires LiveCount(Step(c, s, l).wfs) <= n
    ensures OvershootOk(repeats, c, Step(c, s, l).wfs, recorded + FrontierRecord(c, s, l), n)
  {
    var wfs' := Step(c, s, l).wfs;
    assert wfs' == s.wfs[l.i := Moved(c, s, l)];
    ExposureUpdate(repeats, s.wfs, l.i, Moved(c, s, l));
    AttemptMovesExposure(repeats, c, s, l);
    if FrontierRecord(c, s, l) == FRONTIER_COST {
      RecordedWithin(repeats, c, s.wfs, wfs', recorded, n);
    } else if AllExposure(repeats, wfs') <= AllExposure(repeats, s.wfs) {
      OtherwiseWithin(repeats, c, s.wfs, wfs', recorded, n);
    } else {
      CheckedWithin(repeats, c, wfs', s.breaker, recorded, n);
    }
  }

  lemma {:induction false} RunKeepsBounds(repeats: bool, c: Config, labels: seq<Label>, n: nat)
    requires c.breaker.Some? && c.breaker.value >= 0.0 && ValidRun(c, labels) && LiveBounded(c, labels, n)
    requires !repeats ==> NoneRepeated(c, labels)
    ensures BreakerOk(c, Exec(c, labels).breaker, FrontierRecorded(c, labels))
    ensures OvershootOk(repeats, c, Exec(c, labels).wfs, FrontierRecorded(c, labels), n)
  {
    if labels == [] {
      CheckedWithin(repeats, c, [], UNTRIPPED, 0.0, n);
    } else {
      var front, l := labels[..|labels| - 1], labels[|labels| - 1];
      var s := Exec(c, front);
      RunKeepsBounds(repeats, c, front, n);
      RunOk(c, front);
      StepBreakerOk(c, s, l, FrontierRecorded(c, front));
      if l.Attempt? {
        AttemptOvershootOk(repeats, c, s, l, FrontierRecorded(c, front), n);
      } else {
        ExposureAppend(repeats, s.wfs, Workflow(l.input, Active(Started), 0, 0));
        OtherwiseWithin(repeats, c, s.wfs, Step(c, s, l).wfs, FrontierRecorded(c, front), n);
      }
    }
  }

  /** The overshoot bound: with at most `n` such workflows at a time, the cost ever recorded by
      frontier-routed tasks is below a positive breaker threshold plus `n` frontier tasks (at most
      that, for a threshold of zero), in every run in which none of their records is repeated; plus
      three times as many in any run at all. */
  lemma OvershootBound(c: Config, labels: seq<Label>, n: nat)
    requires c.breaker.Some? && c.breaker.value >= 0.0 && ValidRun(c, labels) && LiveBounded(c, labels, n)
    ensures NoneRepeated(c, labels) ==> Below(c.breaker.value, FrontierRecorded(c, labels), FrontierCost(n))
    ensures Below(c.breaker.value, FrontierRecorded(c, labels), FrontierCost(3 * n))
    ensures FrontierRecorded(c, labels) <= Exec(c, labels).breaker.aggregate
  {
    RunKeepsBounds(true, c, labels, n);
    assert FrontierCost(AllExposure(true, Exec(c, labels).wfs)) >= 0.0;
    if NoneRepeated(c, labels) {
      RunKeepsBounds(false, c, labels, n);
      assert FrontierCost(AllExposure(false, Exec(c, labels).wfs)) >= 0.0;
    }
  }

  // ---- after the trip --------------------------------------------------------------------

  /** Tripped, and workflow `i` has no check yet or one that was degraded. */
  ghost predicate ShutOut(s: System, i: nat) {
    s.breaker.tripped
    && (i < |s.wfs| && HasCheck(s.wfs[i].local.at) ==> s.wfs[i].local.at.degraded)
  }

  lemma StepShutsOut(c: Config, s: System, l: Label, i: nat)
    requires c.breaker.Some? && SystemOk(c, s) && Enabled(c, s, l) && ShutOut(s, i)
    ensures ShutOut(Step(c, s, l), i)
  {
    if l.Attempt? {
      Conservation.MovedShape(c, s, l);
    }
  }

  lemma {:induction false} RunShutsOut(c: Config, labels: seq<Label>, more: seq<Label>, i: nat)
    requires c.breaker.Some? && ValidRun(c, labels + more) && ShutOut(Exec(c, labels), i)
    ensures ShutOut(Exec(c, labels + more), i)
  {
    if more == [] {
      assert labels + more == labels;
    } else {
      var last := |more| - 1;
      assert (labels + more)[..|labels + more| - 1] == labels + more[..last];
      RunShutsOut(c, labels, more[..last], i);
      RunOk(c, labels + more[..last]);
      StepShutsOut(c, Exec(c, labels + more[..last]), more[last], i);
    }
  }

  /** Once the breaker has tripped it stays so, and a task that had not been checked by then is
      never routed frontier, however long the run goes on. */
  lemma NoFrontierAfterTrip(c: Config, labels: seq<Label>, more: seq<Label>, i: nat)
    requires c.breaker.Some? && ValidRun(c, labels + more) && Exec(c, labels).breaker.tripped
    requires i < |Exec(c, labels).wfs| ==> !HasCheck(Exec(c, labels).wfs[i].local.at)
    ensures Exec(c, labels + more).breaker.tripped
    ensures i < |Exec(c, labels + more).wfs| ==> !RoutedFrontier(Exec(c, labels + more).wfs[i])
  {
    RunShutsOut(c, labels, more, i);
    RunOk(c, labels + more);
    if i < |Exec(c, labels + more).wfs| {
      assert WorkflowOk(c, Exec(c, labels + more).wfs[i]);
    }
  }
}
