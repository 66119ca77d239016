/** When a task is routed to frontier, in terms of what the run had done by then: what its account held
    when it was granted its reservation, and what had been recorded when it was checked. */
module FrontierRouting {
  import opened Options
  import opened RoutingModel
  import opened TaskWorkflow
  import opened Orchestration
  import opened SpendBreaker
  import opened Conservation
  import opened SpendLimits
  import opened BreakerOvershoot
  import opened WindowedFrontier
  import L = AccountLedger
  import Router

  /** The step is its workflow's breaker check. */
  predicate ChecksNow(c: Config, s: System, l: Label) {
    Enabled(c, s, l) && l.Attempt? && l.report.Success? && CommandOf(s, l.i).BreakerEffective?
  }

  /** Some running total of the costs recorded so far has reached the breaker's threshold. */
  ghost predicate SpentBy(c: Config, labels: seq<Label>) {
    c.breaker.Some?
    && exists k :: 0 < k <= |RecordedCosts(c, labels)| && Sum(RecordedCosts(c, labels)[..k]) >= c.breaker.value
  }

  lemma TrippedWhenSpent(c: Config, labels: seq<Label>)
    requires ValidRun(c, labels)
    ensures c.breaker.Some? ==> (Exec(c, labels).breaker.tripped <==> SpentBy(c, labels))
  {
    if c.breaker.Some? {
      BreakerHoldsRecords(c, labels);
      TrippedExactly(c.breaker.value, RecordedCosts(c, labels));
    }
  }

  /** Workflow `i` has been checked with this reservation and this answer. */
  ghost predicate CheckedAs(s: System, i: nat, res: L.Reservation, degraded: bool) {
    i < |s.wfs| && HasCheck(s.wfs[i].local.at) && s.wfs[i].local.at.res == res && s.wfs[i].local.at.degraded == degraded
  }

  lemma CheckAnswers(c: Config, s: System, l: Label)
    requires SystemOk(c, s) && ChecksNow(c, s, l)
    ensures HasReservation(s.wfs[l.i].local.at)
    ensures var res := s.wfs[l.i].local.at.res;
            CheckedAs(Step(c, s, l), l.i, res, res.degraded || (c.breaker.Some? && s.breaker.tripped))
  {
    assert s.wfs[l.i].local.Active? && s.wfs[l.i].local.at.Reserved?;
  }

  /** The effective flag of a check, exactly: the account's, or the breaker spent by the records
      made before the check. */
  lemma CheckExactly(c: Config, front: seq<Label>, l: Label)
    requires ValidRun(c, front + [l]) && ChecksNow(c, Exec(c, front), l)
    ensures var s := Exec(c, front);
            && l.i < |s.wfs| && HasReservation(s.wfs[l.i].local.at)
            && var res := s.wfs[l.i].local.at.res;
               CheckedAs(Exec(c, front + [l]), l.i, res, res.degraded || SpentBy(c, front))
  {
    PrefixValid(c, front, [l]);
    RunOk(c, front);
    assert (front + [l])[..|front|] == front;
    TrippedWhenSpent(c, front);
    CheckAnswers(c, Exec(c, front), l);
  }

  lemma StepKeepsCheck(c: Config, s: System, l: Label, i: nat, res: L.Reservation, degraded: bool)
    requires SystemOk(c, s) && Enabled(c, s, l) && CheckedAs(s, i, res, degraded)
    ensures CheckedAs(Step(c, s, l), i, res, degraded)
  {
    if l.Attempt? {
      MovedShape(c, s, l);
    }
  }

  lemma {:induction false} CheckStays(c: Config, labels: seq<Label>, more: seq<Label>, i: nat, res: L.Reservation, degraded: bool)
    requires ValidRun(c, labels + more) && CheckedAs(Exec(c, labels), i, res, degraded)
    ensures CheckedAs(Exec(c, labels + more), i, res, degraded)
  {
    if more == [] {
      assert labels + more == labels;
    } else {
      var last := |more| - 1;
      assert (labels + more)[..|labels + more| - 1] == labels + more[..last];
      CheckStays(c, labels, more[..last], i, res, degraded);
      RunOk(c, labels + more[..last]);
      StepKeepsCheck(c, Exec(c, labels + more[..last]), more[last], i, res, degraded);
    }
  }

  /** A routed task, at any later point of any run, is frontier exactly when it was escalated, its
      reservation was not degraded, and the breaker had not been spent by its check; and its routing
      carries the flag of that check. */
  lemma FrontierExactly(c: Config, front: seq<Label>, l: Label, more: seq<Label>)
    requires ValidRun(c, front + [l] + more) && ChecksNow(c, Exec(c, front), l)
    ensures var wfs := Exec(c, front + [l] + more).wfs;
            && l.i < |wfs| && HasCheck(wfs[l.i].local.at)
            && var wf := wfs[l.i];
               && (wf.local.at.degraded <==> wf.local.at.res.degraded || SpentBy(c, front))
               && (HasDecision(wf.local.at) ==>
                     && (RoutedFrontier(wf) <==> wf.input.task.escalate && !wf.local.at.res.degraded && !SpentBy(c, front))
                     && wf.local.at.dec.degraded == wf.local.at.degraded)
  {
    PrefixValid(c, front + [l], more);
    CheckExactly(c, front, l);
    var res := Exec(c, front).wfs[l.i].local.at.res;
    CheckStays(c, front + [l], more, l.i, res, res.degraded || SpentBy(c, front));
    RunOk(c, front + [l] + more);
    assert WorkflowOk(c, Exec(c, front + [l] + more).wfs[l.i]);
  }

  /** A reservation, at any later point of any run, is degraded exactly when what its account held in
      the window at the grant, and its own projection, reached the threshold. */
  lemma DegradedExactly(c: Config, front: seq<Label>, l: Label, more: seq<Label>)
    requires ValidRun(c, front + [l] + more) && Grants(c, Exec(c, front), l)
    ensures var s, wfs := Exec(c, front), Exec(c, front + [l] + more).wfs;
            && l.i < |wfs| && HasReservation(wfs[l.i].local.at)
            && var input, res := s.wfs[l.i].input, wfs[l.i].local.at.res;
               var held := L.Total(L.Prune(Charges(s, input.account), l.now - c.policy.window));
               && res.balance == held + Router.ProjectCost(input.task)
               && (res.degraded <==> held + Router.ProjectCost(input.task) >= c.policy.threshold)
  {
    var s := Exec(c, front);
    var input := s.wfs[l.i].input;
    var charges := Charges(s, input.account);
    PrefixValid(c, front + [l], more);
    PrefixValid(c, front, [l]);
    RunOk(c, front);
    assert (front + [l])[..|front|] == front;
    GrantHolds(c, s, l);
    ReservationStays(c, front + [l], more, l.i, L.Reserve(c.policy, charges, Router.ProjectCost(input.task), l.now).1);
    L.ReserveOn(c.policy, charges, Router.ProjectCost(input.task), l.now, L.Prune(charges, l.now - c.policy.window));
  }

  /** The step is its workflow's successful record. */
  predicate RecordsNow(c: Config, s: System, l: Label) {
    Enabled(c, s, l) && l.Attempt? && l.report.Success? && CommandOf(s, l.i).BreakerRecord?
  }

  /** A successful record answers whether frontier is still allowed: whether, with it, no running total
      has reached the threshold yet. */
  lemma RecordAnswersExactly(c: Config, front: seq<Label>, l: Label)
    requires ValidRun(c, front + [l]) && RecordsNow(c, Exec(c, front), l)
    ensures var s := Exec(c, front);
            Reply(c, s, l.i, CommandOf(s, l.i), l.now, l.allowed) == Flag(!SpentBy(c, front + [l]))
  {
    PrefixValid(c, front, [l]);
    assert (front + [l])[..|front|] == front;
    TrippedWhenSpent(c, front + [l]);
    if c.breaker.Some? {
      StepBreaker(c, Exec(c, front), l);
    }
  }
}
