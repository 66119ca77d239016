/** The frontier budget of one usage window, for runs that outlive it: charges expire, settlements
    land on other tasks' charges, and reservations are repeated. */
module WindowedFrontier {
  import opened Options
  import opened RoutingModel
  import opened TaskWorkflow
  import opened Orchestration
  import opened Conservation
  import opened SpendLimits
  import L = AccountLedger
  import K = KeepingLedger
  import F = FreeCharges
  import W = WindowedSpend
  import P = PgTransactions
  import StoreLinks
  import Router

  /** The operations a run makes on one account's ledger, in order. */
  function OpsOf(c: Config, labels: seq<Label>, a: string): seq<L.Op> {
    if labels == [] then []
    else
      var front, l := labels[..|labels| - 1], labels[|labels| - 1];
      OpsOf(c, front, a) + OpOf(c, Exec(c, front), l, a)
  }

  /** What a step does on the account, if anything. */
  function OpOf(c: Config, s: System, l: Label, a: string): seq<L.Op> {
    if OnLedger(c, s, l) && s.wfs[l.i].input.account == a then
      [P.ToOp(StoreLinks.CallOf(c, s, l).req, l.now)]
    else []
  }

  lemma AfterAppend(p: L.Policy, ops: seq<L.Op>, op: L.Op)
    ensures F.After(p, ops + [op]) == L.Apply(p, F.After(p, ops), op).0
  {
    assert (ops + [op])[..|ops|] == ops;
  }

  /** They leave the account the charges it holds. */
  lemma {:induction false} OpsGiveCharges(c: Config, labels: seq<Label>, a: string)
    requires ValidRun(c, labels)
    ensures F.After(c.policy, OpsOf(c, labels, a)) == Charges(Exec(c, labels), a)
  {
    if labels != [] {
      var front, l := labels[..|labels| - 1], labels[|labels| - 1];
      OpsGiveCharges(c, front, a);
      RunOk(c, front);
      StepGivesCharges(c, Exec(c, front), l, a, OpsOf(c, front, a));
    }
  }

  lemma StepGivesCharges(c: Config, s: System, l: Label, a: string, ops: seq<L.Op>)
    requires SystemOk(c, s) && Enabled(c, s, l) && F.After(c.policy, ops) == Charges(s, a)
    ensures F.After(c.policy, ops + OpOf(c, s, l, a)) == Charges(Step(c, s, l), a)
  {
    if OnLedger(c, s, l) {
      StoreLinks.StepApplies(c, s, l);
      if s.wfs[l.i].input.account == a {
        AfterAppend(c.policy, ops, P.ToOp(StoreLinks.CallOf(c, s, l).req, l.now));
      } else {
        assert ops + [] == ops;
      }
    } else {
      StoreLinks.OtherStepsStay(c, s, l);
      assert ops + [] == ops;
    }
  }

  lemma StepCosted(c: Config, s: System, l: Label, a: string)
    requires SystemOk(c, s) && Enabled(c, s, l)
    ensures F.AllCosted(OpOf(c, s, l, a))
  {
    if OnLedger(c, s, l) && CommandOf(s, l.i).SettleUsage? {
      SettleCommandLowers(c, s, l);
    }
  }

  lemma {:induction false} OpsCosted(c: Config, labels: seq<Label>, a: string)
    requires ValidRun(c, labels)
    ensures F.AllCosted(OpsOf(c, labels, a))
  {
    if labels != [] {
      var front, l := labels[..|labels| - 1], labels[|labels| - 1];
      OpsCosted(c, front, a);
      RunOk(c, front);
      StepCosted(c, Exec(c, front), l, a);
    }
  }

  // ---- what was granted in the window ----------------------------------------------------

  /** The step grants its workflow's reservation. */
  predicate Grants(c: Config, s: System, l: Label) {
    Enabled(c, s, l) && l.Attempt? && l.report.Success? && CommandOf(s, l.i).ReserveUsage?
  }

  /** The cost of a frontier-routed task, when the step grants its reservation in the window. */
  function GrantedCost(c: Config, s: System, l: Label, end: seq<Workflow>, a: string, cutoff: real): real {
    if Grants(c, s, l) && s.wfs[l.i].input.account == a && l.now >= cutoff && l.i < |end| && RoutedFrontier(end[l.i])
    then end[l.i].local.at.dec.cost else 0.0
  }

  /** The summed cost of the account's tasks that are routed frontier in the end and whose
      reservations the run granted no earlier than `cutoff`. */
  function FrontierGranted(c: Config, labels: seq<Label>, end: seq<Workflow>, a: string, cutoff: real): real {
    if labels == [] then 0.0
    else
      var front, l := labels[..|labels| - 1], labels[|labels| - 1];
      FrontierGranted(c, front, end, a, cutoff) + GrantedCost(c, Exec(c, front), l, end, a, cutoff)
  }

  /** The frontier spend of one usage window. */
  function WindowFrontier(c: Config, labels: seq<Label>, a: string, cutoff: real): real {
    FrontierGranted(c, labels, Exec(c, labels).wfs, a, cutoff)
  }

  /** Workflow `i` holds this reservation. */
  ghost predicate Holds(s: System, i: nat, res: L.Reservation) {
    i < |s.wfs| && HasReservation(s.wfs[i].local.at) && s.wfs[i].local.at.res == res
  }

  lemma StepKeepsReservation(c: Config, s: System, l: Label, i: nat, res: L.Reservation)
    requires SystemOk(c, s) && Enabled(c, s, l) && Holds(s, i, res)
    ensures Holds(Step(c, s, l), i, res)
  {
    if l.Attempt? {
      MovedShape(c, s, l);
    }
  }

  lemma {:induction false} ReservationStays(c: Config, labels: seq<Label>, more: seq<Label>, i: nat, res: L.Reservation)
    requires ValidRun(c, labels + more) && Holds(Exec(c, labels), i, res)
    ensures Holds(Exec(c, labels + more), i, res)
  {
    if more == [] {
      assert labels + more == labels;
    } else {
      var last := |more| - 1;
      assert (labels + more)[..|labels + more| - 1] == labels + more[..last];
      ReservationStays(c, labels, more[..last], i, res);
      RunOk(c, labels + more[..last]);
      StepKeepsReservation(c, Exec(c, labels + more[..last]), more[last], i, res);
    }
  }

  lemma GrantHolds(c: Config, s: System, l: Label)
    requires SystemOk(c, s) && Grants(c, s, l)
    ensures var input := s.wfs[l.i].input;
            Holds(Step(c, s, l), l.i,
                  L.Reserve(c.policy, Charges(s, input.account), Router.ProjectCost(input.task), l.now).1)
  {
  }

  lemma {:induction false} PrefixValid(c: Config, labels: seq<Label>, more: seq<Label>)
    requires ValidRun(c, labels + more)
    ensures ValidRun(c, labels)
  {
    if more == [] {
      assert labels + more == labels;
    } else {
      assert (labels + more)[..|labels + more| - 1] == labels + more[..|more| - 1];
      PrefixValid(c, labels, more[..|more| - 1]);
    }
  }

  /** No task is counted twice: a run grants each workflow at most one reservation. */
  lemma GrantedOnce(c: Config, labels: seq<Label>, l: Label, more: seq<Label>, m: Label)
    requires ValidRun(c, labels + [l] + more)
    requires Grants(c, Exec(c, labels), l) && Grants(c, Exec(c, labels + [l] + more), m)
    ensures l.i != m.i
  {
    PrefixValid(c, labels + [l], more);
    PrefixValid(c, labels, [l]);
    RunOk(c, labels);
    GrantHolds(c, Exec(c, labels), l);
    assert (labels + [l])[..|labels|] == labels;
    ReservationStays(c, labels + [l], more, l.i, Exec(c, labels + [l]).wfs[l.i].local.at.res);
  }

  /** A task that ends up routed frontier was granted a reservation that was not degraded, at its
      full cost. */
  lemma GrantIsFree(c: Config, labels: seq<Label>, l: Label, more: seq<Label>)
    requires ValidRun(c, labels + [l] + more) && Grants(c, Exec(c, labels), l)
    requires var end := Exec(c, labels + [l] + more).wfs; l.i < |end| && RoutedFrontier(end[l.i])
    ensures var s, end := Exec(c, labels), Exec(c, labels + [l] + more).wfs;
            var cost := CommandOf(s, l.i).projected;
            && end[l.i].local.at.dec.cost == cost
            && !L.Reserve(c.policy, Charges(s, s.wfs[l.i].input.account), cost, l.now).1.degraded
  {
    var s := Exec(c, labels);
    var input := s.wfs[l.i].input;
    var res := L.Reserve(c.policy, Charges(s, input.account), Router.ProjectCost(input.task), l.now).1;
    PrefixValid(c, labels + [l], more);
    PrefixValid(c, labels, [l]);
    RunOk(c, labels);
    GrantHolds(c, s, l);
    assert (labels + [l])[..|labels|] == labels;
    ReservationStays(c, labels + [l], more, l.i, res);
    RunOk(c, labels + [l] + more);
    var wf := Exec(c, labels + [l] + more).wfs[l.i];
    assert WorkflowOk(c, wf) && wf.local.at.res == res && res.projected == Router.ProjectCost(input.task);
    FrontierOwesItsCost(c, wf);
    Router.ProjectionBounds(wf.input.task, wf.local.at.degraded, c.pointers);
  }

  lemma SpendAppends(p: L.Policy, ops: seq<L.Op>, more: seq<L.Op>, cutoff: real)
    requires |more| <= 1 && F.AllCosted(more)
    ensures W.WindowSpend(p, ops + more, cutoff)
            == W.WindowSpend(p, ops, cutoff) + (if more == [] then 0.0 else W.SpendOf(p, F.After(p, ops), more[0], cutoff))
    ensures W.WindowSpend(p, ops + more, cutoff) >= W.WindowSpend(p, ops, cutoff)
  {
    if more == [] {
      assert ops + more == ops;
    } else {
      assert more == [more[0]] && F.Costed(more[0]);
      W.SpendAppend(p, ops, more[0], cutoff);
    }
  }

  /** A granted frontier cost is what the grant's operation adds to the window's spend. */
  lemma GrantSpends(c: Config, labels: seq<Label>, l: Label, more: seq<Label>, a: string, cutoff: real)
    requires ValidRun(c, labels + [l] + more)
    requires GrantedCost(c, Exec(c, labels), l, Exec(c, labels + [l] + more).wfs, a, cutoff) != 0.0
    ensures var s, op := Exec(c, labels), OpOf(c, Exec(c, labels), l, a);
            && |op| == 1
            && W.SpendOf(c.policy, Charges(s, a), op[0], cutoff)
               == GrantedCost(c, s, l, Exec(c, labels + [l] + more).wfs, a, cutoff)
  {
    GrantIsFree(c, labels, l, more);
  }

  /** One step adds no more frontier cost than its operation adds to the window's spend. */
  lemma StepInSpend(c: Config, labels: seq<Label>, l: Label, more: seq<Label>, a: string, cutoff: real)
    requires ValidRun(c, labels + [l] + more)
    ensures var s, end := Exec(c, labels), Exec(c, labels + [l] + more).wfs;
            var ops := OpsOf(c, labels, a);
            GrantedCost(c, s, l, end, a, cutoff)
            <= W.WindowSpend(c.policy, ops + OpOf(c, s, l, a), cutoff) - W.WindowSpend(c.policy, ops, cutoff)
  {
    var s, end := Exec(c, labels), Exec(c, labels + [l] + more).wfs;
    StepIsRun(c, labels, l, more);
    StepCosted(c, s, l, a);
    SpendAppends(c.policy, OpsOf(c, labels, a), OpOf(c, s, l, a), cutoff);
    OpsGiveCharges(c, labels, a);
    if GrantedCost(c, s, l, end, a, cutoff) != 0.0 {
      GrantSpends(c, labels, l, more, a, cutoff);
    }
  }

  lemma StepIsRun(c: Config, labels: seq<Label>, l: Label, more: seq<Label>)
    requires ValidRun(c, labels + [l] + more)
    ensures ValidRun(c, labels) && Enabled(c, Exec(c, labels), l) && SystemOk(c, Exec(c, labels))
  {
    PrefixValid(c, labels + [l], more);
    assert (labels + [l])[..|labels|] == labels;
    RunOk(c, labels);
  }

  /** The window's frontier spend is part of what its non-degraded reservations asked for. */
  lemma {:induction false} GrantedInSpend(c: Config, labels: seq<Label>, more: seq<Label>, a: string, cutoff: real)
    requires ValidRun(c, labels + more)
    ensures FrontierGranted(c, labels, Exec(c, labels + more).wfs, a, cutoff)
            <= W.WindowSpend(c.policy, OpsOf(c, labels, a), cutoff)
  {
    if labels != [] {
      var front, l := labels[..|labels| - 1], labels[|labels| - 1];
      assert labels == front + [l] && front + ([l] + more) == labels + more;
      GrantedInSpend(c, front, [l] + more, a, cutoff);
      StepInSpend(c, front, l, more, a, cutoff);
    }
  }

  lemma FrontierInWindowSpend(c: Config, labels: seq<Label>, a: string, cutoff: real)
    requires ValidRun(c, labels)
    ensures WindowFrontier(c, labels, a, cutoff) <= W.WindowSpend(c.policy, OpsOf(c, labels, a), cutoff)
  {
    assert labels + [] == labels;
    GrantedInSpend(c, labels, [], a, cutoff);
  }

  /** The operations so far delete in order, none of them crosses the window, and `now` is no
      earlier than their deletions. */
  ghost predicate Uncrossed(p: L.Policy, ops: seq<L.Op>, now: real) {
    K.DeletesInOrder(ops) && W.NeverCrosses(p, ops) && W.NoneLater(ops, now)
  }

  /** A part of the window's spend. */
  ghost predicate PartOf(p: L.Policy, ops: seq<L.Op>, cutoff: real, part: real) {
    F.AllCosted(ops) && part <= W.WindowSpend(p, ops, cutoff)
  }

  lemma PartBelow(p: L.Policy, ops: seq<L.Op>, now: real, part: real)
    requires p.threshold > 0.0 && p.window >= 0.0
    ensures PartOf(p, ops, now - p.window, part) && Uncrossed(p, ops, now) ==> part < p.threshold
  {
    if PartOf(p, ops, now - p.window, part) && Uncrossed(p, ops, now) {
      W.KeepsWindow(p, ops, now);
    }
  }

  lemma FrontierIsPart(c: Config, labels: seq<Label>, a: string, cutoff: real)
    requires ValidRun(c, labels)
    ensures PartOf(c.policy, OpsOf(c, labels, a), cutoff, WindowFrontier(c, labels, a, cutoff))
  {
    OpsCosted(c, labels, a);
    FrontierInWindowSpend(c, labels, a, cutoff);
  }

  /** The windowed frontier budget: in any run, whatever expired and whatever was repeated, an
      account's frontier-routed tasks granted in one window cost less than a positive threshold, as
      long as no non-degraded reservation crossed it. */
  lemma WindowFrontierBudget(c: Config, labels: seq<Label>, a: string, now: real)
    requires ValidRun(c, labels) && c.policy.threshold > 0.0 && c.policy.window >= 0.0
    requires Uncrossed(c.policy, OpsOf(c, labels, a), now)
    ensures WindowFrontier(c, labels, a, now - c.policy.window) < c.policy.threshold
  {
    FrontierIsPart(c, labels, a, now - c.policy.window);
    PartBelow(c.policy, OpsOf(c, labels, a), now, WindowFrontier(c, labels, a, now - c.policy.window));
  }
}
