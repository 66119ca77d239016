/** What the account threshold and the global breaker bound over whole runs: the frontier spend. */
module SpendLimits {
  import opened Options
  import opened RoutingModel
  import opened TaskWorkflow
  import opened Orchestration
  import opened Conservation
  import opened SpendBreaker
  import L = AccountLedger
  import Router

  predicate RoutedFrontier(wf: Workflow) {
    HasDecision(wf.local.at) && wf.local.at.dec.tier == Frontier
  }

  // ---- one account: the degradation threshold --------------------------------------------

  predicate NonDegraded(wf: Workflow) {
    HasReservation(wf.local.at) && !wf.local.at.res.degraded
  }

  /** What a workflow's non-degraded reservation currently amounts to. */
  function NonDegradedShare(wf: Workflow): real {
    if NonDegraded(wf) && ChargeAt(wf.local.at).Some? then ChargeAt(wf.local.at).value else 0.0
  }

  function NonDegradedTotal(wfs: seq<Workflow>, account: string): real {
    if wfs == [] then 0.0
    else
      var last := wfs[|wfs| - 1];
      NonDegradedTotal(wfs[..|wfs| - 1], account) + (if last.input.account == account then NonDegradedShare(last) else 0.0)
  }

  /** The summed cost of an account's frontier-routed tasks. */
  function FrontierSpend(wfs: seq<Workflow>, account: string): real {
    if wfs == [] then 0.0
    else
      var last := wfs[|wfs| - 1];
      FrontierSpend(wfs[..|wfs| - 1], account)
      + (if last.input.account == account && RoutedFrontier(last) then last.local.at.dec.cost else 0.0)
  }

  lemma {:induction false} NonDegradedTotalUpdate(wfs: seq<Workflow>, i: nat, wf: Workflow, a: string)
    requires i < |wfs| && wf.input.account == wfs[i].input.account
    ensures NonDegradedTotal(wfs[i := wf], a)
            == NonDegradedTotal(wfs, a) + (if wf.input.account == a then NonDegradedShare(wf) - NonDegradedShare(wfs[i]) else 0.0)
  {
    var last := |wfs| - 1;
    if i == last {
      assert wfs[i := wf][..last] == wfs[..last];
    } else {
      NonDegradedTotalUpdate(wfs[..last], i, wf, a);
      assert wfs[i := wf][..last] == wfs[..last][i := wf];
    }
  }

  lemma NonDegradedTotalAppend(wfs: seq<Workflow>, wf: Workflow, a: string)
    requires NonDegradedShare(wf) == 0.0
    ensures NonDegradedTotal(wfs + [wf], a) == NonDegradedTotal(wfs, a)
  {
    assert (wfs + [wf])[..|wfs|] == wfs;
  }

  lemma {:induction false} TimesNonNegative(n: nat, cost: real)
    requires cost >= 0.0
    ensures Times(n, cost) >= 0.0
  {
    if n > 0 {
      TimesNonNegative(n - 1, cost);
    }
  }

  /** A frontier-routed task was escalated, neither flag degraded it, and it owes its full cost. */
  lemma FrontierOwesItsCost(c: Config, wf: Workflow)
    requires WorkflowOk(c, wf)
    ensures 0.0 <= NonDegradedShare(wf) <= OwesTotal(wf)
    ensures RoutedFrontier(wf) ==> NonDegraded(wf) && NonDegradedShare(wf) == wf.local.at.dec.cost
                                   == DEFAULT_COST_MODEL.frontier
    ensures ChargeAt(wf.local.at).Some? ==> 0.0 < ChargeAt(wf.local.at).value
  {
    var p := wf.local.at;
    TimesNonNegative(wf.orphans, Router.ProjectCost(wf.input.task));
    if HasDecision(p) {
      Router.ProjectionBounds(wf.input.task, p.degraded, c.pointers);
    }
  }

  lemma {:induction false} FrontierWithinNonDegraded(c: Config, wfs: seq<Workflow>, a: string)
    requires forall i :: 0 <= i < |wfs| ==> WorkflowOk(c, wfs[i])
    ensures 0.0 <= FrontierSpend(wfs, a) <= NonDegradedTotal(wfs, a) <= ExpectedTotal(wfs, a)
  {
    if wfs != [] {
      FrontierWithinNonDegraded(c, wfs[..|wfs| - 1], a);
      FrontierOwesItsCost(c, wfs[|wfs| - 1]);
    }
  }

  ghost predicate WithinThreshold(c: Config, s: System) {
    forall a :: if c.policy.threshold > 0.0 then NonDegradedTotal(s.wfs, a) < c.policy.threshold
                else NonDegradedTotal(s.wfs, a) <= 0.0
  }

  /** Only a granted, non-degraded reservation raises a workflow's share; settling never does. */
  lemma NonDegradedMoves(c: Config, s: System, l: Label)
    requires SystemOk(c, s) && Enabled(c, s, l) && l.Attempt?
    ensures l.report.Success? && CommandOf(s, l.i).ReserveUsage? ==>
              var a, cost := s.wfs[l.i].input.account, CommandOf(s, l.i).projected;
              var res := L.Reserve(c.policy, Charges(s, a), cost, l.now).1;
              && NonDegradedShare(s.wfs[l.i]) == 0.0
              && NonDegradedShare(Moved(c, s, l)) == if res.degraded then 0.0 else cost
    ensures !(l.report.Success? && CommandOf(s, l.i).ReserveUsage?) ==>
              NonDegradedShare(Moved(c, s, l)) <= NonDegradedShare(s.wfs[l.i])
  {
    var before, after := s.wfs[l.i], Moved(c, s, l);
    MovedShape(c, s, l);
    assert WorkflowOk(c, before);
    if l.report.Success? && CommandOf(s, l.i).ReserveUsage? {
      assert before.local == Active(Limited);
    } else if l.report.Success? && CommandOf(s, l.i).SettleUsage? {
      assert before.local.Active? && before.local.at.Routed?;
      Router.ProjectionBounds(before.input.task, before.local.at.degraded, c.pointers);
    } else if l.report.Success? {
      OtherProgress(before.input, before.local, Reply(c, s, l.i, CommandOf(s, l.i), l.now, l.allowed));
    }
  }

  lemma OtherProgress(input: Input, l: Local, v: Value)
    requires Next(input, l).Some? && !TouchesLedger(Next(input, l).value)
    ensures var l' := Advance(l, v);
            && ChargeAt(l'.at) == ChargeAt(l.at)
            && (HasReservation(l'.at) <==> HasReservation(l.at))
            && (HasReservation(l.at) ==> l'.at.res == l.at.res)
  {
  }

  lemma StepWithinThreshold(c: Config, s: System, l: Label)
    requires SystemOk(c, s) && Conserved(s) && WithinThreshold(c, s) && Enabled(c, s, l) && NothingExpires(c, s, l)
    ensures WithinThreshold(c, Step(c, s, l))
  {
    if l.Begin? {
      forall a ensures NonDegradedTotal(Step(c, s, l).wfs, a) == NonDegradedTotal(s.wfs, a) {
        NonDegradedTotalAppend(s.wfs, Workflow(l.input, Active(Started), 0, 0), a);
      }
    } else {
      AttemptWithinThreshold(c, s, l);
    }
  }

  lemma AttemptWithinThreshold(c: Config, s: System, l: Label)
    requires SystemOk(c, s) && Conserved(s) && WithinThreshold(c, s) && Enabled(c, s, l) && NothingExpires(c, s, l)
    requires l.Attempt?
    ensures WithinThreshold(c, Step(c, s, l))
  {
    var after, mine := Moved(c, s, l), s.wfs[l.i].input.account;
    MovedShape(c, s, l);
    NonDegradedMoves(c, s, l);
    assert Step(c, s, l).wfs == s.wfs[l.i := after];
    if l.report.Success? && CommandOf(s, l.i).ReserveUsage? {
      ReserveAdds(c.policy, Charges(s, mine), CommandOf(s, l.i).projected, l.now);
      assert ConservedFor(s, mine);
      FrontierWithinNonDegraded(c, s.wfs, mine);
    }
    forall a ensures if c.policy.threshold > 0.0 then NonDegradedTotal(Step(c, s, l).wfs, a) < c.policy.threshold
                     else NonDegradedTotal(Step(c, s, l).wfs, a) <= 0.0 {
      NonDegradedTotalUpdate(s.wfs, l.i, after, a);
    }
  }

  lemma {:induction false} RunWithinThreshold(c: Config, labels: seq<Label>)
    requires ValidRun(c, labels) && BooksKept(c, labels)
    ensures WithinThreshold(c, Exec(c, labels))
  {
    if labels != [] {
      var front, l := labels[..|labels| - 1], labels[|labels| - 1];
      RunWithinThreshold(c, front);
      RunOk(c, front);
      ChargesAreConserved(c, front);
      StepWithinThreshold(c, Exec(c, front), l);
    }
  }

  /** The frontier budget: in every reachable state of every interleaving that keeps the books, an
      account's frontier-routed tasks together cost strictly less than a positive threshold,
      whatever settlements and the breaker did; at a threshold of zero or less there are none. */
  lemma FrontierBudget(c: Config, labels: seq<Label>, account: string)
    requires ValidRun(c, labels) && BooksKept(c, labels)
    ensures c.policy.threshold > 0.0 ==> FrontierSpend(Exec(c, labels).wfs, account) < c.policy.threshold
    ensures c.policy.threshold <= 0.0 ==> FrontierSpend(Exec(c, labels).wfs, account) == 0.0
  {
    RunWithinThreshold(c, labels);
    RunOk(c, labels);
    FrontierWithinNonDegraded(c, Exec(c, labels).wfs, account);
  }

  /** Some of an account's frontier-routed workflows. */
  ghost predicate FrontierSet(wfs: seq<Workflow>, a: string, hits: set<nat>) {
    forall i :: i in hits ==> i < |wfs| && wfs[i].input.account == a && RoutedFrontier(wfs[i])
  }

  /** What `n` frontier tasks cost. */
  function FrontierCost(n: nat): real {
    n as real * DEFAULT_COST_MODEL.frontier
  }

  lemma OneFewer(hits: set<nat>, i: nat)
    requires i in hits
    ensures FrontierCost(|hits|) == FrontierCost(|hits - {i}|) + DEFAULT_COST_MODEL.frontier
  {
    assert |hits| == |hits - {i}| + 1;
  }

  lemma SpendGrows(c: Config, wfs: seq<Workflow>, a: string)
    requires wfs != [] && WorkflowOk(c, wfs[|wfs| - 1])
    ensures var last := |wfs| - 1;
            && FrontierSpend(wfs, a) >= FrontierSpend(wfs[..last], a)
            && (wfs[last].input.account == a && RoutedFrontier(wfs[last]) ==>
                  FrontierSpend(wfs, a) == FrontierSpend(wfs[..last], a) + DEFAULT_COST_MODEL.frontier)
  {
    FrontierOwesItsCost(c, wfs[|wfs| - 1]);
  }

  lemma HitsBefore(wfs: seq<Workflow>, a: string, hits: set<nat>)
    requires wfs != [] && FrontierSet(wfs, a, hits)
    ensures FrontierSet(wfs[..|wfs| - 1], a, hits - {|wfs| - 1})
  {
  }

  lemma NoHits(a: string, hits: set<nat>)
    requires FrontierSet([], a, hits)
    ensures FrontierCost(|hits|) == 0.0
  {
    if i :| i in hits {
      assert false;
    }
    assert hits == {};
  }

  lemma HitsCounted(c: Config, wfs: seq<Workflow>, a: string, hits: set<nat>)
    requires wfs != [] && WorkflowOk(c, wfs[|wfs| - 1]) && FrontierSet(wfs, a, hits)
    requires FrontierSpend(wfs[..|wfs| - 1], a) >= FrontierCost(|hits - {|wfs| - 1}|)
    ensures FrontierSpend(wfs, a) >= FrontierCost(|hits|)
  {
    var last := |wfs| - 1;
    SpendGrows(c, wfs, a);
    if last in hits {
      OneFewer(hits, last);
    } else {
      assert hits - {last} == hits;
    }
  }

  ghost predicate AllOk(c: Config, wfs: seq<Workflow>) {
    forall i :: 0 <= i < |wfs| ==> WorkflowOk(c, wfs[i])
  }

  lemma {:induction false} SpendAtLeast(c: Config, wfs: seq<Workflow>, a: string, hits: set<nat>)
    requires AllOk(c, wfs) && FrontierSet(wfs, a, hits)
    ensures FrontierSpend(wfs, a) >= FrontierCost(|hits|)
    decreases |wfs|
  {
    if wfs == [] {
      NoHits(a, hits);
    } else {
      var last := |wfs| - 1;
      HitsBefore(wfs, a, hits);
      assert AllOk(c, wfs[..last]);
      SpendAtLeast(c, wfs[..last], a, hits - {last});
      assert WorkflowOk(c, wfs[last]);
      HitsCounted(c, wfs, a, hits);
    }
  }

  /** However many of an account's tasks are routed frontier, together they stay below a positive
      threshold; so no two are when two would reach it. */
  lemma FewFrontier(c: Config, labels: seq<Label>, account: string, hits: set<nat>)
    requires ValidRun(c, labels) && BooksKept(c, labels) && FrontierSet(Exec(c, labels).wfs, account, hits)
    ensures hits != {} ==> FrontierCost(|hits|) < c.policy.threshold
  {
    RunOk(c, labels);
    FrontierBudget(c, labels, account);
    SpendAtLeast(c, Exec(c, labels).wfs, account, hits);
    if i :| i in hits {
      OneFewer(hits, i);
      assert FrontierCost(|hits - {i}|) >= 0.0;
    }
  }

  /** Two tasks of one account cannot both be routed frontier when together they reach the threshold. */
  lemma NotBothFrontier(c: Config, labels: seq<Label>, i: nat, j: nat)
    requires ValidRun(c, labels) && BooksKept(c, labels)
    requires i < |Exec(c, labels).wfs| && j < |Exec(c, labels).wfs| && i != j
    requires Exec(c, labels).wfs[i].input.account == Exec(c, labels).wfs[j].input.account
    requires 2.0 * DEFAULT_COST_MODEL.frontier >= c.policy.threshold
    ensures !(RoutedFrontier(Exec(c, labels).wfs[i]) && RoutedFrontier(Exec(c, labels).wfs[j]))
  {
    var wfs := Exec(c, labels).wfs;
    var both := {i, j};
    assert |both| == 2;
    if RoutedFrontier(wfs[i]) && RoutedFrontier(wfs[j]) {
      FewFrontier(c, labels, wfs[i].input.account, both);
    }
  }

  // ---- settlements only lower ------------------------------------------------------------

  ghost predicate LedgerNonNegative(s: System) {
    forall a :: L.NonNegative(Charges(s, a))
  }

  /** The settle activity always asks for at most what it reserved. */
  lemma SettleCommandLowers(c: Config, s: System, l: Label)
    requires SystemOk(c, s) && Enabled(c, s, l) && l.Attempt? && CommandOf(s, l.i).SettleUsage?
    ensures 0.0 < CommandOf(s, l.i).actual <= CommandOf(s, l.i).reserved
  {
    var wf := s.wfs[l.i];
    assert WorkflowOk(c, wf) && wf.local.Active? && wf.local.at.Routed?;
    Router.ProjectionBounds(wf.input.task, wf.local.at.degraded, c.pointers);
  }

  lemma OwnNonNegative(c: Config, s: System, l: Label)
    requires SystemOk(c, s) && Enabled(c, s, l) && l.Attempt? && L.NonNegative(Charges(s, s.wfs[l.i].input.account))
    ensures L.NonNegative(Charges(Step(c, s, l), s.wfs[l.i].input.account))
  {
    var charges, command := Charges(s, s.wfs[l.i].input.account), CommandOf(s, l.i);
    LedgerMoves(c, s, l);
    if command.ReserveUsage? {
      var live := L.Prune(charges, l.now - c.policy.window);
      L.PruneNeverRaises(charges, l.now - c.policy.window);
      L.ReserveOn(c.policy, charges, command.projected, l.now, live);
      L.AppendNonNegative(live, L.Charge(command.projected, l.now));
    } else if command.SettleUsage? {
      SettleCommandLowers(c, s, l);
      L.SettleNeverRaises(c.policy, charges, command.reserved, command.actual, l.now);
    }
  }

  lemma StepNonNegative(c: Config, s: System, l: Label)
    requires SystemOk(c, s) && LedgerNonNegative(s) && Enabled(c, s, l)
    ensures LedgerNonNegative(Step(c, s, l))
  {
    if l.Attempt? {
      LedgerMoves(c, s, l);
      OwnNonNegative(c, s, l);
    }
    forall a ensures L.NonNegative(Charges(Step(c, s, l), a)) {
      assert L.NonNegative(Charges(s, a));
    }
  }

  lemma {:induction false} RunNonNegative(c: Config, labels: seq<Label>)
    requires ValidRun(c, labels)
    ensures LedgerNonNegative(Exec(c, labels))
  {
    if labels == [] {
      assert forall a :: Charges(EMPTY, a) == [];
    } else {
      RunNonNegative(c, labels[..|labels| - 1]);
      RunOk(c, labels[..|labels| - 1]);
      StepNonNegative(c, Exec(c, labels[..|labels| - 1]), labels[|labels| - 1]);
    }
  }

  /** In any run at all, pruning and repeated settlements included, a settle attempt never raises
      its account's balance. */
  lemma SettlementsOnlyLower(c: Config, labels: seq<Label>, l: Label)
    requires ValidRun(c, labels) && Enabled(c, Exec(c, labels), l) && l.Attempt?
    requires CommandOf(Exec(c, labels), l.i).SettleUsage?
    ensures var s := Exec(c, labels);
            var a := s.wfs[l.i].input.account;
            L.Total(Charges(Step(c, s, l), a)) <= L.Total(Charges(s, a))
  {
    var s := Exec(c, labels);
    var a, command := s.wfs[l.i].input.account, CommandOf(s, l.i);
    RunOk(c, labels);
    RunNonNegative(c, labels);
    LedgerMoves(c, s, l);
    SettleCommandLowers(c, s, l);
    assert L.NonNegative(Charges(s, a));
    L.SettleNeverRaises(c.policy, Charges(s, a), command.reserved, command.actual, l.now);
  }
}
