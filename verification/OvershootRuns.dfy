/** Which configurations keep the overshoot bound of one frontier cost a workflow, and the runs that
    break it in all others: tasks on accounts of their own, all checked first, then each recording at
    every attempt. */
module OvershootRuns {
  import opened Options
  import opened RoutingModel
  import opened TaskTable
  import opened TaskWorkflow
  import opened Orchestration
  import opened SpendBreaker
  import opened Conservation
  import opened SpendLimits
  import opened BreakerOvershoot
  import opened RunSteps
  import L = AccountLedger
  import Router

  const ESCALATED := Task("", "", true, None)

  /** One account for each length. */
  function Name(k: nat): (name: string)
    ensures |name| == k
  {
    seq(k, _ => 'a')
  }

  function InputOf(k: nat): Input {
    Input(ESCALATED, Name(k))
  }

  const GRANTED := L.Reservation(false, FRONTIER_COST, FRONTIER_COST)

  /** Frontier can be routed, and one frontier task does not reach its account's threshold. */
  predicate Affords(c: Config) {
    Frontier in c.pointers && c.policy.threshold > FRONTIER_COST
  }

  /** And a record can take effect and be reported as failed. */
  predicate Exposed(c: Config) {
    c.breaker.Some? && c.breaker.value >= 0.0 && RecordKind in c.lossy && Affords(c)
  }

  // ---- checking ---------------------------------------------------------------------------

  lemma FirstGrant(p: L.Policy)
    ensures L.Reserve(p, [], FRONTIER_COST, 0.0).1
            == L.Reservation(FRONTIER_COST >= p.threshold, FRONTIER_COST, FRONTIER_COST)
  {
    L.ReserveOn(p, [], FRONTIER_COST, 0.0, []);
  }

  /** Workflow `i` gets from its start to its limit check. */
  lemma Limits(c: Config, labels: seq<Label>, i: nat) returns (labels': seq<Label>)
    requires ValidRun(c, labels) && At(Exec(c, labels), i, Active(Started), 0)
    ensures var s, s' := Exec(c, labels), Exec(c, labels');
            && ValidRun(c, labels') && Moves(s, s', i, Active(Limited), 0)
            && s'.ledger == s.ledger && s'.breaker == s.breaker
  {
    PassQuietly(c, labels, i, 0.0, Active(Marked));
    PassQuietly(c, labels + [Pass(i, 0.0)], i, 0.0, Active(Limited));
    labels' := labels + [Pass(i, 0.0)] + [Pass(i, 0.0)];
  }

  /** An escalated task on an empty account, with an untripped breaker, is checked for frontier. */
  lemma Checks(c: Config, labels: seq<Label>, i: nat) returns (labels': seq<Label>)
    requires Affords(c) && ValidRun(c, labels) && At(Exec(c, labels), i, Active(Limited), 0)
    requires var s := Exec(c, labels);
             s.wfs[i].input.task == ESCALATED && Charges(s, s.wfs[i].input.account) == [] && s.breaker == UNTRIPPED
    ensures var s, s' := Exec(c, labels), Exec(c, labels');
            && ValidRun(c, labels') && Moves(s, s', i, Active(Checked(GRANTED, false)), 0) && s'.breaker == UNTRIPPED
            && forall a :: a != s.wfs[i].input.account ==> Charges(s', a) == Charges(s, a)
  {
    FirstGrant(c.policy);
    PassReserve(c, labels, i, 0.0, GRANTED);
    PassQuietly(c, labels + [Pass(i, 0.0)], i, 0.0, Active(Checked(GRANTED, false)));
    labels' := labels + [Pass(i, 0.0)] + [Pass(i, 0.0)];
  }

  /** One more task, on the next account. */
  lemma OneMoreChecked(c: Config, labels: seq<Label>, k: nat) returns (labels': seq<Label>)
    requires Affords(c) && ValidRun(c, labels) && |Exec(c, labels).wfs| == k && Exec(c, labels).breaker == UNTRIPPED
    requires Charges(Exec(c, labels), Name(k)) == []
    ensures var s, s' := Exec(c, labels), Exec(c, labels');
            && ValidRun(c, labels') && s'.breaker == UNTRIPPED
            && s'.wfs == s.wfs + [Workflow(InputOf(k), Active(Checked(GRANTED, false)), 0, 0)]
            && forall a :: a != Name(k) ==> Charges(s', a) == Charges(s, a)
  {
    Begins(c, labels, InputOf(k));
    var begun := labels + [Begin(InputOf(k), None, "", 0.0)];
    labels' := Limits(c, begun, k);
    labels' := Checks(c, labels', k);
  }

  /** `n` tasks are checked for frontier, and none has recorded. */
  ghost predicate AllChecked(s: System, n: nat) {
    && |s.wfs| == n && s.breaker == UNTRIPPED
    && (forall k :: 0 <= k < n ==> s.wfs[k] == Workflow(InputOf(k), Active(Checked(GRANTED, false)), 0, 0))
    && forall a :: |a| >= n ==> Charges(s, a) == []
  }

  lemma AllCheckedNext(s: System, s': System, n: nat)
    requires AllChecked(s, n) && s'.breaker == UNTRIPPED
    requires s'.wfs == s.wfs + [Workflow(InputOf(n), Active(Checked(GRANTED, false)), 0, 0)]
    requires forall a :: a != Name(n) ==> Charges(s', a) == Charges(s, a)
    ensures AllChecked(s', n + 1)
  {
    forall a | |a| >= n + 1 ensures Charges(s', a) == [] {
      assert a != Name(n);
    }
  }

  lemma NothingChecked()
    ensures AllChecked(EMPTY, 0)
  {
  }

  lemma {:induction false} ChecksAll(c: Config, n: nat) returns (labels: seq<Label>)
    requires Exposed(c)
    ensures ValidRun(c, labels) && AllChecked(Exec(c, labels), n)
  {
    if n == 0 {
      labels := [];
      NothingChecked();
    } else {
      var before := ChecksAll(c, n - 1);
      assert Charges(Exec(c, before), Name(n - 1)) == [];
      labels := OneMoreChecked(c, before, n - 1);
      AllCheckedNext(Exec(c, before), Exec(c, labels), n - 1);
    }
  }

  // ---- recording at every attempt ---------------------------------------------------------

  /** The routing of a checked task. */
  function Chosen(c: Config): Decision
    requires Frontier in c.pointers
  {
    Decision(Frontier, c.pointers[Frontier], false, FRONTIER_COST)
  }

  lemma Settles(c: Config, labels: seq<Label>, i: nat) returns (labels': seq<Label>)
    requires Frontier in c.pointers && ValidRun(c, labels)
    requires At(Exec(c, labels), i, Active(Checked(GRANTED, false)), 0)
    requires Exec(c, labels).wfs[i].input.task == ESCALATED
    ensures var s, s' := Exec(c, labels), Exec(c, labels');
            && ValidRun(c, labels') && Moves(s, s', i, Active(Settled(GRANTED, false, Chosen(c))), 0)
            && FrontierRecorded(c, labels') == FrontierRecorded(c, labels)
  {
    PassQuietly(c, labels, i, 0.0, Active(Routed(GRANTED, false, Chosen(c))));
    PassSettle(c, labels + [Pass(i, 0.0)], i, 0.0, GRANTED, false, Chosen(c));
    labels' := labels + [Pass(i, 0.0)] + [Pass(i, 0.0)];
  }

  lemma RecordsOnce(c: Config, labels: seq<Label>, i: nat, failed: nat)
    requires Exposed(c) && ValidRun(c, labels) && failed < MAX_ATTEMPTS
    requires At(Exec(c, labels), i, Active(Settled(GRANTED, false, Chosen(c))), failed)
    ensures var s, s' := Exec(c, labels), Exec(c, labels + [Lose(i)]);
            && ValidRun(c, labels + [Lose(i)])
            && Moves(s, s', i, AfterLoss(Settled(GRANTED, false, Chosen(c)), failed), FailuresAfterLoss(failed))
            && FrontierRecorded(c, labels + [Lose(i)]) == FrontierRecorded(c, labels) + FRONTIER_COST
  {
    LosesAttempt(c, labels, i, Settled(GRANTED, false, Chosen(c)), failed);
  }

  /** Only workflow `i` differs, and so much more has been recorded for frontier. */
  ghost predicate Grew(c: Config, labels: seq<Label>, labels': seq<Label>, i: nat, records: nat) {
    && ValidRun(c, labels') && |Exec(c, labels').wfs| == |Exec(c, labels).wfs|
    && (forall k :: 0 <= k < |Exec(c, labels).wfs| && k != i ==> Exec(c, labels').wfs[k] == Exec(c, labels).wfs[k])
    && FrontierRecorded(c, labels') == FrontierRecorded(c, labels) + FrontierCost(records)
  }

  lemma GrewAgain(c: Config, a: seq<Label>, b: seq<Label>, d: seq<Label>, i: nat, m: nat, n: nat)
    requires Grew(c, a, b, i, m) && Grew(c, b, d, i, n)
    ensures Grew(c, a, d, i, m + n)
  {
    CostPlus(m, n);
  }

  lemma SettlesAlone(c: Config, labels: seq<Label>, i: nat) returns (labels': seq<Label>)
    requires Exposed(c) && ValidRun(c, labels) && At(Exec(c, labels), i, Active(Checked(GRANTED, false)), 0)
    requires Exec(c, labels).wfs[i].input.task == ESCALATED
    ensures Grew(c, labels, labels', i, 0) && At(Exec(c, labels'), i, Active(Settled(GRANTED, false, Chosen(c))), 0)
  {
    labels' := Settles(c, labels, i);
  }

  lemma RecordsAlone(c: Config, labels: seq<Label>, i: nat, failed: nat)
    requires Exposed(c) && ValidRun(c, labels) && failed < MAX_ATTEMPTS
    requires At(Exec(c, labels), i, Active(Settled(GRANTED, false, Chosen(c))), failed)
    ensures Grew(c, labels, labels + [Lose(i)], i, 1)
    ensures At(Exec(c, labels + [Lose(i)]), i, AfterLoss(Settled(GRANTED, false, Chosen(c)), failed), FailuresAfterLoss(failed))
  {
    RecordsOnce(c, labels, i, failed);
  }

  /** A checked task records three times. */
  lemma RecordsThrice(c: Config, labels: seq<Label>, i: nat) returns (labels': seq<Label>)
    requires Exposed(c) && ValidRun(c, labels) && At(Exec(c, labels), i, Active(Checked(GRANTED, false)), 0)
    requires Exec(c, labels).wfs[i].input.task == ESCALATED
    ensures Grew(c, labels, labels', i, 3)
  {
    var zero := SettlesAlone(c, labels, i);
    var one, two := zero + [Lose(i)], zero + [Lose(i)] + [Lose(i)];
    RecordsAlone(c, zero, i, 0);
    GrewAgain(c, labels, zero, one, i, 0, 1);
    RecordsAlone(c, one, i, 1);
    GrewAgain(c, labels, one, two, i, 1, 1);
    labels' := two + [Lose(i)];
    RecordsAlone(c, two, i, 2);
    GrewAgain(c, labels, two, labels', i, 2, 1);
  }

  /** Of `n` checked tasks the first `m` have recorded three times each. */
  ghost predicate Recording(c: Config, labels: seq<Label>, n: nat, m: nat) {
    && ValidRun(c, labels) && |Exec(c, labels).wfs| == n
    && (forall k :: m <= k < n ==> Exec(c, labels).wfs[k] == Workflow(InputOf(k), Active(Checked(GRANTED, false)), 0, 0))
    && FrontierRecorded(c, labels) == FrontierCost(3 * m)
  }

  lemma NextRecords(c: Config, labels: seq<Label>, n: nat, m: nat) returns (labels': seq<Label>)
    requires Exposed(c) && m < n && Recording(c, labels, n, m)
    ensures Recording(c, labels', n, m + 1)
  {
    RunOk(c, labels);
    labels' := RecordsThrice(c, labels, m);
    CostPlus(3 * m, 3);
  }

  lemma NoneRecording(c: Config, labels: seq<Label>, n: nat)
    requires c.breaker.Some? && c.breaker.value >= 0.0 && ValidRun(c, labels) && AllChecked(Exec(c, labels), n)
    ensures Recording(c, labels, n, 0)
  {
    NothingRecorded(c, labels, n);
  }

  lemma {:induction false} RecordsAll(c: Config, n: nat, m: nat) returns (labels: seq<Label>)
    requires Exposed(c) && m <= n
    ensures Recording(c, labels, n, m)
  {
    if m == 0 {
      labels := ChecksAll(c, n);
      NoneRecording(c, labels, n);
    } else {
      labels := RecordsAll(c, n, m - 1);
      labels := NextRecords(c, labels, n, m - 1);
    }
  }

  lemma NothingRecorded(c: Config, labels: seq<Label>, n: nat)
    requires c.breaker.Some? && c.breaker.value >= 0.0 && ValidRun(c, labels) && AllChecked(Exec(c, labels), n)
    ensures FrontierRecorded(c, labels) == 0.0
  {
    BoundedByAll(c, labels, n);
    RunKeepsBounds(true, c, labels, n);
  }

  lemma {:induction false} LiveAtMostAll(wfs: seq<Workflow>)
    ensures LiveCount(wfs) <= |wfs|
  {
    if wfs != [] {
      LiveAtMostAll(wfs[..|wfs| - 1]);
    }
  }

  lemma {:induction false} BoundedByAll(c: Config, labels: seq<Label>, n: nat)
    requires ValidRun(c, labels) && |Exec(c, labels).wfs| <= n
    ensures LiveBounded(c, labels, n)
  {
    LiveAtMostAll(Exec(c, labels).wfs);
    if labels != [] {
      BoundedByAll(c, labels[..|labels| - 1], n);
    }
  }

  /** In an exposed configuration `n` workflows record three times each. */
  lemma RepeatedRecords(c: Config, n: nat) returns (labels: seq<Label>)
    requires Exposed(c)
    ensures ValidRun(c, labels) && LiveBounded(c, labels, n) && FrontierRecorded(c, labels) == FrontierCost(3 * n)
  {
    labels := RecordsAll(c, n, n);
    BoundedByAll(c, labels, n);
  }

  // ---- exactly which configurations keep the bound ----------------------------------------

  /** Every run of the configuration keeps the bound of one frontier cost a workflow. */
  ghost predicate KeepsBound(c: Config)
    requires c.breaker.Some?
  {
    forall labels, n: nat :: ValidRun(c, labels) && LiveBounded(c, labels, n) ==>
      Below(c.breaker.value, FrontierRecorded(c, labels), FrontierCost(n))
  }

  /** At a threshold of at most one frontier cost, every escalated task's reservation is degraded. */
  ghost predicate EscalatedDegraded(s: System) {
    forall i :: 0 <= i < |s.wfs| && s.wfs[i].input.task.escalate && HasReservation(s.wfs[i].local.at) ==>
      s.wfs[i].local.at.res.degraded
  }

  lemma GrantDegraded(c: Config, s: System, a: string, now: real)
    requires c.policy.threshold <= FRONTIER_COST && L.NonNegative(Charges(s, a))
    ensures L.Reserve(c.policy, Charges(s, a), FRONTIER_COST, now).1.degraded
  {
    L.PruneNeverRaises(Charges(s, a), now - c.policy.window);
    L.ReserveOn(c.policy, Charges(s, a), FRONTIER_COST, now, L.Prune(Charges(s, a), now - c.policy.window));
  }

  lemma MovedDegraded(c: Config, s: System, l: Label)
    requires SystemOk(c, s) && EscalatedDegraded(s) && LedgerNonNegative(s) && Enabled(c, s, l) && l.Attempt?
    requires c.policy.threshold <= FRONTIER_COST && s.wfs[l.i].input.task.escalate
    ensures var after := Moved(c, s, l); HasReservation(after.local.at) ==> after.local.at.res.degraded
  {
    var before := s.wfs[l.i];
    MovedShape(c, s, l);
    if l.report.Success? && CommandOf(s, l.i).ReserveUsage? {
      assert before.local == Active(Limited);
      assert L.NonNegative(Charges(s, before.input.account));
      GrantDegraded(c, s, before.input.account, l.now);
    } else if l.report.Success? && !TouchesLedger(CommandOf(s, l.i)) {
      OtherProgress(before.input, before.local, Reply(c, s, l.i, CommandOf(s, l.i), l.now, l.allowed));
    }
  }

  lemma {:induction false} RunDegrades(c: Config, labels: seq<Label>)
    requires ValidRun(c, labels) && c.policy.threshold <= FRONTIER_COST
    ensures EscalatedDegraded(Exec(c, labels))
  {
    if labels != [] {
      var front, l := labels[..|labels| - 1], labels[|labels| - 1];
      RunDegrades(c, front);
      RunOk(c, front);
      RunNonNegative(c, front);
      if l.Attempt? {
        if Exec(c, front).wfs[l.i].input.task.escalate {
          MovedDegraded(c, Exec(c, front), l);
        }
        MovedShape(c, Exec(c, front), l);
      }
    }
  }

  lemma NeverRepeats(c: Config, labels: seq<Label>, l: Label)
    requires ValidRun(c, labels) && !(RecordKind in c.lossy && Affords(c))
    ensures !Repeats(c, Exec(c, labels), l)
  {
    var s := Exec(c, labels);
    if Repeats(c, s, l) {
      RunOk(c, labels);
      var wf := s.wfs[l.i];
      assert WorkflowOk(c, wf);
      FrontierOwesItsCost(c, wf);
      assert wf.input.task.escalate && Frontier in c.pointers;
      RunDegrades(c, labels);
    }
  }

  lemma {:induction false} RunNeverRepeats(c: Config, labels: seq<Label>)
    requires ValidRun(c, labels) && !(RecordKind in c.lossy && Affords(c))
    ensures NoneRepeated(c, labels)
  {
    if labels != [] {
      RunNeverRepeats(c, labels[..|labels| - 1]);
      NeverRepeats(c, labels[..|labels| - 1], labels[|labels| - 1]);
    }
  }

  /** Enough workflows to overshoot any threshold. */
  lemma EnoughWorkflows(threshold: real) returns (n: nat)
    requires threshold >= 0.0
    ensures !Below(threshold, FrontierCost(3 * n), FrontierCost(n))
  {
    n := (threshold / FRONTIER_COST).Floor + 1;
    assert n as real * FRONTIER_COST >= threshold;
  }

  /** Exactly the configurations whose every run keeps the bound: those in which records are never
      lost, frontier has no model, or one frontier task already reaches its account's threshold. */
  lemma OvershootExactly(c: Config)
    requires c.breaker.Some? && c.breaker.value >= 0.0
    ensures KeepsBound(c)
      <==> RecordKind !in c.lossy || Frontier !in c.pointers || c.policy.threshold <= FRONTIER_COST
  {
    if Exposed(c) {
      var n := EnoughWorkflows(c.breaker.value);
      var labels := RepeatedRecords(c, n);
    } else {
      forall labels, n: nat | ValidRun(c, labels) && LiveBounded(c, labels, n)
        ensures Below(c.breaker.value, FrontierRecorded(c, labels), FrontierCost(n))
      {
        RunNeverRepeats(c, labels);
        OvershootBound(c, labels, n);
      }
    }
  }
}
