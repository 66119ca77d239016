/** Runs that fail what the general results need a hypothesis for. */
module SampleRuns {
  import opened Options
  import opened RoutingModel
  import opened TaskTable
  import opened TaskWorkflow
  import opened Orchestration
  import opened SpendBreaker
  import opened Conservation
  import opened DurableRows
  import opened RunSteps
  import opened OvershootRuns
  import L = AccountLedger

  // ---- a FAILED row with a cost ----------------------------------------------------------

  /** Workflow 0 has been dispatched and is about to write its COMPLETED row. */
  lemma Delivers(c: Config) returns (labels: seq<Label>)
    requires Affords(c)
    ensures ValidRun(c, labels) && At(Exec(c, labels), 0, Active(Dispatched(GRANTED, false, Chosen(c))), 0)
  {
    labels := SettlesFirst(c);
    PassRecord(c, labels, 0, 0.0, GRANTED, false, Chosen(c));
    labels := labels + [Pass(0, 0.0)];
    PassQuietly(c, labels, 0, 0.0, Active(Dispatched(GRANTED, false, Chosen(c))));
    labels := labels + [Pass(0, 0.0)];
  }

  lemma SettlesFirst(c: Config) returns (labels: seq<Label>)
    requires Affords(c)
    ensures ValidRun(c, labels) && At(Exec(c, labels), 0, Active(Settled(GRANTED, false, Chosen(c))), 0)
  {
    labels := OneMoreChecked(c, [], 0);
    RunOk(c, labels);
    labels := Settles(c, labels, 0);
  }

  lemma LosesCompletion(c: Config, labels: seq<Label>, failed: nat)
    requires Affords(c) && StatusKind in c.lossy && ValidRun(c, labels) && failed < MAX_ATTEMPTS
    requires At(Exec(c, labels), 0, Active(Dispatched(GRANTED, false, Chosen(c))), failed)
    ensures ValidRun(c, labels + [Lose(0)]) && CompletionWritten(c, labels + [Lose(0)], 0)
    ensures At(Exec(c, labels + [Lose(0)]), 0, AfterLoss(Dispatched(GRANTED, false, Chosen(c)), failed),
               FailuresAfterLoss(failed))
  {
    LosesAttempt(c, labels, 0, Dispatched(GRANTED, false, Chosen(c)), failed);
    assert (labels + [Lose(0)])[..|labels|] == labels;
    assert Completes(c, Exec(c, labels), Lose(0), 0);
  }

  lemma FailsForGood(c: Config, labels: seq<Label>)
    requires Affords(c) && ValidRun(c, labels) && CompletionWritten(c, labels, 0)
    requires At(Exec(c, labels), 0, Handling(Dispatched(GRANTED, false, Chosen(c)), Reason(FAULT)), 0)
    ensures ValidRun(c, labels + [Pass(0, 0.0)]) && CompletionWritten(c, labels + [Pass(0, 0.0)], 0)
    ensures 0 < |Exec(c, labels + [Pass(0, 0.0)]).wfs| == |Exec(c, labels + [Pass(0, 0.0)]).rows|
    ensures Exec(c, labels + [Pass(0, 0.0)]).rows[0].status == FAILED
  {
    Extends(c, labels, Pass(0, 0.0));
    assert (labels + [Pass(0, 0.0)])[..|labels|] == labels;
  }

  /** Wherever status writes can be lost, a COMPLETED write that takes effect and is reported as failed
      three times leaves, after the FAILED write, a row that failed and has the cost of the routing
      it no longer names. */
  lemma FailedRowWithCost(c: Config) returns (labels: seq<Label>)
    requires StatusKind in c.lossy && Affords(c)
    ensures ValidRun(c, labels) && |Exec(c, labels).rows| > 0
    ensures var row := Exec(c, labels).rows[0];
            row.status == FAILED && row.cost.Some? && row.tier.None? && row.pointer.None?
  {
    labels := Delivers(c);
    LosesCompletion(c, labels, 0);
    LosesCompletion(c, labels + [Lose(0)], 1);
    LosesCompletion(c, labels + [Lose(0)] + [Lose(0)], 2);
    labels := labels + [Lose(0)] + [Lose(0)] + [Lose(0)];
    FailsForGood(c, labels);
    labels := labels + [Pass(0, 0.0)];
    CostMeansCompletion(c, labels, 0);
    LossyRunRows(c, labels);
    assert LossyRowMatches(Exec(c, labels).wfs[0], Exec(c, labels).rows[0]);
  }

  // ---- a settlement that takes another task's charge -------------------------------------

  /** Nothing is ever repeated; every escalated task is degraded. */
  const EXACT := Config(L.Policy(0.01, 60.0), None, map[Advanced := "advanced-model"], {})

  const INPUT := Input(ESCALATED, "acct")

  const FIRST := L.Reservation(true, 0.01, 0.01)

  const SECOND := L.Reservation(true, 0.01, 0.02)

  const CAPPED := Decision(Advanced, "advanced-model", true, 0.001)

  /** The two tasks stand there, and their account holds these charges. */
  ghost predicate Pair(labels: seq<Label>, p: Progress, q: Progress, charges: seq<L.Charge>) {
    && ValidRun(EXACT, labels)
    && Exec(EXACT, labels).wfs == [Workflow(INPUT, Active(p), 0, 0), Workflow(INPUT, Active(q), 0, 0)]
    && |Exec(EXACT, labels).rows| == 2
    && Charges(Exec(EXACT, labels), "acct") == charges
  }

  lemma BothLimited() returns (labels: seq<Label>)
    ensures Pair(labels, Limited, Limited, [])
  {
    Begins(EXACT, [], INPUT);
    labels := [] + [Begin(INPUT, None, "", 0.0)];
    Begins(EXACT, labels, INPUT);
    labels := labels + [Begin(INPUT, None, "", 0.0)];
    labels := Limits(EXACT, labels, 0);
    labels := Limits(EXACT, labels, 1);
  }

  lemma FirstMoves(labels: seq<Label>, labels': seq<Label>, p: Progress, p': Progress, q: Progress,
                   charges: seq<L.Charge>, charges': seq<L.Charge>)
    requires Pair(labels, p, q, charges) && ValidRun(EXACT, labels')
    requires Moves(Exec(EXACT, labels), Exec(EXACT, labels'), 0, Active(p'), 0)
    requires Charges(Exec(EXACT, labels'), "acct") == charges'
    ensures Pair(labels', p', q, charges')
  {
  }

  lemma SecondMoves(labels: seq<Label>, labels': seq<Label>, p: Progress, q: Progress, q': Progress,
                    charges: seq<L.Charge>, charges': seq<L.Charge>)
    requires Pair(labels, p, q, charges) && ValidRun(EXACT, labels')
    requires Moves(Exec(EXACT, labels), Exec(EXACT, labels'), 1, Active(q'), 0)
    requires Charges(Exec(EXACT, labels'), "acct") == charges'
    ensures Pair(labels', p, q', charges')
  {
  }

  lemma FirstReserves(labels: seq<Label>)
    requires Pair(labels, Limited, Limited, [])
    ensures Pair(labels + [Pass(0, 0.0)], Reserved(FIRST), Limited, [L.Charge(0.01, 0.0)])
  {
    FirstGrant(EXACT.policy);
    EmptyReserve(EXACT.policy);
    PassReserve(EXACT, labels, 0, 0.0, FIRST);
    FirstMoves(labels, labels + [Pass(0, 0.0)], Limited, Reserved(FIRST), Limited, [], [L.Charge(0.01, 0.0)]);
  }

  lemma EmptyReserve(p: L.Policy)
    ensures L.Reserve(p, [], 0.01, 0.0).0 == [L.Charge(0.01, 0.0)]
  {
    L.ReserveOn(p, [], 0.01, 0.0, []);
  }

  lemma NextReserve(p: L.Policy, held: seq<L.Charge>)
    requires p == L.Policy(0.01, 60.0) && held == [L.Charge(0.01, 0.0)]
    ensures L.Reserve(p, held, 0.01, 50.0).0 == held + [L.Charge(0.01, 50.0)]
    ensures L.Reserve(p, held, 0.01, 50.0).1 == SECOND
  {
    assert L.Prune(held, -10.0) == held && L.Total(held) == 0.01 by {
      L.OneCharge(held[0], -10.0);
    }
    L.ReserveOn(p, held, 0.01, 50.0, held);
  }

  lemma SecondReserves(labels: seq<Label>)
    requires Pair(labels, Reserved(FIRST), Limited, [L.Charge(0.01, 0.0)])
    ensures Pair(labels + [Pass(1, 50.0)], Reserved(FIRST), Reserved(SECOND),
                 [L.Charge(0.01, 0.0)] + [L.Charge(0.01, 50.0)])
  {
    NextReserve(EXACT.policy, [L.Charge(0.01, 0.0)]);
    PassReserve(EXACT, labels, 1, 50.0, SECOND);
    SecondMoves(labels, labels + [Pass(1, 50.0)], Reserved(FIRST), Limited, Reserved(SECOND),
                [L.Charge(0.01, 0.0)], [L.Charge(0.01, 0.0)] + [L.Charge(0.01, 50.0)]);
  }

  lemma FirstChecks(labels: seq<Label>, charges: seq<L.Charge>)
    requires Pair(labels, Reserved(FIRST), Reserved(SECOND), charges)
    ensures Pair(labels + [Pass(0, 50.0)], Checked(FIRST, true), Reserved(SECOND), charges)
  {
    PassQuietly(EXACT, labels, 0, 50.0, Active(Checked(FIRST, true)));
    FirstMoves(labels, labels + [Pass(0, 50.0)], Reserved(FIRST), Checked(FIRST, true), Reserved(SECOND), charges, charges);
  }

  lemma FirstRoutes(labels: seq<Label>, charges: seq<L.Charge>)
    requires Pair(labels, Checked(FIRST, true), Reserved(SECOND), charges)
    ensures Pair(labels + [Pass(0, 50.0)], Routed(FIRST, true, CAPPED), Reserved(SECOND), charges)
  {
    PassQuietly(EXACT, labels, 0, 50.0, Active(Routed(FIRST, true, CAPPED)));
    FirstMoves(labels, labels + [Pass(0, 50.0)], Checked(FIRST, true), Routed(FIRST, true, CAPPED), Reserved(SECOND),
               charges, charges);
  }

  lemma SettlesOnTheOther(p: L.Policy)
    requires p == L.Policy(0.01, 60.0)
    ensures L.Settle(p, [L.Charge(0.01, 0.0), L.Charge(0.01, 50.0)], 0.01, 0.001, 70.0).0 == [L.Charge(0.001, 50.0)]
  {
    var a, b := L.Charge(0.01, 0.0), L.Charge(0.01, 50.0);
    L.LastOfTwo(a, b, 10.0);
    L.SettleOn(p, [a, b], 0.01, 0.001, 70.0, [b]);
    assert L.Revalue([b], 0.01, 0.001) == [L.Charge(0.001, 50.0)];
  }

  lemma FirstSettles(labels: seq<Label>)
    requires Pair(labels, Routed(FIRST, true, CAPPED), Reserved(SECOND), [L.Charge(0.01, 0.0), L.Charge(0.01, 50.0)])
    ensures Pair(labels + [Pass(0, 70.0)], Settled(FIRST, true, CAPPED), Reserved(SECOND), [L.Charge(0.001, 50.0)])
  {
    SettlesOnTheOther(EXACT.policy);
    PassSettle(EXACT, labels, 0, 70.0, FIRST, true, CAPPED);
    FirstMoves(labels, labels + [Pass(0, 70.0)], Routed(FIRST, true, CAPPED), Settled(FIRST, true, CAPPED), Reserved(SECOND),
               [L.Charge(0.01, 0.0), L.Charge(0.01, 50.0)], [L.Charge(0.001, 50.0)]);
  }

  /** Once charges expire, a run of two tasks in which nothing is repeated no longer conserves what
      they owe: the first, reserved at 0, settles at 70 on the charge the second reserved at 50, and
      the account holds one charge of 0.001 where it owes that and the second's 0.01. */
  lemma ExpiryBreaksConservation() returns (labels: seq<Label>)
    ensures EXACT.lossy == {}
    ensures Pair(labels, Settled(FIRST, true, CAPPED), Reserved(SECOND), [L.Charge(0.001, 50.0)])
    ensures !Conserved(Exec(EXACT, labels)) && !BooksKept(EXACT, labels)
  {
    labels := BothLimited();
    FirstReserves(labels);
    SecondReserves(labels + [Pass(0, 0.0)]);
    labels := labels + [Pass(0, 0.0)] + [Pass(1, 50.0)];
    FirstChecks(labels, [L.Charge(0.01, 0.0), L.Charge(0.01, 50.0)]);
    labels := labels + [Pass(0, 50.0)];
    FirstRoutes(labels, [L.Charge(0.01, 0.0), L.Charge(0.01, 50.0)]);
    labels := labels + [Pass(0, 50.0)];
    FirstSettles(labels);
    labels := labels + [Pass(0, 70.0)];
    TooFewCharges(labels);
    ConservedExactly(EXACT, labels);
  }

  lemma TooFewCharges(labels: seq<Label>)
    requires Pair(labels, Settled(FIRST, true, CAPPED), Reserved(SECOND), [L.Charge(0.001, 50.0)])
    ensures !Conserved(Exec(EXACT, labels))
  {
    OwesTwo(Exec(EXACT, labels).wfs);
    AmountsSize(Charges(Exec(EXACT, labels), "acct"));
    assert !ConservedFor(Exec(EXACT, labels), "acct");
  }

  lemma OwesTwo(wfs: seq<Workflow>)
    requires |wfs| == 2 && |Share(wfs[0], "acct")| == |Share(wfs[1], "acct")| == 1
    ensures |Expected(wfs, "acct")| == 2
  {
    ExpectedLast(wfs, "acct");
    assert wfs[..1][..0] == [];
    ExpectedLast(wfs[..1], "acct");
  }
}
