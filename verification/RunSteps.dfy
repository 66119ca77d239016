/** Building runs of the interleaved workflows one attempt at a time: what each kind of attempt does
    to its own workflow, the ledger and the breaker, in any state. */
module RunSteps {
  import opened Options
  import opened RoutingModel
  import opened TaskTable
  import opened TaskWorkflow
  import opened Orchestration
  import opened SpendBreaker
  import opened Conservation
  import opened BreakerOvershoot
  import L = AccountLedger
  import Router

  const FAULT := Failure("ConnectionError", "lost", None)

  /** Attempts of workflow `i`: one that succeeds, and one that takes effect and is reported as failed. */
  function Pass(i: nat, now: real): Label { Attempt(i, now, true, Success) }

  function Lose(i: nat): Label { Attempt(i, 0.0, true, Failed(FAULT, true)) }

  lemma Extends(c: Config, labels: seq<Label>, l: Label)
    requires ValidRun(c, labels) && Enabled(c, Exec(c, labels), l)
    ensures ValidRun(c, labels + [l]) && Exec(c, labels + [l]) == Step(c, Exec(c, labels), l)
    ensures FrontierRecorded(c, labels + [l]) == FrontierRecorded(c, labels) + FrontierRecord(c, Exec(c, labels), l)
  {
    assert (labels + [l])[..|labels|] == labels;
  }

  /** Workflow `i` stands at `l`, with so many failed attempts of its current activity. */
  ghost predicate At(s: System, i: nat, l: Local, failed: nat) {
    i < |s.wfs| == |s.rows| && s.wfs[i].local == l && s.wfs[i].failed == failed
  }

  /** Only workflow `i` has moved, to `l`. */
  ghost predicate Moves(s: System, s': System, i: nat, l: Local, failed: nat) {
    && i < |s.wfs| && s'.wfs == s.wfs[i := s.wfs[i].(local := l, failed := failed)]
    && |s'.rows| == |s.rows|
  }

  lemma Begins(c: Config, labels: seq<Label>, input: Input)
    requires ValidRun(c, labels)
    ensures var s, s' := Exec(c, labels), Exec(c, labels + [Begin(input, None, "", 0.0)]);
            && ValidRun(c, labels + [Begin(input, None, "", 0.0)])
            && s'.wfs == s.wfs + [Workflow(input, Active(Started), 0, 0)]
            && At(s', |s.wfs|, Active(Started), 0)
            && s'.ledger == s.ledger && s'.breaker == s.breaker
            && FrontierRecorded(c, labels + [Begin(input, None, "", 0.0)]) == FrontierRecorded(c, labels)
  {
    RunOk(c, labels);
    Extends(c, labels, Begin(input, None, "", 0.0));
  }

  /** An attempt that leaves the ledger and the breaker alone. */
  lemma PassQuietly(c: Config, labels: seq<Label>, i: nat, now: real, l: Local)
    requires ValidRun(c, labels) && i < |Exec(c, labels).wfs| && Enabled(c, Exec(c, labels), Pass(i, now))
    requires var s := Exec(c, labels);
             && !TouchesLedger(CommandOf(s, i)) && !CommandOf(s, i).BreakerRecord?
             && l == Advance(s.wfs[i].local, Reply(c, s, i, CommandOf(s, i), now, true))
    ensures var s, s' := Exec(c, labels), Exec(c, labels + [Pass(i, now)]);
            && ValidRun(c, labels + [Pass(i, now)])
            && Moves(s, s', i, l, 0) && s'.ledger == s.ledger && s'.breaker == s.breaker
            && FrontierRecorded(c, labels + [Pass(i, now)]) == FrontierRecorded(c, labels)
  {
    Extends(c, labels, Pass(i, now));
  }

  lemma PassReserve(c: Config, labels: seq<Label>, i: nat, now: real, res: L.Reservation)
    requires ValidRun(c, labels) && At(Exec(c, labels), i, Active(Limited), 0)
    requires var s := Exec(c, labels);
             res == L.Reserve(c.policy, Charges(s, s.wfs[i].input.account), Router.ProjectCost(s.wfs[i].input.task), now).1
    ensures var s, s' := Exec(c, labels), Exec(c, labels + [Pass(i, now)]);
            var input := s.wfs[i].input;
            && ValidRun(c, labels + [Pass(i, now)])
            && Moves(s, s', i, Active(Reserved(res)), 0) && s'.breaker == s.breaker
            && Charges(s', input.account)
               == L.Reserve(c.policy, Charges(s, input.account), Router.ProjectCost(input.task), now).0
            && (forall a :: a != input.account ==> Charges(s', a) == Charges(s, a))
            && FrontierRecorded(c, labels + [Pass(i, now)]) == FrontierRecorded(c, labels)
  {
    Extends(c, labels, Pass(i, now));
  }

  /** The settlement of a routed workflow is possible, and where it takes the workflow. */
  lemma SettleStep(c: Config, s: System, i: nat, now: real, res: L.Reservation, degraded: bool, dec: Decision)
    requires At(s, i, Active(Routed(res, degraded, dec)), 0)
    ensures Enabled(c, s, Pass(i, now)) && CommandOf(s, i) == SettleUsage(res.projected, dec.cost)
    ensures var s' := Step(c, s, Pass(i, now));
            && Moves(s, s', i, Active(Settled(res, degraded, dec)), 0) && s'.breaker == s.breaker
            && FrontierRecord(c, s, Pass(i, now)) == 0.0
  {
  }

  lemma PassSettle(c: Config, labels: seq<Label>, i: nat, now: real, res: L.Reservation, degraded: bool, dec: Decision)
    requires ValidRun(c, labels) && At(Exec(c, labels), i, Active(Routed(res, degraded, dec)), 0)
    ensures var s, s' := Exec(c, labels), Exec(c, labels + [Pass(i, now)]);
            var a := s.wfs[i].input.account;
            && ValidRun(c, labels + [Pass(i, now)])
            && Moves(s, s', i, Active(Settled(res, degraded, dec)), 0) && s'.breaker == s.breaker
            && Charges(s', a) == L.Settle(c.policy, Charges(s, a), res.projected, dec.cost, now).0
            && FrontierRecorded(c, labels + [Pass(i, now)]) == FrontierRecorded(c, labels)
  {
    RunOk(c, labels);
    SettleStep(c, Exec(c, labels), i, now, res, degraded, dec);
    LedgerMoves(c, Exec(c, labels), Pass(i, now));
    Extends(c, labels, Pass(i, now));
  }

  lemma PassRecord(c: Config, labels: seq<Label>, i: nat, now: real, res: L.Reservation, degraded: bool, dec: Decision)
    requires ValidRun(c, labels) && At(Exec(c, labels), i, Active(Settled(res, degraded, dec)), 0)
    ensures var s, s' := Exec(c, labels), Exec(c, labels + [Pass(i, now)]);
            && ValidRun(c, labels + [Pass(i, now)])
            && Moves(s, s', i, Active(Recorded(res, degraded, dec)), 0)
  {
    Extends(c, labels, Pass(i, now));
  }

  /** Where a lost attempt leaves its workflow: at the third, in the handler. */
  function AfterLoss(p: Progress, failed: nat): Local {
    if failed + 1 >= MAX_ATTEMPTS then Handling(p, Reason(FAULT)) else Active(p)
  }

  function FailuresAfterLoss(failed: nat): nat {
    if failed + 1 >= MAX_ATTEMPTS then 0 else failed + 1
  }

  /** A lost record or status write. */
  lemma LosesAttempt(c: Config, labels: seq<Label>, i: nat, p: Progress, failed: nat)
    requires ValidRun(c, labels) && At(Exec(c, labels), i, Active(p), failed) && Enabled(c, Exec(c, labels), Lose(i))
    requires !TouchesLedger(CommandOf(Exec(c, labels), i))
    ensures var s, s' := Exec(c, labels), Exec(c, labels + [Lose(i)]);
            && ValidRun(c, labels + [Lose(i)])
            && Moves(s, s', i, AfterLoss(p, failed), FailuresAfterLoss(failed))
            && FrontierRecorded(c, labels + [Lose(i)]) == FrontierRecorded(c, labels) + FrontierRecord(c, s, Lose(i))
  {
    Extends(c, labels, Lose(i));
  }
}
