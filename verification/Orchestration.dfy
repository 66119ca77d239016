/** Any number of task workflows, interleaved one activity attempt at a time, over the shared usage
    ledger, the global breaker and the durable task rows. */
module Orchestration {
  import opened Options
  import opened RoutingModel
  import opened TaskTable
  import opened TaskWorkflow
  import opened SpendBreaker
  import L = AccountLedger
  import Router

  datatype Kind = StatusKind | LimitKind | ReserveKind | CheckKind | RouteKind | SettleKind | RecordKind | DispatchKind

  function KindOf(command: Command): Kind {
    match command
    case MarkStatus(_) => StatusKind
    case CheckRateLimit => LimitKind
    case ReserveUsage(_) => ReserveKind
    case BreakerEffective(_) => CheckKind
    case RouteTask(_) => RouteKind
    case SettleUsage(_, _) => SettleKind
    case BreakerRecord(_) => RecordKind
    case DispatchTask(_) => DispatchKind
  }

  /** `lossy` lists the activities of which an attempt may take effect and still be reported as
      failed, so that a retry repeats the effect. A deployment without a breaker has no threshold. */
  datatype Config = Config(policy: L.Policy, breaker: Option<real>, pointers: Router.Pointers, lossy: set<Kind>)

  /** `failed` counts the failed attempts of the current activity, `orphans` the reservations that
      were charged by attempts reported as failed. */
  datatype Workflow = Workflow(input: Input, local: Local, failed: nat, orphans: nat)

  /** `rows[i]` is the durable task row of workflow i. */
  datatype System = System(ledger: map<string, seq<L.Charge>>, breaker: Breaker, rows: seq<TaskRow>, wfs: seq<Workflow>)

  const EMPTY := System(map[], UNTRIPPED, [], [])

  function Charges(s: System, account: string): seq<L.Charge> {
    if account in s.ledger then s.ledger[account] else []
  }

  // ---- activities ------------------------------------------------------------------------

  /** What an activity of workflow `i` does to the shared state. */
  function Effect(c: Config, s: System, i: nat, command: Command, now: real): System
    requires i < |s.wfs| == |s.rows|
  {
    var a := s.wfs[i].input.account;
    match command
    case MarkStatus(w) => s.(rows := s.rows[i := WriteStatus(s.rows[i], w, now)])
    case ReserveUsage(projected) =>
      s.(ledger := s.ledger[a := L.Reserve(c.policy, Charges(s, a), projected, now).0])
    case SettleUsage(reserved, actual) =>
      s.(ledger := s.ledger[a := L.Settle(c.policy, Charges(s, a), reserved, actual, now).0])
    case BreakerRecord(cost) =>
      if c.breaker.Some? then s.(breaker := AfterRecord(c.breaker.value, s.breaker, cost)) else s
    case _ => s
  }

  /** Whether the activity can succeed: only routing can fail by itself, on a missing pointer. */
  predicate CanSucceed(c: Config, s: System, i: nat, command: Command)
    requires i < |s.wfs|
  {
    command.RouteTask? ==> Router.Route(s.wfs[i].input.task, command.degraded, c.pointers).Ok?
  }

  /** What a successful activity returns; `allowed` is the limiter's answer. */
  function Reply(c: Config, s: System, i: nat, command: Command, now: real, allowed: bool): Value
    requires i < |s.wfs| && CanSucceed(c, s, i, command)
  {
    var a := s.wfs[i].input.account;
    match command
    case MarkStatus(_) => Nothing
    case CheckRateLimit => Flag(allowed)
    case ReserveUsage(projected) => Granted(L.Reserve(c.policy, Charges(s, a), projected, now).1)
    case BreakerEffective(perAccount) => Flag(perAccount || (c.breaker.Some? && s.breaker.tripped))
    case RouteTask(degraded) => Decided(Router.Route(s.wfs[i].input.task, degraded, c.pointers).value)
    case SettleUsage(reserved, actual) =>
      Amount(L.Settle(c.policy, Charges(s, a), reserved, actual, now).1)
    case BreakerRecord(cost) =>
      Flag(c.breaker.Some? ==> !AfterRecord(c.breaker.value, s.breaker, cost).tripped)
    case DispatchTask(_) => Nothing
  }

  // ---- steps -----------------------------------------------------------------------------

  datatype Report = Success | Failed(failure: Failure, effective: bool)

  datatype Label =
    | Begin(input: Input, key: Option<string>, correlation: string, now: real)
    | Attempt(i: nat, now: real, allowed: bool, report: Report)

  predicate Enabled(c: Config, s: System, l: Label) {
    match l
    case Begin(_, _, _, _) => true
    case Attempt(i, _, _, report) =>
      && i < |s.wfs| == |s.rows|
      && var next := Next(s.wfs[i].input, s.wfs[i].local);
         && next.Some?
         && (report.Success? ==> CanSucceed(c, s, i, next.value))
         && (report.Failed? && report.effective ==> KindOf(next.value) in c.lossy)
  }

  function CommandOf(s: System, i: nat): Command
    requires i < |s.wfs| && Next(s.wfs[i].input, s.wfs[i].local).Some?
  {
    Next(s.wfs[i].input, s.wfs[i].local).value
  }

  /** The workflow after an attempt: the third failed attempt of an activity exhausts it. */
  function Moved(c: Config, s: System, l: Label): Workflow
    requires l.Attempt? && Enabled(c, s, l)
  {
    var wf := s.wfs[l.i];
    var command := CommandOf(s, l.i);
    match l.report
    case Success => wf.(local := Advance(wf.local, Reply(c, s, l.i, command, l.now, l.allowed)), failed := 0)
    case Failed(failure, effective) =>
      var wf' := if effective && command.ReserveUsage? then wf.(orphans := wf.orphans + 1) else wf;
      if wf.failed + 1 >= MAX_ATTEMPTS then wf'.(local := Consume(wf.local, Exhausted(failure)), failed := 0)
      else wf'.(failed := wf.failed + 1)
  }

  function Step(c: Config, s: System, l: Label): System
    requires Enabled(c, s, l)
  {
    match l
    case Begin(input, key, correlation, now) =>
      s.(rows := s.rows + [FreshRow(input.account, key, correlation, now)],
         wfs := s.wfs + [Workflow(input, Active(Started), 0, 0)])
    case Attempt(i, now, allowed, report) =>
      var effected := if report.Success? || report.effective then Effect(c, s, i, CommandOf(s, i), now) else s;
      effected.(wfs := s.wfs[i := Moved(c, s, l)])
  }

  // ---- runs ------------------------------------------------------------------------------

  function Exec(c: Config, labels: seq<Label>): System {
    if labels == [] then EMPTY
    else
      var s := Exec(c, labels[..|labels| - 1]);
      if Enabled(c, s, labels[|labels| - 1]) then Step(c, s, labels[|labels| - 1]) else s
  }

  ghost predicate ValidRun(c: Config, labels: seq<Label>) {
    labels == []
    || (&& ValidRun(c, labels[..|labels| - 1])
        && Enabled(c, Exec(c, labels[..|labels| - 1]), labels[|labels| - 1]))
  }

  // ---- what a workflow has done ----------------------------------------------------------

  predicate HasReservation(p: Progress) {
    !p.Started? && !p.Marked? && !p.Limited?
  }

  predicate HasCheck(p: Progress) {
    HasReservation(p) && !p.Reserved?
  }

  predicate HasDecision(p: Progress) {
    HasCheck(p) && !p.Checked?
  }

  predicate HasSettled(p: Progress) {
    HasDecision(p) && !p.Routed?
  }

  predicate HasRecorded(p: Progress) {
    HasSettled(p) && !p.Settled?
  }

  /** A workflow's locals belong to its own task: the reservation is the task's projection, the
      effective flag includes the account's, and the decision is one routing of the task. */
  ghost predicate WorkflowOk(c: Config, wf: Workflow) {
    var p := wf.local.at;
    && (HasReservation(p) ==> p.res.projected == Router.ProjectCost(wf.input.task))
    && (HasCheck(p) ==> p.res.degraded ==> p.degraded)
    && (HasDecision(p) ==> Router.Route(wf.input.task, p.degraded, c.pointers) == Ok(p.dec))
    && (p.Completed? <==> wf.local.Finished?)
    && wf.failed < MAX_ATTEMPTS
    && OrphansOk(c, wf)
  }

  /** At most two attempts of `reserve` can fail before one succeeds, and at most three in all. */
  ghost predicate OrphansOk(c: Config, wf: Workflow) {
    var p := wf.local.at;
    && wf.orphans <= (if HasReservation(p) then 2
                      else if p.Limited? then (if wf.local.Active? then wf.failed else 3)
                      else 0)
    && (ReserveKind !in c.lossy ==> wf.orphans == 0)
  }

  ghost predicate SystemOk(c: Config, s: System) {
    && |s.wfs| == |s.rows|
    && forall i :: 0 <= i < |s.wfs| ==> WorkflowOk(c, s.wfs[i])
  }

  lemma MovedOk(c: Config, s: System, l: Label)
    requires SystemOk(c, s) && Enabled(c, s, l) && l.Attempt?
    ensures WorkflowOk(c, Moved(c, s, l)) && Moved(c, s, l).input == s.wfs[l.i].input
  {
    assert WorkflowOk(c, s.wfs[l.i]);
  }

  lemma StepOk(c: Config, s: System, l: Label)
    requires SystemOk(c, s) && Enabled(c, s, l)
    ensures SystemOk(c, Step(c, s, l))
  {
    if l.Attempt? {
      MovedOk(c, s, l);
    }
  }

  lemma {:induction false} RunOk(c: Config, labels: seq<Label>)
    requires ValidRun(c, labels)
    ensures SystemOk(c, Exec(c, labels))
  {
    if labels != [] {
      RunOk(c, labels[..|labels| - 1]);
      StepOk(c, Exec(c, labels[..|labels| - 1]), labels[|labels| - 1]);
    }
  }

  // ---- every workflow ends ---------------------------------------------------------------

  /** Attempts workflow i can still make. */
  function AttemptsLeft(wf: Workflow): int {
    MAX_ATTEMPTS * CallsLeft(wf.local) - wf.failed
  }

  function AttemptsOf(labels: seq<Label>, i: nat): nat {
    if labels == [] then 0
    else
      var l := labels[|labels| - 1];
      AttemptsOf(labels[..|labels| - 1], i) + (if l.Attempt? && l.i == i then 1 else 0)
  }

  lemma AttemptCountsDown(c: Config, s: System, l: Label)
    requires SystemOk(c, s) && Enabled(c, s, l) && l.Attempt?
    ensures AttemptsLeft(Moved(c, s, l)) < AttemptsLeft(s.wfs[l.i])
    ensures AttemptsLeft(Moved(c, s, l)) >= 0
  {
    var wf := s.wfs[l.i];
    assert WorkflowOk(c, wf);
    NextMeansOngoing(wf.input, wf.local);
    if l.report.Success? {
      ConsumeCountsDown(wf.local, Returned(Reply(c, s, l.i, CommandOf(s, l.i), l.now, l.allowed)));
    } else {
      ConsumeCountsDown(wf.local, Exhausted(l.report.failure));
    }
  }

  lemma {:induction false} NoAttemptsBefore(c: Config, labels: seq<Label>, i: nat)
    requires ValidRun(c, labels) && i >= |Exec(c, labels).wfs|
    ensures AttemptsOf(labels, i) == 0
  {
    if labels != [] {
      RunOk(c, labels[..|labels| - 1]);
      NoAttemptsBefore(c, labels[..|labels| - 1], i);
    }
  }

  /** No workflow ever makes more than thirty attempts, however the run goes on; one that cannot
      attempt anything more is over. */
  lemma {:induction false} AtMostThirtyAttempts(c: Config, labels: seq<Label>, i: nat)
    requires ValidRun(c, labels) && i < |Exec(c, labels).wfs|
    ensures AttemptsOf(labels, i) + AttemptsLeft(Exec(c, labels).wfs[i]) <= 30
    ensures AttemptsLeft(Exec(c, labels).wfs[i]) >= 0
    ensures AttemptsLeft(Exec(c, labels).wfs[i]) == 0 ==> Over(Exec(c, labels).wfs[i].local)
  {
    RunOk(c, labels);
    var front, l := labels[..|labels| - 1], labels[|labels| - 1];
    var s := Exec(c, front);
    RunOk(c, front);
    if l.Attempt? && l.i == i {
      AtMostThirtyAttempts(c, front, i);
      AttemptCountsDown(c, s, l);
    } else if i < |s.wfs| {
      AtMostThirtyAttempts(c, front, i);
    } else {
      NoAttemptsBefore(c, front, i);
    }
    assert WorkflowOk(c, Exec(c, labels).wfs[i]);
  }

  lemma StuckMeansOver(c: Config, s: System, i: nat)
    requires SystemOk(c, s) && i < |s.wfs|
    ensures Over(s.wfs[i].local) <==> forall now, allowed, report :: !Enabled(c, s, Attempt(i, now, allowed, report))
  {
    assert WorkflowOk(c, s.wfs[i]);
    NextMeansOngoing(s.wfs[i].input, s.wfs[i].local);
    if !Over(s.wfs[i].local) {
      assert Enabled(c, s, Attempt(i, 0.0, true, Failed(TYPE_ERROR, false)));
    }
  }

  /** The next activity of a workflow that is not over can succeed, except that routing needs a model
      for the tier it chooses. */
  lemma NextCanSucceed(c: Config, labels: seq<Label>, i: nat, now: real, allowed: bool)
    requires ValidRun(c, labels) && i < |Exec(c, labels).wfs|
    ensures var wf := Exec(c, labels).wfs[i];
            Enabled(c, Exec(c, labels), Attempt(i, now, allowed, Success))
            <==> !Over(wf.local)
                 && (wf.local.Active? && wf.local.at.Checked? ==>
                       Router.TierFor(wf.input.task, wf.local.at.degraded) in c.pointers)
  {
    RunOk(c, labels);
    var wf := Exec(c, labels).wfs[i];
    assert WorkflowOk(c, wf);
    NextMeansOngoing(wf.input, wf.local);
  }

  function AllAttemptsLeft(wfs: seq<Workflow>): int {
    if wfs == [] then 0 else AllAttemptsLeft(wfs[..|wfs| - 1]) + AttemptsLeft(wfs[|wfs| - 1])
  }

  lemma {:induction false} AllAttemptsUpdate(wfs: seq<Workflow>, i: nat, wf: Workflow)
    requires i < |wfs|
    ensures AllAttemptsLeft(wfs[i := wf]) == AllAttemptsLeft(wfs) - AttemptsLeft(wfs[i]) + AttemptsLeft(wf)
  {
    var last := |wfs| - 1;
    if i == last {
      assert wfs[i := wf][..last] == wfs[..last];
    } else {
      AllAttemptsUpdate(wfs[..last], i, wf);
      assert wfs[i := wf][..last] == wfs[..last][i := wf];
    }
  }

  lemma AllAttemptsAppend(wfs: seq<Workflow>, wf: Workflow)
    ensures AllAttemptsLeft(wfs + [wf]) == AllAttemptsLeft(wfs) + AttemptsLeft(wf)
  {
    assert (wfs + [wf])[..|wfs|] == wfs;
  }

  lemma {:induction false} AllAttemptsNonNegative(wfs: seq<Workflow>)
    requires forall i :: 0 <= i < |wfs| ==> AttemptsLeft(wfs[i]) >= 0
    ensures AllAttemptsLeft(wfs) >= 0
  {
    if wfs != [] {
      AllAttemptsNonNegative(wfs[..|wfs| - 1]);
    }
  }

  lemma {:induction false} RunLength(c: Config, labels: seq<Label>)
    requires ValidRun(c, labels)
    ensures |labels| + AllAttemptsLeft(Exec(c, labels).wfs) <= 31 * |Exec(c, labels).wfs|
  {
    if labels != [] {
      var front, l := labels[..|labels| - 1], labels[|labels| - 1];
      RunLength(c, front);
      RunOk(c, front);
      if l.Attempt? {
        AttemptCountsDown(c, Exec(c, front), l);
        AllAttemptsUpdate(Exec(c, front).wfs, l.i, Moved(c, Exec(c, front), l));
      } else {
        AllAttemptsAppend(Exec(c, front).wfs, Workflow(l.input, Active(Started), 0, 0));
      }
    }
  }

  ghost predicate AllOver(s: System) {
    forall i :: 0 <= i < |s.wfs| ==> Over(s.wfs[i].local)
  }

  /** Nothing but a new submission can happen. */
  ghost predicate AllStuck(c: Config, s: System) {
    forall l: Label :: l.Attempt? ==> !Enabled(c, s, l)
  }

  lemma AllStuckMeansAllOver(c: Config, s: System)
    requires SystemOk(c, s)
    ensures AllOver(s) <==> AllStuck(c, s)
  {
    if AllStuck(c, s) {
      forall i | 0 <= i < |s.wfs| ensures Over(s.wfs[i].local) {
        StuckMeansOver(c, s, i);
      }
    }
    if AllOver(s) {
      forall l: Label | l.Attempt? ensures !Enabled(c, s, l) {
        if l.i < |s.wfs| {
          assert Over(s.wfs[l.i].local);
        }
      }
    }
  }

  lemma NoneBelowZero(c: Config, labels: seq<Label>)
    requires ValidRun(c, labels)
    ensures AllAttemptsLeft(Exec(c, labels).wfs) >= 0
  {
    forall i: nat | i < |Exec(c, labels).wfs| ensures AttemptsLeft(Exec(c, labels).wfs[i]) >= 0 {
      AtMostThirtyAttempts(c, labels, i);
    }
    AllAttemptsNonNegative(Exec(c, labels).wfs);
  }

  /** Every run ends: no interleaving takes more than thirty-one steps per workflow, and one that
      cannot go on without a new submission has brought every workflow to its end. */
  lemma EveryRunEnds(c: Config, labels: seq<Label>)
    requires ValidRun(c, labels)
    ensures |labels| <= 31 * |Exec(c, labels).wfs|
    ensures AllOver(Exec(c, labels)) <==> AllStuck(c, Exec(c, labels))
  {
    RunOk(c, labels);
    RunLength(c, labels);
    NoneBelowZero(c, labels);
    AllStuckMeansAllOver(c, Exec(c, labels));
  }

  // ---- the limiter's answers gate nothing ------------------------------------------------

  function WithoutAnswer(l: Label): Label {
    if l.Attempt? then l.(allowed := true) else l
  }

  /** The same steps, but for the limiter's answers. */
  ghost predicate SameButAnswers(labels: seq<Label>, others: seq<Label>) {
    |labels| == |others| && forall k :: 0 <= k < |labels| ==> WithoutAnswer(labels[k]) == WithoutAnswer(others[k])
  }

  lemma AnswerMovesNothing(c: Config, s: System, l: Label, m: Label)
    requires Enabled(c, s, l) && WithoutAnswer(l) == WithoutAnswer(m)
    ensures Enabled(c, s, m) && Step(c, s, m) == Step(c, s, l)
  {
    if l.Attempt? {
      if l.report.Success? && CommandOf(s, l.i).CheckRateLimit? {
        assert s.wfs[l.i].local == Active(Marked);
      }
      assert Moved(c, s, m) == Moved(c, s, l);
    }
  }

  /** A run with other limiter answers is the same run: the same systems in every state. */
  lemma {:induction false} LimiterNeverGates(c: Config, labels: seq<Label>, others: seq<Label>)
    requires ValidRun(c, labels) && SameButAnswers(labels, others)
    ensures ValidRun(c, others) && Exec(c, others) == Exec(c, labels)
  {
    if labels != [] {
      var last := |labels| - 1;
      LimiterNeverGates(c, labels[..last], others[..last]);
      AnswerMovesNothing(c, Exec(c, labels[..last]), labels[last], others[last]);
    }
  }
}
