/** Workers that crash at any point and rebuild a workflow's locals by replaying its recorded
    history: every such run makes the store and breaker updates of a run without crashes. */
module DurableExecution {
  import opened Options
  import opened TaskWorkflow
  import opened TaskTable
  import opened SpendBreaker
  import O = Orchestration
  import Conservation
  import SpendLimits
  import L = AccountLedger

  /** A worker has no locals, or has replayed `consumed` events, or has asked for another activity
      than the one recorded and given up. */
  datatype Worker = Down | Up(consumed: nat, local: Local) | Nondeterministic

  /** What the durable service keeps for a workflow, and the worker running it. */
  datatype Run = Run(input: Input, history: seq<Event>, failed: nat, orphans: nat, worker: Worker)

  datatype Durable = Durable(ledger: map<string, seq<L.Charge>>, breaker: Breaker, rows: seq<TaskRow>, runs: seq<Run>)

  const EMPTY := Durable(map[], UNTRIPPED, [], [])

  // ---- two readings of a durable state ---------------------------------------------------

  /** The workflow its history stands for. */
  function Recorded(r: Run): O.Workflow {
    O.Workflow(r.input, Replay(Outcomes(r.history)), r.failed, r.orphans)
  }

  function Abstract(d: Durable): O.System {
    O.System(d.ledger, d.breaker, d.rows, seq(|d.runs|, i requires 0 <= i < |d.runs| => Recorded(d.runs[i])))
  }

  /** The workflow as its worker sees it: this is what drives the next activity. */
  function Seen(r: Run): O.Workflow {
    O.Workflow(r.input, if r.worker.Up? then r.worker.local else Active(Started), r.failed, r.orphans)
  }

  function View(d: Durable): O.System {
    O.System(d.ledger, d.breaker, d.rows, seq(|d.runs|, i requires 0 <= i < |d.runs| => Seen(d.runs[i])))
  }

  // ---- steps -----------------------------------------------------------------------------

  datatype Label = Act(act: O.Label) | Crash(i: nat) | Restart(i: nat) | ReplayEvent(i: nat)

  predicate Enabled(c: O.Config, d: Durable, l: Label) {
    match l
    case Act(act) =>
      && O.Enabled(c, View(d), act)
      && (act.Attempt? ==>
            act.i < |d.runs| && d.runs[act.i].worker.Up?
            && d.runs[act.i].worker.consumed == |d.runs[act.i].history|)
    case Crash(i) => i < |d.runs|
    case Restart(i) => i < |d.runs| && d.runs[i].worker.Down?
    case ReplayEvent(i) =>
      i < |d.runs| && d.runs[i].worker.Up? && d.runs[i].worker.consumed < |d.runs[i].history|
  }

  /** The outcome an attempt makes final, if it does. */
  function FinalOutcome(c: O.Config, s: O.System, l: O.Label): Option<Outcome>
    requires l.Attempt? && O.Enabled(c, s, l)
  {
    match l.report
    case Success => Some(Returned(O.Reply(c, s, l.i, O.CommandOf(s, l.i), l.now, l.allowed)))
    case Failed(failure, _) =>
      if s.wfs[l.i].failed + 1 >= MAX_ATTEMPTS then Some(Exhausted(failure)) else None
  }

  /** An attempt is made on the worker's locals; a final outcome is recorded and consumed. */
  function AfterAttempt(c: O.Config, d: Durable, l: O.Label): Run
    requires l.Attempt? && Enabled(c, d, Act(l))
  {
    var r := d.runs[l.i];
    var moved := O.Moved(c, View(d), l);
    var outcome := FinalOutcome(c, View(d), l);
    var r' := r.(failed := moved.failed, orphans := moved.orphans);
    if outcome.Some? then
      r'.(history := r.history + [Event(O.CommandOf(View(d), l.i), outcome.value)],
          worker := Up(r.worker.consumed + 1, Consume(r.worker.local, outcome.value)))
    else r'
  }

  /** Replay re-runs the code on the next recorded event, checking that it asks for the recorded
      activity; nothing is executed. */
  function AfterReplay(r: Run): Run
    requires r.worker.Up? && r.worker.consumed < |r.history|
  {
    var e := r.history[r.worker.consumed];
    if Next(r.input, r.worker.local) == Some(e.command) then
      r.(worker := Up(r.worker.consumed + 1, Consume(r.worker.local, e.outcome)))
    else r.(worker := Nondeterministic)
  }

  function Step(c: O.Config, d: Durable, l: Label): Durable
    requires Enabled(c, d, l)
  {
    match l
    case Act(act) =>
      var s := O.Step(c, View(d), act);
      var runs := if act.Begin? then d.runs + [Run(act.input, [], 0, 0, Up(0, Active(Started)))]
                  else d.runs[act.i := AfterAttempt(c, d, act)];
      Durable(s.ledger, s.breaker, s.rows, runs)
    case Crash(i) => d.(runs := d.runs[i := d.runs[i].(worker := Down)])
    case Restart(i) => d.(runs := d.runs[i := d.runs[i].(worker := Up(0, Active(Started)))])
    case ReplayEvent(i) => d.(runs := d.runs[i := AfterReplay(d.runs[i])])
  }

  function ExecFrom(c: O.Config, d: Durable, labels: seq<Label>): Durable {
    if labels == [] then d
    else
      var before := ExecFrom(c, d, labels[..|labels| - 1]);
      if Enabled(c, before, labels[|labels| - 1]) then Step(c, before, labels[|labels| - 1]) else before
  }

  ghost predicate ValidFrom(c: O.Config, d: Durable, labels: seq<Label>) {
    labels == []
    || (&& ValidFrom(c, d, labels[..|labels| - 1])
        && Enabled(c, ExecFrom(c, d, labels[..|labels| - 1]), labels[|labels| - 1]))
  }

  /** The run with its crashes, restarts and replays left out. */
  function Erase(labels: seq<Label>): seq<O.Label> {
    if labels == [] then []
    else
      var l := labels[|labels| - 1];
      Erase(labels[..|labels| - 1]) + (if l.Act? then [l.act] else [])
  }

  // ---- the invariant ---------------------------------------------------------------------

  /** A worker's locals are the replay of what it has consumed; nothing diverged. */
  ghost predicate RunOk(r: Run) {
    && Faithful(r.input, r.history)
    && !r.worker.Nondeterministic?
    && (r.worker.Up? ==>
          r.worker.consumed <= |r.history|
          && r.worker.local == Replay(Outcomes(r.history[..r.worker.consumed])))
  }

  ghost predicate RunsOk(d: Durable) {
    forall i :: 0 <= i < |d.runs| ==> RunOk(d.runs[i])
  }

  lemma CaughtUp(r: Run)
    requires RunOk(r) && r.worker.Up? && r.worker.consumed == |r.history|
    ensures Seen(r) == Recorded(r)
  {
    assert r.history[..r.worker.consumed] == r.history;
  }

  lemma ReplayOk(r: Run)
    requires RunOk(r) && r.worker.Up? && r.worker.consumed < |r.history|
    ensures RunOk(AfterReplay(r)) && AfterReplay(r).worker.Up?
    ensures AfterReplay(r) == r.(worker := AfterReplay(r).worker)
    ensures AfterReplay(r).worker.consumed == r.worker.consumed + 1
  {
    var k := r.worker.consumed;
    FaithfulAt(r.input, r.history, k);
    assert r.history[..k + 1] == r.history[..k] + [r.history[k]];
    OutcomesAppend(r.history[..k], r.history[k]);
  }

  lemma StillEnabled(c: O.Config, d: Durable, l: O.Label)
    requires RunsOk(d) && l.Attempt? && Enabled(c, d, Act(l))
    ensures View(d).wfs[l.i] == Abstract(d).wfs[l.i] == Recorded(d.runs[l.i])
    ensures O.Enabled(c, Abstract(d), l) && O.CommandOf(Abstract(d), l.i) == O.CommandOf(View(d), l.i)
  {
    CaughtUp(d.runs[l.i]);
  }

  /** Two systems an attempt of workflow `i` cannot tell apart. */
  ghost predicate AlikeFor(s: O.System, t: O.System, i: nat) {
    && s.ledger == t.ledger && s.breaker == t.breaker && s.rows == t.rows && |s.wfs| == |t.wfs|
    && i < |s.wfs| && s.wfs[i] == t.wfs[i]
  }

  lemma SameMoved(c: O.Config, s: O.System, t: O.System, l: O.Label)
    requires l.Attempt? && AlikeFor(s, t, l.i) && O.Enabled(c, s, l) && O.Enabled(c, t, l)
    ensures O.Moved(c, s, l) == O.Moved(c, t, l)
  {
    var command := O.CommandOf(s, l.i);
    assert command == O.CommandOf(t, l.i);
    if l.report.Success? {
      assert O.Reply(c, s, l.i, command, l.now, l.allowed) == O.Reply(c, t, l.i, command, l.now, l.allowed);
    }
  }

  lemma SameEffect(c: O.Config, s: O.System, t: O.System, i: nat, command: Command, now: real)
    requires AlikeFor(s, t, i) && |s.wfs| == |s.rows|
    ensures var u, v := O.Effect(c, s, i, command, now), O.Effect(c, t, i, command, now);
            u.ledger == v.ledger && u.breaker == v.breaker && u.rows == v.rows
  {
  }

  /** The worker's view and the recorded workflows give an attempt the same meaning. */
  lemma SameMeaning(c: O.Config, d: Durable, l: O.Label)
    requires RunsOk(d) && l.Attempt? && Enabled(c, d, Act(l)) && O.Enabled(c, Abstract(d), l)
    ensures O.Moved(c, Abstract(d), l) == O.Moved(c, View(d), l)
    ensures var s, s' := O.Step(c, View(d), l), O.Step(c, Abstract(d), l);
            s.ledger == s'.ledger && s.breaker == s'.breaker && s.rows == s'.rows
  {
    StillEnabled(c, d, l);
    SameMoved(c, Abstract(d), View(d), l);
    SameEffect(c, Abstract(d), View(d), l.i, O.CommandOf(View(d), l.i), l.now);
  }

  lemma AttemptRecords(c: O.Config, d: Durable, l: O.Label)
    requires RunsOk(d) && l.Attempt? && Enabled(c, d, Act(l))
    ensures RunOk(AfterAttempt(c, d, l))
    ensures Recorded(AfterAttempt(c, d, l)) == O.Moved(c, View(d), l)
  {
    var r := d.runs[l.i];
    var outcome := FinalOutcome(c, View(d), l);
    StillEnabled(c, d, l);
    assert Seen(r) == Recorded(r);
    if outcome.Some? {
      var e := Event(O.CommandOf(View(d), l.i), outcome.value);
      OutcomesAppend(r.history, e);
      FaithfulAppend(r.input, r.history, e);
      assert (r.history + [e])[..r.worker.consumed + 1] == r.history + [e];
    }
  }

  // ---- simulation ------------------------------------------------------------------------

  lemma AbstractUpdate(d: Durable, i: nat, r: Run)
    requires i < |d.runs|
    ensures Abstract(d.(runs := d.runs[i := r])).wfs == Abstract(d).wfs[i := Recorded(r)]
  {
  }

  lemma ActSimulates(c: O.Config, d: Durable, l: O.Label)
    requires RunsOk(d) && Enabled(c, d, Act(l))
    ensures RunsOk(Step(c, d, Act(l)))
    ensures O.Enabled(c, Abstract(d), l) && Abstract(Step(c, d, Act(l))) == O.Step(c, Abstract(d), l)
  {
    var d' := Step(c, d, Act(l));
    if l.Attempt? {
      StillEnabled(c, d, l);
      SameMeaning(c, d, l);
      AttemptRecords(c, d, l);
      AbstractUpdate(d, l.i, AfterAttempt(c, d, l));
      assert Abstract(d').wfs == Abstract(d).wfs[l.i := Recorded(AfterAttempt(c, d, l))];
    } else {
      BeginSimulates(c, d, l);
    }
  }

  lemma BeginSimulates(c: O.Config, d: Durable, l: O.Label)
    requires RunsOk(d) && l.Begin?
    ensures RunsOk(Step(c, d, Act(l)))
    ensures Abstract(Step(c, d, Act(l))) == O.Step(c, Abstract(d), l)
  {
    var r := Run(l.input, [], 0, 0, Up(0, Active(Started)));
    assert RunOk(r) && Recorded(r) == O.Workflow(l.input, Active(Started), 0, 0);
    assert Abstract(Step(c, d, Act(l))).wfs == Abstract(d).wfs + [Recorded(r)];
  }

  lemma StutterSimulates(c: O.Config, d: Durable, l: Label)
    requires RunsOk(d) && Enabled(c, d, l) && !l.Act?
    ensures RunsOk(Step(c, d, l)) && Abstract(Step(c, d, l)) == Abstract(d)
  {
    var r := d.runs[l.i];
    if l.ReplayEvent? {
      ReplayOk(r);
    } else if l.Restart? {
      assert r.history[..0] == [];
    }
    assert Recorded(Step(c, d, l).runs[l.i]) == Recorded(r);
    AbstractUpdate(d, l.i, Step(c, d, l).runs[l.i]);
    assert Abstract(d).wfs[l.i := Recorded(r)] == Abstract(d).wfs;
  }

  /** Crashes are invisible: leaving them and their replays out of any durable run gives a valid run
      of the uncrashed system that ends with the same ledger, breaker, task rows and workflow
      locals; and no replay ever diverges from its history. */
  lemma {:induction false} CrashesAreInvisible(c: O.Config, labels: seq<Label>)
    requires ValidFrom(c, EMPTY, labels)
    ensures RunsOk(ExecFrom(c, EMPTY, labels))
    ensures O.ValidRun(c, Erase(labels))
    ensures O.Exec(c, Erase(labels)) == Abstract(ExecFrom(c, EMPTY, labels))
  {
    if labels == [] {
      assert Abstract(EMPTY) == O.EMPTY;
    } else {
      var front, l := labels[..|labels| - 1], labels[|labels| - 1];
      var d := ExecFrom(c, EMPTY, front);
      CrashesAreInvisible(c, front);
      if l.Act? {
        ActSimulates(c, d, l.act);
        assert Erase(labels)[..|Erase(labels)| - 1] == Erase(front);
      } else {
        StutterSimulates(c, d, l);
        assert Erase(labels) == Erase(front);
      }
    }
  }

  // ---- resumption ------------------------------------------------------------------------

  /** Crash, restart, and replay `n` events. */
  function Recovery(i: nat, n: nat): seq<Label> {
    if n == 0 then [Crash(i), Restart(i)] else Recovery(i, n - 1) + [ReplayEvent(i)]
  }

  /** The state with another worker for run `i`. */
  function WithWorker(d: Durable, i: nat, worker: Worker): Durable
    requires i < |d.runs|
  {
    d.(runs := d.runs[i := d.runs[i].(worker := worker)])
  }

  lemma WithWorkerTwice(d: Durable, i: nat, w: Worker, worker: Worker)
    requires i < |d.runs|
    ensures WithWorker(WithWorker(d, i, w), i, worker) == WithWorker(d, i, worker)
  {
  }

  lemma OneMore(c: O.Config, d: Durable, labels: seq<Label>, l: Label, reached: Durable)
    requires ValidFrom(c, d, labels) && ExecFrom(c, d, labels) == reached && Enabled(c, reached, l)
    ensures ValidFrom(c, d, labels + [l]) && ExecFrom(c, d, labels + [l]) == Step(c, reached, l)
  {
    assert (labels + [l])[..|labels|] == labels;
  }

  lemma RestartSteps(c: O.Config, d: Durable, i: nat)
    requires i < |d.runs|
    ensures ValidFrom(c, d, [Crash(i), Restart(i)])
    ensures ExecFrom(c, d, [Crash(i), Restart(i)]) == WithWorker(d, i, Up(0, Active(Started)))
  {
    OneMore(c, d, [], Crash(i), d);
    assert [] + [Crash(i)] == [Crash(i)];
    OneMore(c, d, [Crash(i)], Restart(i), WithWorker(d, i, Down));
    assert [Crash(i)] + [Restart(i)] == [Crash(i), Restart(i)];
    WithWorkerTwice(d, i, Down, Up(0, Active(Started)));
  }

  /** The worker after replaying the first `n` events of a history. */
  function Replayed(history: seq<Event>, n: nat): Worker
    requires n <= |history|
  {
    Up(n, Replay(Outcomes(history[..n])))
  }

  lemma ReplayNext(r: Run, n: nat)
    requires RunOk(r) && n < |r.history|
    ensures AfterReplay(r.(worker := Replayed(r.history, n))) == r.(worker := Replayed(r.history, n + 1))
  {
    FaithfulAt(r.input, r.history, n);
    assert r.history[..n + 1] == r.history[..n] + [r.history[n]];
    OutcomesAppend(r.history[..n], r.history[n]);
  }

  lemma ReplayStep(c: O.Config, d: Durable, i: nat, n: nat)
    requires i < |d.runs| && RunOk(d.runs[i]) && n < |d.runs[i].history|
    ensures var at := WithWorker(d, i, Replayed(d.runs[i].history, n));
            && Enabled(c, at, ReplayEvent(i))
            && Step(c, at, ReplayEvent(i)) == WithWorker(d, i, Replayed(d.runs[i].history, n + 1))
  {
    ReplayNext(d.runs[i], n);
  }

  lemma {:induction false} ReplaysPrefix(c: O.Config, d: Durable, i: nat, n: nat)
    requires RunsOk(d) && i < |d.runs| && n <= |d.runs[i].history|
    ensures ValidFrom(c, d, Recovery(i, n))
    ensures ExecFrom(c, d, Recovery(i, n)) == WithWorker(d, i, Replayed(d.runs[i].history, n))
  {
    if n == 0 {
      RestartSteps(c, d, i);
      assert d.runs[i].history[..0] == [];
    } else {
      ReplaysPrefix(c, d, i, n - 1);
      assert RunOk(d.runs[i]);
      ReplayStep(c, d, i, n - 1);
      OneMore(c, d, Recovery(i, n - 1), ReplayEvent(i), WithWorker(d, i, Replayed(d.runs[i].history, n - 1)));
    }
  }

  /** From any reachable state a crashed worker can replay the whole history: it ends with exactly
      the locals the history stands for, ready for the next activity, having changed nothing else. */
  lemma Resumption(c: O.Config, labels: seq<Label>, i: nat)
    requires ValidFrom(c, EMPTY, labels) && i < |ExecFrom(c, EMPTY, labels).runs|
    ensures var d := ExecFrom(c, EMPTY, labels);
            var history := d.runs[i].history;
            && ValidFrom(c, d, Recovery(i, |history|))
            && ExecFrom(c, d, Recovery(i, |history|)) == WithWorker(d, i, Up(|history|, Replay(Outcomes(history))))
            && |history| <= 10
  {
    CrashesAreInvisible(c, labels);
    var d := ExecFrom(c, EMPTY, labels);
    var history := d.runs[i].history;
    ReplaysPrefix(c, d, i, |history|);
    assert history[..|history|] == history;
    assert RunOk(d.runs[i]);
    AtMostTenCalls(d.runs[i].input, history);
  }

  /** So the limits proved of uncrashed runs hold through any number of crashes: the frontier budget. */
  lemma BudgetSurvivesCrashes(c: O.Config, labels: seq<Label>, account: string)
    requires ValidFrom(c, EMPTY, labels) && Conservation.BooksKept(c, Erase(labels))
    ensures var spend := SpendLimits.FrontierSpend(Abstract(ExecFrom(c, EMPTY, labels)).wfs, account);
            && (c.policy.threshold > 0.0 ==> spend < c.policy.threshold)
            && (c.policy.threshold <= 0.0 ==> spend == 0.0)
  {
    CrashesAreInvisible(c, labels);
    SpendLimits.FrontierBudget(c, Erase(labels), account);
  }
}
