/** What the place of a workflow in an interleaved run says about the attempts that got it there. */
module CallsMade {
  import opened Options
  import opened RoutingModel
  import opened TaskTable
  import opened TaskWorkflow
  import opened Orchestration
  import opened DurableRows
  import Conservation
  import L = AccountLedger

  /** The step is a successful attempt of workflow `i` on that command. */
  predicate Succeeds(c: Config, s: System, l: Label, i: nat, command: Command) {
    Enabled(c, s, l) && l.Attempt? && l.i == i && l.report.Success? && CommandOf(s, i) == command
  }

  ghost predicate Succeeded(c: Config, labels: seq<Label>, i: nat, command: Command) {
    labels != []
    && (Succeeded(c, labels[..|labels| - 1], i, command)
        || Succeeds(c, Exec(c, labels[..|labels| - 1]), labels[|labels| - 1], i, command))
  }

  function ResOf(p: Progress): L.Reservation {
    if HasReservation(p) then p.res else NO_RESERVATION
  }

  function FlagOf(p: Progress): bool {
    HasCheck(p) && p.degraded
  }

  function DecisionOf(p: Progress): Decision {
    if HasDecision(p) then p.dec else NO_DECISION
  }

  /** The k-th of the workflow's nine calls, as far as it is known where it stands. */
  function CallAt(wf: Workflow, k: nat): Command {
    Call(wf.input, ResOf(wf.local.at), FlagOf(wf.local.at), DecisionOf(wf.local.at), k)
  }

  /** All calls before the workflow's place have succeeded. */
  ghost predicate CallsSucceeded(c: Config, labels: seq<Label>, i: nat, wf: Workflow) {
    forall k: nat :: k < PathIndex(wf.local.at) ==> Succeeded(c, labels, i, CallAt(wf, k))
  }

  lemma PlaceMoves(c: Config, s: System, l: Label)
    requires SystemOk(c, s) && Enabled(c, s, l) && l.Attempt?
    ensures var before, after := s.wfs[l.i], Moved(c, s, l);
            && PathIndex(before.local.at) <= PathIndex(after.local.at) <= PathIndex(before.local.at) + 1
            && (PathIndex(after.local.at) > PathIndex(before.local.at) ==>
                  l.report.Success? && CommandOf(s, l.i) == CallAt(before, PathIndex(before.local.at)))
            && forall k: nat :: k < PathIndex(before.local.at) ==> CallAt(after, k) == CallAt(before, k)
  {
    Conservation.MovedShape(c, s, l);
    assert WorkflowOk(c, s.wfs[l.i]);
  }

  lemma NewCall(c: Config, s: System, l: Label)
    requires SystemOk(c, s) && Enabled(c, s, l) && l.Attempt?
    ensures var before, after := s.wfs[l.i], Moved(c, s, l);
            PathIndex(after.local.at) > PathIndex(before.local.at) ==>
              CallAt(after, PathIndex(before.local.at)) == CallAt(before, PathIndex(before.local.at))
  {
    Conservation.MovedShape(c, s, l);
    assert WorkflowOk(c, s.wfs[l.i]);
  }

  lemma SucceededAppend(c: Config, labels: seq<Label>, l: Label, i: nat, command: Command)
    ensures Succeeded(c, labels + [l], i, command)
      <==> Succeeded(c, labels, i, command) || Succeeds(c, Exec(c, labels), l, i, command)
  {
    assert (labels + [l])[..|labels|] == labels;
  }

  lemma StepCalls(c: Config, labels: seq<Label>, l: Label, i: nat)
    requires ValidRun(c, labels + [l]) && i < |Exec(c, labels + [l]).wfs|
    requires i < |Exec(c, labels).wfs| ==> CallsSucceeded(c, labels, i, Exec(c, labels).wfs[i])
    ensures CallsSucceeded(c, labels + [l], i, Exec(c, labels + [l]).wfs[i])
  {
    assert (labels + [l])[..|labels|] == labels;
    RunOk(c, labels);
    var s, after := Exec(c, labels), Exec(c, labels + [l]).wfs[i];
    if i < |s.wfs| {
      if l.Attempt? && l.i == i {
        PlaceMoves(c, s, l);
        NewCall(c, s, l);
      }
      forall k: nat | k < PathIndex(after.local.at) ensures Succeeded(c, labels + [l], i, CallAt(after, k)) {
        SucceededAppend(c, labels, l, i, CallAt(after, k));
      }
    }
  }

  /** In every reachable state every call before a workflow's place has been a successful attempt of
      that workflow, with the values its locals hold. */
  lemma {:induction false} PlaceMeansCalls(c: Config, labels: seq<Label>, i: nat)
    requires ValidRun(c, labels) && i < |Exec(c, labels).wfs|
    ensures CallsSucceeded(c, labels, i, Exec(c, labels).wfs[i])
  {
    var front, l := labels[..|labels| - 1], labels[|labels| - 1];
    assert front + [l] == labels;
    if i < |Exec(c, front).wfs| {
      PlaceMeansCalls(c, front, i);
    }
    StepCalls(c, front, l, i);
  }

  /** No task is reported as completed that was not dispatched: a COMPLETED row, even one whose write
      was reported as failed, carries the decision with which its workflow's dispatch succeeded,
      after its settlement and its record did. */
  lemma CompletedMeansDispatched(c: Config, labels: seq<Label>, i: nat)
    requires ValidRun(c, labels) && i < |Exec(c, labels).wfs|
    ensures |Exec(c, labels).rows| == |Exec(c, labels).wfs|
    ensures var wf, row := Exec(c, labels).wfs[i], Exec(c, labels).rows[i];
            row.status == COMPLETED ==>
              && HasDecision(wf.local.at)
              && var dec := wf.local.at.dec;
                 && row.tier == Some(dec.tier) && row.pointer == Some(dec.pointer) && row.cost == Some(dec.cost)
                 && Succeeded(c, labels, i, DispatchTask(dec))
                 && Succeeded(c, labels, i, BreakerRecord(dec.cost))
                 && Succeeded(c, labels, i, SettleUsage(wf.local.at.res.projected, dec.cost))
  {
    RunTerminal(c, labels);
    PlaceMeansCalls(c, labels, i);
    var wf := Exec(c, labels).wfs[i];
    assert TerminalMatches(wf, Exec(c, labels).rows[i]);
    if Exec(c, labels).rows[i].status == COMPLETED {
      assert CallAt(wf, 5) == SettleUsage(wf.local.at.res.projected, wf.local.at.dec.cost);
      assert CallAt(wf, 6) == BreakerRecord(wf.local.at.dec.cost);
      assert CallAt(wf, 7) == DispatchTask(wf.local.at.dec);
    }
  }

  // ---- whose row it is -------------------------------------------------------------------

  /** Workflow `i` and its row are those of this submission. */
  ghost predicate Belongs(s: System, i: nat, begin: Label)
    requires begin.Begin?
  {
    && i < |s.wfs| == |s.rows| && s.wfs[i].input == begin.input
    && s.rows[i].account == begin.input.account && s.rows[i].key == begin.key
    && s.rows[i].correlation == begin.correlation && s.rows[i].createdAt == begin.now
  }

  lemma StepBelongs(c: Config, s: System, l: Label, i: nat, begin: Label)
    requires begin.Begin? && Enabled(c, s, l) && Belongs(s, i, begin)
    ensures Belongs(Step(c, s, l), i, begin)
  {
    if l.Attempt? {
      Conservation.MovedShape(c, s, l);
    }
  }

  /** However a run goes on, a task's row keeps the account, key, trace and time it was submitted
      with, and its workflow the input. */
  lemma {:induction false} RowStaysWithItsTask(c: Config, labels: seq<Label>, begin: Label, more: seq<Label>)
    requires begin.Begin? && ValidRun(c, labels + [begin] + more)
    ensures Belongs(Exec(c, labels + [begin] + more), |Exec(c, labels).wfs|, begin)
  {
    var front := labels + [begin];
    if more == [] {
      assert front + more == front && front[..|labels|] == labels;
      RunOk(c, labels);
    } else {
      var last := |more| - 1;
      assert (front + more)[..|front + more| - 1] == front + more[..last];
      RowStaysWithItsTask(c, labels, begin, more[..last]);
      StepBelongs(c, Exec(c, front + more[..last]), more[last], |Exec(c, labels).wfs|, begin);
    }
  }

  /** The time of the last write of workflow `i`'s row: its submission or a status write that took
      effect. */
  function LastWritten(c: Config, labels: seq<Label>, i: nat): real {
    if labels == [] then 0.0
    else
      var front, l := labels[..|labels| - 1], labels[|labels| - 1];
      if WritesRow(c, Exec(c, front), l, i) then l.now else LastWritten(c, front, i)
  }

  predicate WritesRow(c: Config, s: System, l: Label, i: nat) {
    match l
    case Begin(_, _, _, _) => i == |s.rows|
    case Attempt(j, _, _, _) => Enabled(c, s, l) && j == i && Conservation.Effective(l) && CommandOf(s, i).MarkStatus?
  }

  lemma StepStamps(c: Config, s: System, l: Label, i: nat)
    requires SystemOk(c, s) && Enabled(c, s, l) && i < |Step(c, s, l).rows|
    ensures WritesRow(c, s, l, i) ==> Step(c, s, l).rows[i].updatedAt == l.now
    ensures !WritesRow(c, s, l, i) ==> i < |s.rows| && Step(c, s, l).rows[i] == s.rows[i]
  {
  }

  /** A row's time stamp is that of its last write, and only those writes change it. */
  lemma {:induction false} RowsAreStamped(c: Config, labels: seq<Label>, i: nat)
    requires ValidRun(c, labels) && i < |Exec(c, labels).rows|
    ensures Exec(c, labels).rows[i].updatedAt == LastWritten(c, labels, i)
  {
    var front, l := labels[..|labels| - 1], labels[|labels| - 1];
    RunOk(c, front);
    StepStamps(c, Exec(c, front), l, i);
    if !WritesRow(c, Exec(c, front), l, i) {
      RowsAreStamped(c, front, i);
    }
  }
}
