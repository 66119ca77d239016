/** What the durable task row says about the run that writes it. */
module DurableRows {
  import opened Options
  import opened RoutingModel
  import opened TaskTable
  import opened TaskWorkflow
  import opened Orchestration
  import Conservation
  import Router

  /** No result columns. */
  predicate NoResult(row: TaskRow) {
    row.tier.None? && row.pointer.None? && row.cost.None?
  }

  /** The row each place of the run leaves behind, when failed attempts write nothing. */
  ghost predicate RowMatches(wf: Workflow, row: TaskRow) {
    match wf.local
    case Active(p) =>
      NoResult(row) && row.error.None? && row.status == if p.Started? then ACCEPTED else RUNNING
    case Handling(p, _) =>
      NoResult(row) && row.error.None? && row.status == if p.Started? then ACCEPTED else RUNNING
    case Finished(p) =>
      p.Completed? && row.status == COMPLETED && row.error.None?
      && row.tier == Some(p.dec.tier) && row.pointer == Some(p.dec.pointer) && row.cost == Some(p.dec.cost)
    case Raised(p, reason, written) =>
      && NoResult(row)
      && (if written then row.status == FAILED && row.error == Some(reason)
          else row.error.None? && row.status == if p.Started? then ACCEPTED else RUNNING)
  }

  ghost predicate RowsMatch(s: System) {
    |s.wfs| == |s.rows| && forall i :: 0 <= i < |s.wfs| ==> RowMatches(s.wfs[i], s.rows[i])
  }

  /** ACCEPTED, then possibly RUNNING, then COMPLETED or FAILED, which are never left. */
  predicate StatusMayFollow(before: Status, after: Status) {
    || before == after
    || (before == ACCEPTED && (after == RUNNING || after == FAILED))
    || (before == RUNNING && (after == COMPLETED || after == FAILED))
  }

  predicate Terminal(status: Status) {
    status == COMPLETED || status == FAILED
  }

  /** One step of a row: its status moves forward, and a terminal row does not change at all. */
  predicate RowMayFollow(before: TaskRow, after: TaskRow) {
    StatusMayFollow(before.status, after.status) && (Terminal(before.status) ==> after == before)
  }

  lemma AttemptRow(c: Config, s: System, l: Label)
    requires SystemOk(c, s) && RowsMatch(s) && Enabled(c, s, l) && l.Attempt? && StatusKind !in c.lossy
    ensures var s' := Step(c, s, l);
            && |s'.rows| == |s.rows| && s'.rows == s.rows[l.i := s'.rows[l.i]]
            && RowMatches(Moved(c, s, l), s'.rows[l.i])
            && RowMayFollow(s.rows[l.i], s'.rows[l.i])
  {
    assert RowMatches(s.wfs[l.i], s.rows[l.i]);
    assert WorkflowOk(c, s.wfs[l.i]);
    if CommandOf(s, l.i).MarkStatus? {
      assert l.report.Failed? ==> !l.report.effective;
    } else {
      assert Step(c, s, l).rows == s.rows;
    }
  }

  lemma StepRows(c: Config, s: System, l: Label)
    requires SystemOk(c, s) && RowsMatch(s) && Enabled(c, s, l) && StatusKind !in c.lossy
    ensures RowsMatch(Step(c, s, l))
    ensures |Step(c, s, l).rows| >= |s.rows|
    ensures forall i :: 0 <= i < |s.rows| ==> RowMayFollow(s.rows[i], Step(c, s, l).rows[i])
  {
    if l.Attempt? {
      AttemptRow(c, s, l);
      assert Step(c, s, l).wfs == s.wfs[l.i := Moved(c, s, l)];
    }
  }

  lemma {:induction false} RunRows(c: Config, labels: seq<Label>)
    requires ValidRun(c, labels) && StatusKind !in c.lossy
    ensures RowsMatch(Exec(c, labels))
  {
    if labels != [] {
      RunRows(c, labels[..|labels| - 1]);
      RunOk(c, labels[..|labels| - 1]);
      StepRows(c, Exec(c, labels[..|labels| - 1]), labels[|labels| - 1]);
    }
  }

  /** Row `i` is this one. */
  ghost predicate Stands(s: System, i: nat, row: TaskRow) {
    i < |s.rows| && s.rows[i] == row
  }

  lemma StepStands(c: Config, s: System, l: Label, i: nat, row: TaskRow)
    requires SystemOk(c, s) && RowsMatch(s) && Enabled(c, s, l) && StatusKind !in c.lossy
    requires Stands(s, i, row) && Terminal(row.status)
    ensures Stands(Step(c, s, l), i, row)
  {
    StepRows(c, s, l);
  }

  /** When no status write is lost, a terminal row never changes again, however the run goes on. */
  lemma {:induction false} TerminalRowsStay(c: Config, labels: seq<Label>, more: seq<Label>, i: nat, row: TaskRow)
    requires ValidRun(c, labels + more) && StatusKind !in c.lossy
    requires Stands(Exec(c, labels), i, row) && Terminal(row.status)
    ensures Stands(Exec(c, labels + more), i, row)
  {
    if more == [] {
      assert labels + more == labels;
    } else {
      var last := |more| - 1;
      assert (labels + more)[..|labels + more| - 1] == labels + more[..last];
      TerminalRowsStay(c, labels, more[..last], i, row);
      RunOk(c, labels + more[..last]);
      RunRows(c, labels + more[..last]);
      StepStands(c, Exec(c, labels + more[..last]), more[last], i, row);
    }
  }

  /** A COMPLETED row carries one routing decision of its own task, never frontier if the effective
      flag was set; a FAILED row carries a reason and no tier, pointer or cost; and a run that
      raised left FAILED unless its final write was given up. */
  lemma RowsTellTheRun(c: Config, labels: seq<Label>, i: nat)
    requires ValidRun(c, labels) && StatusKind !in c.lossy && i < |Exec(c, labels).wfs|
    ensures |Exec(c, labels).rows| == |Exec(c, labels).wfs|
    ensures var row, wf := Exec(c, labels).rows[i], Exec(c, labels).wfs[i];
            && (row.status == COMPLETED ==>
                  && wf.local.Finished? && wf.local.at.Completed? && row.tier.Some? && row.pointer.Some? && row.cost.Some?
                  && var p := wf.local.at;
                     && Router.Route(wf.input.task, p.degraded, c.pointers)
                        == Ok(Decision(row.tier.value, row.pointer.value, p.degraded, row.cost.value))
                     && row.cost.value == DEFAULT_COST_MODEL.CostFor(row.tier.value)
                     && (p.degraded ==> row.tier.value != Frontier))
            && (row.status == FAILED ==> NoResult(row) && row.error.Some? && wf.local.Raised?)
            && (wf.local.Raised? && wf.local.written ==> row.status == FAILED && row.error == Some(wf.local.reason))
            && (wf.local.Finished? ==> row.status == COMPLETED)
  {
    RunRows(c, labels);
    RunOk(c, labels);
    assert WorkflowOk(c, Exec(c, labels).wfs[i]) && RowMatches(Exec(c, labels).wfs[i], Exec(c, labels).rows[i]);
  }

  // ---- when failed writes may have been made ---------------------------------------------

  /** With status writes that may be made and reported as failed, a FAILED row still has no tier
      and no pointer, but its coalesced cost survives: it is empty or the routed cost. */
  ghost predicate LossyRowMatches(wf: Workflow, row: TaskRow) {
    && (row.cost.Some? ==> HasDecision(wf.local.at) && row.cost.value == wf.local.at.dec.cost)
    && (row.status == FAILED ==> row.tier.None? && row.pointer.None? && row.error.Some?)
    && (row.status != COMPLETED ==> row.tier.None? && row.pointer.None?)
  }

  lemma LossyAttempt(c: Config, s: System, l: Label)
    requires SystemOk(c, s) && Enabled(c, s, l) && l.Attempt? && LossyRowMatches(s.wfs[l.i], s.rows[l.i])
    ensures LossyRowMatches(Moved(c, s, l), Step(c, s, l).rows[l.i])
    ensures Step(c, s, l).rows == s.rows[l.i := Step(c, s, l).rows[l.i]]
  {
    var before, after := s.wfs[l.i], Moved(c, s, l);
    Conservation.MovedShape(c, s, l);
    assert HasDecision(before.local.at) ==> HasDecision(after.local.at) && after.local.at.dec == before.local.at.dec;
    if !CommandOf(s, l.i).MarkStatus? {
      assert Step(c, s, l).rows == s.rows;
    }
  }

  lemma {:induction false} LossyRunRows(c: Config, labels: seq<Label>)
    requires ValidRun(c, labels)
    ensures |Exec(c, labels).rows| == |Exec(c, labels).wfs|
    ensures forall i :: 0 <= i < |Exec(c, labels).wfs| ==>
              LossyRowMatches(Exec(c, labels).wfs[i], Exec(c, labels).rows[i])
  {
    RunOk(c, labels);
    if labels != [] {
      var front, l := labels[..|labels| - 1], labels[|labels| - 1];
      LossyRunRows(c, front);
      RunOk(c, front);
      if l.Attempt? {
        LossyAttempt(c, Exec(c, front), l);
      }
    }
  }

  /** The step writes the COMPLETED row of workflow `i`, whether or not it is reported as failed. */
  predicate Completes(c: Config, s: System, l: Label, i: nat) {
    && Enabled(c, s, l) && l.Attempt? && l.i == i && Conservation.Effective(l)
    && CommandOf(s, i).MarkStatus? && CommandOf(s, i).write.status == COMPLETED
  }

  predicate CompletionWritten(c: Config, labels: seq<Label>, i: nat) {
    labels != []
    && (CompletionWritten(c, labels[..|labels| - 1], i)
        || Completes(c, Exec(c, labels[..|labels| - 1]), labels[|labels| - 1], i))
  }

  lemma StepCost(c: Config, s: System, l: Label, i: nat)
    requires SystemOk(c, s) && Enabled(c, s, l) && i < |s.rows|
    ensures i < |Step(c, s, l).rows|
    ensures Step(c, s, l).rows[i].cost.Some? <==> s.rows[i].cost.Some? || Completes(c, s, l, i)
  {
    if l.Attempt? {
      assert WorkflowOk(c, s.wfs[l.i]);
    }
  }

  lemma {:induction false} NoCompletionBefore(c: Config, labels: seq<Label>, i: nat)
    requires ValidRun(c, labels) && i >= |Exec(c, labels).wfs|
    ensures !CompletionWritten(c, labels, i)
  {
    if labels != [] {
      RunOk(c, labels[..|labels| - 1]);
      NoCompletionBefore(c, labels[..|labels| - 1], i);
    }
  }

  /** Exactly when a row carries a cost, whatever its status: when a COMPLETED write of its workflow
      took effect. So a FAILED row has one exactly when that write was made and reported as failed. */
  lemma {:induction false} CostMeansCompletion(c: Config, labels: seq<Label>, i: nat)
    requires ValidRun(c, labels) && i < |Exec(c, labels).wfs|
    ensures |Exec(c, labels).rows| == |Exec(c, labels).wfs|
    ensures Exec(c, labels).rows[i].cost.Some? <==> CompletionWritten(c, labels, i)
  {
    RunOk(c, labels);
    var front, l := labels[..|labels| - 1], labels[|labels| - 1];
    var s := Exec(c, front);
    RunOk(c, front);
    if i < |s.wfs| {
      CostMeansCompletion(c, front, i);
      StepCost(c, s, l, i);
    } else {
      NoCompletionBefore(c, front, i);
    }
  }

  // ---- when a terminal row changes -------------------------------------------------------

  /** A terminal row is as its workflow wrote it, whether or not the write was reported as failed. */
  ghost predicate TerminalMatches(wf: Workflow, row: TaskRow) {
    && (row.status == COMPLETED ==>
          && (wf.local.at.Dispatched? || wf.local.at.Completed?) && row.error.None?
          && row.tier == Some(wf.local.at.dec.tier) && row.pointer == Some(wf.local.at.dec.pointer)
          && row.cost == Some(wf.local.at.dec.cost))
    && (row.status == FAILED ==>
          && (wf.local.Handling? || wf.local.Raised?) && row.error == Some(wf.local.reason)
          && row.tier.None? && row.pointer.None?)
  }

  lemma TerminalAttempt(c: Config, s: System, l: Label)
    requires SystemOk(c, s) && Enabled(c, s, l) && l.Attempt? && TerminalMatches(s.wfs[l.i], s.rows[l.i])
    ensures TerminalMatches(Moved(c, s, l), Step(c, s, l).rows[l.i])
    ensures Step(c, s, l).rows == s.rows[l.i := Step(c, s, l).rows[l.i]]
  {
    assert WorkflowOk(c, s.wfs[l.i]);
    if !CommandOf(s, l.i).MarkStatus? {
      assert Step(c, s, l).rows == s.rows;
    }
  }

  lemma {:induction false} RunTerminal(c: Config, labels: seq<Label>)
    requires ValidRun(c, labels)
    ensures |Exec(c, labels).rows| == |Exec(c, labels).wfs|
    ensures forall i :: 0 <= i < |Exec(c, labels).wfs| ==>
              TerminalMatches(Exec(c, labels).wfs[i], Exec(c, labels).rows[i])
  {
    RunOk(c, labels);
    if labels != [] {
      var front, l := labels[..|labels| - 1], labels[|labels| - 1];
      RunTerminal(c, front);
      RunOk(c, front);
      if l.Attempt? {
        TerminalAttempt(c, Exec(c, front), l);
      }
    }
  }

  /** The step writes the FAILED row of workflow `i`, whether or not it is reported as failed. */
  predicate WritesFailure(c: Config, s: System, l: Label, i: nat) {
    && Enabled(c, s, l) && l.Attempt? && l.i == i && Conservation.Effective(l)
    && CommandOf(s, i).MarkStatus? && CommandOf(s, i).write.status == FAILED
  }

  /** The rows differ in more than the time of the last write. */
  predicate Differs(row: TaskRow, other: TaskRow) {
    other.(updatedAt := row.updatedAt) != row
  }

  lemma TerminalStep(c: Config, s: System, l: Label, i: nat)
    requires SystemOk(c, s) && Enabled(c, s, l) && i < |s.rows|
    requires TerminalMatches(s.wfs[i], s.rows[i]) && Terminal(s.rows[i].status)
    ensures i < |Step(c, s, l).rows|
    ensures Differs(s.rows[i], Step(c, s, l).rows[i]) <==> s.rows[i].status == COMPLETED && WritesFailure(c, s, l, i)
    ensures s.rows[i].status == COMPLETED && WritesFailure(c, s, l, i) ==>
              s.wfs[i].local.Handling? && s.wfs[i].local.at.Dispatched? && Step(c, s, l).rows[i].status == FAILED
  {
    if l.Attempt? && l.i == i {
      assert WorkflowOk(c, s.wfs[i]);
      OwnTerminalStep(c, s, l);
    }
  }

  lemma OwnTerminalStep(c: Config, s: System, l: Label)
    requires SystemOk(c, s) && Enabled(c, s, l) && l.Attempt? && WorkflowOk(c, s.wfs[l.i])
    requires TerminalMatches(s.wfs[l.i], s.rows[l.i]) && Terminal(s.rows[l.i].status)
    ensures var row, row', wf := s.rows[l.i], Step(c, s, l).rows[l.i], s.wfs[l.i];
            && (Differs(row, row') <==> row.status == COMPLETED && WritesFailure(c, s, l, l.i))
            && (row.status == COMPLETED && WritesFailure(c, s, l, l.i) ==>
                  wf.local.Handling? && wf.local.at.Dispatched? && row'.status == FAILED)
  {
  }

  /** Exactly when a terminal row changes in more than its time stamp, whatever is lost: when a
      COMPLETED write took effect and was reported as failed until its attempts were exhausted, and
      the FAILED write of the handler follows. */
  lemma TerminalRowChanges(c: Config, labels: seq<Label>, l: Label, i: nat)
    requires ValidRun(c, labels) && Enabled(c, Exec(c, labels), l)
    requires i < |Exec(c, labels).rows| && Terminal(Exec(c, labels).rows[i].status)
    ensures var s, s' := Exec(c, labels), Step(c, Exec(c, labels), l);
            && i < |s'.rows|
            && (Differs(s.rows[i], s'.rows[i]) <==> s.rows[i].status == COMPLETED && WritesFailure(c, s, l, i))
            && (s.rows[i].status == COMPLETED && WritesFailure(c, s, l, i) ==>
                  i < |s.wfs| && s.wfs[i].local.Handling? && s.wfs[i].local.at.Dispatched? && s'.rows[i].status == FAILED)
  {
    RunOk(c, labels);
    RunTerminal(c, labels);
    TerminalStep(c, Exec(c, labels), l, i);
  }
}
