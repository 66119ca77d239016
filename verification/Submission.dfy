/** Idempotent submission by any number of interleaved submitters: rate limit, claim the key,
    create the task row, start the workflow. A submitter may stop for good at any point. */
module Submission {
  import opened Options
  import opened TaskTable

  datatype Request = Request(account: string, key: Option<string>, taskId: string, correlation: string)

  /** `Returned.mine` tells a submitter that started its own task from one handed an existing id. */
  datatype Pc = Arrived | Refused | Admitted | Claimed | Created | Returned(id: string, mine: bool)

  datatype Submitter = Submitter(req: Request, pc: Pc, dropped: bool)

  /** `started` lists the workflow starts in order. */
  datatype State = State(idem: map<string, string>, rows: map<string, TaskRow>, started: seq<string>, subs: seq<Submitter>)

  datatype Label = Go(i: nat, now: real, allowed: bool) | Drop(i: nat)

  predicate Running(sub: Submitter) {
    !sub.dropped && !sub.pc.Refused? && !sub.pc.Returned?
  }

  predicate Enabled(s: State, l: Label) {
    l.i < |s.subs| && Running(s.subs[l.i])
  }

  /** The atomic claim, as the SQLite store makes it: check, then insert. */
  function Claim(s: State, i: nat): State
    requires i < |s.subs|
  {
    var sub := s.subs[i];
    var key := sub.req.key;
    if key.None? then s.(subs := s.subs[i := sub.(pc := Claimed)])
    else if key.value in s.idem then s.(subs := s.subs[i := sub.(pc := Returned(s.idem[key.value], false))])
    else s.(idem := s.idem[key.value := sub.req.taskId], subs := s.subs[i := sub.(pc := Claimed)])
  }

  function Step(s: State, l: Label): State
    requires Enabled(s, l)
  {
    var sub := s.subs[l.i];
    match l
    case Drop(i) => s.(subs := s.subs[i := sub.(dropped := true)])
    case Go(i, now, allowed) =>
      match sub.pc
      case Arrived => s.(subs := s.subs[i := sub.(pc := if allowed then Admitted else Refused)])
      case Admitted => Claim(s, i)
      case Claimed =>
        s.(rows := InsertOrReplace(s.rows, sub.req.taskId, sub.req.account, sub.req.key, sub.req.correlation, now),
           subs := s.subs[i := sub.(pc := Created)])
      case Created =>
        s.(started := s.started + [sub.req.taskId], subs := s.subs[i := sub.(pc := Returned(sub.req.taskId, true))])
      case Refused => s
      case Returned(_, _) => s
  }

  function Start(reqs: seq<Request>): State {
    State(map[], map[], [], seq(|reqs|, i requires 0 <= i < |reqs| => Submitter(reqs[i], Arrived, false)))
  }

  function ExecFrom(s: State, labels: seq<Label>): State {
    if labels == [] then s
    else
      var before := ExecFrom(s, labels[..|labels| - 1]);
      if Enabled(before, labels[|labels| - 1]) then Step(before, labels[|labels| - 1]) else before
  }

  ghost predicate ValidFrom(s: State, labels: seq<Label>) {
    labels == []
    || (&& ValidFrom(s, labels[..|labels| - 1])
        && Enabled(ExecFrom(s, labels[..|labels| - 1]), labels[|labels| - 1]))
  }

  /** Fresh uuids: no two submitters draw the same task id. */
  ghost predicate DistinctIds(reqs: seq<Request>) {
    forall i, j :: 0 <= i < j < |reqs| ==> reqs[i].taskId != reqs[j].taskId
  }

  // ---- the invariant ---------------------------------------------------------------------

  predicate HasClaimed(sub: Submitter) {
    sub.pc.Claimed? || HasRow(sub)
  }

  predicate HasRow(sub: Submitter) {
    sub.pc.Created? || HasStarted(sub)
  }

  predicate HasStarted(sub: Submitter) {
    sub.pc.Returned? && sub.pc.mine
  }

  ghost predicate ClaimsKey(s: State, i: nat, key: string)
    requires i < |s.subs|
  {
    s.subs[i].req.key == Some(key) && HasClaimed(s.subs[i])
  }

  /** What each submitter has done, as the tables show it. */
  ghost predicate SubmitterOk(s: State, i: nat)
    requires i < |s.subs|
  {
    var sub := s.subs[i];
    && (HasClaimed(sub) && sub.req.key.Some? ==>
          sub.req.key.value in s.idem && s.idem[sub.req.key.value] == sub.req.taskId)
    && (sub.pc.Returned? && !sub.pc.mine ==>
          sub.req.key.Some? && sub.req.key.value in s.idem && s.idem[sub.req.key.value] == sub.pc.id)
    && (sub.pc.Returned? && sub.pc.mine ==> sub.pc.id == sub.req.taskId)
    && (HasRow(sub) <==> sub.req.taskId in s.rows)
    && (HasRow(sub) ==> s.rows[sub.req.taskId].account == sub.req.account
                        && s.rows[sub.req.taskId].key == sub.req.key
                        && s.rows[sub.req.taskId].correlation == sub.req.correlation)
    && (HasStarted(sub) <==> sub.req.taskId in s.started)
  }

  /** Everything in the tables was put there by some submitter. */
  ghost predicate TablesOk(s: State) {
    && (forall key :: key in s.idem ==> exists i :: 0 <= i < |s.subs| && ClaimsKey(s, i, key))
    && (forall id :: id in s.rows ==> exists i :: 0 <= i < |s.subs| && s.subs[i].req.taskId == id)
    && (forall id :: id in s.started ==> id in s.rows)
    && (forall m, n :: 0 <= m < n < |s.started| ==> s.started[m] != s.started[n])
  }

  ghost predicate IdsDistinct(s: State) {
    forall i, j :: 0 <= i < |s.subs| && 0 <= j < |s.subs| && i != j ==> s.subs[i].req.taskId != s.subs[j].req.taskId
  }

  ghost predicate Inv(s: State) {
    IdsDistinct(s) && TablesOk(s) && (forall i :: 0 <= i < |s.subs| ==> SubmitterOk(s, i))
  }

  // ---- steps keep it ---------------------------------------------------------------------

  lemma OnlyOneMoves(s: State, l: Label)
    requires Enabled(s, l)
    ensures var s' := Step(s, l);
            && |s'.subs| == |s.subs| && s'.subs[l.i].req == s.subs[l.i].req
            && s'.subs == s.subs[l.i := s'.subs[l.i]]
            && (forall key :: key in s.idem ==> key in s'.idem && s'.idem[key] == s.idem[key])
            && (HasClaimed(s.subs[l.i]) ==> HasClaimed(s'.subs[l.i]))
  {
  }

  lemma OwnSubmitterOk(s: State, l: Label)
    requires Inv(s) && Enabled(s, l)
    ensures SubmitterOk(Step(s, l), l.i)
  {
    assert SubmitterOk(s, l.i);
    assert Step(s, l).subs[l.i].req == s.subs[l.i].req;
  }

  /** What submitter `i` depends on is the same: itself, its own row and start, and the keys mapped. */
  ghost predicate SameFor(s: State, s': State, i: nat) {
    && i < |s.subs| && i < |s'.subs| && s'.subs[i] == s.subs[i]
    && (forall key :: key in s.idem ==> key in s'.idem && s'.idem[key] == s.idem[key])
    && var id := s.subs[i].req.taskId;
       && (id in s.rows <==> id in s'.rows) && (id in s.rows ==> s'.rows[id] == s.rows[id])
       && (id in s.started <==> id in s'.started)
  }

  lemma StepSameFor(s: State, l: Label, i: nat)
    requires IdsDistinct(s) && Enabled(s, l) && i < |s.subs| && i != l.i
    ensures SameFor(s, Step(s, l), i)
  {
    assert s.subs[i].req.taskId != s.subs[l.i].req.taskId;
  }

  lemma SameForOk(s: State, s': State, i: nat)
    requires SameFor(s, s', i) && SubmitterOk(s, i)
    ensures SubmitterOk(s', i)
  {
  }

  lemma OtherSubmitterOk(s: State, l: Label, i: nat)
    requires Inv(s) && Enabled(s, l) && i < |s.subs| && i != l.i
    ensures SubmitterOk(Step(s, l), i)
  {
    assert SubmitterOk(s, i);
    StepSameFor(s, l, i);
    SameForOk(s, Step(s, l), i);
  }

  lemma StepSubmitters(s: State, l: Label)
    requires Inv(s) && Enabled(s, l)
    ensures forall i :: 0 <= i < |Step(s, l).subs| ==> SubmitterOk(Step(s, l), i)
  {
    OnlyOneMoves(s, l);
    forall i | 0 <= i < |Step(s, l).subs| ensures SubmitterOk(Step(s, l), i) {
      if i == l.i {
        OwnSubmitterOk(s, l);
      } else {
        OtherSubmitterOk(s, l, i);
      }
    }
  }

  lemma StepTables(s: State, l: Label)
    requires Inv(s) && Enabled(s, l)
    ensures TablesOk(Step(s, l)) && IdsDistinct(Step(s, l))
  {
    var s' := Step(s, l);
    OnlyOneMoves(s, l);
    forall key | key in s'.idem ensures exists i :: 0 <= i < |s'.subs| && ClaimsKey(s', i, key) {
      if key in s.idem {
        var i :| 0 <= i < |s.subs| && ClaimsKey(s, i, key);
        assert ClaimsKey(s', i, key);
      } else {
        assert ClaimsKey(s', l.i, key);
      }
    }
    StepStarts(s, l);
  }

  lemma StepStarts(s: State, l: Label)
    requires Inv(s) && Enabled(s, l)
    ensures var s' := Step(s, l);
            && (forall id :: id in s'.rows ==> exists i :: 0 <= i < |s'.subs| && s'.subs[i].req.taskId == id)
            && (forall id :: id in s'.started ==> id in s'.rows)
            && (forall m, n :: 0 <= m < n < |s'.started| ==> s'.started[m] != s'.started[n])
  {
    StartedOnce(s, l);
    var s' := Step(s, l);
    OnlyOneMoves(s, l);
    forall id | id in s'.rows ensures exists i :: 0 <= i < |s'.subs| && s'.subs[i].req.taskId == id {
      if id in s.rows {
        var i :| 0 <= i < |s.subs| && s.subs[i].req.taskId == id;
        assert s'.subs[i].req.taskId == id;
      } else {
        assert s'.subs[l.i].req.taskId == id;
      }
    }
  }

  lemma StartedOnce(s: State, l: Label)
    requires Inv(s) && Enabled(s, l)
    ensures var s' := Step(s, l);
            && (forall id :: id in s'.started ==> id in s'.rows)
            && (forall m, n :: 0 <= m < n < |s'.started| ==> s'.started[m] != s'.started[n])
  {
    assert SubmitterOk(s, l.i);
  }

  lemma {:induction false} RunKeepsInv(reqs: seq<Request>, labels: seq<Label>)
    requires DistinctIds(reqs) && ValidFrom(Start(reqs), labels)
    ensures Inv(ExecFrom(Start(reqs), labels))
    ensures |ExecFrom(Start(reqs), labels).subs| == |reqs|
  {
    if labels != [] {
      var front, l := labels[..|labels| - 1], labels[|labels| - 1];
      RunKeepsInv(reqs, front);
      var s := ExecFrom(Start(reqs), front);
      StepSubmitters(s, l);
      StepTables(s, l);
      OnlyOneMoves(s, l);
    } else {
      assert forall i :: 0 <= i < |reqs| ==> SubmitterOk(Start(reqs), i);
    }
  }

  // ---- main results ----------------------------------------------------------------------

  /** A key's mapping is written once, however the run goes on. */
  lemma {:induction false} KeysAreWriteOnce(s: State, labels: seq<Label>, key: string)
    requires ValidFrom(s, labels) && key in s.idem
    ensures key in ExecFrom(s, labels).idem && ExecFrom(s, labels).idem[key] == s.idem[key]
  {
    if labels != [] {
      KeysAreWriteOnce(s, labels[..|labels| - 1], key);
      OnlyOneMoves(ExecFrom(s, labels[..|labels| - 1]), labels[|labels| - 1]);
    }
  }

  /** The limiter's answer at submitter `i`'s first step, if it has made one. */
  function FirstAnswer(labels: seq<Label>, i: nat): Option<bool> {
    if labels == [] then None
    else
      var l := labels[|labels| - 1];
      var before := FirstAnswer(labels[..|labels| - 1], i);
      if before.None? && l.Go? && l.i == i then Some(l.allowed) else before
  }

  /** Submitter `i` is where that answer sends it. */
  ghost predicate Sent(s: State, i: nat, answer: Option<bool>) {
    && i < |s.subs|
    && (s.subs[i].pc.Arrived? <==> answer.None?)
    && (s.subs[i].pc.Refused? <==> answer == Some(false))
  }

  lemma StepSent(s: State, l: Label, i: nat, answer: Option<bool>)
    requires Enabled(s, l) && Sent(s, i, answer)
    ensures Sent(Step(s, l), i, if answer.None? && l.Go? && l.i == i then Some(l.allowed) else answer)
  {
  }

  /** Exactly the submitters whose first step met a denial are refused, and exactly those that have
      made no step are still to be answered; all others were let through. */
  lemma {:induction false} RefusedExactly(reqs: seq<Request>, labels: seq<Label>, i: nat)
    requires ValidFrom(Start(reqs), labels) && i < |reqs|
    ensures Sent(ExecFrom(Start(reqs), labels), i, FirstAnswer(labels, i))
  {
    if labels != [] {
      var front := labels[..|labels| - 1];
      RefusedExactly(reqs, front, i);
      StepSent(ExecFrom(Start(reqs), front), labels[|labels| - 1], i, FirstAnswer(front, i));
    }
  }

  /** A submitter whose first step met a denial leaves no mapping, no row and no start, in any state. */
  lemma RefusedLeavesNothing(reqs: seq<Request>, labels: seq<Label>, i: nat)
    requires DistinctIds(reqs) && ValidFrom(Start(reqs), labels) && i < |reqs|
    requires FirstAnswer(labels, i) == Some(false)
    ensures var s := ExecFrom(Start(reqs), labels);
            && |s.subs| == |reqs| && s.subs[i].pc == Refused
            && s.subs[i].req.taskId !in s.rows && s.subs[i].req.taskId !in s.started
            && forall key :: key in s.idem ==> s.idem[key] != s.subs[i].req.taskId
  {
    RunKeepsInv(reqs, labels);
    RefusedExactly(reqs, labels, i);
    var s := ExecFrom(Start(reqs), labels);
    assert SubmitterOk(s, i);
    forall key | key in s.idem ensures s.idem[key] != s.subs[i].req.taskId {
      var w :| 0 <= w < |s.subs| && ClaimsKey(s, w, key);
      assert SubmitterOk(s, w);
    }
  }

  /** Of all submitters of one key: every returned id is the same; at most one claims it, has a
      task row, or starts a workflow; and exactly one has claimed it once anyone got past the claim. */
  lemma OneTaskPerKey(reqs: seq<Request>, labels: seq<Label>, i: nat, j: nat, key: string)
    requires DistinctIds(reqs) && ValidFrom(Start(reqs), labels) && i < |reqs| && j < |reqs|
    requires var s := ExecFrom(Start(reqs), labels);
             |s.subs| == |reqs| && s.subs[i].req.key == s.subs[j].req.key == Some(key)
    ensures var s := ExecFrom(Start(reqs), labels);
            && (s.subs[i].pc.Returned? && s.subs[j].pc.Returned? ==> s.subs[i].pc.id == s.subs[j].pc.id)
            && (HasClaimed(s.subs[i]) && HasClaimed(s.subs[j]) ==> i == j)
            && (s.subs[i].req.taskId in s.rows && s.subs[j].req.taskId in s.rows ==> i == j)
            && (s.subs[i].req.taskId in s.started && s.subs[j].req.taskId in s.started ==> i == j)
            && (s.subs[i].pc.Returned? ==> exists w :: 0 <= w < |s.subs| && ClaimsKey(s, w, key)
                                                       && s.subs[w].req.taskId == s.subs[i].pc.id)
  {
    RunKeepsInv(reqs, labels);
    var s := ExecFrom(Start(reqs), labels);
    assert SubmitterOk(s, i) && SubmitterOk(s, j);
    if s.subs[i].pc.Returned? {
      var w :| 0 <= w < |s.subs| && ClaimsKey(s, w, key);
      assert SubmitterOk(s, w);
    }
  }

  /** No workflow is started twice, and every started workflow already has its own task row. */
  lemma StartsHaveRows(reqs: seq<Request>, labels: seq<Label>)
    requires DistinctIds(reqs) && ValidFrom(Start(reqs), labels)
    ensures var s := ExecFrom(Start(reqs), labels);
            && (forall id :: id in s.started ==> id in s.rows)
            && (forall m, n :: 0 <= m < n < |s.started| ==> s.started[m] != s.started[n])
            && (forall i :: 0 <= i < |s.subs| && HasStarted(s.subs[i]) ==> s.subs[i].req.taskId in s.started)
  {
    RunKeepsInv(reqs, labels);
    var s := ExecFrom(Start(reqs), labels);
    forall i | 0 <= i < |s.subs| && HasStarted(s.subs[i]) ensures s.subs[i].req.taskId in s.started {
      assert SubmitterOk(s, i);
    }
  }

  /** A task's row carries what its own submitter asked for. */
  lemma RowsAreTheirs(reqs: seq<Request>, labels: seq<Label>, i: nat)
    requires DistinctIds(reqs) && ValidFrom(Start(reqs), labels) && i < |reqs|
    ensures var s := ExecFrom(Start(reqs), labels);
            && |s.subs| == |reqs|
            && var req := s.subs[i].req;
               req.taskId in s.rows ==>
                 && s.rows[req.taskId].account == req.account && s.rows[req.taskId].key == req.key
                 && s.rows[req.taskId].correlation == req.correlation && s.rows[req.taskId].status == ACCEPTED
  {
    RunKeepsInv(reqs, labels);
    AcceptedRows(reqs, labels);
    assert SubmitterOk(ExecFrom(Start(reqs), labels), i);
  }

  /** Who claimed the id a submitter is handed: it has a task row exactly when the claimer has got
      past creating it, and a started workflow exactly when the claimer started it. */
  lemma DuplicateFindsTask(reqs: seq<Request>, labels: seq<Label>, i: nat)
    requires DistinctIds(reqs) && ValidFrom(Start(reqs), labels) && i < |reqs|
    requires var s := ExecFrom(Start(reqs), labels); |s.subs| == |reqs| && s.subs[i].pc.Returned?
    ensures var s := ExecFrom(Start(reqs), labels);
            exists w :: 0 <= w < |s.subs| && s.subs[w].req.taskId == s.subs[i].pc.id
                        && HasClaimed(s.subs[w])
                        && (s.subs[i].pc.id in s.rows <==> HasRow(s.subs[w]))
                        && (s.subs[i].pc.id in s.started <==> HasStarted(s.subs[w]))
  {
    RunKeepsInv(reqs, labels);
    var s := ExecFrom(Start(reqs), labels);
    assert SubmitterOk(s, i);
    if s.subs[i].pc.mine {
      assert HasClaimed(s.subs[i]);
    } else {
      var w :| 0 <= w < |s.subs| && ClaimsKey(s, w, s.subs[i].req.key.value);
      assert SubmitterOk(s, w);
    }
  }

  /** A stopped submitter's task stays where it left it. */
  ghost predicate LeftAt(s: State, i: nat, sub: Submitter, row: TaskRow) {
    && i < |s.subs| && s.subs[i] == sub && sub.dropped
    && sub.req.taskId in s.rows && s.rows[sub.req.taskId] == row
  }

  lemma StepLeaves(s: State, l: Label, i: nat, sub: Submitter, row: TaskRow)
    requires Inv(s) && Enabled(s, l) && LeftAt(s, i, sub, row)
    ensures LeftAt(Step(s, l), i, sub, row)
  {
    assert l.i != i;
    assert s.subs[l.i].req.taskId != sub.req.taskId;
  }

  /** A submitter that stops between create and start leaves a task that is accepted for good: its
      row never changes again and no workflow is ever started for it, whatever others submit. */
  lemma {:induction false} StrandedForGood(reqs: seq<Request>, labels: seq<Label>, more: seq<Label>, i: nat)
    requires DistinctIds(reqs) && ValidFrom(Start(reqs), labels + more)
    requires var s := ExecFrom(Start(reqs), labels);
             && i < |s.subs| && s.subs[i].dropped && s.subs[i].pc.Created? && s.subs[i].req.taskId in s.rows
    ensures var s, s' := ExecFrom(Start(reqs), labels), ExecFrom(Start(reqs), labels + more);
            var id := s.subs[i].req.taskId;
            LeftAt(s', i, s.subs[i], s.rows[id]) && s'.rows[id].status == ACCEPTED && id !in s'.started
  {
    var s := ExecFrom(Start(reqs), labels);
    RunKeepsInv(reqs, labels + more);
    if more == [] {
      assert labels + more == labels;
      AcceptedRows(reqs, labels);
      assert SubmitterOk(s, i);
    } else {
      var last := |more| - 1;
      assert (labels + more)[..|labels + more| - 1] == labels + more[..last];
      StrandedForGood(reqs, labels, more[..last], i);
      RunKeepsInv(reqs, labels + more[..last]);
      StepLeaves(ExecFrom(Start(reqs), labels + more[..last]), more[last], i, s.subs[i], s.rows[s.subs[i].req.taskId]);
      assert SubmitterOk(ExecFrom(Start(reqs), labels + more), i);
    }
  }

  ghost predicate AllAccepted(s: State) {
    forall id :: id in s.rows ==> s.rows[id].status == ACCEPTED
  }

  lemma StepAccepted(s: State, l: Label)
    requires AllAccepted(s) && Enabled(s, l)
    ensures AllAccepted(Step(s, l))
  {
  }

  /** Submission only ever writes accepted rows. */
  lemma {:induction false} AcceptedRows(reqs: seq<Request>, labels: seq<Label>)
    requires ValidFrom(Start(reqs), labels)
    ensures AllAccepted(ExecFrom(Start(reqs), labels))
  {
    if labels != [] {
      AcceptedRows(reqs, labels[..|labels| - 1]);
      StepAccepted(ExecFrom(Start(reqs), labels[..|labels| - 1]), labels[|labels| - 1]);
    }
  }

  /** Rows are only ever created for ids that have none, so the two stores' forms of creating a row
      give the same table here. */
  lemma CreateFormsAgreeHere(reqs: seq<Request>, labels: seq<Label>, i: nat, now: real)
    requires DistinctIds(reqs) && ValidFrom(Start(reqs), labels) && i < |reqs|
    requires var s := ExecFrom(Start(reqs), labels); |s.subs| == |reqs| && s.subs[i].pc == Claimed
    ensures var s, req := ExecFrom(Start(reqs), labels), ExecFrom(Start(reqs), labels).subs[i].req;
            InsertOrReplace(s.rows, req.taskId, req.account, req.key, req.correlation, now)
            == InsertOrUpdate(s.rows, req.taskId, req.account, req.key, req.correlation, now)
  {
    RunKeepsInv(reqs, labels);
    assert SubmitterOk(ExecFrom(Start(reqs), labels), i);
  }

  /** So a duplicate can be handed an id without a task: the claimer stops between claim and create. */
  lemma DuplicateWithoutTask()
    ensures var reqs := [Request("acct", Some("k"), "t0", "c0"), Request("acct", Some("k"), "t1", "c1")];
            var labels := [Go(0, 0.0, true), Go(0, 0.0, true), Drop(0), Go(1, 0.0, true), Go(1, 0.0, true)];
            var s := ExecFrom(Start(reqs), labels);
            && ValidFrom(Start(reqs), labels)
            && |s.subs| == 2 && s.subs[1].pc == Returned("t0", false) && "t0" !in s.rows
  {
    var reqs := [Request("acct", Some("k"), "t0", "c0"), Request("acct", Some("k"), "t1", "c1")];
    var labels := [Go(0, 0.0, true), Go(0, 0.0, true), Drop(0), Go(1, 0.0, true), Go(1, 0.0, true)];
    var s0 := Start(reqs);
    assert labels[..4][..3] == labels[..3] && labels[..3][..2] == labels[..2] && labels[..2][..1] == labels[..1];
    assert labels[..1][..0] == [] && labels[..5] == labels;
    var s1 := Step(s0, labels[0]);
    assert ExecFrom(s0, labels[..1]) == s1 && ValidFrom(s0, labels[..1]);
    var s2 := Step(s1, labels[1]);
    assert ExecFrom(s0, labels[..2]) == s2 && ValidFrom(s0, labels[..2]);
    var s3 := Step(s2, labels[2]);
    assert ExecFrom(s0, labels[..3]) == s3 && ValidFrom(s0, labels[..3]);
    var s4 := Step(s3, labels[3]);
    assert ExecFrom(s0, labels[..4]) == s4 && ValidFrom(s0, labels[..4]);
    assert ExecFrom(s0, labels) == Step(s4, labels[4]);
  }
}

/** The claim as the Postgres store makes it, statement by statement: insert, on conflict do
    nothing; commit if a row came back, otherwise select the existing mapping. */
module PgClaims {
  import opened Options
  import S = Submission

  /** Extra places inside the claim's transaction. */
  datatype Place = At(pc: S.Pc) | KeyInserted | KeyConflict | AssertionFailed

  datatype Claimer = Claimer(req: S.Request, place: Place, dropped: bool)

  /** `pending[k]` is the submitter whose uncommitted row holds key k. */
  datatype State = State(base: S.State, pending: map<string, nat>, claimers: seq<Claimer>)

  /** The submitter as the atomic protocol sees it: still admitted until the claim is decided. */
  function Abstract(c: Claimer): S.Submitter {
    S.Submitter(c.req, if c.place.At? then c.place.pc else S.Admitted, c.dropped)
  }

  function AbstractState(s: State): S.State {
    s.base.(subs := seq(|s.claimers|, i requires 0 <= i < |s.claimers| => Abstract(s.claimers[i])))
  }

  predicate Running(c: Claimer) {
    !c.dropped && !c.place.AssertionFailed? && !(c.place.At? && (c.place.pc.Refused? || c.place.pc.Returned?))
  }

  /** An insert waits while another transaction's uncommitted row holds the key. */
  predicate Enabled(s: State, l: S.Label) {
    && l.i < |s.claimers|
    && var c := s.claimers[l.i];
       && Running(c)
       && (l.Go? && c.place == At(S.Admitted) && c.req.key.Some? ==> c.req.key.value !in s.pending)
  }

  function With(s: State, i: nat, place: Place): State
    requires i < |s.claimers|
  {
    s.(claimers := s.claimers[i := s.claimers[i].(place := place)])
  }

  /** Outside the claim the step is the atomic protocol's own. */
  function Outside(s: State, l: S.Label): State
    requires l.i < |s.claimers| && S.Enabled(AbstractState(s), l)
  {
    var after := S.Step(AbstractState(s), l);
    State(after.(subs := []), s.pending,
          s.claimers[l.i := Claimer(s.claimers[l.i].req, At(after.subs[l.i].pc), after.subs[l.i].dropped)])
  }

  function Step(s: State, l: S.Label): State
    requires Enabled(s, l)
  {
    var c := s.claimers[l.i];
    if l.Drop? then
      // Rollback: an uncommitted key row disappears with its transaction.
      State(s.base,
            if c.place.KeyInserted? && c.req.key.Some? then s.pending - {c.req.key.value} else s.pending,
            s.claimers[l.i := Claimer(c.req, if c.place.At? then c.place else At(S.Admitted), true)])
    else match c.place
      case At(pc) =>
        if pc.Admitted? && c.req.key.Some? then
          if c.req.key.value in s.base.idem then With(s, l.i, KeyConflict)
          else With(s, l.i, KeyInserted).(pending := s.pending[c.req.key.value := l.i])
        else Outside(s, l)
      case KeyInserted =>
        if c.req.key.Some? then
          With(s, l.i, At(S.Claimed)).(
            base := s.base.(idem := s.base.idem[c.req.key.value := c.req.taskId]),
            pending := s.pending - {c.req.key.value})
        else With(s, l.i, AssertionFailed)
      case KeyConflict =>
        if c.req.key.Some? && c.req.key.value in s.base.idem then
          With(s, l.i, At(S.Returned(s.base.idem[c.req.key.value], false)))
        else With(s, l.i, AssertionFailed)
      case AssertionFailed => s
  }

  function Start(reqs: seq<S.Request>): State {
    State(S.Start([]), map[], seq(|reqs|, i requires 0 <= i < |reqs| => Claimer(reqs[i], At(S.Arrived), false)))
  }

  function Exec(reqs: seq<S.Request>, labels: seq<S.Label>): State {
    if labels == [] then Start(reqs)
    else
      var s := Exec(reqs, labels[..|labels| - 1]);
      if Enabled(s, labels[|labels| - 1]) then Step(s, labels[|labels| - 1]) else s
  }

  ghost predicate ValidRun(reqs: seq<S.Request>, labels: seq<S.Label>) {
    labels == []
    || (&& ValidRun(reqs, labels[..|labels| - 1])
        && Enabled(Exec(reqs, labels[..|labels| - 1]), labels[|labels| - 1]))
  }

  /** The insert alone decides nothing; every other statement is a step of the atomic protocol. */
  predicate Silent(s: State, l: S.Label)
    requires l.i < |s.claimers|
  {
    l.Go? && s.claimers[l.i].place == At(S.Admitted) && s.claimers[l.i].req.key.Some?
  }

  function Erase(reqs: seq<S.Request>, labels: seq<S.Label>): seq<S.Label> {
    if labels == [] then []
    else
      var front, l := labels[..|labels| - 1], labels[|labels| - 1];
      var s := Exec(reqs, front);
      if l.i < |s.claimers| && Silent(s, l) then Erase(reqs, front) else Erase(reqs, front) + [l]
  }

  /** Uncommitted keys are not yet mapped, and a seen conflict means a committed mapping. */
  ghost predicate Inv(s: State) {
    && s.base.subs == []
    && (forall i :: 0 <= i < |s.claimers| ==> ClaimerOk(s, i))
    && (forall key :: key in s.pending ==> key !in s.base.idem)
  }

  ghost predicate ClaimerOk(s: State, i: nat)
    requires i < |s.claimers|
  {
    var c := s.claimers[i];
    && !c.place.AssertionFailed?
    && (c.place.KeyInserted? ==> !c.dropped && c.req.key.Some? && c.req.key.value in s.pending
                                 && s.pending[c.req.key.value] == i)
    && (c.place.KeyConflict? ==> !c.dropped && c.req.key.Some? && c.req.key.value in s.base.idem)
  }

  lemma AbstractMoves(s: State, s': State, i: nat)
    requires i < |s.claimers| && |s'.claimers| == |s.claimers|
    requires s'.claimers == s.claimers[i := s'.claimers[i]]
    ensures AbstractState(s').subs == AbstractState(s).subs[i := Abstract(s'.claimers[i])]
  {
  }

  lemma AbstractEnabled(s: State, l: S.Label)
    requires Inv(s) && Enabled(s, l)
    ensures S.Enabled(AbstractState(s), l)
  {
    assert AbstractState(s).subs[l.i] == Abstract(s.claimers[l.i]);
  }

  lemma StepKeepsInv(s: State, l: S.Label)
    requires Inv(s) && Enabled(s, l)
    ensures Inv(Step(s, l))
  {
    var s' := Step(s, l);
    assert ClaimerOk(s, l.i);
    AbstractEnabled(s, l);
    forall i | 0 <= i < |s'.claimers| ensures ClaimerOk(s', i) {
      assert ClaimerOk(s, i);
    }
  }

  lemma StepSimulates(s: State, l: S.Label)
    requires Inv(s) && Enabled(s, l)
    ensures S.Enabled(AbstractState(s), l)
    ensures AbstractState(Step(s, l)) == if Silent(s, l) then AbstractState(s) else S.Step(AbstractState(s), l)
  {
    var s' := Step(s, l);
    var a := AbstractState(s);
    assert ClaimerOk(s, l.i);
    AbstractEnabled(s, l);
    AbstractMoves(s, s', l.i);
    assert a.subs[l.i] == Abstract(s.claimers[l.i]);
    if Silent(s, l) {
      assert a.subs[l.i := a.subs[l.i]] == a.subs;
    } else {
      assert AbstractState(s').subs == S.Step(a, l).subs;
    }
  }

  /** The insert-then-select claim is the check-then-insert claim: leaving the inserts out of any
      run gives a run of the atomic protocol with the same tables and returned ids, and the
      assertion that the conflicting mapping exists never fails. */
  lemma {:induction false} ClaimFormsAgree(reqs: seq<S.Request>, labels: seq<S.Label>)
    requires ValidRun(reqs, labels)
    ensures Inv(Exec(reqs, labels))
    ensures S.ValidFrom(S.Start(reqs), Erase(reqs, labels))
    ensures S.ExecFrom(S.Start(reqs), Erase(reqs, labels)) == AbstractState(Exec(reqs, labels))
  {
    if labels == [] {
      assert AbstractState(Start(reqs)) == S.Start(reqs);
      assert forall i :: 0 <= i < |reqs| ==> ClaimerOk(Start(reqs), i);
    } else {
      var front, l := labels[..|labels| - 1], labels[|labels| - 1];
      var s := Exec(reqs, front);
      ClaimFormsAgree(reqs, front);
      StepKeepsInv(s, l);
      StepSimulates(s, l);
      if !Silent(s, l) {
        assert Erase(reqs, labels)[..|Erase(reqs, labels)| - 1] == Erase(reqs, front);
      }
    }
  }
}
