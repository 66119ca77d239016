/** Runs of the Postgres store one transaction after another: every list of calls has one, so what
    a commit order gives, a run of just those calls gives. */
module PgSerial {
  import opened AccountLedger
  import opened ChargeTable
  import opened PgTransactions
  import Refinement = PgRefinement
  import Progress = PgProgress

  // ---- one transaction at a time ---------------------------------------------------------

  /** The transactions before `k` have committed in order, those after it have not begun, and `k`
      itself is on its way. */
  ghost predicate Turn(s: State, calls: seq<Call>, k: nat) {
    && |s.txns| == |calls| && k < |calls|
    && (forall t :: 0 <= t < |calls| ==> s.txns[t].req == calls[t].req && s.txns[t].now == calls[t].now)
    && (forall t :: 0 <= t < k ==> s.txns[t].pc == Committed)
    && (forall t :: k < t < |calls| ==> s.txns[t].pc == Waiting)
    && s.txns[k].pc != Aborted
    && |s.log| == k + (if s.txns[k].pc == Committed then 1 else 0)
    && (forall j :: 0 <= j < |s.log| ==> s.log[j].txn == j)
  }

  /** With no other transaction holding a connection, an unfinished one is never blocked. */
  lemma AloneAdvances(s: State, maxConnections: nat, k: nat)
    requires Refinement.LocksOk(s) && Progress.PendingOk(s) && Progress.PoolOk(s, maxConnections) && maxConnections >= 1
    requires k < |s.txns| && !Finished(s.txns[k])
    requires Alone(s, k)
    ensures CanAdvance(s, maxConnections, k)
  {
    if s.txns[k].pc == Waiting {
      Progress.NoConnections(s.txns);
    }
  }

  /** What a statement leaves of its transaction and adds to the log. */
  lemma GoKeeps(p: Policy, s: State, maxConnections: nat, k: nat)
    requires CanAdvance(s, maxConnections, k)
    ensures var s' := Advance(p, s, k);
            && |s'.txns| == |s.txns| && s'.txns == s.txns[k := s'.txns[k]]
            && s'.txns[k].req == s.txns[k].req && s'.txns[k].now == s.txns[k].now && s'.txns[k].pc != Aborted
            && (if s'.txns[k].pc == Committed then |s'.log| == |s.log| + 1 && s'.log[..|s.log|] == s.log && s'.log[|s.log|].txn == k
                else s'.log == s.log)
  {
  }

  lemma TurnAdvances(p: Policy, s: State, maxConnections: nat, calls: seq<Call>, k: nat)
    requires Turn(s, calls, k) && CanAdvance(s, maxConnections, k)
    ensures Turn(Advance(p, s, k), calls, k)
  {
    GoKeeps(p, s, maxConnections, k);
  }

  ghost predicate Reaches(p: Policy, maxConnections: nat, calls: seq<Call>, labels: seq<Label>, s: State) {
    ValidRun(p, maxConnections, Start(calls), labels) && Exec(p, Start(calls), labels) == s
  }

  lemma OneMore(p: Policy, maxConnections: nat, calls: seq<Call>, labels: seq<Label>, s: State, k: nat)
    requires Reaches(p, maxConnections, calls, labels, s) && CanAdvance(s, maxConnections, k)
    ensures Reaches(p, maxConnections, calls, labels + [Go(k)], Advance(p, s, k))
  {
    assert (labels + [Go(k)])[..|labels|] == labels;
  }

  /** No other transaction holds a connection. */
  ghost predicate Alone(s: State, k: nat) {
    forall t :: 0 <= t < |s.txns| && t != k ==> !HoldsConnection(s.txns[t])
  }

  lemma TurnIsAlone(s: State, calls: seq<Call>, k: nat)
    requires Turn(s, calls, k)
    ensures Alone(s, k)
  {
  }

  lemma NextPossible(p: Policy, maxConnections: nat, calls: seq<Call>, labels: seq<Label>, s: State, k: nat)
    requires maxConnections >= 1 && Reaches(p, maxConnections, calls, labels, s) && k < |s.txns|
    requires Alone(s, k) && !Finished(s.txns[k])
    ensures CanAdvance(s, maxConnections, k)
  {
    Progress.RunFacts(p, maxConnections, calls, labels);
    AloneAdvances(s, maxConnections, k);
  }

  lemma CountsDown(p: Policy, maxConnections: nat, calls: seq<Call>, labels: seq<Label>, s: State, k: nat)
    requires Reaches(p, maxConnections, calls, labels, s) && CanAdvance(s, maxConnections, k)
    ensures |Advance(p, s, k).txns| == |s.txns|
    ensures Progress.Remaining(Advance(p, s, k).txns[k]) < Progress.Remaining(s.txns[k])
  {
    Refinement.RunKeepsInv(p, maxConnections, calls, labels);
    assert Refinement.TxnOk(p, RowsOf(s.table, s.txns[k].req.account), s.ids, s.txns[k]);
    Progress.TxnCountsDown(p, s, maxConnections, Go(k));
  }

  /** Transaction `k`'s next statement is possible, keeps its turn and counts down. */
  lemma DriveOnce(p: Policy, maxConnections: nat, calls: seq<Call>, labels: seq<Label>, s: State, k: nat)
    requires maxConnections >= 1 && Reaches(p, maxConnections, calls, labels, s) && Turn(s, calls, k)
    requires s.txns[k].pc != Committed
    ensures Reaches(p, maxConnections, calls, labels + [Go(k)], Advance(p, s, k)) && Turn(Advance(p, s, k), calls, k)
    ensures Progress.Remaining(Advance(p, s, k).txns[k]) < Progress.Remaining(s.txns[k])
  {
    TurnIsAlone(s, calls, k);
    NextPossible(p, maxConnections, calls, labels, s, k);
    TurnAdvances(p, s, maxConnections, calls, k);
    OneMore(p, maxConnections, calls, labels, s, k);
    CountsDown(p, maxConnections, calls, labels, s, k);
  }

  /** Transaction `k` can run to its commit. */
  lemma {:induction false} Drive(p: Policy, maxConnections: nat, calls: seq<Call>, labels: seq<Label>, s: State, k: nat)
    returns (labels': seq<Label>, s': State)
    requires maxConnections >= 1 && Reaches(p, maxConnections, calls, labels, s) && Turn(s, calls, k)
    ensures Reaches(p, maxConnections, calls, labels', s') && Turn(s', calls, k) && s'.txns[k].pc == Committed
    decreases Progress.Remaining(s.txns[k])
  {
    if s.txns[k].pc == Committed {
      return labels, s;
    }
    DriveOnce(p, maxConnections, calls, labels, s, k);
    labels', s' := Drive(p, maxConnections, calls, labels + [Go(k)], Advance(p, s, k), k);
  }

  lemma NextTurn(s: State, calls: seq<Call>, k: nat)
    requires Turn(s, calls, k) && s.txns[k].pc == Committed && k + 1 < |calls|
    ensures Turn(s, calls, k + 1)
  {
  }

  /** The first `k` transactions one after another, and the next one's turn. */
  lemma {:induction false} Serially(p: Policy, maxConnections: nat, calls: seq<Call>, k: nat)
    returns (labels: seq<Label>, s: State)
    requires maxConnections >= 1 && k < |calls|
    ensures Reaches(p, maxConnections, calls, labels, s) && Turn(s, calls, k) && s.txns[k].pc == Committed
  {
    if k == 0 {
      assert Turn(Start(calls), calls, 0);
      assert Reaches(p, maxConnections, calls, [], Start(calls));
      labels, s := Drive(p, maxConnections, calls, [], Start(calls), 0);
    } else {
      labels, s := Serially(p, maxConnections, calls, k - 1);
      NextTurn(s, calls, k - 1);
      labels, s := Drive(p, maxConnections, calls, labels, s, k);
    }
  }

  function CallsIn(log: seq<Entry>): (calls: seq<Call>)
    ensures |calls| == |log|
    ensures forall k :: 0 <= k < |log| ==> calls[k] == Call(log[k].req, log[k].now)
  {
    seq(|log|, k requires 0 <= k < |log| => Call(log[k].req, log[k].now))
  }

  /** Every list of calls has a run that commits them all, in order. */
  lemma SerialRun(p: Policy, maxConnections: nat, calls: seq<Call>) returns (labels: seq<Label>)
    requires maxConnections >= 1
    ensures ValidRun(p, maxConnections, Start(calls), labels)
    ensures CallsIn(Exec(p, Start(calls), labels).log) == calls
  {
    if calls == [] {
      labels := [];
    } else {
      var s: State;
      labels, s := Serially(p, maxConnections, calls, |calls| - 1);
      Refinement.RunKeepsInv(p, maxConnections, calls, labels);
      LoggedInOrder(p, s, calls);
    }
  }

  lemma LoggedInOrder(p: Policy, s: State, calls: seq<Call>)
    requires Refinement.LogOk(p, s) && calls != [] && Turn(s, calls, |calls| - 1) && s.txns[|calls| - 1].pc == Committed
    ensures CallsIn(s.log) == calls
  {
    forall k | 0 <= k < |calls| ensures CallsIn(s.log)[k] == calls[k] {
      assert Refinement.Logged(p, s, k);
    }
  }

  // ---- what a commit order determines ----------------------------------------------------

  function AnswersIn(log: seq<Entry>): (answers: seq<Answer>)
    ensures |answers| == |log|
    ensures forall k :: 0 <= k < |log| ==> answers[k] == log[k].answer
  {
    seq(|log|, k requires 0 <= k < |log| => log[k].answer)
  }

  lemma {:induction false} SameCallsSameLedger(p: Policy, log: seq<Entry>, other: seq<Entry>, account: string)
    requires CallsIn(log) == CallsIn(other)
    ensures Ledger(p, log, account) == Ledger(p, other, account)
  {
    assert |log| == |CallsIn(log)| == |other|;
    if log != [] {
      var last := |log| - 1;
      assert CallsIn(log)[last] == CallsIn(other)[last];
      SameCallsFront(log, other, last);
      SameCallsSameLedger(p, log[..last], other[..last], account);
    }
  }

  lemma SameCallsFront(log: seq<Entry>, other: seq<Entry>, k: nat)
    requires CallsIn(log) == CallsIn(other) && k <= |log|
    ensures k <= |other| && CallsIn(log[..k]) == CallsIn(other[..k])
  {
    assert |log| == |CallsIn(log)| == |other|;
    assert CallsIn(log[..k]) == CallsIn(log)[..k];
    assert CallsIn(other[..k]) == CallsIn(other)[..k];
  }

  lemma SameCallsSameAnswers(p: Policy, log: seq<Entry>, other: seq<Entry>)
    requires CallsIn(log) == CallsIn(other) && AnswersAtomic(p, log) && AnswersAtomic(p, other)
    ensures AnswersIn(log) == AnswersIn(other)
  {
    assert |log| == |CallsIn(log)| == |other|;
    forall k | 0 <= k < |log| ensures log[k].answer == other[k].answer {
      assert CallsIn(log)[k] == CallsIn(other)[k];
      SameCallsFront(log, other, k);
      SameCallsSameLedger(p, log[..k], other[..k], log[k].req.account);
    }
  }

  // ---- one account's projection ----------------------------------------------------------

  /** One account's part of a commit order. */
  function OnlyAccount(log: seq<Entry>, account: string): seq<Entry> {
    if log == [] then []
    else
      var last := log[|log| - 1];
      var front := OnlyAccount(log[..|log| - 1], account);
      if last.req.account == account then front + [last] else front
  }

  lemma {:induction false} OnlyAccountMembers(log: seq<Entry>, account: string)
    ensures forall e :: e in OnlyAccount(log, account) <==> e in log && e.req.account == account
  {
    if log != [] {
      OnlyAccountMembers(log[..|log| - 1], account);
      assert log == log[..|log| - 1] + [log[|log| - 1]];
    }
  }

  lemma {:induction false} LedgerProjection(p: Policy, log: seq<Entry>, account: string)
    ensures Ledger(p, log, account) == Ledger(p, OnlyAccount(log, account), account)
  {
    if log != [] {
      LedgerProjection(p, log[..|log| - 1], account);
      Refinement.LedgerAppend(p, OnlyAccount(log[..|log| - 1], account), log[|log| - 1], account);
    }
  }

  lemma AtomicFront(p: Policy, log: seq<Entry>)
    requires AnswersAtomic(p, log) && log != []
    ensures var front, last := log[..|log| - 1], log[|log| - 1];
            && AnswersAtomic(p, front)
            && last.answer == Apply(p, Ledger(p, front, last.req.account), ToOp(last.req, last.now)).1
  {
    var front := log[..|log| - 1];
    forall k | 0 <= k < |front|
      ensures front[k].answer
              == Apply(p, Ledger(p, front[..k], front[k].req.account), ToOp(front[k].req, front[k].now)).1
    {
      assert front[..k] == log[..k] && front[k] == log[k];
    }
  }

  /** Leaving the other accounts out of a commit order changes neither the account's ledger nor its
      answers. */
  lemma {:induction false} LogProjection(p: Policy, log: seq<Entry>, account: string)
    requires AnswersAtomic(p, log)
    ensures AnswersAtomic(p, OnlyAccount(log, account))
    ensures Ledger(p, log, account) == Ledger(p, OnlyAccount(log, account), account)
    ensures forall e :: e in OnlyAccount(log, account) <==> e in log && e.req.account == account
  {
    LedgerProjection(p, log, account);
    OnlyAccountMembers(log, account);
    if log != [] {
      var front, last := log[..|log| - 1], log[|log| - 1];
      AtomicFront(p, log);
      LogProjection(p, front, account);
      if last.req.account == account {
        Refinement.AtomicAppend(p, OnlyAccount(front, account), last);
      }
    }
  }

  /** The account's committed calls, in commit order. */
  function OwnCalls(log: seq<Entry>, account: string): seq<Call> {
    CallsIn(OnlyAccount(log, account))
  }

  /** Despite the shared table, pool and id sequence, one account's committed charges and answers in
      any run are those of a run of only that account's committed calls. */
  lemma AccountProjection(p: Policy, maxConnections: nat, calls: seq<Call>, labels: seq<Label>, account: string)
    returns (own: seq<Label>)
    requires maxConnections >= 1 && ValidRun(p, maxConnections, Start(calls), labels)
    ensures var s := Exec(p, Start(calls), labels);
            var alone := Exec(p, Start(OwnCalls(s.log, account)), own);
            && ValidRun(p, maxConnections, Start(OwnCalls(s.log, account)), own)
            && View(alone.table, account) == View(s.table, account)
            && AnswersIn(alone.log) == AnswersIn(OnlyAccount(s.log, account))
  {
    var s := Exec(p, Start(calls), labels);
    var mine := OwnCalls(s.log, account);
    Refinement.StepRefinement(p, maxConnections, calls, labels);
    LogProjection(p, s.log, account);
    own := SerialRun(p, maxConnections, mine);
    var alone := Exec(p, Start(mine), own);
    Refinement.StepRefinement(p, maxConnections, mine, own);
    SameCallsSameLedger(p, alone.log, OnlyAccount(s.log, account), account);
    SameCallsSameAnswers(p, alone.log, OnlyAccount(s.log, account));
    assert Refinement.RefinesFor(p, alone, account) && Refinement.RefinesFor(p, s, account);
  }
}
