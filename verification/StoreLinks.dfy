/** The ledger the interleaved workflows share is the one the stores keep: an attempt on it is one
    call of the SQLite store, and a whole run's attempts are one run of the Postgres store. */
module StoreLinks {
  import opened Options
  import opened AccountLedger
  import opened ChargeTable
  import opened PgTransactions
  import opened SqliteStore
  import Refinement = PgRefinement
  import opened PgSerial
  import opened TaskWorkflow
  import O = Orchestration
  import opened Conservation

  // ---- what the workflows ask of the ledger ----------------------------------------------

  /** The call an attempt on the ledger makes. */
  function CallOf(c: O.Config, s: O.System, l: O.Label): Call
    requires OnLedger(c, s, l)
  {
    var a, command := s.wfs[l.i].input.account, O.CommandOf(s, l.i);
    if command.ReserveUsage? then Call(ReserveReq(a, command.projected), l.now)
    else Call(SettleReq(a, command.reserved, command.actual), l.now)
  }

  /** What the ledger answers it. */
  function AnswerTo(c: O.Config, s: O.System, l: O.Label): Answer
    requires OnLedger(c, s, l)
  {
    var call := CallOf(c, s, l);
    Apply(c.policy, O.Charges(s, call.req.account), ToOp(call.req, call.now)).1
  }

  /** The activity result an answer becomes. */
  function ResultOf(answer: Answer): Value {
    match answer
    case Reserved(reservation) => Granted(reservation)
    case Settled(balance) => Amount(balance)
    case BalanceIs(balance) => Amount(balance)
  }

  lemma WorkflowSeesAnswer(c: O.Config, s: O.System, l: O.Label)
    requires OnLedger(c, s, l) && l.report.Success?
    ensures O.Reply(c, s, l.i, O.CommandOf(s, l.i), l.now, l.allowed) == ResultOf(AnswerTo(c, s, l))
  {
  }

  /** A step on the ledger applies its call's operation to its account, and moves no other. */
  lemma StepApplies(c: O.Config, s: O.System, l: O.Label)
    requires O.SystemOk(c, s) && OnLedger(c, s, l)
    ensures var call, s' := CallOf(c, s, l), O.Step(c, s, l);
            && O.Charges(s', call.req.account)
               == Apply(c.policy, O.Charges(s, call.req.account), ToOp(call.req, call.now)).0
            && forall a :: a != call.req.account ==> O.Charges(s', a) == O.Charges(s, a)
  {
    LedgerMoves(c, s, l);
  }

  lemma OtherStepsStay(c: O.Config, s: O.System, l: O.Label)
    requires O.SystemOk(c, s) && O.Enabled(c, s, l) && !OnLedger(c, s, l)
    ensures forall a :: O.Charges(O.Step(c, s, l), a) == O.Charges(s, a)
  {
    if l.Attempt? {
      LedgerMoves(c, s, l);
    }
  }

  // ---- the SQLite store ------------------------------------------------------------------

  /** The store's table shows every account the charges of the shared ledger. */
  ghost predicate Represents(rows: seq<Row>, s: O.System) {
    forall a :: View(rows, a) == O.Charges(s, a)
  }

  lemma StaysRepresented(c: O.Config, s: O.System, l: O.Label, rows: seq<Row>, rows': seq<Row>)
    requires O.SystemOk(c, s) && OnLedger(c, s, l) && Represents(rows, s)
    requires var call := CallOf(c, s, l);
             && View(rows', call.req.account) == Apply(c.policy, View(rows, call.req.account), ToOp(call.req, call.now)).0
             && SameElsewhere(rows, rows', call.req.account)
    ensures Represents(rows', O.Step(c, s, l))
  {
    StepApplies(c, s, l);
    forall a ensures View(rows', a) == O.Charges(O.Step(c, s, l), a) {
      assert View(rows, a) == O.Charges(s, a);
      if a != CallOf(c, s, l).req.account {
        assert RowsOf(rows', a) == RowsOf(rows, a);
      }
    }
  }

  /** One attempt of an activity on the ledger, made on the store: it answers what the workflow is
      told, and the table goes on representing the shared ledger. */
  method Perform(store: SqliteAtomicStore, call: Call, ghost c: O.Config, ghost s: O.System, ghost l: O.Label)
    returns (answer: Answer)
    requires store.Valid() && store.policy == c.policy && Represents(store.charges, s)
    requires O.SystemOk(c, s) && OnLedger(c, s, l) && call == CallOf(c, s, l)
    modifies store`charges, store`nextId
    ensures store.Valid() && Represents(store.charges, O.Step(c, s, l))
    ensures answer == AnswerTo(c, s, l)
    ensures l.report.Success? ==>
              O.Reply(c, s, l.i, O.CommandOf(s, l.i), l.now, l.allowed) == ResultOf(answer)
  {
    if l.report.Success? {
      WorkflowSeesAnswer(c, s, l);
    }
    ghost var before := store.charges;
    assert View(before, call.req.account) == O.Charges(s, call.req.account);
    match call.req
    case ReserveReq(account, cost) =>
      var granted := store.Reserve(account, cost, call.now, false);
      answer := Answer.Reserved(granted.value);
      StaysRepresented(c, s, l, before, store.charges);
    case SettleReq(account, reserved, actual) =>
      var balance := store.Settle(account, reserved, actual, call.now, false);
      answer := Answer.Settled(balance.value);
      StaysRepresented(c, s, l, before, store.charges);
  }

  // ---- the Postgres store ----------------------------------------------------------------

  /** The run's attempts on the ledger as a commit order, with what each was answered. */
  function LedgerLog(c: O.Config, labels: seq<O.Label>): seq<Entry> {
    if labels == [] then []
    else
      var front, l := labels[..|labels| - 1], labels[|labels| - 1];
      var s := O.Exec(c, front);
      LedgerLog(c, front)
      + (if OnLedger(c, s, l) then [Entry(|LedgerLog(c, front)|, CallOf(c, s, l).req, l.now, AnswerTo(c, s, l))] else [])
  }

  /** The log accounts for the whole ledger and for every answer. */
  ghost predicate Explains(c: O.Config, log: seq<Entry>, s: O.System) {
    AnswersAtomic(c.policy, log) && forall a :: Ledger(c.policy, log, a) == O.Charges(s, a)
  }

  lemma ExplainsNext(c: O.Config, log: seq<Entry>, s: O.System, l: O.Label)
    requires Explains(c, log, s) && O.SystemOk(c, s) && OnLedger(c, s, l)
    ensures Explains(c, log + [Entry(|log|, CallOf(c, s, l).req, l.now, AnswerTo(c, s, l))], O.Step(c, s, l))
  {
    var e := Entry(|log|, CallOf(c, s, l).req, l.now, AnswerTo(c, s, l));
    StepApplies(c, s, l);
    assert Ledger(c.policy, log, e.req.account) == O.Charges(s, e.req.account);
    Refinement.AtomicAppend(c.policy, log, e);
    forall a ensures Ledger(c.policy, log + [e], a) == O.Charges(O.Step(c, s, l), a) {
      Refinement.LedgerAppend(c.policy, log, e, a);
      assert Ledger(c.policy, log, a) == O.Charges(s, a);
    }
  }

  lemma {:induction false} LogExplains(c: O.Config, labels: seq<O.Label>)
    requires O.ValidRun(c, labels)
    ensures Explains(c, LedgerLog(c, labels), O.Exec(c, labels))
  {
    if labels != [] {
      var front, l := labels[..|labels| - 1], labels[|labels| - 1];
      LogExplains(c, front);
      O.RunOk(c, front);
      if OnLedger(c, O.Exec(c, front), l) {
        ExplainsNext(c, LedgerLog(c, front), O.Exec(c, front), l);
      } else {
        OtherStepsStay(c, O.Exec(c, front), l);
        assert LedgerLog(c, labels) == LedgerLog(c, front);
      }
    }
  }

  /** A Postgres run that commits the workflows' calls in the order the workflows made them leaves
      every account the workflows' charges, and answered what the workflows were told. */
  lemma PostgresServes(c: O.Config, labels: seq<O.Label>, maxConnections: nat, calls: seq<Call>, pg: seq<Label>)
    requires O.ValidRun(c, labels) && ValidRun(c.policy, maxConnections, Start(calls), pg)
    requires CallsIn(Exec(c.policy, Start(calls), pg).log) == CallsIn(LedgerLog(c, labels))
    ensures var s := Exec(c.policy, Start(calls), pg);
            Represents(s.table, O.Exec(c, labels)) && AnswersIn(s.log) == AnswersIn(LedgerLog(c, labels))
  {
    var s := Exec(c.policy, Start(calls), pg);
    Refinement.StepRefinement(c.policy, maxConnections, calls, pg);
    LogExplains(c, labels);
    SameCallsSameAnswers(c.policy, s.log, LedgerLog(c, labels));
    forall a ensures View(s.table, a) == O.Charges(O.Exec(c, labels), a) {
      SameCallsSameLedger(c.policy, s.log, LedgerLog(c, labels), a);
      assert Refinement.RefinesFor(c.policy, s, a);
    }
  }

  /** Every run of the workflows is served by some run of the Postgres store. */
  lemma PostgresCanServe(c: O.Config, labels: seq<O.Label>, maxConnections: nat) returns (pg: seq<Label>)
    requires O.ValidRun(c, labels) && maxConnections >= 1
    ensures var calls := CallsIn(LedgerLog(c, labels));
            var s := Exec(c.policy, Start(calls), pg);
            && ValidRun(c.policy, maxConnections, Start(calls), pg)
            && Represents(s.table, O.Exec(c, labels)) && AnswersIn(s.log) == AnswersIn(LedgerLog(c, labels))
  {
    var calls := CallsIn(LedgerLog(c, labels));
    pg := SerialRun(c.policy, maxConnections, calls);
    PostgresServes(c, labels, maxConnections, calls, pg);
  }
}
