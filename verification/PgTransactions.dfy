/** The Postgres store, one SQL statement at a time. Any number of `reserve` and `settle`
    transactions interleave over a bounded connection pool, each serialised on its account's lock
    row; any of them may abort at any point. A statement sees the committed table under the
    transaction's own uncommitted changes (read committed). */
module PgTransactions {
  import opened Options
  import opened AccountLedger
  import opened ChargeTable

  datatype Request =
    | ReserveReq(account: string, cost: real)
    | SettleReq(account: string, reserved: real, actual: real)

  /** Where a transaction stands: the last statement it has executed. */
  datatype Pc =
    | Waiting    // no pooled connection yet
    | Connected
    | RowEnsured // its lock row is inserted, unless it is there already
    | Locked     // that row is locked for update
    | Pruned     // expired charges are deleted
    | Summed     // reserve: the balance is summed
    | Inserted   // reserve: the charge is inserted
    | Selected   // settle: the newest matching id is selected
    | Updated    // settle: that charge is updated, if there is one
    | Totalled   // settle: the balance is summed
    | Committed
    | Aborted

  /** Uncommitted changes of one transaction to the charges table. */
  datatype Delta = Delta(deleted: set<nat>, updated: map<nat, real>, inserted: seq<Row>)

  const NO_DELTA := Delta({}, map[], [])

  datatype Txn = Txn(req: Request, now: real, pc: Pc, delta: Delta, balance: real, found: Option<nat>)

  /** A committed transaction and what it returned. */
  datatype Entry = Entry(txn: nat, req: Request, now: real, answer: Answer)

  /** `ids` is the id sequence's allocation history: id k went to an insert for account ids[k], and
      ids of aborted inserts are never reused. `pending` and `holder` say whose uncommitted insert
      and whose row lock guard an account's lock row. `log` is the commit order. */
  datatype State = State(
    table: seq<Row>, ids: seq<string>, lockRows: set<string>, pending: map<string, nat>,
    holder: map<string, nat>, inUse: nat, txns: seq<Txn>, log: seq<Entry>)

  // ---- visibility ------------------------------------------------------------------------

  function Overlay(rows: seq<Row>, d: Delta): seq<Row> {
    if rows == [] then []
    else
      var last := |rows| - 1;
      var r := rows[last];
      var front := Overlay(rows[..last], d);
      if r.id in d.deleted then front
      else front + [if r.id in d.updated then r.(amount := d.updated[r.id]) else r]
  }

  function Visible(rows: seq<Row>, d: Delta): seq<Row> {
    Overlay(rows, d) + d.inserted
  }

  function ExpiredIds(rows: seq<Row>, account: string, cutoff: real): set<nat> {
    set r | r in rows && r.account == account && r.ts < cutoff :: r.id
  }

  // ---- steps -----------------------------------------------------------------------------

  predicate Finished(t: Txn) {
    t.pc.Committed? || t.pc.Aborted?
  }

  predicate HoldsConnection(t: Txn) {
    !t.pc.Waiting? && !Finished(t)
  }

  predicate Guarding(t: Txn) {
    HoldsConnection(t) && !t.pc.Connected?
  }

  predicate Critical(t: Txn) {
    Guarding(t) && !t.pc.RowEnsured?
  }

  /** A transaction waits for a free connection, for another transaction's uncommitted lock row,
      or for another transaction's row lock; nothing else blocks. */
  predicate CanAdvance(s: State, maxConnections: nat, t: nat) {
    && t < |s.txns|
    && var a := s.txns[t].req.account;
       match s.txns[t].pc
       case Waiting => s.inUse < maxConnections
       case Connected => a !in s.pending
       case RowEnsured => a !in s.holder && (a in s.lockRows || (a in s.pending && s.pending[a] == t))
       case Committed => false
       case Aborted => false
       case _ => true
  }

  predicate CanAbort(s: State, t: nat) {
    t < |s.txns| && !Finished(s.txns[t])
  }

  function AnswerOf(p: Policy, t: Txn): Answer {
    if t.req.ReserveReq? then Reserved(Reservation(t.balance >= p.threshold, t.req.cost, t.balance))
    else Settled(t.balance)
  }

  function Without(m: map<string, nat>, account: string, t: nat): map<string, nat> {
    if account in m && m[account] == t then m - {account} else m
  }

  /** Release what transaction `t` guards, and its connection, and record where it ended. */
  function Close(s: State, t: nat, outcome: Pc): State
    requires t < |s.txns|
  {
    var txn := s.txns[t];
    s.(pending := Without(s.pending, txn.req.account, t),
       holder := Without(s.holder, txn.req.account, t),
       inUse := if HoldsConnection(txn) && s.inUse > 0 then s.inUse - 1 else s.inUse,
       txns := s.txns[t := txn.(pc := outcome, delta := NO_DELTA)])
  }

  function Commit(p: Policy, s: State, t: nat): State
    requires t < |s.txns|
  {
    var txn := s.txns[t];
    var a := txn.req.account;
    Close(s, t, Committed).(
      table := Visible(s.table, txn.delta),
      lockRows := if a in s.pending && s.pending[a] == t then s.lockRows + {a} else s.lockRows,
      log := s.log + [Entry(t, txn.req, txn.now, AnswerOf(p, txn))])
  }

  function Advance(p: Policy, s: State, t: nat): State
    requires t < |s.txns|
  {
    var txn := s.txns[t];
    var a := txn.req.account;
    var d := txn.delta;
    match txn.pc
    case Waiting => s.(inUse := s.inUse + 1, txns := s.txns[t := txn.(pc := Connected)])
    case Connected =>
      s.(pending := if a in s.lockRows then s.pending else s.pending[a := t],
         txns := s.txns[t := txn.(pc := RowEnsured)])
    case RowEnsured => s.(holder := s.holder[a := t], txns := s.txns[t := txn.(pc := Locked)])
    case Locked =>
      var expired := ExpiredIds(Visible(s.table, d), a, txn.now - p.window);
      s.(txns := s.txns[t := txn.(pc := Pruned, delta := d.(deleted := expired))])
    case Pruned =>
      if txn.req.ReserveReq? then
        var balance := SumAmounts(Visible(s.table, d), a) + txn.req.cost;
        s.(txns := s.txns[t := txn.(pc := Summed, balance := balance)])
      else
        var found := SelectNewest(Visible(s.table, d), a, txn.req.reserved);
        s.(txns := s.txns[t := txn.(pc := Selected, found := found)])
    case Summed =>
      if txn.req.ReserveReq? then
        var row := Row(|s.ids|, a, txn.req.cost, txn.now);
        s.(ids := s.ids + [a],
           txns := s.txns[t := txn.(pc := Inserted, delta := d.(inserted := d.inserted + [row]))])
      else s
    case Selected =>
      if txn.req.SettleReq? then
        var updated := if txn.found.Some? then d.updated[txn.found.value := txn.req.actual] else d.updated;
        s.(txns := s.txns[t := txn.(pc := Updated, delta := d.(updated := updated))])
      else s
    case Updated =>
      s.(txns := s.txns[t := txn.(pc := Totalled, balance := SumAmounts(Visible(s.table, d), a))])
    case Inserted => Commit(p, s, t)
    case Totalled => Commit(p, s, t)
    case Committed => s
    case Aborted => s
  }

  datatype Label = Go(txn: nat) | Rollback(txn: nat)

  predicate Enabled(s: State, maxConnections: nat, l: Label) {
    match l
    case Go(t) => CanAdvance(s, maxConnections, t)
    case Rollback(t) => CanAbort(s, t)
  }

  function Step(p: Policy, s: State, l: Label): State
    requires l.txn < |s.txns|
  {
    match l
    case Go(t) => Advance(p, s, t)
    case Rollback(t) => Close(s, t, Aborted)
  }

  // ---- runs ------------------------------------------------------------------------------

  datatype Call = Call(req: Request, now: real)

  /** Every call has read its clock and asks the pool for a connection. */
  function Start(calls: seq<Call>): State {
    State([], [], {}, map[], map[], 0,
          seq(|calls|, i requires 0 <= i < |calls| => Txn(calls[i].req, calls[i].now, Waiting, NO_DELTA, 0.0, None)), [])
  }

  function StepIf(p: Policy, s: State, l: Label): State {
    if l.txn < |s.txns| then Step(p, s, l) else s
  }

  function Exec(p: Policy, s: State, labels: seq<Label>): State {
    if labels == [] then s
    else StepIf(p, Exec(p, s, labels[..|labels| - 1]), labels[|labels| - 1])
  }

  ghost predicate ValidRun(p: Policy, maxConnections: nat, s: State, labels: seq<Label>) {
    labels == []
    || (&& ValidRun(p, maxConnections, s, labels[..|labels| - 1])
        && Enabled(Exec(p, s, labels[..|labels| - 1]), maxConnections, labels[|labels| - 1]))
  }

  // ---- the atomic system it refines ------------------------------------------------------

  function ToOp(req: Request, now: real): Op {
    match req
    case ReserveReq(_, cost) => ReserveOp(cost, now)
    case SettleReq(_, reserved, actual) => SettleOp(reserved, actual, now)
  }

  /** An account's ledger after running the logged transactions one after the other. */
  function Ledger(p: Policy, log: seq<Entry>, account: string): seq<Charge> {
    if log == [] then []
    else
      var last := log[|log| - 1];
      var before := Ledger(p, log[..|log| - 1], account);
      if last.req.account == account then Apply(p, before, ToOp(last.req, last.now)).0 else before
  }

  /** Each logged answer is the atomic ledger's answer at that point of the commit order. */
  ghost predicate AnswersAtomic(p: Policy, log: seq<Entry>) {
    forall k :: 0 <= k < |log| ==>
      log[k].answer == Apply(p, Ledger(p, log[..k], log[k].req.account), ToOp(log[k].req, log[k].now)).1
  }
}
