/** The lock rows and the bounded pool never deadlock, and every run of the store ends. */
module PgProgress {
  import opened PgTransactions
  import Refinement = PgRefinement
  import opened AccountLedger
  import opened ChargeTable

  // ---- the pool --------------------------------------------------------------------------

  function Connections(txns: seq<Txn>): nat {
    if txns == [] then 0
    else Connections(txns[..|txns| - 1]) + (if HoldsConnection(txns[|txns| - 1]) then 1 else 0)
  }

  /** The pool's counter is the number of transactions holding a connection, within the bound. */
  ghost predicate PoolOk(s: State, maxConnections: nat) {
    s.inUse == Connections(s.txns) && s.inUse <= maxConnections
  }

  /** An uncommitted lock row belongs to a transaction past that insert, and every such
      transaction has a lock row to select: a committed one or its own. */
  ghost predicate PendingOk(s: State) {
    && (forall a :: a in s.pending ==>
          && s.pending[a] < |s.txns| && Guarding(s.txns[s.pending[a]])
          && s.txns[s.pending[a]].req.account == a && a !in s.lockRows)
    && (forall t :: 0 <= t < |s.txns| && Guarding(s.txns[t]) ==>
          var a := s.txns[t].req.account;
          a in s.lockRows || (a in s.pending && s.pending[a] == t))
  }

  lemma {:induction false} ConnectionsUpdate(txns: seq<Txn>, t: nat, txn: Txn)
    requires t < |txns|
    ensures Connections(txns[t := txn])
            == Connections(txns) - (if HoldsConnection(txns[t]) then 1 else 0) + (if HoldsConnection(txn) then 1 else 0)
  {
    var last := |txns| - 1;
    var after := txns[t := txn];
    if t == last {
      assert after[..last] == txns[..last];
    } else {
      ConnectionsUpdate(txns[..last], t, txn);
      assert after[..last] == txns[..last][t := txn];
    }
  }

  lemma {:induction false} ConnectionsPositive(txns: seq<Txn>, t: nat)
    requires t < |txns| && HoldsConnection(txns[t])
    ensures Connections(txns) > 0
  {
    if t < |txns| - 1 {
      ConnectionsPositive(txns[..|txns| - 1], t);
    }
  }

  lemma {:induction false} NoConnections(txns: seq<Txn>)
    requires forall t :: 0 <= t < |txns| ==> !HoldsConnection(txns[t])
    ensures Connections(txns) == 0
  {
    if txns != [] {
      NoConnections(txns[..|txns| - 1]);
    }
  }

  lemma OneTxnMoves(p: Policy, s: State, maxConnections: nat, l: Label)
    requires Enabled(s, maxConnections, l)
    ensures var s' := Step(p, s, l);
            && |s'.txns| == |s.txns|
            && s'.txns == s.txns[l.txn := s'.txns[l.txn]]
            && s'.txns[l.txn].req == s.txns[l.txn].req
  {
    Refinement.StepMovesLock(p, s, maxConnections, l);
  }

  lemma PoolStep(p: Policy, s: State, maxConnections: nat, l: Label)
    requires PoolOk(s, maxConnections) && Enabled(s, maxConnections, l)
    ensures PoolOk(Step(p, s, l), maxConnections)
  {
    if l.Rollback? {
      PoolClose(s, maxConnections, l.txn, Aborted);
    } else if Refinement.Publishing(s, l) {
      PoolClose(s, maxConnections, l.txn, Committed);
    } else {
      PoolAdvance(p, s, maxConnections, l.txn);
    }
  }

  /** A statement that does not end its transaction takes a connection first, and then keeps it. */
  lemma PoolAdvance(p: Policy, s: State, maxConnections: nat, t: nat)
    requires PoolOk(s, maxConnections) && CanAdvance(s, maxConnections, t) && !Refinement.Publishing(s, Go(t))
    ensures PoolOk(Advance(p, s, t), maxConnections)
  {
    var txn' := Advance(p, s, t).txns[t];
    OneTxnMoves(p, s, maxConnections, Go(t));
    ConnectionsUpdate(s.txns, t, txn');
    if s.txns[t].pc != Waiting {
      KeepsConnection(p, s, maxConnections, t);
    }
  }

  lemma KeepsConnection(p: Policy, s: State, maxConnections: nat, t: nat)
    requires CanAdvance(s, maxConnections, t) && !Refinement.Publishing(s, Go(t)) && s.txns[t].pc != Waiting
    ensures var s' := Advance(p, s, t);
            && s'.inUse == s.inUse && |s'.txns| == |s.txns|
            && HoldsConnection(s'.txns[t]) && HoldsConnection(s.txns[t])
  {
  }

  lemma PoolClose(s: State, maxConnections: nat, t: nat, outcome: Pc)
    requires PoolOk(s, maxConnections) && t < |s.txns| && (outcome == Committed || outcome == Aborted)
    ensures PoolOk(Close(s, t, outcome), maxConnections)
  {
    ConnectionsUpdate(s.txns, t, s.txns[t].(pc := outcome, delta := NO_DELTA));
    if HoldsConnection(s.txns[t]) {
      ConnectionsPositive(s.txns, t);
    }
  }

  // ---- lock rows -------------------------------------------------------------------------

  /** How one step of transaction `t` may move its account's lock row. */
  ghost predicate RowMove(s: State, s': State, t: nat) {
    && |s'.txns| == |s.txns| && t < |s.txns|
    && (forall u :: 0 <= u < |s.txns| && u != t ==> s'.txns[u] == s.txns[u])
    && var a := s.txns[t].req.account;
       && s'.txns[t].req == s.txns[t].req
       && (|| (s'.pending == s.pending && s'.lockRows == s.lockRows
               && (Guarding(s'.txns[t]) ==> Guarding(s.txns[t]) || a in s.lockRows)
               && (Guarding(s.txns[t]) ==> Guarding(s'.txns[t])))
           || (s'.pending == s.pending[a := t] && s'.lockRows == s.lockRows && a !in s.pending
               && a !in s.lockRows && Guarding(s'.txns[t]))
           || (s'.pending == Without(s.pending, a, t) && !Guarding(s'.txns[t])
               && (s'.lockRows == s.lockRows
                   || (a in s.pending && s.pending[a] == t && s'.lockRows == s.lockRows + {a}))))
  }

  lemma RowMoveKeepsPending(s: State, s': State, t: nat)
    requires PendingOk(s) && RowMove(s, s', t)
    ensures PendingOk(s')
  {
    forall u | 0 <= u < |s'.txns| && Guarding(s'.txns[u])
      ensures var a := s'.txns[u].req.account;
              a in s'.lockRows || (a in s'.pending && s'.pending[a] == u)
    {
      if u != t {
        assert Guarding(s.txns[u]);
      }
    }
    forall a | a in s'.pending
      ensures s'.pending[a] < |s'.txns| && Guarding(s'.txns[s'.pending[a]])
      ensures s'.txns[s'.pending[a]].req.account == a && a !in s'.lockRows
    {
      if a in s.pending && s.pending[a] == t {
        assert Guarding(s.txns[t]);
      }
    }
  }

  lemma StepMovesRow(p: Policy, s: State, maxConnections: nat, l: Label)
    requires Enabled(s, maxConnections, l)
    ensures RowMove(s, Step(p, s, l), l.txn)
  {
    OneTxnMoves(p, s, maxConnections, l);
    var t := l.txn;
    var s' := Step(p, s, l);
    if l.Rollback? {
      assert s' == Close(s, t, Aborted);
    } else if Refinement.Publishing(s, l) {
      assert s'.pending == Without(s.pending, s.txns[t].req.account, t);
    } else if s.txns[t].pc == Connected {
      assert Guarding(s'.txns[t]);
    } else {
      OtherwiseRowStays(p, s, maxConnections, t);
    }
  }

  lemma OtherwiseRowStays(p: Policy, s: State, maxConnections: nat, t: nat)
    requires CanAdvance(s, maxConnections, t) && !Refinement.Publishing(s, Go(t)) && s.txns[t].pc != Connected
    ensures var s' := Advance(p, s, t);
            && s'.pending == s.pending && s'.lockRows == s.lockRows && |s'.txns| == |s.txns|
            && (Guarding(s'.txns[t]) <==> Guarding(s.txns[t]))
  {
  }

  // ---- every step counts down ------------------------------------------------------------

  /** Statements a transaction may still execute. */
  function Remaining(t: Txn): nat {
    match t.pc
    case Waiting => 8
    case Connected => 7
    case RowEnsured => 6
    case Locked => 5
    case Pruned => 4
    case Summed => 3
    case Selected => 3
    case Updated => 2
    case Inserted => 1
    case Totalled => 1
    case Committed => 0
    case Aborted => 0
  }

  function Rank(txns: seq<Txn>): nat {
    if txns == [] then 0 else Rank(txns[..|txns| - 1]) + Remaining(txns[|txns| - 1])
  }

  lemma {:induction false} RankUpdate(txns: seq<Txn>, t: nat, txn: Txn)
    requires t < |txns|
    ensures Rank(txns[t := txn]) == Rank(txns) - Remaining(txns[t]) + Remaining(txn)
  {
    var last := |txns| - 1;
    if t == last {
      assert txns[t := txn][..last] == txns[..last];
    } else {
      RankUpdate(txns[..last], t, txn);
      assert txns[t := txn][..last] == txns[..last][t := txn];
    }
  }

  lemma StepCountsDown(p: Policy, s: State, maxConnections: nat, l: Label)
    requires Refinement.Inv(p, s) && Enabled(s, maxConnections, l)
    ensures Rank(Step(p, s, l).txns) < Rank(s.txns)
  {
    OneTxnMoves(p, s, maxConnections, l);
    assert Refinement.TxnOk(p, RowsOf(s.table, s.txns[l.txn].req.account), s.ids, s.txns[l.txn]);
    var txn' := Step(p, s, l).txns[l.txn];
    TxnCountsDown(p, s, maxConnections, l);
    RankUpdate(s.txns, l.txn, txn');
  }

  lemma TxnCountsDown(p: Policy, s: State, maxConnections: nat, l: Label)
    requires Enabled(s, maxConnections, l)
    requires s.txns[l.txn].pc == Summed ==> s.txns[l.txn].req.ReserveReq?
    requires s.txns[l.txn].pc == Selected ==> s.txns[l.txn].req.SettleReq?
    ensures |Step(p, s, l).txns| == |s.txns|
    ensures Remaining(Step(p, s, l).txns[l.txn]) < Remaining(s.txns[l.txn])
  {
  }

  lemma {:induction false} StartRank(txns: seq<Txn>)
    requires forall t :: 0 <= t < |txns| ==> txns[t].pc == Waiting
    ensures Rank(txns) == 8 * |txns|
    ensures Connections(txns) == 0
  {
    if txns != [] {
      StartRank(txns[..|txns| - 1]);
    }
  }

  // ---- main results ----------------------------------------------------------------------

  lemma {:induction false} RunFacts(p: Policy, maxConnections: nat, calls: seq<Call>, labels: seq<Label>)
    requires ValidRun(p, maxConnections, Start(calls), labels)
    ensures var s := Exec(p, Start(calls), labels);
            && Refinement.Inv(p, s) && PoolOk(s, maxConnections) && PendingOk(s)
            && |s.txns| == |calls|
            && Rank(s.txns) + |labels| <= 8 * |calls|
  {
    if labels == [] {
      StartRank(Start(calls).txns);
      Refinement.RunKeepsInv(p, maxConnections, calls, labels);
    } else {
      var front, l := labels[..|labels| - 1], labels[|labels| - 1];
      var s := Exec(p, Start(calls), front);
      RunFacts(p, maxConnections, calls, front);
      Refinement.StepKeepsInv(p, s, maxConnections, l);
      PoolStep(p, s, maxConnections, l);
      StepMovesRow(p, s, maxConnections, l);
      RowMoveKeepsPending(s, Step(p, s, l), l.txn);
      StepCountsDown(p, s, maxConnections, l);
    }
  }

  /** A transaction of the account has committed. */
  ghost predicate HasCommitted(s: State, a: string) {
    exists t :: 0 <= t < |s.txns| && s.txns[t].pc == Committed && s.txns[t].req.account == a
  }

  /** What a step does to the lock rows: only a commit adds one, its own account's. */
  lemma StepLockRows(p: Policy, s: State, maxConnections: nat, l: Label)
    requires PendingOk(s) && Enabled(s, maxConnections, l)
    ensures var s', a := Step(p, s, l), s.txns[l.txn].req.account;
            s'.lockRows == if Refinement.Publishing(s, l) then s.lockRows + {a} else s.lockRows
    ensures Step(p, s, l).txns[l.txn].pc == Committed <==> Refinement.Publishing(s, l)
  {
    OneTxnMoves(p, s, maxConnections, l);
    if Refinement.Publishing(s, l) {
      assert Guarding(s.txns[l.txn]);
    }
  }

  lemma StepCommitted(p: Policy, s: State, maxConnections: nat, l: Label, a: string)
    requires Enabled(s, maxConnections, l)
    requires |Step(p, s, l).txns| == |s.txns| && (Step(p, s, l).txns[l.txn].pc == Committed <==> Refinement.Publishing(s, l))
    ensures HasCommitted(Step(p, s, l), a)
      <==> HasCommitted(s, a) || (Refinement.Publishing(s, l) && s.txns[l.txn].req.account == a)
  {
    var s' := Step(p, s, l);
    OneTxnMoves(p, s, maxConnections, l);
    if t :| 0 <= t < |s.txns| && s.txns[t].pc == Committed && s.txns[t].req.account == a {
      assert t != l.txn && s'.txns[t] == s.txns[t];
    }
    if t :| 0 <= t < |s'.txns| && s'.txns[t].pc == Committed && s'.txns[t].req.account == a {
      if t != l.txn {
        assert s'.txns[t] == s.txns[t];
      }
    }
    if Refinement.Publishing(s, l) && s.txns[l.txn].req.account == a {
      assert s'.txns[l.txn].pc == Committed && s'.txns[l.txn].req.account == a;
    }
  }

  /** The lock rows that last are exactly those of accounts with a committed transaction: the first
      commit leaves one, and an aborted transaction's goes with it. */
  lemma {:induction false} LockRowsExactly(p: Policy, maxConnections: nat, calls: seq<Call>, labels: seq<Label>, a: string)
    requires ValidRun(p, maxConnections, Start(calls), labels)
    ensures var s := Exec(p, Start(calls), labels); a in s.lockRows <==> HasCommitted(s, a)
  {
    if labels != [] {
      var front, l := labels[..|labels| - 1], labels[|labels| - 1];
      var s := Exec(p, Start(calls), front);
      LockRowsExactly(p, maxConnections, calls, front, a);
      RunFacts(p, maxConnections, calls, front);
      StepLockRows(p, s, maxConnections, l);
      OneTxnMoves(p, s, maxConnections, l);
      StepCommitted(p, s, maxConnections, l, a);
    }
  }

  /** Some statement can run as long as a transaction is unfinished, whatever the others wait for. */
  lemma SomeoneAdvances(s: State, maxConnections: nat)
    requires Refinement.LocksOk(s) && PendingOk(s) && PoolOk(s, maxConnections) && maxConnections >= 1
    requires exists t :: 0 <= t < |s.txns| && !Finished(s.txns[t])
    ensures exists t: nat :: CanAdvance(s, maxConnections, t)
  {
    if t: nat :| t < |s.txns| && Critical(s.txns[t]) {
      assert CanAdvance(s, maxConnections, t);
    } else if t: nat :| t < |s.txns| && Guarding(s.txns[t]) {
      assert s.txns[t].req.account !in s.holder;
      assert CanAdvance(s, maxConnections, t);
    } else if t: nat :| t < |s.txns| && HoldsConnection(s.txns[t]) {
      assert s.txns[t].req.account !in s.pending;
      assert CanAdvance(s, maxConnections, t);
    } else {
      NoConnections(s.txns);
      var t: nat :| t < |s.txns| && !Finished(s.txns[t]);
      assert CanAdvance(s, maxConnections, t);
    }
  }

  /** With at least one connection, no reachable state is stuck before every transaction has
      finished; no run is longer than eight statements a call; the pool bound always holds. */
  lemma Progress(p: Policy, maxConnections: nat, calls: seq<Call>, labels: seq<Label>)
    requires maxConnections >= 1 && ValidRun(p, maxConnections, Start(calls), labels)
    ensures var s := Exec(p, Start(calls), labels);
            && |labels| <= 8 * |calls|
            && Connections(s.txns) <= maxConnections
            && ((forall t: nat :: !CanAdvance(s, maxConnections, t)) ==>
                  forall t :: 0 <= t < |s.txns| ==> Finished(s.txns[t]))
  {
    RunFacts(p, maxConnections, calls, labels);
    var s := Exec(p, Start(calls), labels);
    if exists t :: 0 <= t < |s.txns| && !Finished(s.txns[t]) {
      SomeoneAdvances(s, maxConnections);
    }
  }
}
