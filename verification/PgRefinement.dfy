/** Every interleaving of the Postgres store's statements is an atomic execution of the committed
    transactions, in commit order. */
module PgRefinement {
  import opened Options
  import opened AccountLedger
  import opened ChargeTable
  import opened PgTransactions

  // ---- overlays --------------------------------------------------------------------------

  lemma OverlayAppend(rows: seq<Row>, r: Row, d: Delta)
    ensures Overlay(rows + [r], d)
            == if r.id in d.deleted then Overlay(rows, d)
               else Overlay(rows, d) + [if r.id in d.updated then r.(amount := d.updated[r.id]) else r]
  {
    assert (rows + [r])[..|rows|] == rows;
  }

  lemma {:induction false} OverlayIsLocal(rows: seq<Row>, d: Delta, account: string)
    ensures RowsOf(Overlay(rows, d), account) == Overlay(RowsOf(rows, account), d)
  {
    if rows != [] {
      var last := |rows| - 1;
      var r := rows[last];
      OverlayIsLocal(rows[..last], d, account);
      OverlayAppend(RowsOf(rows[..last], account), r, d);
      if r.id !in d.deleted {
        RowsOfAppend(Overlay(rows[..last], d), if r.id in d.updated then r.(amount := d.updated[r.id]) else r, account);
      }
    }
  }

  lemma {:induction false} OverlayMisses(rows: seq<Row>, d: Delta)
    requires forall r :: r in rows ==> r.id !in d.deleted && r.id !in d.updated
    ensures Overlay(rows, d) == rows
  {
    if rows != [] {
      var last := |rows| - 1;
      assert rows[last] in rows;
      OverlayMisses(rows[..last], d);
      assert rows == rows[..last] + [rows[last]];
    }
  }

  lemma {:induction false} OverlayKeepsOrder(rows: seq<Row>, d: Delta)
    ensures forall r :: r in Overlay(rows, d) ==> HasId(rows, r.id)
    ensures Ascending(rows) ==> Ascending(Overlay(rows, d))
    ensures forall a :: AllOf(rows, a) ==> AllOf(Overlay(rows, d), a)
  {
    if rows != [] {
      var last := |rows| - 1;
      var front := Overlay(rows[..last], d);
      OverlayKeepsOrder(rows[..last], d);
      assert HasId(rows, rows[last].id);
      forall r | r in front ensures HasId(rows, r.id) {
        var k :| 0 <= k < last && rows[..last][k].id == r.id;
        assert rows[k].id == r.id;
      }
      if Ascending(rows) {
        forall k | 0 <= k < |front| ensures front[k].id < rows[last].id {
          assert front[k] in front && HasId(rows[..last], front[k].id);
          var j :| 0 <= j < last && rows[..last][j].id == front[k].id;
          assert rows[j].id < rows[last].id;
        }
      }
      forall a | AllOf(rows, a) ensures AllOf(Overlay(rows, d), a) {
        assert AllOf(rows[..last], a) && rows[last].account == a;
      }
    }
  }

  /** Deleting exactly the ids of the old rows is pruning. */
  lemma {:induction false} OverlayPrunes(rows: seq<Row>, d: Delta, cutoff: real)
    requires d.updated == map[]
    requires forall r :: r in rows ==> (r.id in d.deleted <==> r.ts < cutoff)
    ensures ChargesIn(Overlay(rows, d)) == Prune(ChargesIn(rows), cutoff)
  {
    if rows != [] {
      var last := |rows| - 1;
      var r := rows[last];
      assert r in rows;
      OverlayPrunes(rows[..last], d, cutoff);
      if r.ts >= cutoff {
        ChargesInAppend(Overlay(rows[..last], d), r);
      }
      PruneAppend(ChargesIn(rows[..last]), Charge(r.amount, r.ts), cutoff);
    }
  }

  /** One more updated id updates the overlaid rows. */
  lemma {:induction false} OverlayUpdates(rows: seq<Row>, d: Delta, id: nat, amount: real)
    requires d.updated == map[]
    ensures Overlay(rows, d.(updated := map[id := amount])) == UpdateAmount(Overlay(rows, d), id, amount)
  {
    if rows != [] {
      var last := |rows| - 1;
      var r := rows[last];
      OverlayUpdates(rows[..last], d, id, amount);
      if r.id !in d.deleted {
        assert Overlay(rows, d)[..|Overlay(rows, d)| - 1] == Overlay(rows[..last], d);
      }
    }
  }

  lemma {:induction false} RowsOfComplete(rows: seq<Row>, account: string)
    ensures forall r :: r in rows && r.account == account ==> r in RowsOf(rows, account)
  {
    if rows != [] {
      RowsOfComplete(rows[..|rows| - 1], account);
    }
  }

  // ---- invariants ------------------------------------------------------------------------

  /** Ids are owned by the account they were allocated for and ascend within each account. */
  ghost predicate IdsOk(s: State) {
    && (forall r :: r in s.table ==> r.id < |s.ids| && s.ids[r.id] == r.account)
    && (forall a :: Ascending(RowsOf(s.table, a)))
  }

  /** A transaction past its row lock is the holder of its account's lock row. */
  ghost predicate LocksOk(s: State) {
    && (forall t :: 0 <= t < |s.txns| && Critical(s.txns[t]) ==>
          s.txns[t].req.account in s.holder && s.holder[s.txns[t].req.account] == t)
    && (forall a :: a in s.holder ==>
          s.holder[a] < |s.txns| && Critical(s.txns[s.holder[a]]) && s.txns[s.holder[a]].req.account == a)
  }

  ghost predicate DeltaOwned(d: Delta, ids: seq<string>, account: string) {
    && (forall id :: id in d.deleted ==> id < |ids| && ids[id] == account)
    && (forall id :: id in d.updated ==> id < |ids| && ids[id] == account)
  }

  /** What a transaction has done so far, in terms of its account's committed rows `base`. */
  ghost predicate TxnOk(p: Policy, base: seq<Row>, ids: seq<string>, t: Txn) {
    DoneSoFar(base, Overlay(base, t.delta), ChargesIn(Overlay(base, t.delta)),
              Prune(ChargesIn(base), t.now - p.window), ids, t)
  }

  /** The same, given the rows and charges it sees and the committed charges that are live. */
  ghost predicate DoneSoFar(base: seq<Row>, rows: seq<Row>, seen: seq<Charge>, live: seq<Charge>, ids: seq<string>, t: Txn) {
    var d := t.delta;
    && DeltaOwned(d, ids, t.req.account)
    && match t.pc
       case Pruned => d.inserted == [] && d.updated == map[] && seen == live
       case Summed => t.req.ReserveReq? && d.inserted == [] && d.updated == map[] && seen == live
                      && t.balance == Total(live) + t.req.cost
       case Inserted => t.req.ReserveReq? && seen == live && t.balance == Total(live) + t.req.cost
                        && InsertedOk(base, ids, t)
       case Selected => t.req.SettleReq? && d.inserted == [] && d.updated == map[] && seen == live
                        && t.found == SelectNewest(rows, t.req.account, t.req.reserved)
       case Updated => t.req.SettleReq? && d.inserted == []
                       && seen == Revalue(live, t.req.reserved, t.req.actual)
       case Totalled => t.req.SettleReq? && d.inserted == []
                        && seen == Revalue(live, t.req.reserved, t.req.actual) && t.balance == Total(seen)
       case _ => d == NO_DELTA
  }

  ghost predicate InsertedOk(base: seq<Row>, ids: seq<string>, t: Txn)
    requires t.req.ReserveReq?
  {
    && |t.delta.inserted| == 1
    && var r := t.delta.inserted[0];
       && r == Row(r.id, t.req.account, t.req.cost, t.now)
       && r.id < |ids| && ids[r.id] == t.req.account
       && forall b :: b in base ==> b.id < r.id
  }

  ghost predicate TxnsOk(p: Policy, s: State) {
    forall t :: 0 <= t < |s.txns| ==>
      TxnOk(p, RowsOf(s.table, s.txns[t].req.account), s.ids, s.txns[t])
  }

  /** The log lists the committed transactions, each once, with what each returned. */
  ghost predicate LogOk(p: Policy, s: State) {
    && (forall k :: 0 <= k < |s.log| ==> Logged(p, s, k))
    && (forall i, j :: 0 <= i < j < |s.log| ==> s.log[i].txn != s.log[j].txn)
    && (forall t :: 0 <= t < |s.txns| && s.txns[t].pc == Committed ==> InLog(s.log, t))
  }

  ghost predicate Logged(p: Policy, s: State, k: nat)
    requires k < |s.log|
  {
    var e := s.log[k];
    e.txn < |s.txns| && s.txns[e.txn].pc == Committed
    && e == Entry(e.txn, s.txns[e.txn].req, s.txns[e.txn].now, AnswerOf(p, s.txns[e.txn]))
  }

  ghost predicate InLog(log: seq<Entry>, t: nat) {
    exists k :: 0 <= k < |log| && log[k].txn == t
  }

  ghost predicate Refines(p: Policy, s: State) {
    (forall a :: RefinesFor(p, s, a)) && AnswersAtomic(p, s.log)
  }

  /** The account's committed charges are the atomic ledger's. */
  ghost predicate RefinesFor(p: Policy, s: State, a: string) {
    View(s.table, a) == Ledger(p, s.log, a)
  }

  ghost predicate Inv(p: Policy, s: State) {
    IdsOk(s) && LocksOk(s) && TxnsOk(p, s) && LogOk(p, s) && Refines(p, s)
  }

  // ---- one statement ---------------------------------------------------------------------

  /** After the delete the overlay now shows the pruned charges. */
  lemma DeletedView(s: State, a: string, cutoff: real)
    requires IdsOk(s)
    ensures var d := NO_DELTA.(deleted := ExpiredIds(Visible(s.table, NO_DELTA), a, cutoff));
            && DeltaOwned(d, s.ids, a)
            && ChargesIn(Overlay(RowsOf(s.table, a), d)) == Prune(View(s.table, a), cutoff)
  {
    var base := RowsOf(s.table, a);
    OverlayMisses(s.table, NO_DELTA);
    assert Visible(s.table, NO_DELTA) == s.table;
    var d := NO_DELTA.(deleted := ExpiredIds(s.table, a, cutoff));
    RowsOfComplete(s.table, a);
    RowsOfIsPart(s.table, a);
    forall r | r in base ensures r.id in d.deleted <==> r.ts < cutoff {
      assert r.account == a;
      if r.id in d.deleted {
        var q :| q in s.table && q.account == a && q.ts < cutoff && q.id == r.id;
        assert q in base;
        SameIdSameRow(base, q, r);
      }
    }
    OverlayPrunes(base, d, cutoff);
  }

  lemma DeleteShape(p: Policy, s: State, t: nat)
    requires t < |s.txns| && s.txns[t].pc == Locked && s.txns[t].delta == NO_DELTA
    ensures var txn := s.txns[t];
            var expired := ExpiredIds(Visible(s.table, NO_DELTA), txn.req.account, txn.now - p.window);
            Advance(p, s, t).txns[t] == txn.(pc := Pruned, delta := NO_DELTA.(deleted := expired))
  {
  }

  lemma PrunedOk(base: seq<Row>, rows: seq<Row>, live: seq<Charge>, ids: seq<string>, t: Txn, expired: set<nat>)
    requires DeltaOwned(NO_DELTA.(deleted := expired), ids, t.req.account)
    ensures DoneSoFar(base, rows, live, live, ids, t.(pc := Pruned, delta := NO_DELTA.(deleted := expired)))
  {
  }

  /** After the delete the transaction sees the pruned charges. */
  lemma DeletedTxnOk(p: Policy, s: State, txn: Txn, expired: set<nat>)
    requires IdsOk(s) && expired == ExpiredIds(Visible(s.table, NO_DELTA), txn.req.account, txn.now - p.window)
    ensures TxnOk(p, RowsOf(s.table, txn.req.account), s.ids,
                  txn.(pc := Pruned, delta := NO_DELTA.(deleted := expired)))
  {
    var base := RowsOf(s.table, txn.req.account);
    DeletedView(s, txn.req.account, txn.now - p.window);
    PrunedOk(base, Overlay(base, NO_DELTA.(deleted := expired)), Prune(ChargesIn(base), txn.now - p.window), s.ids, txn, expired);
  }

  lemma Deletes(p: Policy, s: State, t: nat) returns (txn': Txn)
    requires IdsOk(s) && t < |s.txns| && s.txns[t].pc == Locked && s.txns[t].delta == NO_DELTA
    ensures Advance(p, s, t).txns[t] == txn' && TxnOk(p, RowsOf(s.table, s.txns[t].req.account), s.ids, txn')
  {
    var txn := s.txns[t];
    var expired := ExpiredIds(Visible(s.table, NO_DELTA), txn.req.account, txn.now - p.window);
    txn' := txn.(pc := Pruned, delta := NO_DELTA.(deleted := expired));
    DeleteShape(p, s, t);
    DeletedTxnOk(p, s, txn, expired);
  }

  lemma DeleteStep(p: Policy, s: State, t: nat)
    requires IdsOk(s) && t < |s.txns| && s.txns[t].pc == Locked && s.txns[t].delta == NO_DELTA
    ensures TxnOk(p, RowsOf(s.table, s.txns[t].req.account), s.ids, Advance(p, s, t).txns[t])
  {
    var txn' := Deletes(p, s, t);
    AdvancedTxnOk(p, s, t, txn');
  }

  lemma AdvancedTxnOk(p: Policy, s: State, t: nat, txn': Txn)
    requires t < |s.txns| && s.txns[t].pc == Locked && s.txns[t].delta == NO_DELTA
    requires Advance(p, s, t).txns[t] == txn' && TxnOk(p, RowsOf(s.table, s.txns[t].req.account), s.ids, txn')
    ensures TxnOk(p, RowsOf(s.table, s.txns[t].req.account), s.ids, Advance(p, s, t).txns[t])
  {
  }

  lemma SameIdSameRow(rows: seq<Row>, q: Row, r: Row)
    requires Ascending(rows) && q in rows && r in rows && q.id == r.id
    ensures q == r
  {
    var i :| 0 <= i < |rows| && rows[i] == q;
    var j :| 0 <= j < |rows| && rows[j] == r;
    assert i == j;
  }

  lemma VisibleSum(s: State, d: Delta, a: string)
    requires d.inserted == []
    ensures SumAmounts(Visible(s.table, d), a) == Total(ChargesIn(Overlay(RowsOf(s.table, a), d)))
    ensures forall amount :: SelectNewest(Visible(s.table, d), a, amount)
                             == SelectNewest(Overlay(RowsOf(s.table, a), d), a, amount)
  {
    assert Visible(s.table, d) == Overlay(s.table, d);
    OverlayIsLocal(s.table, d, a);
    SumAmountsView(Overlay(s.table, d), a);
    forall amount ensures SelectNewest(Visible(s.table, d), a, amount)
                          == SelectNewest(Overlay(RowsOf(s.table, a), d), a, amount) {
      SelectNewestIsLocal(Overlay(s.table, d), a, amount);
    }
  }

  /** The transaction once it has read its balance or selected a charge. */
  function Read(t: Txn, sum: real, found: Option<nat>): Txn {
    if t.pc == Updated then t.(pc := Totalled, balance := sum)
    else if t.req.ReserveReq? then t.(pc := Summed, balance := sum + t.req.cost)
    else t.(pc := Selected, found := found)
  }

  lemma ReadShape(p: Policy, s: State, t: nat)
    requires t < |s.txns| && (s.txns[t].pc == Pruned || s.txns[t].pc == Updated)
    ensures var txn := s.txns[t];
            var rows := Visible(s.table, txn.delta);
            Advance(p, s, t).txns[t]
            == Read(txn, SumAmounts(rows, txn.req.account),
                    if txn.req.SettleReq? then SelectNewest(rows, txn.req.account, txn.req.reserved) else None)
  {
  }

  lemma ReadOk(base: seq<Row>, rows: seq<Row>, seen: seq<Charge>, live: seq<Charge>, ids: seq<string>, t: Txn,
               found: Option<nat>)
    requires DoneSoFar(base, rows, seen, live, ids, t) && (t.pc == Pruned || t.pc == Updated)
    requires t.req.SettleReq? ==> found == SelectNewest(rows, t.req.account, t.req.reserved)
    ensures DoneSoFar(base, rows, seen, live, ids, Read(t, Total(seen), found))
  {
  }

  lemma ReadTxnOk(p: Policy, s: State, txn: Txn, sum: real, found: Option<nat>)
    requires (txn.pc == Pruned || txn.pc == Updated) && TxnOk(p, RowsOf(s.table, txn.req.account), s.ids, txn)
    requires sum == SumAmounts(Visible(s.table, txn.delta), txn.req.account)
    requires txn.req.SettleReq? ==> found == SelectNewest(Visible(s.table, txn.delta), txn.req.account, txn.req.reserved)
    ensures TxnOk(p, RowsOf(s.table, txn.req.account), s.ids, Read(txn, sum, found))
  {
    var base := RowsOf(s.table, txn.req.account);
    var rows := Overlay(base, txn.delta);
    VisibleSum(s, txn.delta, txn.req.account);
    ReadOk(base, rows, ChargesIn(rows), Prune(ChargesIn(base), txn.now - p.window), s.ids, txn, found);
  }

  lemma ReadStep(p: Policy, s: State, t: nat)
    requires t < |s.txns| && (s.txns[t].pc == Pruned || s.txns[t].pc == Updated)
    requires TxnOk(p, RowsOf(s.table, s.txns[t].req.account), s.ids, s.txns[t])
    ensures TxnOk(p, RowsOf(s.table, s.txns[t].req.account), s.ids, Advance(p, s, t).txns[t])
  {
    var txn := s.txns[t];
    var rows := Visible(s.table, txn.delta);
    ReadShape(p, s, t);
    ReadTxnOk(p, s, txn, SumAmounts(rows, txn.req.account),
              if txn.req.SettleReq? then SelectNewest(rows, txn.req.account, txn.req.reserved) else None);
  }

  /** After the update by the selected id the overlay now shows the revalued charges. */
  lemma UpdatedView(s: State, a: string, d: Delta, from: real, to: real)
    requires IdsOk(s) && d.updated == map[]
    ensures var base := RowsOf(s.table, a);
            var found := SelectNewest(Overlay(base, d), a, from);
            var updated := if found.Some? then d.updated[found.value := to] else d.updated;
            && (found.Some? ==> found.value < |s.ids| && s.ids[found.value] == a)
            && ChargesIn(Overlay(base, d.(updated := updated))) == Revalue(ChargesIn(Overlay(base, d)), from, to)
  {
    var base := RowsOf(s.table, a);
    var seen := Overlay(base, d);
    var found := SelectNewest(seen, a, from);
    RowsOfIsPart(s.table, a);
    OverlayKeepsOrder(base, d);
    UpdateSelectedIsRevalue(seen, a, from, to);
    if found.Some? {
      OverlayUpdates(base, d, found.value, to);
      assert d.updated[found.value := to] == map[found.value := to];
      SelectNewestFinds(seen, a, from);
      var k :| 0 <= k < |seen| && seen[k].id == found.value;
      assert seen[k] in seen && HasId(base, found.value);
      var j :| 0 <= j < |base| && base[j].id == found.value;
      assert base[j] in base && base[j] in s.table && base[j].account == a;
    } else {
      assert d.(updated := d.updated) == d;
    }
  }

  lemma UpdatedOk(base: seq<Row>, rows: seq<Row>, seen: seq<Charge>, rows': seq<Row>, seen': seq<Charge>,
                  live: seq<Charge>, ids: seq<string>, t: Txn)
    requires t.req.SettleReq? && t.pc == Selected && DoneSoFar(base, rows, seen, live, ids, t)
    requires forall id :: id in Chosen(t) ==> id < |ids| && ids[id] == t.req.account
    requires seen' == Revalue(seen, t.req.reserved, t.req.actual)
    ensures DoneSoFar(base, rows', seen', live, ids, t.(pc := Updated, delta := t.delta.(updated := Chosen(t))))
  {
  }

  /** What `settle` writes: the amount of the selected charge, if there is one. */
  function Chosen(t: Txn): map<nat, real>
    requires t.req.SettleReq?
  {
    if t.found.Some? then t.delta.updated[t.found.value := t.req.actual] else t.delta.updated
  }

  lemma UpdateShape(p: Policy, s: State, t: nat)
    requires t < |s.txns| && s.txns[t].pc == Selected && s.txns[t].req.SettleReq?
    ensures Advance(p, s, t).txns[t]
            == s.txns[t].(pc := Updated, delta := s.txns[t].delta.(updated := Chosen(s.txns[t])))
  {
  }

  lemma UpdateStep(p: Policy, s: State, t: nat)
    requires IdsOk(s) && t < |s.txns| && s.txns[t].pc == Selected
    requires TxnOk(p, RowsOf(s.table, s.txns[t].req.account), s.ids, s.txns[t])
    ensures TxnOk(p, RowsOf(s.table, s.txns[t].req.account), s.ids, Advance(p, s, t).txns[t])
  {
    var txn := s.txns[t];
    var base := RowsOf(s.table, txn.req.account);
    var rows, rows' := Overlay(base, txn.delta), Overlay(base, txn.delta.(updated := Chosen(txn)));
    UpdateShape(p, s, t);
    ChosenView(s, txn);
    UpdatedOk(base, rows, ChargesIn(rows), rows', ChargesIn(rows'), Prune(ChargesIn(base), txn.now - p.window), s.ids, txn);
  }

  lemma ChosenView(s: State, txn: Txn)
    requires IdsOk(s) && txn.req.SettleReq? && txn.delta.updated == map[]
    requires txn.found == SelectNewest(Overlay(RowsOf(s.table, txn.req.account), txn.delta), txn.req.account, txn.req.reserved)
    ensures var base := RowsOf(s.table, txn.req.account);
            && (forall id :: id in Chosen(txn) ==> id < |s.ids| && s.ids[id] == txn.req.account)
            && ChargesIn(Overlay(base, txn.delta.(updated := Chosen(txn))))
               == Revalue(ChargesIn(Overlay(base, txn.delta)), txn.req.reserved, txn.req.actual)
  {
    UpdatedView(s, txn.req.account, txn.delta, txn.req.reserved, txn.req.actual);
  }

  lemma InsertedStepOk(base: seq<Row>, rows: seq<Row>, seen: seq<Charge>, live: seq<Charge>, ids: seq<string>, t: Txn)
    requires DoneSoFar(base, rows, seen, live, ids, t) && t.pc == Summed
    requires forall b :: b in base ==> b.id < |ids|
    ensures var row := Row(|ids|, t.req.account, t.req.cost, t.now);
            DoneSoFar(base, rows, seen, live, ids + [t.req.account],
                      t.(pc := Inserted, delta := t.delta.(inserted := t.delta.inserted + [row])))
  {
  }

  lemma InsertShape(p: Policy, s: State, t: nat)
    requires t < |s.txns| && s.txns[t].pc == Summed && s.txns[t].req.ReserveReq?
    ensures var txn, s' := s.txns[t], Advance(p, s, t);
            var row := Row(|s.ids|, txn.req.account, txn.req.cost, txn.now);
            && s'.ids == s.ids + [txn.req.account]
            && s'.txns[t] == txn.(pc := Inserted, delta := txn.delta.(inserted := txn.delta.inserted + [row]))
  {
  }

  lemma InsertedTxnOk(p: Policy, s: State, txn: Txn, row: Row)
    requires IdsOk(s) && txn.pc == Summed && TxnOk(p, RowsOf(s.table, txn.req.account), s.ids, txn)
    requires row == Row(|s.ids|, txn.req.account, txn.req.cost, txn.now)
    ensures TxnOk(p, RowsOf(s.table, txn.req.account), s.ids + [txn.req.account],
                  txn.(pc := Inserted, delta := txn.delta.(inserted := txn.delta.inserted + [row])))
  {
    var base := RowsOf(s.table, txn.req.account);
    RowsOfIsPart(s.table, txn.req.account);
    OverlayIgnoresInserts(base, txn.delta, txn.delta.inserted + [row]);
    InsertedStepOk(base, Overlay(base, txn.delta), ChargesIn(Overlay(base, txn.delta)),
                   Prune(ChargesIn(base), txn.now - p.window), s.ids, txn);
  }

  lemma InsertStep(p: Policy, s: State, t: nat)
    requires IdsOk(s) && t < |s.txns| && s.txns[t].pc == Summed
    requires TxnOk(p, RowsOf(s.table, s.txns[t].req.account), s.ids, s.txns[t])
    ensures var s' := Advance(p, s, t);
            && s'.ids == s.ids + [s.txns[t].req.account]
            && TxnOk(p, RowsOf(s.table, s.txns[t].req.account), s'.ids, s'.txns[t])
  {
    var txn := s.txns[t];
    InsertShape(p, s, t);
    InsertedTxnOk(p, s, txn, Row(|s.ids|, txn.req.account, txn.req.cost, txn.now));
  }

  lemma {:induction false} OverlayIgnoresInserts(rows: seq<Row>, d: Delta, inserted: seq<Row>)
    ensures Overlay(rows, d.(inserted := inserted)) == Overlay(rows, d)
  {
    if rows != [] {
      OverlayIgnoresInserts(rows[..|rows| - 1], d, inserted);
    }
  }

  // ---- commit ----------------------------------------------------------------------------

  ghost predicate DeltaInsertsOwn(t: Txn) {
    var rows := t.delta.inserted;
    rows == [] || (|rows| == 1 && rows[0].account == t.req.account)
  }

  lemma CommitElsewhere(s: State, t: nat, other: string)
    requires IdsOk(s) && t < |s.txns| && s.txns[t].req.account != other
    requires DeltaOwned(s.txns[t].delta, s.ids, s.txns[t].req.account)
    requires DeltaInsertsOwn(s.txns[t])
    ensures RowsOf(Visible(s.table, s.txns[t].delta), other) == RowsOf(s.table, other)
  {
    var d := s.txns[t].delta;
    OverlayIsLocal(s.table, d, other);
    RowsOfIsPart(s.table, other);
    OverlayMisses(RowsOf(s.table, other), d);
    if d.inserted == [] {
      assert Visible(s.table, d) == Overlay(s.table, d);
    } else {
      assert d.inserted == [d.inserted[0]];
      RowsOfAppend(Overlay(s.table, d), d.inserted[0], other);
    }
  }

  /** The committed rows of the transaction's own account: what its overlay showed, then its insert. */
  lemma PublishedRows(s: State, t: nat)
    requires IdsOk(s) && t < |s.txns|
    requires DeltaInsertsOwn(s.txns[t])
    ensures var a, d := s.txns[t].req.account, s.txns[t].delta;
            RowsOf(Visible(s.table, d), a) == Overlay(RowsOf(s.table, a), d) + d.inserted
  {
    var a, d := s.txns[t].req.account, s.txns[t].delta;
    OverlayIsLocal(s.table, d, a);
    if d.inserted == [] {
      assert Visible(s.table, d) == Overlay(s.table, d);
    } else {
      assert d.inserted == [d.inserted[0]];
      RowsOfAppend(Overlay(s.table, d), d.inserted[0], a);
    }
  }

  lemma PublishedOrder(base: seq<Row>, d: Delta)
    requires Ascending(base)
    requires d.inserted == [] || (|d.inserted| == 1 && forall b :: b in base ==> b.id < d.inserted[0].id)
    ensures Ascending(Overlay(base, d) + d.inserted)
  {
    var seen := Overlay(base, d);
    OverlayKeepsOrder(base, d);
    if d.inserted != [] {
      forall k | 0 <= k < |seen| ensures seen[k].id < d.inserted[0].id {
        assert seen[k] in seen && HasId(base, seen[k].id);
        var j :| 0 <= j < |base| && base[j].id == seen[k].id;
        assert base[j] in base;
      }
    }
  }

  lemma PublishedCharges(p: Policy, base: seq<Row>, ids: seq<string>, t: Txn)
    requires t.pc == Inserted || t.pc == Totalled
    requires TxnOk(p, base, ids, t)
    ensures ChargesIn(Overlay(base, t.delta) + t.delta.inserted)
            == Apply(p, ChargesIn(base), ToOp(t.req, t.now)).0
  {
    var live := Prune(ChargesIn(base), t.now - p.window);
    if t.pc == Inserted {
      PublishedInsert(base, t, live);
      ReserveOn(p, ChargesIn(base), t.req.cost, t.now, live);
    } else {
      PublishedSettle(base, t, Revalue(live, t.req.reserved, t.req.actual));
      SettleOn(p, ChargesIn(base), t.req.reserved, t.req.actual, t.now, live);
    }
  }

  lemma PublishedSettle(base: seq<Row>, t: Txn, settled: seq<Charge>)
    requires t.delta.inserted == [] && ChargesIn(Overlay(base, t.delta)) == settled
    ensures ChargesIn(Overlay(base, t.delta) + t.delta.inserted) == settled
  {
    assert Overlay(base, t.delta) + t.delta.inserted == Overlay(base, t.delta);
  }

  lemma PublishedInsert(base: seq<Row>, t: Txn, live: seq<Charge>)
    requires t.req.ReserveReq? && ChargesIn(Overlay(base, t.delta)) == live
    requires |t.delta.inserted| == 1
    requires t.delta.inserted[0] == Row(t.delta.inserted[0].id, t.req.account, t.req.cost, t.now)
    ensures ChargesIn(Overlay(base, t.delta) + t.delta.inserted) == live + [Charge(t.req.cost, t.now)]
  {
    assert t.delta.inserted == [t.delta.inserted[0]];
    ChargesInAppend(Overlay(base, t.delta), t.delta.inserted[0]);
  }

  lemma ReserveAnswer(p: Policy, charges: seq<Charge>, t: Txn)
    requires t.req.ReserveReq? && t.balance == Total(Prune(charges, t.now - p.window)) + t.req.cost
    ensures AnswerOf(p, t) == Apply(p, charges, ToOp(t.req, t.now)).1
  {
  }

  lemma SettleAnswer(p: Policy, charges: seq<Charge>, t: Txn)
    requires t.req.SettleReq?
    requires t.balance == Total(Revalue(Prune(charges, t.now - p.window), t.req.reserved, t.req.actual))
    ensures AnswerOf(p, t) == Apply(p, charges, ToOp(t.req, t.now)).1
  {
  }

  lemma PublishedAnswer(p: Policy, base: seq<Row>, ids: seq<string>, t: Txn)
    requires t.pc == Inserted || t.pc == Totalled
    requires TxnOk(p, base, ids, t)
    ensures AnswerOf(p, t) == Apply(p, ChargesIn(base), ToOp(t.req, t.now)).1
  {
    AnswerMatches(p, ChargesIn(base), Prune(ChargesIn(base), t.now - p.window), base, Overlay(base, t.delta),
                  ChargesIn(Overlay(base, t.delta)), ids, t);
  }

  lemma AnswerMatches(p: Policy, charges: seq<Charge>, live: seq<Charge>, base: seq<Row>, rows: seq<Row>,
                      seen: seq<Charge>, ids: seq<string>, t: Txn)
    requires t.pc == Inserted || t.pc == Totalled
    requires live == Prune(charges, t.now - p.window) && DoneSoFar(base, rows, seen, live, ids, t)
    ensures AnswerOf(p, t) == Apply(p, charges, ToOp(t.req, t.now)).1
  {
    if t.pc == Inserted {
      ReserveAnswer(p, charges, t);
    } else {
      SettleAnswer(p, charges, t);
    }
  }

  /** Publishing a transaction's changes applies its atomic operation to its account. */
  lemma CommitHere(p: Policy, s: State, t: nat)
    requires IdsOk(s) && t < |s.txns| && (s.txns[t].pc == Inserted || s.txns[t].pc == Totalled)
    requires TxnOk(p, RowsOf(s.table, s.txns[t].req.account), s.ids, s.txns[t])
    ensures var txn := s.txns[t];
            var a := txn.req.account;
            var after := RowsOf(Visible(s.table, txn.delta), a);
            && Apply(p, View(s.table, a), ToOp(txn.req, txn.now)).0 == ChargesIn(after)
            && Apply(p, View(s.table, a), ToOp(txn.req, txn.now)).1 == AnswerOf(p, txn)
            && Ascending(after)
  {
    var base := RowsOf(s.table, s.txns[t].req.account);
    assert DeltaInsertsOwn(s.txns[t]);
    PublishedRows(s, t);
    PublishedOrder(base, s.txns[t].delta);
    PublishedCharges(p, base, s.ids, s.txns[t]);
    PublishedAnswer(p, base, s.ids, s.txns[t]);
  }

  lemma LedgerAppend(p: Policy, log: seq<Entry>, e: Entry, a: string)
    ensures Ledger(p, log + [e], a)
            == if e.req.account == a then Apply(p, Ledger(p, log, a), ToOp(e.req, e.now)).0 else Ledger(p, log, a)
  {
    assert (log + [e])[..|log|] == log;
  }

  lemma AtomicAppend(p: Policy, log: seq<Entry>, e: Entry)
    requires AnswersAtomic(p, log)
    requires e.answer == Apply(p, Ledger(p, log, e.req.account), ToOp(e.req, e.now)).1
    ensures AnswersAtomic(p, log + [e])
  {
    forall k | 0 <= k < |log + [e]|
      ensures var f := (log + [e])[k];
              f.answer == Apply(p, Ledger(p, (log + [e])[..k], f.req.account), ToOp(f.req, f.now)).1
    {
      if k < |log| {
        assert (log + [e])[..k] == log[..k];
      } else {
        assert (log + [e])[..k] == log;
      }
    }
  }

  // ---- every step keeps the invariant ----------------------------------------------------

  ghost predicate Publishing(s: State, l: Label)
    requires l.txn < |s.txns|
  {
    l.Go? && (s.txns[l.txn].pc == Inserted || s.txns[l.txn].pc == Totalled)
  }

  /** How one step of transaction `t` may move its account's row lock. */
  ghost predicate LockMove(s: State, s': State, t: nat) {
    && |s'.txns| == |s.txns| && t < |s.txns|
    && (forall u :: 0 <= u < |s.txns| && u != t ==> s'.txns[u] == s.txns[u])
    && var a := s.txns[t].req.account;
       && s'.txns[t].req == s.txns[t].req
       && (|| (s'.holder == s.holder && (Critical(s'.txns[t]) <==> Critical(s.txns[t])))
           || (s'.holder == s.holder[a := t] && a !in s.holder && Critical(s'.txns[t]))
           || (s'.holder == Without(s.holder, a, t) && !Critical(s'.txns[t])))
  }

  lemma StepMovesLock(p: Policy, s: State, maxConnections: nat, l: Label)
    requires Enabled(s, maxConnections, l)
    ensures LockMove(s, Step(p, s, l), l.txn)
  {
    if l.Rollback? {
      CloseMovesLock(s, l.txn, Aborted);
    } else if Publishing(s, l) {
      CloseMovesLock(s, l.txn, Committed);
    } else if s.txns[l.txn].pc == RowEnsured {
      TakeMovesLock(p, s, maxConnections, l.txn);
    } else {
      OtherwiseLockStays(p, s, maxConnections, l.txn);
    }
  }

  lemma CloseMovesLock(s: State, t: nat, outcome: Pc)
    requires t < |s.txns| && (outcome == Committed || outcome == Aborted)
    ensures LockMove(s, Close(s, t, outcome), t)
  {
  }

  lemma TakeMovesLock(p: Policy, s: State, maxConnections: nat, t: nat)
    requires CanAdvance(s, maxConnections, t) && s.txns[t].pc == RowEnsured
    ensures LockMove(s, Advance(p, s, t), t)
  {
  }

  lemma OtherwiseLockStays(p: Policy, s: State, maxConnections: nat, t: nat)
    requires CanAdvance(s, maxConnections, t) && s.txns[t].pc != RowEnsured && !Publishing(s, Go(t))
    ensures LockMove(s, Advance(p, s, t), t)
  {
    OnlyOneAdvances(p, s, maxConnections, t);
    CriticalStays(p, s, maxConnections, t);
  }

  lemma OnlyOneAdvances(p: Policy, s: State, maxConnections: nat, t: nat)
    requires CanAdvance(s, maxConnections, t) && s.txns[t].pc != RowEnsured && !Publishing(s, Go(t))
    ensures var s' := Advance(p, s, t);
            && s'.holder == s.holder && |s'.txns| == |s.txns| && s'.txns == s.txns[t := s'.txns[t]]
            && s'.txns[t].req == s.txns[t].req
  {
  }

  lemma CriticalStays(p: Policy, s: State, maxConnections: nat, t: nat)
    requires CanAdvance(s, maxConnections, t) && s.txns[t].pc != RowEnsured && !Publishing(s, Go(t))
    ensures |Advance(p, s, t).txns| == |s.txns| && (Critical(Advance(p, s, t).txns[t]) <==> Critical(s.txns[t]))
  {
  }

  lemma LockMoveKeepsLocks(s: State, s': State, t: nat)
    requires LocksOk(s) && LockMove(s, s', t)
    ensures LocksOk(s')
  {
    forall a | a in s'.holder
      ensures s'.holder[a] < |s'.txns| && Critical(s'.txns[s'.holder[a]]) && s'.txns[s'.holder[a]].req.account == a
    {
      if a in s.holder && s.holder[a] == t {
        assert Critical(s.txns[t]);
      }
    }
  }

  lemma LocksStep(p: Policy, s: State, maxConnections: nat, l: Label)
    requires LocksOk(s) && Enabled(s, maxConnections, l)
    ensures LocksOk(Step(p, s, l))
  {
    StepMovesLock(p, s, maxConnections, l);
    LockMoveKeepsLocks(s, Step(p, s, l), l.txn);
  }

  /** Two transactions past their row locks work on different accounts. */
  lemma CriticalApart(s: State, t: nat, u: nat)
    requires LocksOk(s) && t < |s.txns| && u < |s.txns| && t != u
    requires Critical(s.txns[t]) && Critical(s.txns[u])
    ensures s.txns[t].req.account != s.txns[u].req.account
  {
  }

  lemma TxnOkMoreIds(p: Policy, base: seq<Row>, ids: seq<string>, more: seq<string>, t: Txn)
    requires TxnOk(p, base, ids, t)
    ensures TxnOk(p, base, ids + more, t)
  {
    assert DeltaOwned(t.delta, ids + more, t.req.account);
  }

  /** Until it commits or aborts, a transaction changes only its own private state. */
  lemma PrivateTxnOk(p: Policy, s: State, maxConnections: nat, l: Label)
    requires Inv(p, s) && Enabled(s, maxConnections, l) && !Publishing(s, l)
    ensures var s' := Step(p, s, l);
            TxnOk(p, RowsOf(s.table, s.txns[l.txn].req.account), s'.ids, s'.txns[l.txn])
  {
    var t := l.txn;
    if l.Go? {
      match s.txns[t].pc {
        case Locked => DeleteStep(p, s, t);
        case Pruned => ReadStep(p, s, t);
        case Updated => ReadStep(p, s, t);
        case Selected => UpdateStep(p, s, t);
        case Summed => InsertStep(p, s, t);
        case _ =>
      }
    }
  }

  /** A step that neither commits nor aborts into the log: tables and log stand. */
  ghost predicate Private(s: State, s': State, t: nat) {
    && s'.table == s.table && s'.log == s.log && s.ids <= s'.ids
    && |s'.txns| == |s.txns| && t < |s.txns|
    && (forall u :: 0 <= u < |s.txns| && u != t ==> s'.txns[u] == s.txns[u])
    && s.txns[t].pc != Committed && s'.txns[t].pc != Committed
  }

  lemma PrivateShape(p: Policy, s: State, maxConnections: nat, l: Label)
    requires Enabled(s, maxConnections, l) && !Publishing(s, l)
    ensures Private(s, Step(p, s, l), l.txn)
  {
  }

  lemma PrivateKeepsTxns(p: Policy, s: State, s': State, t: nat)
    requires TxnsOk(p, s) && Private(s, s', t)
    requires TxnOk(p, RowsOf(s.table, s'.txns[t].req.account), s'.ids, s'.txns[t])
    ensures TxnsOk(p, s')
  {
    forall u | 0 <= u < |s'.txns|
      ensures TxnOk(p, RowsOf(s'.table, s'.txns[u].req.account), s'.ids, s'.txns[u])
    {
      if u != t {
        TxnOkMoreIds(p, RowsOf(s.table, s.txns[u].req.account), s.ids, s'.ids[|s.ids|..], s.txns[u]);
        assert s.ids + s'.ids[|s.ids|..] == s'.ids;
      }
    }
  }

  lemma PrivateKeepsLog(p: Policy, s: State, s': State, t: nat)
    requires IdsOk(s) && LogOk(p, s) && Refines(p, s) && Private(s, s', t)
    ensures IdsOk(s') && LogOk(p, s') && Refines(p, s')
  {
    forall k | 0 <= k < |s'.log| ensures Logged(p, s', k) {
      assert Logged(p, s, k);
    }
    forall a ensures RefinesFor(p, s', a) {
      assert RefinesFor(p, s, a);
    }
  }

  lemma PrivateStep(p: Policy, s: State, maxConnections: nat, l: Label)
    requires Inv(p, s) && Enabled(s, maxConnections, l) && !Publishing(s, l)
    ensures Inv(p, Step(p, s, l))
  {
    LocksStep(p, s, maxConnections, l);
    PrivateShape(p, s, maxConnections, l);
    PrivateTxnOk(p, s, maxConnections, l);
    PrivateKeepsLog(p, s, Step(p, s, l), l.txn);
    assert Step(p, s, l).txns[l.txn].req == s.txns[l.txn].req by {
      StepMovesLock(p, s, maxConnections, l);
    }
    PrivateKeepsTxns(p, s, Step(p, s, l), l.txn);
  }

  /** A commit step: the transaction's changes become visible and it enters the log. */
  ghost predicate Published(p: Policy, s: State, s': State, t: nat) {
    && t < |s.txns| && (s.txns[t].pc == Inserted || s.txns[t].pc == Totalled)
    && s'.table == Visible(s.table, s.txns[t].delta) && s'.ids == s.ids
    && s'.txns == s.txns[t := s.txns[t].(pc := Committed, delta := NO_DELTA)]
    && s'.log == s.log + [EntryOf(p, s, t)]
  }

  ghost function EntryOf(p: Policy, s: State, t: nat): Entry
    requires t < |s.txns|
  {
    Entry(t, s.txns[t].req, s.txns[t].now, AnswerOf(p, s.txns[t]))
  }

  lemma CommitShape(p: Policy, s: State, l: Label)
    requires l.txn < |s.txns| && Publishing(s, l)
    ensures Published(p, s, Step(p, s, l), l.txn)
  {
  }

  lemma TxnOkInserts(p: Policy, base: seq<Row>, ids: seq<string>, t: Txn)
    requires TxnOk(p, base, ids, t)
    ensures DeltaInsertsOwn(t)
    ensures forall r :: r in t.delta.inserted ==> r.id < |ids| && ids[r.id] == r.account
  {
  }

  lemma PublishedElsewhere(p: Policy, s: State, s': State, t: nat)
    requires IdsOk(s) && TxnsOk(p, s) && Published(p, s, s', t)
    ensures forall other :: other != s.txns[t].req.account ==> RowsOf(s'.table, other) == RowsOf(s.table, other)
  {
    var txn := s.txns[t];
    TxnOkInserts(p, RowsOf(s.table, txn.req.account), s.ids, txn);
    forall other | other != txn.req.account ensures RowsOf(s'.table, other) == RowsOf(s.table, other) {
      CommitElsewhere(s, t, other);
    }
  }

  lemma PublishedIds(p: Policy, s: State, s': State, t: nat)
    requires IdsOk(s) && TxnsOk(p, s) && Published(p, s, s', t)
    ensures IdsOk(s')
  {
    var txn := s.txns[t];
    TxnOkInserts(p, RowsOf(s.table, txn.req.account), s.ids, txn);
    CommitHere(p, s, t);
    PublishedElsewhere(p, s, s', t);
    forall a ensures Ascending(RowsOf(s'.table, a)) {
      if a != txn.req.account {
        assert RowsOf(s'.table, a) == RowsOf(s.table, a);
      }
    }
    OverlayRowIds(s, txn.delta);
  }

  lemma PublishedHere(p: Policy, s: State, s': State, t: nat)
    requires IdsOk(s) && TxnsOk(p, s) && Published(p, s, s', t) && RefinesFor(p, s, s.txns[t].req.account)
    ensures RefinesFor(p, s', s.txns[t].req.account)
  {
    CommitHere(p, s, t);
    LedgerAppend(p, s.log, EntryOf(p, s, t), s.txns[t].req.account);
  }

  lemma PublishedAway(p: Policy, s: State, s': State, t: nat, a: string)
    requires IdsOk(s) && TxnsOk(p, s) && Published(p, s, s', t) && RefinesFor(p, s, a) && a != s.txns[t].req.account
    ensures RefinesFor(p, s', a)
  {
    PublishedElsewhere(p, s, s', t);
    LedgerAppend(p, s.log, EntryOf(p, s, t), a);
    assert RowsOf(s'.table, a) == RowsOf(s.table, a);
  }

  lemma PublishedAnswers(p: Policy, s: State, s': State, t: nat)
    requires IdsOk(s) && TxnsOk(p, s) && AnswersAtomic(p, s.log) && Published(p, s, s', t)
    requires RefinesFor(p, s, s.txns[t].req.account)
    ensures AnswersAtomic(p, s'.log)
  {
    CommitHere(p, s, t);
    AtomicAppend(p, s.log, EntryOf(p, s, t));
  }

  lemma PublishedRefines(p: Policy, s: State, s': State, t: nat)
    requires IdsOk(s) && TxnsOk(p, s) && Refines(p, s) && Published(p, s, s', t)
    ensures Refines(p, s')
  {
    assert RefinesFor(p, s, s.txns[t].req.account);
    PublishedAnswers(p, s, s', t);
    forall a ensures RefinesFor(p, s', a) {
      assert RefinesFor(p, s, a);
      if a == s.txns[t].req.account {
        PublishedHere(p, s, s', t);
      } else {
        PublishedAway(p, s, s', t, a);
      }
    }
  }

  lemma {:induction false} OverlayRows(rows: seq<Row>, d: Delta)
    ensures forall r :: r in Overlay(rows, d) ==> exists q :: q in rows && q.id == r.id && q.account == r.account
  {
    if rows != [] {
      var last := |rows| - 1;
      OverlayRows(rows[..last], d);
      forall r | r in Overlay(rows, d) ensures exists q :: q in rows && q.id == r.id && q.account == r.account {
        if r in Overlay(rows[..last], d) {
          var q :| q in rows[..last] && q.id == r.id && q.account == r.account;
          assert q in rows;
        } else {
          assert rows[last] in rows;
        }
      }
    }
  }

  lemma OverlayRowIds(s: State, d: Delta)
    requires IdsOk(s)
    ensures forall r :: r in Overlay(s.table, d) ==> r.id < |s.ids| && s.ids[r.id] == r.account
  {
    OverlayRows(s.table, d);
  }

  /** Only a transaction past its row lock depends on what is committed for its account. */
  lemma TxnOkFrame(p: Policy, base: seq<Row>, base': seq<Row>, ids: seq<string>, t: Txn)
    requires TxnOk(p, base, ids, t)
    requires Critical(t) ==> base' == base
    ensures TxnOk(p, base', ids, t)
  {
  }

  lemma PublishedTxns(p: Policy, s: State, s': State, t: nat)
    requires IdsOk(s) && LocksOk(s) && TxnsOk(p, s) && Published(p, s, s', t)
    ensures TxnsOk(p, s')
  {
    PublishedElsewhere(p, s, s', t);
    forall u | 0 <= u < |s'.txns|
      ensures TxnOk(p, RowsOf(s'.table, s'.txns[u].req.account), s'.ids, s'.txns[u])
    {
      if u != t {
        if Critical(s.txns[u]) {
          CriticalApart(s, t, u);
        }
        TxnOkFrame(p, RowsOf(s.table, s.txns[u].req.account), RowsOf(s'.table, s.txns[u].req.account), s.ids, s.txns[u]);
      }
    }
  }

  lemma PublishedLog(p: Policy, s: State, s': State, t: nat)
    requires LogOk(p, s) && Published(p, s, s', t)
    ensures LogOk(p, s')
  {
    forall k | 0 <= k < |s'.log| ensures Logged(p, s', k) {
      if k < |s.log| {
        assert Logged(p, s, k);
      }
    }
    forall k | 0 <= k < |s.log| ensures s.log[k].txn != t {
      assert Logged(p, s, k);
    }
    forall u | 0 <= u < |s'.txns| && s'.txns[u].pc == Committed ensures InLog(s'.log, u) {
      if u == t {
        assert s'.log[|s.log|].txn == t;
      } else {
        var k :| 0 <= k < |s.log| && s.log[k].txn == u;
        assert s'.log[k].txn == u;
      }
    }
  }

  lemma StepKeepsInv(p: Policy, s: State, maxConnections: nat, l: Label)
    requires Inv(p, s) && Enabled(s, maxConnections, l)
    ensures Inv(p, Step(p, s, l))
  {
    if Publishing(s, l) {
      var s' := Step(p, s, l);
      LocksStep(p, s, maxConnections, l);
      CommitShape(p, s, l);
      PublishedIds(p, s, s', l.txn);
      PublishedRefines(p, s, s', l.txn);
      PublishedTxns(p, s, s', l.txn);
      PublishedLog(p, s, s', l.txn);
    } else {
      PrivateStep(p, s, maxConnections, l);
    }
  }

  lemma {:induction false} RunKeepsInv(p: Policy, maxConnections: nat, calls: seq<Call>, labels: seq<Label>)
    requires ValidRun(p, maxConnections, Start(calls), labels)
    ensures Inv(p, Exec(p, Start(calls), labels))
  {
    if labels == [] {
      assert forall a :: RowsOf(Start(calls).table, a) == [];
    } else {
      var front := labels[..|labels| - 1];
      RunKeepsInv(p, maxConnections, calls, front);
      StepKeepsInv(p, Exec(p, Start(calls), front), maxConnections, labels[|labels| - 1]);
    }
  }

  /** Whatever the interleaving: the committed rows of every account are those of executing the
      committed transactions atomically in commit order, every committed transaction is in that
      order exactly once and returned what the atomic ledger returns, and aborted ones are not. */
  lemma StepRefinement(p: Policy, maxConnections: nat, calls: seq<Call>, labels: seq<Label>)
    requires ValidRun(p, maxConnections, Start(calls), labels)
    ensures Refines(p, Exec(p, Start(calls), labels)) && LogOk(p, Exec(p, Start(calls), labels))
  {
    RunKeepsInv(p, maxConnections, calls, labels);
  }
}
