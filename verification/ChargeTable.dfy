/** The `usage_charges` table shared by all accounts, and the statements run against it.
    Each statement is related to the per-account ledger it implements. */
module ChargeTable {
  import opened Options
  import opened AccountLedger

  datatype Row = Row(id: nat, account: string, amount: real, ts: real)

  // ---- statements ------------------------------------------------------------------------

  /** Delete the account's rows older than `cutoff`. */
  function DeleteExpired(rows: seq<Row>, account: string, cutoff: real): seq<Row> {
    if rows == [] then []
    else
      var last := |rows| - 1;
      var front := DeleteExpired(rows[..last], account, cutoff);
      if rows[last].account == account && rows[last].ts < cutoff then front else front + [rows[last]]
  }

  /** The sum of the account's amounts, zero when it has no rows. */
  function SumAmounts(rows: seq<Row>, account: string): real {
    if rows == [] then 0.0
    else
      var last := |rows| - 1;
      SumAmounts(rows[..last], account) + (if rows[last].account == account then rows[last].amount else 0.0)
  }

  /** The greatest id among the account's rows of exactly that amount. */
  function SelectNewest(rows: seq<Row>, account: string, amount: real): Option<nat> {
    if rows == [] then None
    else
      var last := |rows| - 1;
      var older := SelectNewest(rows[..last], account, amount);
      if rows[last].account == account && rows[last].amount == amount
         && (older.None? || older.value < rows[last].id)
      then Some(rows[last].id) else older
  }

  /** Give the row of that id another amount. */
  function UpdateAmount(rows: seq<Row>, id: nat, amount: real): seq<Row> {
    if rows == [] then []
    else
      var last := |rows| - 1;
      UpdateAmount(rows[..last], id, amount)
      + [if rows[last].id == id then rows[last].(amount := amount) else rows[last]]
  }

  /** The guarded update of `settle`: nothing happens when no row was selected. */
  function UpdateSelected(rows: seq<Row>, id: Option<nat>, amount: real): seq<Row> {
    if id.Some? then UpdateAmount(rows, id.value, amount) else rows
  }

  // ---- one account's view ----------------------------------------------------------------

  function RowsOf(rows: seq<Row>, account: string): seq<Row> {
    if rows == [] then []
    else
      var last := |rows| - 1;
      if rows[last].account == account then RowsOf(rows[..last], account) + [rows[last]]
      else RowsOf(rows[..last], account)
  }

  function ChargesIn(rows: seq<Row>): seq<Charge> {
    if rows == [] then []
    else
      var last := |rows| - 1;
      ChargesIn(rows[..last]) + [Charge(rows[last].amount, rows[last].ts)]
  }

  function View(rows: seq<Row>, account: string): seq<Charge> {
    ChargesIn(RowsOf(rows, account))
  }

  ghost predicate Ascending(rows: seq<Row>) {
    forall i, j :: 0 <= i < j < |rows| ==> rows[i].id < rows[j].id
  }

  ghost predicate AllOf(rows: seq<Row>, account: string) {
    forall k :: 0 <= k < |rows| ==> rows[k].account == account
  }

  ghost predicate HasId(rows: seq<Row>, id: nat) {
    exists k :: 0 <= k < |rows| && rows[k].id == id
  }

  lemma RowsOfAppend(rows: seq<Row>, r: Row, account: string)
    ensures RowsOf(rows + [r], account)
            == if r.account == account then RowsOf(rows, account) + [r] else RowsOf(rows, account)
  {
    assert (rows + [r])[..|rows|] == rows;
  }

  lemma ChargesInAppend(rows: seq<Row>, r: Row)
    ensures ChargesIn(rows + [r]) == ChargesIn(rows) + [Charge(r.amount, r.ts)]
  {
    assert (rows + [r])[..|rows|] == rows;
  }

  lemma {:induction false} RowsOfIsPart(rows: seq<Row>, account: string)
    ensures AllOf(RowsOf(rows, account), account)
    ensures forall r :: r in RowsOf(rows, account) ==> r in rows
    ensures Ascending(rows) ==> Ascending(RowsOf(rows, account))
  {
    if rows != [] {
      var last := |rows| - 1;
      RowsOfIsPart(rows[..last], account);
      if Ascending(rows) {
        forall k | 0 <= k < |RowsOf(rows[..last], account)|
          ensures RowsOf(rows[..last], account)[k].id < rows[last].id
        {
          var r := RowsOf(rows[..last], account)[k];
          assert r in rows[..last];
        }
      }
    }
  }

  lemma {:induction false} RowsOfOwn(rows: seq<Row>, account: string)
    requires AllOf(rows, account)
    ensures RowsOf(rows, account) == rows
  {
    if rows != [] {
      RowsOfOwn(rows[..|rows| - 1], account);
      assert rows == rows[..|rows| - 1] + [rows[|rows| - 1]];
    }
  }

  // ---- what each statement does to each account's view ------------------------------------

  lemma {:induction false} DeleteExpiredOwn(rows: seq<Row>, account: string, cutoff: real)
    ensures View(DeleteExpired(rows, account, cutoff), account) == Prune(View(rows, account), cutoff)
  {
    if rows != [] {
      var front, r := rows[..|rows| - 1], rows[|rows| - 1];
      DeleteExpiredOwn(front, account, cutoff);
      if r.account == account {
        ViewAppend(DeleteExpired(front, account, cutoff), r);
        ChargesInAppend(RowsOf(front, account), r);
        PruneAppend(View(front, account), Charge(r.amount, r.ts), cutoff);
      } else {
        RowsOfAppend(DeleteExpired(front, account, cutoff), r, account);
      }
    }
  }

  lemma ViewAppend(rows: seq<Row>, r: Row)
    ensures View(rows + [r], r.account) == View(rows, r.account) + [Charge(r.amount, r.ts)]
  {
    RowsOfAppend(rows, r, r.account);
    ChargesInAppend(RowsOf(rows, r.account), r);
  }

  lemma {:induction false} DeleteExpiredElsewhere(rows: seq<Row>, account: string, cutoff: real, other: string)
    requires other != account
    ensures RowsOf(DeleteExpired(rows, account, cutoff), other) == RowsOf(rows, other)
  {
    if rows != [] {
      var front, r := rows[..|rows| - 1], rows[|rows| - 1];
      DeleteExpiredElsewhere(front, account, cutoff, other);
      RowsOfAppend(DeleteExpired(front, account, cutoff), r, other);
    }
  }

  lemma DeleteExpiredView(rows: seq<Row>, account: string, cutoff: real)
    ensures View(DeleteExpired(rows, account, cutoff), account) == Prune(View(rows, account), cutoff)
    ensures forall other :: other != account ==>
              RowsOf(DeleteExpired(rows, account, cutoff), other) == RowsOf(rows, other)
  {
    DeleteExpiredOwn(rows, account, cutoff);
    forall other | other != account
      ensures RowsOf(DeleteExpired(rows, account, cutoff), other) == RowsOf(rows, other)
    {
      DeleteExpiredElsewhere(rows, account, cutoff, other);
    }
  }

  lemma {:induction false} DeleteExpiredKeepsOrder(rows: seq<Row>, account: string, cutoff: real)
    ensures forall r :: r in DeleteExpired(rows, account, cutoff) ==> r in rows
    ensures Ascending(rows) ==> Ascending(DeleteExpired(rows, account, cutoff))
  {
    if rows != [] {
      var last := |rows| - 1;
      var front := DeleteExpired(rows[..last], account, cutoff);
      DeleteExpiredKeepsOrder(rows[..last], account, cutoff);
      if Ascending(rows) {
        forall k | 0 <= k < |front| ensures front[k].id < rows[last].id {
          assert front[k] in rows[..last];
        }
      }
    }
  }

  lemma {:induction false} SumAmountsView(rows: seq<Row>, account: string)
    ensures SumAmounts(rows, account) == Total(View(rows, account))
  {
    if rows != [] {
      var last := |rows| - 1;
      SumAmountsView(rows[..last], account);
      if rows[last].account == account {
        ChargesInAppend(RowsOf(rows[..last], account), rows[last]);
        AppendCharge(View(rows[..last], account), Charge(rows[last].amount, rows[last].ts));
      }
    }
  }

  lemma {:induction false} SelectNewestIsLocal(rows: seq<Row>, account: string, amount: real)
    ensures SelectNewest(rows, account, amount) == SelectNewest(RowsOf(rows, account), account, amount)
  {
    if rows != [] {
      var last := |rows| - 1;
      SelectNewestIsLocal(rows[..last], account, amount);
      if rows[last].account == account {
        assert RowsOf(rows, account)[..|RowsOf(rows, account)| - 1] == RowsOf(rows[..last], account);
      }
    }
  }

  lemma {:induction false} UpdateAmountIsLocal(rows: seq<Row>, id: nat, amount: real, account: string)
    ensures RowsOf(UpdateAmount(rows, id, amount), account) == UpdateAmount(RowsOf(rows, account), id, amount)
  {
    if rows != [] {
      var last := |rows| - 1;
      var front := UpdateAmount(rows[..last], id, amount);
      var r := if rows[last].id == id then rows[last].(amount := amount) else rows[last];
      UpdateAmountIsLocal(rows[..last], id, amount, account);
      RowsOfAppend(front, r, account);
      if rows[last].account == account {
        assert RowsOf(rows, account)[..|RowsOf(rows, account)| - 1] == RowsOf(rows[..last], account);
      }
    }
  }

  lemma {:induction false} UpdateAmountMisses(rows: seq<Row>, id: nat, amount: real)
    requires !HasId(rows, id)
    ensures UpdateAmount(rows, id, amount) == rows
  {
    if rows != [] {
      var last := |rows| - 1;
      assert rows[last].id != id;
      forall k | 0 <= k < last ensures rows[..last][k].id != id {
        assert rows[k].id != id;
      }
      UpdateAmountMisses(rows[..last], id, amount);
      assert rows == rows[..last] + [rows[last]];
    }
  }

  lemma {:induction false} UpdateAmountKeepsIds(rows: seq<Row>, id: nat, amount: real)
    ensures |UpdateAmount(rows, id, amount)| == |rows|
    ensures forall k :: 0 <= k < |rows| ==>
              UpdateAmount(rows, id, amount)[k] == (if rows[k].id == id then rows[k].(amount := amount) else rows[k])
  {
    if rows != [] {
      UpdateAmountKeepsIds(rows[..|rows| - 1], id, amount);
    }
  }

  lemma {:induction false} SelectNewestFinds(rows: seq<Row>, account: string, amount: real)
    ensures SelectNewest(rows, account, amount).Some? ==>
              exists k :: 0 <= k < |rows| && rows[k].id == SelectNewest(rows, account, amount).value
                          && rows[k].account == account && rows[k].amount == amount
  {
    if rows != [] {
      var last := |rows| - 1;
      SelectNewestFinds(rows[..last], account, amount);
      var older := SelectNewest(rows[..last], account, amount);
      if older.Some? {
        var k :| 0 <= k < last && rows[..last][k].id == older.value
                 && rows[..last][k].account == account && rows[..last][k].amount == amount;
        assert rows[k].id == older.value;
      }
      if SelectNewest(rows, account, amount) != older {
        assert rows[last].id == SelectNewest(rows, account, amount).value;
      }
    }
  }

  /** The selected id is the greatest among the account's rows of that amount; none is selected
      exactly when there is no such row. */
  lemma {:induction false} SelectNewestIsGreatest(rows: seq<Row>, account: string, amount: real)
    ensures SelectNewest(rows, account, amount).Some?
      <==> exists r :: r in rows && r.account == account && r.amount == amount
    ensures forall r :: r in rows && r.account == account && r.amount == amount ==>
              r.id <= SelectNewest(rows, account, amount).value
  {
    if rows != [] {
      var last := |rows| - 1;
      SelectNewestIsGreatest(rows[..last], account, amount);
      assert rows == rows[..last] + [rows[last]];
      assert rows[last] in rows;
      forall r | r in rows && r.account == account && r.amount == amount
        ensures SelectNewest(rows, account, amount).Some? && r.id <= SelectNewest(rows, account, amount).value
      {
        assert r in rows[..last] || r == rows[last];
      }
    }
  }

  /** The prune removes exactly the account's rows older than the cutoff. */
  lemma {:induction false} DeleteExpiredRemoves(rows: seq<Row>, account: string, cutoff: real)
    ensures forall r :: r in DeleteExpired(rows, account, cutoff)
              <==> r in rows && !(r.account == account && r.ts < cutoff)
  {
    if rows != [] {
      DeleteExpiredRemoves(rows[..|rows| - 1], account, cutoff);
      assert rows == rows[..|rows| - 1] + [rows[|rows| - 1]];
    }
  }

  /** The two ways a selection extends to one more row with the greatest id. */
  lemma SelectLast(rows: seq<Row>, account: string, amount: real)
    requires AllOf(rows, account) && Ascending(rows) && rows != []
    ensures var last := |rows| - 1;
            SelectNewest(rows, account, amount)
            == if rows[last].amount == amount then Some(rows[last].id)
               else SelectNewest(rows[..last], account, amount)
  {
    var last := |rows| - 1;
    SelectNewestFinds(rows[..last], account, amount);
    var older := SelectNewest(rows[..last], account, amount);
    if older.Some? {
      var k :| 0 <= k < last && rows[..last][k].id == older.value;
      assert rows[k].id < rows[last].id;
    }
  }

  lemma UpdateLast(rows: seq<Row>, to: real)
    requires Ascending(rows) && rows != []
    ensures var last := |rows| - 1;
            UpdateAmount(rows, rows[last].id, to) == rows[..last] + [rows[last].(amount := to)]
  {
    var last := |rows| - 1;
    assert !HasId(rows[..last], rows[last].id);
    UpdateAmountMisses(rows[..last], rows[last].id, to);
  }

  /** Select-by-value then update-by-id is `Revalue` on the account's charges, because ids
      ascend in insertion order. */
  lemma {:induction false} UpdateSelectedIsRevalue(rows: seq<Row>, account: string, from: real, to: real)
    requires AllOf(rows, account) && Ascending(rows)
    ensures ChargesIn(UpdateSelected(rows, SelectNewest(rows, account, from), to)) == Revalue(ChargesIn(rows), from, to)
  {
    if rows != [] {
      var last := |rows| - 1;
      var front, r := rows[..last], rows[last];
      SelectLast(rows, account, from);
      assert ChargesIn(rows)[..|ChargesIn(rows)| - 1] == ChargesIn(front);
      if r.amount == from {
        UpdateLast(rows, to);
        ChargesInAppend(front, r.(amount := to));
      } else {
        UpdateSelectedIsRevalue(front, account, from, to);
        UpdateEarlier(rows, account, from, to);
      }
    }
  }

  lemma UpdateEarlier(rows: seq<Row>, account: string, from: real, to: real)
    requires AllOf(rows, account) && Ascending(rows) && rows != [] && rows[|rows| - 1].amount != from
    ensures var front, r := rows[..|rows| - 1], rows[|rows| - 1];
            ChargesIn(UpdateSelected(rows, SelectNewest(front, account, from), to))
            == ChargesIn(UpdateSelected(front, SelectNewest(front, account, from), to)) + [Charge(r.amount, r.ts)]
  {
    var last := |rows| - 1;
    var front, r := rows[..last], rows[last];
    var id := SelectNewest(front, account, from);
    if id.Some? {
      SelectNewestFinds(front, account, from);
      var k :| 0 <= k < last && front[k].id == id.value;
      assert rows[k].id < r.id;
      ChargesInAppend(UpdateAmount(front, id.value, to), r);
    }
  }
}
