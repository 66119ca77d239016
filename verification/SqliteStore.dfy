/** The SQLite store: every write transaction holds the database write lock, so a method body is
    one atomic step. It works on uncommitted copies of the tables; an exception anywhere before the
    commit rolls the transaction back (`fails`), and `time.time()` is the parameter `now`. */
module SqliteStore {
  import opened Options
  import opened AccountLedger
  import opened ChargeTable
  import opened TaskTable

  class SqliteAtomicStore {
    const policy: Policy
    var charges: seq<Row>
    var nextId: nat
    var idempotency: map<string, string>
    var tasks: map<string, TaskRow>

    /** AUTOINCREMENT: ids ascend in insertion order and are never reused. */
    ghost predicate Valid()
      reads this
    {
      IdsBelow(charges, nextId)
    }

    constructor (policy: Policy)
      ensures Valid() && this.policy == policy
      ensures charges == [] && idempotency == map[] && tasks == map[]
    {
      this.policy := policy;
      charges, nextId, idempotency, tasks := [], 0, map[], map[];
    }

    /** The uncommitted prune every operation starts with. */
    method Sweep(account: string, cutoff: real) returns (work: seq<Row>)
      requires Valid()
      ensures IdsBelow(work, nextId)
      ensures View(work, account) == Prune(View(charges, account), cutoff)
      ensures SameElsewhere(charges, work, account)
    {
      work := DeleteExpired(charges, account, cutoff);
      DeleteExpiredView(charges, account, cutoff);
      DeleteExpiredKeepsOrder(charges, account, cutoff);
    }

    /** One account's charges become those of the atomic ledger, and its answer is returned; no
        other account's rows move. A failed transaction leaves no trace. */
    method Reserve(account: string, projected: real, now: real, fails: bool) returns (r: Option<Reservation>)
      requires Valid()
      modifies this`charges, this`nextId
      ensures Valid()
      ensures fails ==> r == None && charges == old(charges) && nextId == old(nextId)
      ensures !fails ==>
                && r.Some?
                && View(charges, account)
                   == AccountLedger.Reserve(policy, old(View(charges, account)), projected, now).0
                && r.value == AccountLedger.Reserve(policy, old(View(charges, account)), projected, now).1
      ensures SameElsewhere(old(charges), charges, account)
    {
      var work := Sweep(account, now - policy.window);
      var balance := SumAmounts(work, account);
      SumAmountsView(work, account);
      var newBalance := balance + projected;
      var degraded := newBalance >= policy.threshold;
      ReserveOn(policy, View(charges, account), projected, now, View(work, account));
      var row := Row(nextId, account, projected, now);
      InsertedRow(charges, work, row);
      work := work + [row];
      if fails {
        return None;
      }
      charges, nextId := work, nextId + 1;
      return Some(Reservation(degraded, projected, newBalance));
    }

    method Settle(account: string, reserved: real, actual: real, now: real, fails: bool) returns (r: Option<real>)
      requires Valid()
      modifies this`charges
      ensures Valid()
      ensures fails ==> r == None && charges == old(charges)
      ensures !fails ==>
                && r.Some?
                && View(charges, account)
                   == AccountLedger.Settle(policy, old(View(charges, account)), reserved, actual, now).0
                && r.value == AccountLedger.Settle(policy, old(View(charges, account)), reserved, actual, now).1
      ensures SameElsewhere(old(charges), charges, account)
    {
      var work := Sweep(account, now - policy.window);
      SettleOn(policy, View(charges, account), reserved, actual, now, View(work, account));
      var row := SelectNewest(work, account, reserved);
      UpdatedRow(charges, work, nextId, account, reserved, actual);
      if row.Some? {
        work := UpdateAmount(work, row.value, actual);
      }
      var balance := SumAmounts(work, account);
      SumAmountsView(work, account);
      if fails {
        return None;
      }
      charges := work;
      return Some(balance);
    }

    /** A read: the prune it runs is never committed. */
    method Balance(account: string, now: real) returns (balance: real)
      requires Valid()
      ensures balance == Total(Prune(View(charges, account), now - policy.window))
    {
      var work := Sweep(account, now - policy.window);
      balance := SumAmounts(work, account);
      SumAmountsView(work, account);
    }

    /** Check-then-insert under the write lock: the key's mapping is written once, by the call
        that is told it created it. */
    method RegisterIdempotency(key: string, taskId: string, fails: bool) returns (r: Option<(string, bool)>)
      modifies this`idempotency
      ensures fails ==> r == None && idempotency == old(idempotency)
      ensures !fails ==> r.Some? && key in idempotency && r.value.0 == idempotency[key]
      ensures !fails ==> (r.value.1 <==> key !in old(idempotency))
      ensures !fails && r.value.1 ==> idempotency == old(idempotency)[key := taskId]
      ensures !fails && !r.value.1 ==> idempotency == old(idempotency)
    {
      if fails {
        return None;
      }
      if key in idempotency {
        return Some((idempotency[key], false));
      }
      idempotency := idempotency[key := taskId];
      return Some((taskId, true));
    }

    /** A new task: accepted, with no result yet, whatever row had that id before. No other row
        changes, and a failed insert changes nothing. */
    method CreateTask(taskId: string, account: string, key: Option<string>, correlation: string, now: real, fails: bool)
      returns (ok: bool)
      modifies this`tasks
      ensures ok == !fails
      ensures !ok ==> tasks == old(tasks)
      ensures ok ==> tasks.Keys == old(tasks.Keys) + {taskId}
      ensures forall id :: id in old(tasks) && (!ok || id != taskId) ==> tasks[id] == old(tasks)[id]
      ensures ok ==> var row := tasks[taskId];
                     && row.account == account && row.key == key && row.correlation == correlation
                     && row.status == ACCEPTED && row.createdAt == row.updatedAt == now
                     && row.error.None? && row.tier.None? && row.pointer.None? && row.cost.None?
    {
      if fails {
        return false;
      }
      tasks := tasks[taskId := FreshRow(account, key, correlation, now)];
      return true;
    }

    /** Writes the result columns of one row; who owns the task, and the key and trace it came with,
        stay, and so does a cost once written. An unknown id is not an error and writes nothing. */
    method SetTaskStatus(taskId: string, w: StatusWrite, now: real, fails: bool) returns (ok: bool)
      modifies this`tasks
      ensures ok == !fails
      ensures tasks.Keys == old(tasks.Keys)
      ensures forall id :: id in old(tasks) && (!ok || id != taskId) ==> tasks[id] == old(tasks)[id]
      ensures ok && taskId in old(tasks) ==>
                var was, row := old(tasks)[taskId], tasks[taskId];
                && row.account == was.account && row.key == was.key && row.correlation == was.correlation
                && row.createdAt == was.createdAt && row.updatedAt == now
                && row.status == w.status && row.error == w.error && row.tier == w.tier && row.pointer == w.pointer
                && (w.cost.Some? ==> row.cost == w.cost)
                && (w.cost.None? ==> row.cost == was.cost)
    {
      if fails {
        return false;
      }
      if taskId in tasks {
        tasks := tasks[taskId := WriteStatus(tasks[taskId], w, now)];
      }
      return true;
    }

    /** Tenant-scoped lookup: a row of another account is as good as absent. */
    method GetTask(taskId: string, account: string) returns (row: Option<TaskRow>)
      ensures row.Some? <==> taskId in tasks && tasks[taskId].account == account
      ensures row.Some? ==> row.value == tasks[taskId]
    {
      if taskId !in tasks {
        return None;
      }
      if tasks[taskId].account != account {
        return None;
      }
      return Some(tasks[taskId]);
    }

    method TaskOwner(taskId: string) returns (owner: Option<string>)
      ensures owner == if taskId in tasks then Some(tasks[taskId].account) else None
    {
      owner := if taskId in tasks then Some(tasks[taskId].account) else None;
    }
  }

  ghost predicate IdsBelow(rows: seq<Row>, bound: nat) {
    && Ascending(rows)
    && (forall r :: r in rows ==> r.id < bound)
  }

  ghost predicate SameElsewhere(before: seq<Row>, after: seq<Row>, account: string) {
    forall other :: other != account ==> RowsOf(after, other) == RowsOf(before, other)
  }

  /** Inserting a row with the next id adds one charge to one account. */
  lemma InsertedRow(before: seq<Row>, work: seq<Row>, row: Row)
    requires IdsBelow(work, row.id) && SameElsewhere(before, work, row.account)
    ensures IdsBelow(work + [row], row.id + 1)
    ensures View(work + [row], row.account) == View(work, row.account) + [Charge(row.amount, row.ts)]
    ensures SameElsewhere(before, work + [row], row.account)
  {
    forall k | 0 <= k < |work| ensures work[k].id < row.id {
      assert work[k] in work;
    }
    RowsOfAppend(work, row, row.account);
    ChargesInAppend(RowsOf(work, row.account), row);
    forall other | other != row.account ensures RowsOf(work + [row], other) == RowsOf(before, other) {
      RowsOfAppend(work, row, other);
    }
  }

  /** Selecting by value and updating by id revalues one charge of one account. */
  lemma UpdatedRow(before: seq<Row>, work: seq<Row>, bound: nat, account: string, from: real, to: real)
    requires IdsBelow(work, bound) && SameElsewhere(before, work, account)
    ensures var after := UpdateSelected(work, SelectNewest(work, account, from), to);
            && IdsBelow(after, bound)
            && View(after, account) == Revalue(View(work, account), from, to)
            && SameElsewhere(before, after, account)
  {
    UpdatedOrder(work, bound, SelectNewest(work, account, from), to);
    RevaluedView(work, account, from, to);
  }

  lemma UpdatedOrder(rows: seq<Row>, bound: nat, id: Option<nat>, to: real)
    requires IdsBelow(rows, bound)
    ensures IdsBelow(UpdateSelected(rows, id, to), bound)
  {
    if id.Some? {
      UpdateAmountKeepsIds(rows, id.value, to);
      forall k | 0 <= k < |rows| ensures UpdateAmount(rows, id.value, to)[k].id < bound {
        assert rows[k] in rows;
      }
    }
  }

  lemma RevaluedView(rows: seq<Row>, account: string, from: real, to: real)
    requires Ascending(rows)
    ensures var after := UpdateSelected(rows, SelectNewest(rows, account, from), to);
            && View(after, account) == Revalue(View(rows, account), from, to)
            && SameElsewhere(rows, after, account)
  {
    var id := SelectNewest(rows, account, from);
    SelectNewestIsLocal(rows, account, from);
    RowsOfIsPart(rows, account);
    UpdateSelectedIsRevalue(RowsOf(rows, account), account, from, to);
    if id.Some? {
      UpdateAmountIsLocal(rows, id.value, to, account);
      SelectNewestFinds(rows, account, from);
      var j :| 0 <= j < |rows| && rows[j].id == id.value && rows[j].account == account;
      forall other | other != account
        ensures RowsOf(UpdateAmount(rows, id.value, to), other) == RowsOf(rows, other)
      {
        UpdateAmountIsLocal(rows, id.value, to, other);
        RowsOfIsPart(rows, other);
        forall k | 0 <= k < |RowsOf(rows, other)| ensures RowsOf(rows, other)[k].id != id.value {
          var r := RowsOf(rows, other)[k];
          assert r in rows && r.account == other;
          var i :| 0 <= i < |rows| && rows[i] == r;
          assert i != j;
        }
        UpdateAmountMisses(RowsOf(rows, other), id.value, to);
      }
    }
  }
}
