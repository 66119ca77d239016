/** The durable `tasks` rows and the statements that write them. */
module TaskTable {
  import opened Options
  import opened RoutingModel

  datatype Status = ACCEPTED | RUNNING | COMPLETED | FAILED

  datatype TaskRow = TaskRow(
    account: string, key: Option<string>, correlation: string, status: Status, error: Option<string>,
    tier: Option<Tier>, pointer: Option<string>, cost: Option<real>, createdAt: real, updatedAt: real)

  datatype StatusWrite = StatusWrite(
    status: Status, error: Option<string>, tier: Option<Tier>, pointer: Option<string>, cost: Option<real>)

  /** A status write overwrites every result column except the cost, which is coalesced. */
  function WriteStatus(row: TaskRow, w: StatusWrite, now: real): TaskRow {
    row.(status := w.status, error := w.error, tier := w.tier, pointer := w.pointer,
         cost := if w.cost.Some? then w.cost else row.cost, updatedAt := now)
  }

  function FreshRow(account: string, key: Option<string>, correlation: string, now: real): TaskRow {
    TaskRow(account, key, correlation, ACCEPTED, None, None, None, None, now, now)
  }

  /** SQLite replaces the old row as a whole. */
  function InsertOrReplace(tasks: map<string, TaskRow>, id: string, account: string, key: Option<string>,
                           correlation: string, now: real): map<string, TaskRow> {
    tasks[id := FreshRow(account, key, correlation, now)]
  }

  /** Postgres updates the listed columns of the old row and keeps the rest. */
  function InsertOrUpdate(tasks: map<string, TaskRow>, id: string, account: string, key: Option<string>,
                          correlation: string, now: real): map<string, TaskRow> {
    if id in tasks then
      tasks[id := tasks[id].(account := account, key := key, correlation := correlation,
                             status := ACCEPTED, createdAt := now, updatedAt := now)]
    else tasks[id := FreshRow(account, key, correlation, now)]
  }

  /** The two stores create a task alike exactly when no row of that id carries a result yet. */
  lemma CreateFormsAgree(tasks: map<string, TaskRow>, id: string, account: string, key: Option<string>,
                         correlation: string, now: real)
    ensures InsertOrReplace(tasks, id, account, key, correlation, now)
            == InsertOrUpdate(tasks, id, account, key, correlation, now)
      <==> (id in tasks ==>
              && tasks[id].error.None? && tasks[id].tier.None?
              && tasks[id].pointer.None? && tasks[id].cost.None?)
  {
    var a := InsertOrReplace(tasks, id, account, key, correlation, now);
    var b := InsertOrUpdate(tasks, id, account, key, correlation, now);
    assert a == b <==> a[id] == b[id];
  }
}
