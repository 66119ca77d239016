/** The library facade: submit a task, poll its status. */
module Api {
  import opened Options
  import opened RoutingModel
  import opened TaskTable
  import opened SqliteStore
  import opened RateLimit
  import TaskWorkflow

  datatype Error = AccountRequired | RateLimitExceeded | TenantIsolationViolation | TaskNotFound | Unavailable

  /** Which of the calls a submission makes raise. */
  datatype Faults = Faults(claim: bool, create: bool, start: bool)

  /** What an admitted submission brings: `taskId` is a fresh uuid. */
  datatype Submitted = Submitted(task: Task, account: string, key: Option<string>, taskId: string, correlation: string)

  /** What submissions write: claimed keys, task rows and started workflows. */
  datatype Tables = Tables(idem: map<string, string>, tasks: map<string, TaskRow>, started: seq<(string, TaskWorkflow.Input)>)

  /** What an admitted submission does to the tables and the service. A failure keeps what came
      before it: a failed create leaves its key claimed by an id without a task. */
  ghost predicate Placed(before: Tables, after: Tables, sub: Submitted, now: real, faults: Faults, r: Result<string, Error>) {
    if sub.key.Some? && faults.claim then r == Err(Unavailable) && after == before
    else if sub.key.Some? && sub.key.value in before.idem then
      r == Ok(before.idem[sub.key.value]) && after == before
    else
      && after.idem == (if sub.key.Some? then before.idem[sub.key.value := sub.taskId] else before.idem)
      && (if faults.create then
            r == Err(Unavailable) && after.tasks == before.tasks && after.started == before.started
          else
            && after.tasks == InsertOrReplace(before.tasks, sub.taskId, sub.account, sub.key, sub.correlation, now)
            && (if faults.start then r == Err(Unavailable) && after.started == before.started
                else r == Ok(sub.taskId)
                     && after.started == before.started + [(sub.taskId, TaskWorkflow.Input(sub.task, sub.account))]))
  }

  /** What a submission with an account does: nothing but the answer when the limiter denies it. */
  ghost predicate Submits(before: Tables, after: Tables, sub: Submitted, now: real, faults: Faults, allowed: bool,
                          r: Result<string, Error>) {
    if allowed then Placed(before, after, sub, now, faults, r)
    else after == before && r == Err(RateLimitExceeded)
  }

  /** The workflow service: it remembers which workflows were started, with what input. */
  class WorkflowService {
    var started: seq<(string, TaskWorkflow.Input)>

    constructor ()
      ensures started == []
    {
      started := [];
    }

    method StartWorkflow(id: string, input: TaskWorkflow.Input, fails: bool) returns (ok: bool)
      modifies this
      ensures ok == !fails
      ensures started == if fails then old(started) else old(started) + [(id, input)]
    {
      if fails {
        return false;
      }
      started := started + [(id, input)];
      return true;
    }
  }

  class OrchestratorAPI {
    const store: SqliteAtomicStore
    const limiter: TokenBucketLimiter?
    const service: WorkflowService

    constructor (store: SqliteAtomicStore, limiter: TokenBucketLimiter?, service: WorkflowService)
      ensures this.store == store && this.limiter == limiter && this.service == service
    {
      this.store, this.limiter, this.service := store, limiter, service;
    }

    ghost predicate Valid()
      reads this, store, limiter
    {
      store.Valid() && (limiter != null ==> limiter.Valid())
    }

    /** The limiter's answer to the account's next call. */
    ghost predicate Admits(account: string, clock: real)
      requires Valid()
      reads this, store, limiter
    {
      limiter != null ==>
        var calls := limiter.CallsOf(account) + [clock];
        Answer(limiter.rate, limiter.capacity, calls, |calls| - 1)
    }

    method Admit(account: string, clock: real) returns (ok: bool)
      requires Valid()
      modifies limiter
      ensures Valid() && ok == old(Admits(account, clock))
    {
      ok := true;
      if limiter != null {
        ok := limiter.Allow(account, clock);
      }
    }

    /** In order: resolve the account, rate-limit, then claim, create and start. `taskId` is the
        fresh uuid, `clock` and `now` the two clock readings. A refused submission leaves no durable
        trace; a duplicate gets the existing id and changes nothing; otherwise there is one mapping,
        one row and one start, in that order, up to the first of them that raises. */
    method Submit(task: Task, account: string, key: Option<string>, taskId: string, correlation: string,
                  clock: real, now: real, faults: Faults)
      returns (r: Result<string, Error>)
      requires Valid()
      modifies limiter, store`idempotency, store`tasks, service
      ensures Valid()
      ensures account == "" ==> r == Err(AccountRequired) && Written() == old(Written())
      ensures account != "" ==>
                Submits(old(Written()), Written(), Submitted(task, account, key, taskId, correlation), now, faults,
                        old(Admits(account, clock)), r)
    {
      if account == "" {
        return Err(AccountRequired);
      }
      var admitted := Admit(account, clock);
      if !admitted {
        return Err(RateLimitExceeded);
      }
      r := Place(Submitted(task, account, key, taskId, correlation), now, faults);
    }

    ghost function Written(): Tables
      reads store, service
    {
      Tables(store.idempotency, store.tasks, service.started)
    }

    method Place(sub: Submitted, now: real, faults: Faults) returns (r: Result<string, Error>)
      modifies store`idempotency, store`tasks, service
      ensures Placed(old(Written()), Written(), sub, now, faults, r)
    {
      if sub.key.Some? {
        var claim := store.RegisterIdempotency(sub.key.value, sub.taskId, faults.claim);
        if claim.None? {
          return Err(Unavailable);
        }
        if !claim.value.1 {
          return Ok(claim.value.0);
        }
      }
      var created := store.CreateTask(sub.taskId, sub.account, sub.key, sub.correlation, now, faults.create);
      if !created {
        return Err(Unavailable);
      }
      assert store.tasks[sub.taskId] == FreshRow(sub.account, sub.key, sub.correlation, now);
      assert store.tasks == InsertOrReplace(old(store.tasks), sub.taskId, sub.account, sub.key, sub.correlation, now);
      var started := service.StartWorkflow(sub.taskId, TaskWorkflow.Input(sub.task, sub.account), faults.start);
      if !started {
        return Err(Unavailable);
      }
      return Ok(sub.taskId);
    }

    /** Tenant-scoped polling: a row is returned only to its owner, and another account's task is
        told apart from a missing one without any of its data. */
    method GetStatus(taskId: string, account: string) returns (r: Result<TaskRow, Error>)
      ensures r == if account == "" then Err(AccountRequired)
                   else if taskId !in store.tasks then Err(TaskNotFound)
                   else if store.tasks[taskId].account != account then Err(TenantIsolationViolation)
                   else Ok(store.tasks[taskId])
    {
      if account == "" {
        return Err(AccountRequired);
      }
      var task := store.GetTask(taskId, account);
      if task.None? {
        var owner := store.TaskOwner(taskId);
        if owner.Some? {
          return Err(TenantIsolationViolation);
        }
        return Err(TaskNotFound);
      }
      return Ok(task.value);
    }
  }
}

/** The facade's submissions are those of the interleaved protocol: what placing one does to the
    tables, a run of its submitter does, whatever the other submitters have done before. */
module PlacementRuns {
  import opened Options
  import opened TaskTable
  import opened Api
  import opened Submission

  function Ids(started: seq<(string, TaskWorkflow.Input)>): (ids: seq<string>)
    ensures |ids| == |started|
    ensures forall k :: 0 <= k < |started| ==> ids[k] == started[k].0
  {
    seq(|started|, k requires 0 <= k < |started| => started[k].0)
  }

  function RequestOf(sub: Submitted): Request {
    Request(sub.account, sub.key, sub.taskId, sub.correlation)
  }

  /** The protocol's tables are the facade's. */
  ghost predicate Shows(s: State, tables: Tables) {
    s.idem == tables.idem && s.rows == tables.tasks && s.started == Ids(tables.started)
  }

  /** The submitter's steps: claim, create, start, stopping at the first that raises or at a
      duplicate. */
  function StepsOf(before: Tables, sub: Submitted, i: nat, now: real, faults: Faults): seq<Label> {
    if sub.key.Some? && faults.claim then [Drop(i)]
    else if sub.key.Some? && sub.key.value in before.idem then [Go(i, now, true)]
    else if faults.create then [Go(i, now, true), Drop(i)]
    else if faults.start then [Go(i, now, true), Go(i, now, true), Drop(i)]
    else [Go(i, now, true), Go(i, now, true), Go(i, now, true)]
  }

  ghost predicate Reaches(s: State, labels: seq<Label>, s': State) {
    ValidFrom(s, labels) && ExecFrom(s, labels) == s'
  }

  lemma One(s: State, a: Label)
    requires Enabled(s, a)
    ensures Reaches(s, [a], Step(s, a))
  {
    assert [a][..0] == [];
  }

  lemma Two(s: State, a: Label, b: Label)
    requires Enabled(s, a) && Enabled(Step(s, a), b)
    ensures Reaches(s, [a, b], Step(Step(s, a), b))
  {
    One(s, a);
    assert [a, b][..1] == [a];
  }

  lemma Three(s: State, a: Label, b: Label, c: Label)
    requires Enabled(s, a) && Enabled(Step(s, a), b) && Enabled(Step(Step(s, a), b), c)
    ensures Reaches(s, [a, b, c], Step(Step(Step(s, a), b), c))
  {
    Two(s, a, b);
    assert [a, b, c][..2] == [a, b];
  }

  /** How the submitter ends: with the id that was returned, or stopped. */
  ghost predicate EndsWith(s: State, s': State, i: nat, r: Result<string, Error>)
    requires i < |s.subs|
  {
    && |s'.subs| == |s.subs| && s'.subs == s.subs[i := s'.subs[i]]
    && (r.Ok? ==> s'.subs[i].pc.Returned? && s'.subs[i].pc.id == r.value && !s'.subs[i].dropped)
    && (r.Err? ==> s'.subs[i].dropped && !s'.subs[i].pc.Returned?)
  }

  /** Submitter `i` is admitted with this submission, over these tables. */
  ghost predicate Ready(s: State, i: nat, before: Tables, sub: Submitted) {
    i < |s.subs| && s.subs[i] == Submitter(RequestOf(sub), Admitted, false) && Shows(s, before)
  }

  ghost predicate EndsAs(s: State, s': State, i: nat, after: Tables, r: Result<string, Error>)
    requires i < |s.subs|
  {
    Shows(s', after) && EndsWith(s, s', i, r)
  }

  ghost predicate Claims(before: Tables, sub: Submitted, faults: Faults) {
    sub.key.Some? ==> !faults.claim && sub.key.value !in before.idem
  }

  lemma NotClaimed(s: State, i: nat, before: Tables, after: Tables, sub: Submitted, now: real, faults: Faults,
                   r: Result<string, Error>)
    requires Ready(s, i, before, sub) && Placed(before, after, sub, now, faults, r) && !Claims(before, sub, faults)
    ensures sub.key.Some?
    ensures faults.claim ==> EndsAs(s, Step(s, Drop(i)), i, after, r)
    ensures !faults.claim ==> EndsAs(s, Step(s, Go(i, now, true)), i, after, r)
  {
  }

  /** The state once the key is claimed, and once the row is created. */
  lemma Claimed(s: State, i: nat, before: Tables, sub: Submitted, now: real, faults: Faults)
    requires Ready(s, i, before, sub) && Claims(before, sub, faults)
    ensures var idem := if sub.key.Some? then before.idem[sub.key.value := sub.taskId] else before.idem;
            Step(s, Go(i, now, true)) == s.(idem := idem, subs := s.subs[i := s.subs[i].(pc := Pc.Claimed)])
  {
  }

  lemma Creates(s: State, i: nat, before: Tables, sub: Submitted, now: real, faults: Faults)
    requires Ready(s, i, before, sub) && Claims(before, sub, faults)
    ensures var one := Step(s, Go(i, now, true));
            && Enabled(one, Go(i, now, true)) && Enabled(one, Drop(i))
            && Step(one, Go(i, now, true))
               == one.(rows := InsertOrReplace(before.tasks, sub.taskId, sub.account, sub.key, sub.correlation, now),
                       subs := s.subs[i := s.subs[i].(pc := Created)])
            && Step(one, Drop(i)) == one.(subs := s.subs[i := s.subs[i].(pc := Pc.Claimed, dropped := true)])
  {
    Claimed(s, i, before, sub, now, faults);
  }

  lemma Ends(s: State, i: nat, before: Tables, sub: Submitted, now: real, faults: Faults)
    requires Ready(s, i, before, sub) && Claims(before, sub, faults)
    ensures var two := Step(Step(s, Go(i, now, true)), Go(i, now, true));
            && Enabled(two, Go(i, now, true)) && Enabled(two, Drop(i))
            && Step(two, Go(i, now, true))
               == two.(started := s.started + [sub.taskId], subs := s.subs[i := s.subs[i].(pc := Returned(sub.taskId, true))])
            && Step(two, Drop(i)) == two.(subs := s.subs[i := s.subs[i].(pc := Created, dropped := true)])
  {
    Claimed(s, i, before, sub, now, faults);
    Creates(s, i, before, sub, now, faults);
  }

  lemma PlacementEnds(s: State, i: nat, before: Tables, after: Tables, sub: Submitted, now: real, faults: Faults,
                      r: Result<string, Error>)
    requires Ready(s, i, before, sub) && Placed(before, after, sub, now, faults, r) && Claims(before, sub, faults)
    ensures var one := Step(s, Go(i, now, true));
            && Enabled(one, Go(i, now, true)) && Enabled(one, Drop(i))
            && var two := Step(one, Go(i, now, true));
               && Enabled(two, Go(i, now, true)) && Enabled(two, Drop(i))
               && EndsAs(s, if faults.create then Step(one, Drop(i)) else if faults.start then Step(two, Drop(i))
                            else Step(two, Go(i, now, true)), i, after, r)
  {
    Claimed(s, i, before, sub, now, faults);
    Creates(s, i, before, sub, now, faults);
    Ends(s, i, before, sub, now, faults);
    if !faults.create && !faults.start {
      assert Ids(after.started) == Ids(before.started) + [sub.taskId];
    }
  }

  /** Placing a submission is a run of its submitter, with the same tables and the same end. */
  lemma PlacementIsARun(s: State, i: nat, before: Tables, after: Tables, sub: Submitted, now: real, faults: Faults,
                        r: Result<string, Error>)
    requires Ready(s, i, before, sub) && Placed(before, after, sub, now, faults, r)
    ensures var labels := StepsOf(before, sub, i, now, faults);
            ValidFrom(s, labels) && EndsAs(s, ExecFrom(s, labels), i, after, r)
  {
    if !Claims(before, sub, faults) {
      NotClaimed(s, i, before, after, sub, now, faults, r);
      One(s, if faults.claim then Drop(i) else Go(i, now, true));
    } else {
      PlacementEnds(s, i, before, after, sub, now, faults, r);
      if faults.create {
        Two(s, Go(i, now, true), Drop(i));
      } else {
        Three(s, Go(i, now, true), Go(i, now, true), if faults.start then Drop(i) else Go(i, now, true));
      }
    }
  }

  /** The submitter's steps from its arrival. */
  function AllStepsOf(before: Tables, sub: Submitted, i: nat, now: real, faults: Faults, allowed: bool): seq<Label> {
    [Go(i, now, allowed)] + (if allowed then StepsOf(before, sub, i, now, faults) else [])
  }

  ghost predicate Arrives(s: State, i: nat, before: Tables, sub: Submitted) {
    i < |s.subs| && s.subs[i] == Submitter(RequestOf(sub), Arrived, false) && Shows(s, before)
  }

  lemma {:induction false} After(s: State, a: Label, labels: seq<Label>)
    requires Enabled(s, a) && ValidFrom(Step(s, a), labels)
    ensures ValidFrom(s, [a] + labels) && ExecFrom(s, [a] + labels) == ExecFrom(Step(s, a), labels)
  {
    if labels == [] {
      One(s, a);
      assert [a] + labels == [a];
    } else {
      var front := labels[..|labels| - 1];
      After(s, a, front);
      assert ([a] + labels)[..|labels|] == [a] + front;
    }
  }

  /** A whole submission is a run of its submitter from its arrival: a denied one is refused and
      leaves the tables as they were, an admitted one ends as it is placed. */
  lemma SubmissionIsARun(s: State, i: nat, before: Tables, after: Tables, sub: Submitted, now: real, faults: Faults,
                         allowed: bool, r: Result<string, Error>)
    requires Arrives(s, i, before, sub) && Submits(before, after, sub, now, faults, allowed, r)
    ensures var labels := AllStepsOf(before, sub, i, now, faults, allowed);
            && ValidFrom(s, labels) && Shows(ExecFrom(s, labels), after)
            && i < |ExecFrom(s, labels).subs|
            && (allowed ==> EndsWith(Step(s, Go(i, now, true)), ExecFrom(s, labels), i, r))
            && (!allowed ==> ExecFrom(s, labels) == s.(subs := s.subs[i := s.subs[i].(pc := Refused)]))
  {
    var first := Go(i, now, allowed);
    if allowed {
      assert Ready(Step(s, first), i, before, sub);
      PlacementIsARun(Step(s, first), i, before, after, sub, now, faults, r);
      After(s, first, StepsOf(before, sub, i, now, faults));
    } else {
      One(s, first);
      assert [first] + [] == [first];
    }
  }
}
