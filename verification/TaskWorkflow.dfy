/** The durable task workflow: the deterministic code that turns recorded activity results into the
    next activity call. */
module TaskWorkflow {
  import opened Options
  import opened RoutingModel
  import AccountLedger
  import opened TaskTable
  import Router

  // ---- failures --------------------------------------------------------------------------

  /** An exception with its chain of causes. */
  datatype Failure = Failure(typeName: string, message: string, cause: Option<Failure>)

  function Line(f: Failure): string {
    f.typeName + ": " + f.message
  }

  function Chain(f: Failure): seq<Failure> {
    [f] + (if f.cause.Some? then Chain(f.cause.value) else [])
  }

  function Joined(parts: seq<string>): string {
    if parts == [] then ""
    else if |parts| == 1 then parts[0]
    else Joined(parts[..|parts| - 1]) + " <- " + parts[|parts| - 1]
  }

  function Lines(chain: seq<Failure>): seq<string> {
    seq(|chain|, k requires 0 <= k < |chain| => Line(chain[k]))
  }

  function Reason(f: Failure): string {
    Joined(Lines(Chain(f)))
  }

  function RestLines(cur: Option<Failure>): seq<string> {
    if cur.None? then [] else Lines(Chain(cur.value))
  }

  /** The walk has gathered the lines before `cur`. */
  ghost predicate Gathered(exc: Failure, parts: seq<string>, cur: Option<Failure>) {
    Lines(Chain(exc)) == parts + RestLines(cur)
  }

  lemma FirstLine(f: Failure)
    ensures Lines(Chain(f)) == [Line(f)] + RestLines(f.cause)
  {
  }

  lemma GatherOne(exc: Failure, parts: seq<string>, f: Failure)
    requires Gathered(exc, parts, Some(f))
    ensures Gathered(exc, parts + [Line(f)], f.cause)
  {
    FirstLine(f);
    assert parts + ([Line(f)] + RestLines(f.cause)) == (parts + [Line(f)]) + RestLines(f.cause);
  }

  /** The dead-letter reason, gathered by walking the cause chain. */
  method GatherReason(exc: Failure) returns (reason: string)
    ensures reason == Reason(exc)
  {
    var parts: seq<string> := [];
    var cur: Option<Failure> := Some(exc);
    assert Gathered(exc, parts, cur);
    while cur.Some?
      invariant Gathered(exc, parts, cur)
      decreases cur
    {
      GatherOne(exc, parts, cur.value);
      parts := parts + [Line(cur.value)];
      cur := cur.value.cause;
    }
    assert parts + [] == parts;
    reason := Joined(parts);
  }

  ghost predicate OccursIn(part: string, text: string) {
    exists before, after :: text == before + part + after
  }

  lemma {:induction false} JoinedContains(parts: seq<string>, k: nat)
    requires k < |parts|
    ensures OccursIn(parts[k], Joined(parts))
  {
    var last := |parts| - 1;
    if last == 0 {
      assert Joined(parts) == "" + parts[k] + "";
    } else if k == last {
      assert Joined(parts) == (Joined(parts[..last]) + " <- ") + parts[k] + "";
    } else {
      JoinedContains(parts[..last], k);
      var before, after :| Joined(parts[..last]) == before + parts[k] + after;
      assert Joined(parts) == before + parts[k] + (after + " <- " + parts[last]);
    }
  }

  /** No message is lost: the reason shows every failure on the chain, and is never empty. */
  lemma ReasonShowsEveryCause(exc: Failure, k: nat)
    requires k < |Chain(exc)|
    ensures OccursIn(Line(Chain(exc)[k]), Reason(exc))
    ensures Reason(exc) != ""
  {
    JoinedContains(Lines(Chain(exc)), k);
    JoinedContains(Lines(Chain(exc)), 0);
    var before, after :| Reason(exc) == before + Line(exc) + after;
    assert |Line(exc)| >= 2;
  }

  lemma {:induction false} JoinedFirst(first: string, rest: seq<string>)
    requires rest != []
    ensures Joined([first] + rest) == first + " <- " + Joined(rest)
  {
    var last := |rest| - 1;
    assert ([first] + rest)[..|rest|] == [first] + rest[..last];
    if last == 0 {
      assert [first] + rest[..last] == [first];
    } else {
      JoinedFirst(first, rest[..last]);
      assert Joined([first] + rest) == first + " <- " + Joined(rest[..last]) + " <- " + rest[last];
    }
  }

  /** The reason lists the failures from the outermost to the root cause, each as its type and
      message, with an arrow between them. */
  lemma ReasonListsOutermostFirst(exc: Failure)
    ensures Reason(exc) == exc.typeName + ": " + exc.message
                           + (if exc.cause.Some? then " <- " + Reason(exc.cause.value) else "")
  {
    FirstLine(exc);
    if exc.cause.Some? {
      JoinedFirst(Line(exc), Lines(Chain(exc.cause.value)));
    } else {
      assert Lines(Chain(exc)) == [Line(exc)];
    }
  }

  // ---- activities ------------------------------------------------------------------------

  datatype Command =
    | MarkStatus(write: StatusWrite)
    | CheckRateLimit
    | ReserveUsage(projected: real)
    | BreakerEffective(perAccount: bool)
    | RouteTask(degraded: bool)
    | SettleUsage(reserved: real, actual: real)
    | BreakerRecord(cost: real)
    | DispatchTask(decision: Decision)

  datatype Value = Nothing | Flag(b: bool) | Granted(reservation: AccountLedger.Reservation)
                 | Decided(decision: Decision) | Amount(amount: real)

  /** What Temporal records for an activity: its value, or the failure that exhausted its attempts. */
  datatype Outcome = Returned(value: Value) | Exhausted(failure: Failure)

  datatype Input = Input(task: Task, account: string)

  const RUNNING_WRITE := StatusWrite(RUNNING, None, None, None, None)

  function CompletedWrite(d: Decision): StatusWrite {
    StatusWrite(COMPLETED, None, Some(d.tier), Some(d.pointer), Some(d.cost))
  }

  function FailedWrite(reason: string): StatusWrite {
    StatusWrite(FAILED, Some(reason), None, None, None)
  }

  // ---- the step machine ------------------------------------------------------------------

  /** How far the main path got, with the locals it needs later. */
  datatype Progress =
    | Started
    | Marked
    | Limited
    | Reserved(res: AccountLedger.Reservation)
    | Checked(res: AccountLedger.Reservation, degraded: bool)
    | Routed(res: AccountLedger.Reservation, degraded: bool, dec: Decision)
    | Settled(res: AccountLedger.Reservation, degraded: bool, dec: Decision)
    | Recorded(res: AccountLedger.Reservation, degraded: bool, dec: Decision)
    | Dispatched(res: AccountLedger.Reservation, degraded: bool, dec: Decision)
    | Completed(res: AccountLedger.Reservation, degraded: bool, dec: Decision)

  /** Running the main path; in the exception handler; returned; or raised, with the FAILED write
      made or given up. */
  datatype Local =
    | Active(at: Progress)
    | Handling(at: Progress, reason: string)
    | Finished(at: Progress)
    | Raised(at: Progress, reason: string, written: bool)

  predicate Over(l: Local) {
    l.Finished? || l.Raised?
  }

  /** The activity the code calls next, as a function of the locals. */
  function Next(input: Input, l: Local): Option<Command> {
    match l
    case Handling(_, reason) => Some(MarkStatus(FailedWrite(reason)))
    case Active(p) => (
      match p
      case Started => Some(MarkStatus(RUNNING_WRITE))
      case Marked => Some(CheckRateLimit)
      case Limited => Some(ReserveUsage(Router.ProjectCost(input.task)))
      case Reserved(res) => Some(BreakerEffective(res.degraded))
      case Checked(_, degraded) => Some(RouteTask(degraded))
      case Routed(res, _, dec) => Some(SettleUsage(res.projected, dec.cost))
      case Settled(_, _, dec) => Some(BreakerRecord(dec.cost))
      case Recorded(_, _, dec) => Some(DispatchTask(dec))
      case Dispatched(_, _, dec) => Some(MarkStatus(CompletedWrite(dec)))
      case Completed(_, _, _) => None
    )
    case Finished(_) => None
    case Raised(_, _, _) => None
  }

  const TYPE_ERROR := Failure("AttributeError", "unexpected activity result", None)

  /** The locals after an activity returned. The code ignores the values of the status, rate-limit,
      settle, record and dispatch activities. */
  function Advance(l: Local, value: Value): Local {
    match l
    case Active(p) => (
      match p
      case Started => Active(Marked)
      case Marked => Active(Limited)
      case Limited =>
        if value.Granted? then Active(Reserved(value.reservation)) else Handling(p, Reason(TYPE_ERROR))
      case Reserved(res) =>
        if value.Flag? then Active(Checked(res, value.b)) else Handling(p, Reason(TYPE_ERROR))
      case Checked(res, degraded) =>
        if value.Decided? then Active(Routed(res, degraded, value.decision)) else Handling(p, Reason(TYPE_ERROR))
      case Routed(res, degraded, dec) => Active(Settled(res, degraded, dec))
      case Settled(res, degraded, dec) => Active(Recorded(res, degraded, dec))
      case Recorded(res, degraded, dec) => Active(Dispatched(res, degraded, dec))
      case Dispatched(res, degraded, dec) => Finished(Completed(res, degraded, dec))
      case Completed(_, _, _) => l
    )
    case Handling(p, reason) => Raised(p, reason, true)
    case Finished(_) => l
    case Raised(_, _, _) => l
  }

  /** One recorded outcome. An exhausted activity enters the handler; inside the handler it is the
      final write that is given up. */
  function Consume(l: Local, outcome: Outcome): Local {
    match outcome
    case Returned(value) => Advance(l, value)
    case Exhausted(failure) =>
      if l.Active? && !l.at.Completed? then Handling(l.at, Reason(failure))
      else if l.Handling? then Raised(l.at, l.reason, false)
      else l
  }

  /** Replay: the locals are a function of the recorded outcomes. */
  function Replay(outcomes: seq<Outcome>): Local {
    if outcomes == [] then Active(Started)
    else Consume(Replay(outcomes[..|outcomes| - 1]), outcomes[|outcomes| - 1])
  }

  // ---- how many calls a run can make -----------------------------------------------------

  function PathIndex(p: Progress): nat {
    match p
    case Started => 0
    case Marked => 1
    case Limited => 2
    case Reserved(_) => 3
    case Checked(_, _) => 4
    case Routed(_, _, _) => 5
    case Settled(_, _, _) => 6
    case Recorded(_, _, _) => 7
    case Dispatched(_, _, _) => 8
    case Completed(_, _, _) => 9
  }

  /** Activity calls the run can still make. */
  function CallsLeft(l: Local): nat {
    match l
    case Active(p) => 10 - PathIndex(p)
    case Handling(_, _) => 1
    case Finished(_) => 0
    case Raised(_, _, _) => 0
  }

  lemma ConsumeCountsDown(l: Local, outcome: Outcome)
    requires !Over(l) && (l.Active? ==> !l.at.Completed?)
    ensures CallsLeft(Consume(l, outcome)) < CallsLeft(l)
    ensures Consume(l, outcome).Active? ==> !Consume(l, outcome).at.Completed?
  {
  }

  // ---- the run itself --------------------------------------------------------------------

  datatype Event = Event(command: Command, outcome: Outcome)

  function Outcomes(history: seq<Event>): seq<Outcome> {
    if history == [] then [] else Outcomes(history[..|history| - 1]) + [history[|history| - 1].outcome]
  }

  /** Every recorded command is the one replaying the events before it asks for. */
  ghost predicate Faithful(input: Input, history: seq<Event>) {
    history == []
    || (&& Faithful(input, history[..|history| - 1])
        && Next(input, Replay(Outcomes(history[..|history| - 1]))) == Some(history[|history| - 1].command))
  }

  lemma {:induction false} FaithfulAt(input: Input, history: seq<Event>, k: nat)
    requires Faithful(input, history) && k < |history|
    ensures Next(input, Replay(Outcomes(history[..k]))) == Some(history[k].command)
  {
    if k < |history| - 1 {
      FaithfulAt(input, history[..|history| - 1], k);
      assert history[..|history| - 1][..k] == history[..k];
    }
  }

  lemma OutcomesAppend(history: seq<Event>, e: Event)
    ensures Replay(Outcomes(history + [e])) == Consume(Replay(Outcomes(history)), e.outcome)
  {
    assert (history + [e])[..|history|] == history;
    assert Outcomes(history + [e])[..|Outcomes(history)|] == Outcomes(history);
  }

  lemma FaithfulAppend(input: Input, history: seq<Event>, e: Event)
    requires Faithful(input, history) && Next(input, Replay(Outcomes(history))) == Some(e.command)
    ensures Faithful(input, history + [e])
  {
    assert (history + [e])[..|history|] == history;
  }

  lemma NextMeansOngoing(input: Input, l: Local)
    ensures Next(input, l).Some? <==> !Over(l) && (l.Active? ==> !l.at.Completed?)
  {
  }

  /** A faithful history never holds more than ten activity calls. */
  lemma {:induction false} AtMostTenCalls(input: Input, history: seq<Event>)
    requires Faithful(input, history)
    ensures |history| + CallsLeft(Replay(Outcomes(history))) <= 10
    ensures var l := Replay(Outcomes(history)); l.Active? ==> !l.at.Completed?
  {
    if history != [] {
      var front, e := history[..|history| - 1], history[|history| - 1];
      AtMostTenCalls(input, front);
      assert front + [e] == history;
      OutcomesAppend(front, e);
      NextMeansOngoing(input, Replay(Outcomes(front)));
      ConsumeCountsDown(Replay(Outcomes(front)), e.outcome);
    }
  }

  function Continue(l: Local, outcomes: seq<Outcome>): Local {
    if outcomes == [] then l
    else Consume(Continue(l, outcomes[..|outcomes| - 1]), outcomes[|outcomes| - 1])
  }

  lemma ReplayAppend(outcomes: seq<Outcome>, outcome: Outcome)
    ensures Replay(outcomes + [outcome]) == Consume(Replay(outcomes), outcome)
  {
    assert (outcomes + [outcome])[..|outcomes|] == outcomes;
  }

  lemma {:induction false} ReplayContinues(before: seq<Outcome>, after: seq<Outcome>)
    ensures Replay(before + after) == Continue(Replay(before), after)
  {
    if after == [] {
      assert before + after == before;
    } else {
      var front, last := after[..|after| - 1], after[|after| - 1];
      assert before + after == (before + front) + [last];
      ReplayAppend(before + front, last);
      ReplayContinues(before, front);
    }
  }

  /** Whatever was recorded before and after, two histories that differ only in the answer to the
      rate-limit check replay to the same locals. */
  lemma RateLimitAnswerIgnored(input: Input, before: seq<Outcome>, v: Value, w: Value, after: seq<Outcome>)
    requires Next(input, Replay(before)) == Some(CheckRateLimit)
    ensures Replay(before + [Returned(v)] + after) == Replay(before + [Returned(w)] + after)
  {
    ReplayContinues(before + [Returned(v)], after);
    ReplayContinues(before + [Returned(w)], after);
    ReplayAppend(before, Returned(v));
    ReplayAppend(before, Returned(w));
  }

  // ---- the calls a run makes -------------------------------------------------------------

  /** The nine calls of a run that completes, given what the reservation, the breaker check and the
      routing returned. */
  function Call(input: Input, res: AccountLedger.Reservation, degraded: bool, dec: Decision, k: nat): Command {
    if k == 0 then MarkStatus(StatusWrite(RUNNING, None, None, None, None))
    else if k == 1 then CheckRateLimit
    else if k == 2 then ReserveUsage(Router.ProjectCost(input.task))
    else if k == 3 then BreakerEffective(res.degraded)
    else if k == 4 then RouteTask(degraded)
    else if k == 5 then SettleUsage(res.projected, dec.cost)
    else if k == 6 then BreakerRecord(dec.cost)
    else if k == 7 then DispatchTask(dec)
    else MarkStatus(StatusWrite(COMPLETED, None, Some(dec.tier), Some(dec.pointer), Some(dec.cost)))
  }

  /** The first `n` events are those calls, each returned; the third returned `res`, the fourth
      `degraded` and the fifth `dec`. */
  ghost predicate Made(input: Input, history: seq<Event>, n: nat, res: AccountLedger.Reservation, degraded: bool,
                       dec: Decision) {
    && n <= 9 && n <= |history|
    && (forall k :: 0 <= k < n ==> history[k].command == Call(input, res, degraded, dec, k) && history[k].outcome.Returned?)
    && (n > 2 ==> history[2].outcome == Returned(Granted(res)))
    && (n > 3 ==> history[3].outcome == Returned(Flag(degraded)))
    && (n > 4 ==> history[4].outcome == Returned(Decided(dec)))
  }

  /** After `n` of them the next one failed for that reason: its attempts were exhausted, or it
      returned something of another type. */
  ghost predicate Broke(input: Input, history: seq<Event>, n: nat, res: AccountLedger.Reservation, degraded: bool,
                        dec: Decision, reason: string) {
    && n < 9 && n < |history| && Made(input, history, n, res, degraded, dec)
    && history[n].command == Call(input, res, degraded, dec, n)
    && (match history[n].outcome
        case Exhausted(failure) => reason == Reason(failure)
        case Returned(value) => WrongType(n, value) && reason == Reason(TYPE_ERROR))
  }

  /** The reservation, the check and the routing are the calls whose values the body uses. */
  predicate WrongType(n: nat, value: Value) {
    (n == 2 && !value.Granted?) || (n == 3 && !value.Flag?) || (n == 4 && !value.Decided?)
  }

  /** The last event is the FAILED write with that reason. */
  ghost predicate Reported(history: seq<Event>, reason: string, written: bool) {
    && history != []
    && history[|history| - 1].command == MarkStatus(StatusWrite(FAILED, Some(reason), None, None, None))
    && (written <==> history[|history| - 1].outcome.Returned?)
  }

  /** The locals know what has been returned so far. */
  ghost predicate Knows(p: Progress, res: AccountLedger.Reservation, degraded: bool, dec: Decision) {
    && (PathIndex(p) >= 3 ==> p.res == res)
    && (PathIndex(p) >= 4 ==> p.degraded == degraded)
    && (PathIndex(p) >= 5 ==> p.dec == dec)
  }

  /** The history that leads to the locals, call by call. */
  ghost predicate Tells(input: Input, history: seq<Event>, l: Local, res: AccountLedger.Reservation, degraded: bool,
                        dec: Decision) {
    var n := PathIndex(l.at);
    && Knows(l.at, res, degraded, dec)
    && match l
       case Active(_) => n < 9 && |history| == n && Made(input, history, n, res, degraded, dec)
       case Finished(_) => n == 9 && |history| == 9 && Made(input, history, 9, res, degraded, dec)
       case Handling(_, reason) => |history| == n + 1 && Broke(input, history, n, res, degraded, dec, reason)
       case Raised(_, reason, written) =>
         |history| == n + 2 && Broke(input, history, n, res, degraded, dec, reason) && Reported(history, reason, written)
  }

  lemma MadeAppend(input: Input, history: seq<Event>, e: Event, n: nat, res: AccountLedger.Reservation, degraded: bool,
                   dec: Decision)
    requires Made(input, history, n, res, degraded, dec)
    ensures Made(input, history + [e], n, res, degraded, dec)
  {
  }

  /** One more call returned: what it returned is what the later calls use. */
  lemma MadeMore(input: Input, history: seq<Event>, e: Event, res: AccountLedger.Reservation, degraded: bool, dec: Decision,
                 res': AccountLedger.Reservation, degraded': bool, dec': Decision)
    requires |history| < 9 && Made(input, history, |history|, res, degraded, dec)
    requires e.command == Call(input, res, degraded, dec, |history|) && e.outcome.Returned?
    requires if |history| == 2 then e.outcome.value == Granted(res') else res' == res
    requires if |history| == 3 then e.outcome.value == Flag(degraded') else degraded' == degraded
    requires if |history| == 4 then e.outcome.value == Decided(dec') else dec' == dec
    ensures Made(input, history + [e], |history| + 1, res', degraded', dec')
  {
  }

  lemma NextIsCall(input: Input, l: Local, res: AccountLedger.Reservation, degraded: bool, dec: Decision)
    requires l.Active? && PathIndex(l.at) < 9 && Knows(l.at, res, degraded, dec)
    ensures Next(input, l) == Some(Call(input, res, degraded, dec, PathIndex(l.at)))
  {
  }

  lemma TellsActive(input: Input, history: seq<Event>, l: Local, e: Event, res: AccountLedger.Reservation, degraded: bool,
                    dec: Decision)
    returns (res': AccountLedger.Reservation, degraded': bool, dec': Decision)
    requires l.Active? && Tells(input, history, l, res, degraded, dec) && Next(input, l) == Some(e.command)
    ensures Tells(input, history + [e], Consume(l, e.outcome), res', degraded', dec')
  {
    var n := PathIndex(l.at);
    res', degraded', dec' := res, degraded, dec;
    NextIsCall(input, l, res, degraded, dec);
    if Consume(l, e.outcome).Handling? {
      MadeAppend(input, history, e, n, res, degraded, dec);
    } else {
      if n == 2 { res' := e.outcome.value.reservation; }
      if n == 3 { degraded' := e.outcome.value.b; }
      if n == 4 { dec' := e.outcome.value.decision; }
      MadeMore(input, history, e, res, degraded, dec, res', degraded', dec');
    }
  }

  lemma TellsHandling(input: Input, history: seq<Event>, l: Local, e: Event, res: AccountLedger.Reservation, degraded: bool,
                      dec: Decision)
    requires l.Handling? && Tells(input, history, l, res, degraded, dec) && Next(input, l) == Some(e.command)
    ensures Tells(input, history + [e], Consume(l, e.outcome), res, degraded, dec)
  {
    MadeAppend(input, history, e, PathIndex(l.at), res, degraded, dec);
  }

  const NO_RESERVATION := AccountLedger.Reservation(false, 0.0, 0.0)

  const NO_DECISION := Decision(Standard, "", false, 0.0)

  lemma TellsNext(input: Input, history: seq<Event>, e: Event, res: AccountLedger.Reservation, degraded: bool, dec: Decision)
    returns (res': AccountLedger.Reservation, degraded': bool, dec': Decision)
    requires Next(input, Replay(Outcomes(history))) == Some(e.command)
    requires Tells(input, history, Replay(Outcomes(history)), res, degraded, dec)
    ensures Tells(input, history + [e], Replay(Outcomes(history + [e])), res', degraded', dec')
  {
    OutcomesAppend(history, e);
    var l := Replay(Outcomes(history));
    if l.Active? {
      res', degraded', dec' := TellsActive(input, history, l, e, res, degraded, dec);
    } else {
      TellsHandling(input, history, l, e, res, degraded, dec);
      res', degraded', dec' := res, degraded, dec;
    }
  }

  /** The locals some call-by-call history leads to. */
  ghost predicate Explained(input: Input, history: seq<Event>, l: Local) {
    exists res, degraded, dec :: Tells(input, history, l, res, degraded, dec)
  }

  lemma NothingExplained(input: Input)
    ensures Explained(input, [], Replay(Outcomes([])))
  {
    assert Tells(input, [], Active(Started), NO_RESERVATION, false, NO_DECISION);
  }

  lemma NextExplained(input: Input, history: seq<Event>, e: Event)
    requires Next(input, Replay(Outcomes(history))) == Some(e.command)
    requires Explained(input, history, Replay(Outcomes(history)))
    ensures Explained(input, history + [e], Replay(Outcomes(history + [e])))
  {
    var res, degraded, dec :| Tells(input, history, Replay(Outcomes(history)), res, degraded, dec);
    var res', degraded', dec' := TellsNext(input, history, e, res, degraded, dec);
  }

  lemma LastSplits(history: seq<Event>)
    requires history != []
    ensures history[..|history| - 1] + [history[|history| - 1]] == history
  {
  }

  /** Every history of the workflow is the nine calls in order, or the calls up to the first that
      failed and the FAILED write with its reason. */
  lemma {:induction false} HistoryTells(input: Input, history: seq<Event>)
    requires Faithful(input, history)
    ensures Explained(input, history, Replay(Outcomes(history)))
  {
    if history == [] {
      NothingExplained(input);
    } else {
      var front, e := history[..|history| - 1], history[|history| - 1];
      HistoryTells(input, front);
      NextExplained(input, front, e);
      LastSplits(history);
    }
  }

  const MAX_ATTEMPTS := 3

  /** The service that runs activities for one workflow: every call is tried up to three times,
      and its final outcome is recorded. `script` decides what each attempt does. */
  class ActivityService {
    const input: Input
    const script: (nat, nat) -> Outcome
    var history: seq<Event>
    var attempts: nat
    /** The locals that replaying the history gives. */
    ghost var local: Local

    constructor (input: Input, script: (nat, nat) -> Outcome)
      ensures this.input == input && Valid() && history == [] && attempts == 0
    {
      this.input, this.script, history, attempts, local := input, script, [], 0, Active(Started);
    }

    ghost predicate Valid()
      reads this
    {
      && Faithful(input, history)
      && attempts <= MAX_ATTEMPTS * |history|
      && local == Replay(Outcomes(history))
    }

    /** Tries a call until it returns, at most three times. */
    method Try(call: nat) returns (outcome: Outcome, made: nat)
      ensures FirstReturned(call, made, outcome)
    {
      made := 1;
      outcome := script(call, 0);
      while outcome.Exhausted? && made < MAX_ATTEMPTS
        invariant 1 <= made <= MAX_ATTEMPTS && outcome == script(call, made - 1)
        invariant forall t: nat :: t < made - 1 ==> script(call, t).Exhausted?
      {
        outcome := script(call, made);
        made := made + 1;
      }
    }

    /** The outcome recorded for the call is that of its first attempt that returned, or of the third. */
    method Execute(command: Command) returns (outcome: Outcome)
      requires Valid() && Next(input, local) == Some(command)
      modifies this
      ensures Valid() && history == old(history) + [Event(command, outcome)]
      ensures local == Consume(old(local), outcome)
      ensures FirstReturned(|old(history)|, attempts - old(attempts), outcome)
    {
      var made: nat;
      outcome, made := Try(|history|);
      attempts := attempts + made;
      OutcomesAppend(history, Event(command, outcome));
      FaithfulAppend(input, history, Event(command, outcome));
      history, local := history + [Event(command, outcome)], Consume(local, outcome);
    }

    /** The call took `made` attempts, all but the last of which failed; only a third may fail too. */
    ghost predicate FirstReturned(call: nat, made: int, outcome: Outcome) {
      && 1 <= made <= MAX_ATTEMPTS && outcome == script(call, made - 1)
      && (forall t: nat :: t < made - 1 ==> script(call, t).Exhausted?)
      && (outcome.Exhausted? ==> made == MAX_ATTEMPTS)
    }
  }

  /** What `run` does when an activity raises: write FAILED with the reason, then raise. */
  method DeadLetter(service: ActivityService, exc: Failure)
    requires service.Valid() && service.local.Handling? && service.local.reason == Reason(exc)
    modifies service
    ensures service.Valid() && service.local.Raised?
    ensures service.local.reason == Reason(exc)
    ensures |service.history| == |old(service.history)| + 1
    ensures service.history[..|old(service.history)|] == old(service.history)
    ensures var last := service.history[|old(service.history)|];
            && last.command == MarkStatus(FailedWrite(Reason(exc)))
            && service.local.written == last.outcome.Returned?
  {
    var reason := GatherReason(exc);
    var outcome := service.Execute(MarkStatus(FailedWrite(reason)));
  }

  /** One awaited activity of the main path: its value, or the handler when it raises. */
  method Await(service: ActivityService, command: Command) returns (value: Option<Value>)
    requires service.Valid() && service.local.Active? && Next(service.input, service.local) == Some(command)
    modifies service
    ensures service.Valid()
    ensures value.Some? ==> service.local == Advance(old(service.local), value.value)
    ensures value.None? ==> service.local.Raised?
  {
    var outcome := service.Execute(command);
    if outcome.Exhausted? {
      DeadLetter(service, outcome.failure);
      return None;
    }
    return Some(outcome.value);
  }

  /** The first steps of the body: mark, rate-limit and reserve. */
  method Admit(service: ActivityService) returns (r: Option<AccountLedger.Reservation>)
    requires service.Valid() && service.local == Active(Started)
    modifies service
    ensures service.Valid()
    ensures r.None? ==> service.local.Raised?
    ensures r.Some? ==> service.local == Active(Reserved(r.value))
  {
    var v := Await(service, MarkStatus(RUNNING_WRITE));
    if v.None? { return None; }

    v := Await(service, CheckRateLimit);
    if v.None? { return None; }

    v := Await(service, ReserveUsage(Router.ProjectCost(service.input.task)));
    if v.None? { return None; }
    if !v.value.Granted? { DeadLetter(service, TYPE_ERROR); return None; }
    return Some(v.value.reservation);
  }

  /** The first half of the body: admit, consult the breaker and route. */
  method Decide(service: ActivityService) returns (r: Option<(AccountLedger.Reservation, Decision)>)
    requires service.Valid() && service.local == Active(Started)
    modifies service
    ensures service.Valid()
    ensures r.None? ==> service.local.Raised?
    ensures r.Some? ==> service.local.Active? && service.local.at.Routed?
                        && r.value == (service.local.at.res, service.local.at.dec)
  {
    var reservation := Admit(service);
    if reservation.None? { return None; }

    var v := Await(service, BreakerEffective(reservation.value.degraded));
    if v.None? { return None; }
    if !v.value.Flag? { DeadLetter(service, TYPE_ERROR); return None; }

    v := Await(service, RouteTask(v.value.b));
    if v.None? { return None; }
    if !v.value.Decided? { DeadLetter(service, TYPE_ERROR); return None; }
    return Some((reservation.value, v.value.decision));
  }

  /** Settle the reservation and record the spend. */
  method Account(service: ActivityService, reservation: AccountLedger.Reservation, routed: Decision) returns (ok: bool)
    requires service.Valid() && service.local.Active? && service.local.at.Routed?
    requires service.local.at.res == reservation && service.local.at.dec == routed
    modifies service
    ensures service.Valid()
    ensures !ok ==> service.local.Raised?
    ensures ok ==> service.local == Active(Recorded(reservation, old(service.local.at.degraded), routed))
  {
    var v := Await(service, SettleUsage(reservation.projected, routed.cost));
    if v.None? { return false; }

    v := Await(service, BreakerRecord(routed.cost));
    return v.Some?;
  }

  /** The second half: settle, record the spend, dispatch and mark the task completed. */
  method Conclude(service: ActivityService, reservation: AccountLedger.Reservation, routed: Decision)
    returns (result: Option<Decision>)
    requires service.Valid() && service.local.Active? && service.local.at.Routed?
    requires service.local.at.res == reservation && service.local.at.dec == routed
    modifies service
    ensures service.Valid()
    ensures result.None? ==> service.local.Raised?
    ensures result.Some? ==> service.local.Finished? && service.local.at.Completed?
                             && result.value == service.local.at.dec == routed
  {
    var ok := Account(service, reservation, routed);
    if !ok { return None; }

    var v := Await(service, DispatchTask(routed));
    if v.None? { return None; }

    v := Await(service, MarkStatus(CompletedWrite(routed)));
    if v.None? { return None; }
    return Some(routed);
  }

  /** The workflow body. It returns the decision it completed with, after exactly the nine calls, or
      raises (`None`), after the calls up to the one that failed and one FAILED write with its reason.
      Its locals are the replay of what the service recorded, and it made at most ten activity calls
      and thirty attempts. */
  method Run(service: ActivityService) returns (result: Option<Decision>)
    requires service.Valid() && service.history == []
    modifies service
    ensures Faithful(service.input, service.history)
    ensures |service.history| <= 10 && service.attempts <= 30
    ensures service.local == Replay(Outcomes(service.history)) && Over(service.local)
    ensures result.Some? <==> service.local.Finished?
    ensures result.Some? ==> service.local.at.Completed? && result.value == service.local.at.dec
    ensures result.Some? ==> |service.history| == 9 && exists res, degraded ::
              Made(service.input, service.history, 9, res, degraded, result.value)
    ensures result.Some? ==>
              && service.history[7].command == DispatchTask(result.value)
              && service.history[8].command
                 == MarkStatus(StatusWrite(COMPLETED, None, Some(result.value.tier), Some(result.value.pointer),
                                           Some(result.value.cost)))
    ensures result.None? ==> exists n: nat, res, degraded, dec, reason, written ::
              && |service.history| == n + 2
              && Broke(service.input, service.history, n, res, degraded, dec, reason)
              && Reported(service.history, reason, written)
  {
    result := None;
    var decided := Decide(service);
    if decided.Some? {
      result := Conclude(service, decided.value.0, decided.value.1);
    }
    AtMostTenCalls(service.input, service.history);
    RunTells(service.input, service.history);
  }

  /** What a finished history shows of its result, and a raised one of its failure. */
  lemma RunTells(input: Input, history: seq<Event>)
    requires Faithful(input, history)
    ensures var l := Replay(Outcomes(history));
            l.Finished? && l.at.Completed? ==>
              && |history| == 9
              && (exists res, degraded :: Made(input, history, 9, res, degraded, l.at.dec))
              && history[7].command == DispatchTask(l.at.dec)
              && history[8].command
                 == MarkStatus(StatusWrite(COMPLETED, None, Some(l.at.dec.tier), Some(l.at.dec.pointer), Some(l.at.dec.cost)))
    ensures var l := Replay(Outcomes(history));
            l.Raised? ==> exists n: nat, res, degraded, dec, reason, written ::
              && |history| == n + 2
              && Broke(input, history, n, res, degraded, dec, reason)
              && Reported(history, reason, written)
  {
    HistoryTells(input, history);
    var res, degraded, dec :| Tells(input, history, Replay(Outcomes(history)), res, degraded, dec);
  }
}
