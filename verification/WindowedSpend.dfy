/** What non-degraded reservations ask for inside one usage window. The ledger's own sum stays
    below the threshold, but a settlement that lands on another task's charge makes room in it. */
module WindowedSpend {
  import opened AccountLedger
  import opened KeepingLedger
  import opened FreeCharges

  /** What the non-degraded reservations no older than `cutoff` asked for. */
  function WindowSpend(p: Policy, ops: seq<Op>, cutoff: real): real {
    if ops == [] then 0.0
    else
      var front, op := ops[..|ops| - 1], ops[|ops| - 1];
      WindowSpend(p, front, cutoff) + SpendOf(p, After(p, front), op, cutoff)
  }

  /** What an operation adds to the window's spend. */
  function SpendOf(p: Policy, charges: seq<Charge>, op: Op, cutoff: real): real {
    if op.ReserveOp? && op.now >= cutoff && !Reserve(p, charges, op.cost, op.now).1.degraded then op.cost else 0.0
  }

  /** What the surviving charges of non-degraded reservations asked for at first. */
  function AskedTotal(tagged: seq<Tagged>): real {
    if tagged == [] then 0.0
    else
      var last := |tagged| - 1;
      AskedTotal(tagged[..last]) + (if tagged[last].free then tagged[last].asked else 0.0)
  }

  /** By how much settlements have lowered those charges. */
  function Lowered(tagged: seq<Tagged>): real {
    if tagged == [] then 0.0
    else
      var last := |tagged| - 1;
      Lowered(tagged[..last]) + (if tagged[last].free then tagged[last].asked - tagged[last].charge.amount else 0.0)
  }

  lemma {:induction false} AskedSplits(tagged: seq<Tagged>)
    ensures AskedTotal(tagged) == FreeTotal(tagged) + Lowered(tagged)
  {
    if tagged != [] {
      AskedSplits(tagged[..|tagged| - 1]);
    }
  }

  lemma AskedAppend(tagged: seq<Tagged>, t: Tagged)
    ensures AskedTotal(tagged + [t]) == AskedTotal(tagged) + (if t.free then t.asked else 0.0)
  {
    assert (tagged + [t])[..|tagged|] == tagged;
  }

  /** What the reservations of the charges no older than `cutoff` asked for. */
  function AskedSince(tagged: seq<Tagged>, cutoff: real): real {
    if tagged == [] then 0.0
    else
      var last := |tagged| - 1;
      AskedSince(tagged[..last], cutoff)
      + (if tagged[last].free && tagged[last].charge.ts >= cutoff then tagged[last].asked else 0.0)
  }

  lemma SinceAppend(tagged: seq<Tagged>, t: Tagged, cutoff: real)
    ensures AskedSince(tagged + [t], cutoff)
            == AskedSince(tagged, cutoff) + (if t.free && t.charge.ts >= cutoff then t.asked else 0.0)
  {
    assert (tagged + [t])[..|tagged|] == tagged;
  }

  lemma {:induction false} SinceIsPruned(tagged: seq<Tagged>, cutoff: real)
    ensures AskedSince(tagged, cutoff) == AskedTotal(PruneTagged(tagged, cutoff))
  {
    if tagged != [] {
      var front, t := tagged[..|tagged| - 1], tagged[|tagged| - 1];
      SinceIsPruned(front, cutoff);
      AskedAppend(PruneTagged(front, cutoff), t);
    }
  }

  lemma {:induction false} SincePrune(tagged: seq<Tagged>, early: real, cutoff: real)
    requires early <= cutoff
    ensures AskedSince(PruneTagged(tagged, early), cutoff) == AskedSince(tagged, cutoff)
  {
    if tagged != [] {
      var front, t := tagged[..|tagged| - 1], tagged[|tagged| - 1];
      SincePrune(front, early, cutoff);
      SinceAppend(PruneTagged(front, early), t, cutoff);
    }
  }

  lemma {:induction false} SinceRevalue(tagged: seq<Tagged>, from: real, to: real, cutoff: real)
    ensures AskedSince(RevalueTagged(tagged, from, to), cutoff) == AskedSince(tagged, cutoff)
  {
    if tagged != [] {
      var front, t := tagged[..|tagged| - 1], tagged[|tagged| - 1];
      if t.charge.amount == from {
        SinceAppend(front, t.(charge := t.charge.(amount := to)), cutoff);
      } else {
        SinceRevalue(front, from, to, cutoff);
        SinceAppend(RevalueTagged(front, from, to), t, cutoff);
      }
    }
  }

  /** No operation that deletes read a clock later than `now`. */
  ghost predicate NoneLater(ops: seq<Op>, now: real) {
    forall k :: 0 <= k < |ops| && Deletes(ops[k]) ==> ops[k].now <= now
  }

  ghost predicate Adds(p: Policy, before: seq<Tagged>, op: Op, after: seq<Tagged>, cutoff: real) {
    AskedSince(after, cutoff) == AskedSince(before, cutoff) + SpendOf(p, Untag(before), op, cutoff)
  }

  lemma InsertAddsSpend(p: Policy, before: seq<Tagged>, live: seq<Tagged>, cost: real, at: real, cutoff: real)
    requires AskedSince(live, cutoff) == AskedSince(before, cutoff)
    ensures Adds(p, before, ReserveOp(cost, at), live + [Inserted(p, Untag(before), cost, at)], cutoff)
  {
    SinceAppend(live, Inserted(p, Untag(before), cost, at), cutoff);
  }

  lemma ReserveAddsSpend(p: Policy, before: seq<Tagged>, cost: real, at: real, cutoff: real)
    requires at - p.window <= cutoff
    ensures Adds(p, before, ReserveOp(cost, at),
                 PruneTagged(before, at - p.window) + [Inserted(p, Untag(before), cost, at)], cutoff)
  {
    SincePrune(before, at - p.window, cutoff);
    InsertAddsSpend(p, before, PruneTagged(before, at - p.window), cost, at, cutoff);
  }

  lemma OpAddsSpend(p: Policy, before: seq<Tagged>, op: Op, cutoff: real)
    requires Deletes(op) ==> op.now - p.window <= cutoff
    ensures Adds(p, before, op, ApplyTagged(p, before, op), cutoff)
  {
    if op.ReserveOp? {
      ReserveAddsSpend(p, before, op.cost, op.now, cutoff);
    } else if op.SettleOp? {
      SincePrune(before, op.now - p.window, cutoff);
      SinceRevalue(PruneTagged(before, op.now - p.window), op.reserved, op.actual, cutoff);
    } else if op.commits {
      SincePrune(before, op.now - p.window, cutoff);
    }
  }

  lemma {:induction false} SpendIsAsked(p: Policy, ops: seq<Op>, now: real)
    requires NoneLater(ops, now)
    ensures WindowSpend(p, ops, now - p.window) == AskedSince(AfterTagged(p, ops), now - p.window)
  {
    if ops != [] {
      var front, op := ops[..|ops| - 1], ops[|ops| - 1];
      SpendIsAsked(p, front, now);
      TagsAreInert(p, front);
      OpAddsSpend(p, AfterTagged(p, front), op, now - p.window);
      assert Adds(p, AfterTagged(p, front), op, AfterTagged(p, ops), now - p.window);
    }
  }

  /** The charges a reservation at `now` finds. */
  function LiveAt(p: Policy, ops: seq<Op>, now: real): seq<Tagged> {
    PruneTagged(AfterTagged(p, ops), now - p.window)
  }

  /** What the window's non-degraded reservations asked for is what their charges now hold, which
      stays below the threshold, plus what settlements took off them. */
  lemma WindowBudget(p: Policy, ops: seq<Op>, now: real)
    requires p.threshold > 0.0 && AllCosted(ops) && NoneLater(ops, now)
    ensures var live := LiveAt(p, ops, now);
            && WindowSpend(p, ops, now - p.window) == FreeTotal(live) + Lowered(live)
            && FreeTotal(live) < p.threshold
            && (Lowered(live) <= 0.0 ==> WindowSpend(p, ops, now - p.window) < p.threshold)
  {
    var tagged, cutoff := AfterTagged(p, ops), now - p.window;
    SpendIsAsked(p, ops, now);
    SinceIsPruned(tagged, cutoff);
    AskedSplits(PruneTagged(tagged, cutoff));
    FreeTotalBelowThreshold(p, ops);
    FreePrune(tagged, cutoff);
  }

  // ---- exactly when the window keeps its budget ------------------------------------------

  lemma SpendAppend(p: Policy, ops: seq<Op>, op: Op, cutoff: real)
    ensures WindowSpend(p, ops + [op], cutoff) == WindowSpend(p, ops, cutoff) + SpendOf(p, After(p, ops), op, cutoff)
  {
    assert (ops + [op])[..|ops|] == ops;
  }

  lemma LiveIsPruned(p: Policy, ops: seq<Op>, now: real)
    ensures Untag(LiveAt(p, ops, now)) == Prune(After(p, ops), now - p.window)
  {
    TagsAreInert(p, ops);
    UntagPrune(AfterTagged(p, ops), now - p.window);
  }

  /** A reservation at `now` is not degraded exactly when the live charges leave room for it. */
  lemma NotDegraded(p: Policy, ops: seq<Op>, cost: real, now: real)
    ensures Reserve(p, After(p, ops), cost, now).1.degraded
      <==> Total(Untag(LiveAt(p, ops, now))) + cost >= p.threshold
  {
    var live := Untag(LiveAt(p, ops, now));
    LiveIsPruned(p, ops, now);
    ReserveOn(p, After(p, ops), cost, now, live);
  }

  /** The next reservation at `now` takes the window to this, unless it is degraded. */
  lemma NextSpend(p: Policy, ops: seq<Op>, cost: real, now: real)
    requires p.threshold > 0.0 && p.window >= 0.0 && AllCosted(ops) && NoneLater(ops, now)
    requires !Reserve(p, After(p, ops), cost, now).1.degraded
    ensures var live := LiveAt(p, ops, now);
            WindowSpend(p, ops + [ReserveOp(cost, now)], now - p.window) == FreeTotal(live) + Lowered(live) + cost
  {
    WindowBudget(p, ops, now);
    SpendAppend(p, ops, ReserveOp(cost, now), now - p.window);
  }

  /** No reservation at `now` can take the window to the threshold, whatever it asks for. */
  ghost predicate Safe(p: Policy, ops: seq<Op>, now: real) {
    forall cost :: cost >= 0.0 && !Reserve(p, After(p, ops), cost, now).1.degraded ==>
      WindowSpend(p, ops + [ReserveOp(cost, now)], now - p.window) < p.threshold
  }

  /** Exactly when the next reservation cannot break the window's budget: when the ledger is full, or
      settlements took no more off the live charges of non-degraded reservations than the live
      charges of degraded ones still hold. */
  lemma NextReservationExactly(p: Policy, ops: seq<Op>, now: real)
    requires p.threshold > 0.0 && p.window >= 0.0 && AllCosted(ops) && NoneLater(ops, now)
    ensures var live := LiveAt(p, ops, now);
            Safe(p, ops, now)
            <==> Total(Untag(live)) >= p.threshold || Lowered(live) <= Total(Untag(live)) - FreeTotal(live)
  {
    var live := LiveAt(p, ops, now);
    var held, asked := Total(Untag(live)), FreeTotal(live) + Lowered(live);
    if held >= p.threshold || asked <= held {
      forall cost | cost >= 0.0 && !Reserve(p, After(p, ops), cost, now).1.degraded
        ensures WindowSpend(p, ops + [ReserveOp(cost, now)], now - p.window) < p.threshold
      {
        NotDegraded(p, ops, cost, now);
        NextSpend(p, ops, cost, now);
      }
    } else {
      var cost := if asked >= p.threshold then 0.0 else p.threshold - asked;
      NotDegraded(p, ops, cost, now);
      NextSpend(p, ops, cost, now);
      assert WindowSpend(p, ops + [ReserveOp(cost, now)], now - p.window) >= p.threshold;
    }
  }

  /** The window ending at any reading no earlier than the deletions so far is within budget. */
  ghost predicate WithinBudget(p: Policy, ops: seq<Op>) {
    forall now :: NoneLater(ops, now) ==> WindowSpend(p, ops, now - p.window) < p.threshold
  }

  ghost predicate AlwaysWithinBudget(p: Policy, ops: seq<Op>) {
    WithinBudget(p, ops) && (ops == [] || AlwaysWithinBudget(p, ops[..|ops| - 1]))
  }

  /** The operation is a non-degraded reservation for which the window has no room: what its live
      charges of non-degraded reservations hold, what was taken off them and the new cost together
      reach the threshold. */
  ghost predicate Crosses(p: Policy, ops: seq<Op>, op: Op) {
    && op.ReserveOp? && !Reserve(p, After(p, ops), op.cost, op.now).1.degraded
    && var live := LiveAt(p, ops, op.now);
       FreeTotal(live) + Lowered(live) + op.cost >= p.threshold
  }

  ghost predicate NeverCrosses(p: Policy, ops: seq<Op>) {
    ops == [] || (NeverCrosses(p, ops[..|ops| - 1]) && !Crosses(p, ops[..|ops| - 1], ops[|ops| - 1]))
  }

  lemma {:induction false} SpendShrinks(p: Policy, ops: seq<Op>, early: real, late: real)
    requires AllCosted(ops) && early <= late
    ensures 0.0 <= WindowSpend(p, ops, late) <= WindowSpend(p, ops, early)
  {
    if ops != [] {
      assert Costed(ops[|ops| - 1]);
      SpendShrinks(p, ops[..|ops| - 1], early, late);
    }
  }

  /** One more operation keeps the budget exactly when it does not cross. */
  lemma StepBudget(p: Policy, ops: seq<Op>, op: Op)
    requires p.threshold > 0.0 && p.window >= 0.0 && AllCosted(ops) && Costed(op) && WithinBudget(p, ops)
    requires Deletes(op) ==> NoneLater(ops, op.now)
    ensures WithinBudget(p, ops + [op]) <==> !Crosses(p, ops, op)
  {
    if Crosses(p, ops, op) {
      CrossingBreaks(p, ops, op);
    } else {
      forall now | NoneLater(ops + [op], now) ensures WindowSpend(p, ops + [op], now - p.window) < p.threshold {
        StaysWithin(p, ops, op, now);
      }
    }
  }

  lemma CrossingBreaks(p: Policy, ops: seq<Op>, op: Op)
    requires p.threshold > 0.0 && p.window >= 0.0 && AllCosted(ops) && Crosses(p, ops, op) && NoneLater(ops, op.now)
    ensures !WithinBudget(p, ops + [op])
  {
    NextSpend(p, ops, op.cost, op.now);
    assert ops + [op] == ops + [ReserveOp(op.cost, op.now)];
    assert NoneLater(ops + [op], op.now);
  }

  lemma NoneLaterFront(ops: seq<Op>, op: Op, now: real)
    requires NoneLater(ops + [op], now)
    ensures NoneLater(ops, now) && (Deletes(op) ==> op.now <= now)
  {
    assert (ops + [op])[|ops|] == op;
    forall k | 0 <= k < |ops| && Deletes(ops[k]) ensures ops[k].now <= now {
      assert (ops + [op])[k] == ops[k];
    }
  }

  /** A reservation that does not cross leaves room in every window that counts it. */
  lemma LeavesRoom(p: Policy, ops: seq<Op>, op: Op, now: real)
    requires p.threshold > 0.0 && p.window >= 0.0 && AllCosted(ops) && !Crosses(p, ops, op)
    requires op.ReserveOp? && !Reserve(p, After(p, ops), op.cost, op.now).1.degraded
    requires op.now <= now && NoneLater(ops, op.now)
    ensures WindowSpend(p, ops, now - p.window) + op.cost < p.threshold
  {
    WindowBudget(p, ops, op.now);
    SpendShrinks(p, ops, op.now - p.window, now - p.window);
  }

  lemma WithinFront(p: Policy, ops: seq<Op>, now: real)
    requires WithinBudget(p, ops) && NoneLater(ops, now)
    ensures WindowSpend(p, ops, now - p.window) < p.threshold
  {
  }

  lemma StaysWithin(p: Policy, ops: seq<Op>, op: Op, now: real)
    requires p.threshold > 0.0 && p.window >= 0.0 && AllCosted(ops) && Costed(op) && WithinBudget(p, ops)
    requires Deletes(op) ==> NoneLater(ops, op.now)
    requires !Crosses(p, ops, op) && NoneLater(ops + [op], now)
    ensures WindowSpend(p, ops + [op], now - p.window) < p.threshold
  {
    NoneLaterFront(ops, op, now);
    SpendAppend(p, ops, op, now - p.window);
    if op.ReserveOp? && !Reserve(p, After(p, ops), op.cost, op.now).1.degraded {
      LeavesRoom(p, ops, op, now);
    }
    WithinFront(p, ops, now);
  }

  /** A run keeps the budget of every window, after every operation, if and only if no non-degraded
      reservation crosses it. */
  lemma {:induction false} BudgetExactly(p: Policy, ops: seq<Op>)
    requires p.threshold > 0.0 && p.window >= 0.0 && AllCosted(ops) && DeletesInOrder(ops)
    ensures AlwaysWithinBudget(p, ops) <==> NeverCrosses(p, ops)
  {
    if ops != [] {
      var front, op := ops[..|ops| - 1], ops[|ops| - 1];
      BudgetExactly(p, front);
      assert ops == front + [op] && Costed(op);
      if AlwaysWithinBudget(p, front) {
        StepBudget(p, front, op);
      }
    }
  }

  lemma UncrossedWithin(p: Policy, ops: seq<Op>)
    requires p.threshold > 0.0 && p.window >= 0.0 && AllCosted(ops) && DeletesInOrder(ops) && NeverCrosses(p, ops)
    ensures WithinBudget(p, ops)
  {
    BudgetExactly(p, ops);
  }

  lemma KeepsWindow(p: Policy, ops: seq<Op>, now: real)
    requires p.threshold > 0.0 && p.window >= 0.0 && AllCosted(ops) && DeletesInOrder(ops)
    requires NeverCrosses(p, ops) && NoneLater(ops, now)
    ensures WindowSpend(p, ops, now - p.window) < p.threshold
  {
    UncrossedWithin(p, ops);
    WithinFront(p, ops, now);
  }

  /** It is enough that the guard of `NextReservationExactly` holds before every reservation. */
  ghost predicate Guarded(p: Policy, ops: seq<Op>) {
    ops == []
    || (&& Guarded(p, ops[..|ops| - 1])
        && (ops[|ops| - 1].ReserveOp? ==>
              var live := LiveAt(p, ops[..|ops| - 1], ops[|ops| - 1].now);
              Lowered(live) <= Total(Untag(live)) - FreeTotal(live)))
  }

  lemma {:induction false} GuardedNeverCrosses(p: Policy, ops: seq<Op>)
    requires Guarded(p, ops)
    ensures NeverCrosses(p, ops)
  {
    if ops != [] {
      var front, op := ops[..|ops| - 1], ops[|ops| - 1];
      GuardedNeverCrosses(p, front);
      if op.ReserveOp? {
        NotDegraded(p, front, op.cost, op.now);
      }
    }
  }

  // ---- the budget of one window can be exceeded ------------------------------------------

  lemma ReserveNext(p: Policy, ops: seq<Op>, charges: seq<Charge>, live: seq<Charge>, cost: real, now: real, cutoff: real)
    requires After(p, ops) == charges && Prune(charges, now - p.window) == live
    ensures var next := ops + [ReserveOp(cost, now)];
            && After(p, next) == live + [Charge(cost, now)]
            && WindowSpend(p, next, cutoff)
               == WindowSpend(p, ops, cutoff) + (if now >= cutoff && Total(live) + cost < p.threshold then cost else 0.0)
  {
    var next := ops + [ReserveOp(cost, now)];
    assert next[..|ops|] == ops;
    ReserveOn(p, charges, cost, now, live);
  }

  lemma SettleNext(p: Policy, ops: seq<Op>, charges: seq<Charge>, live: seq<Charge>, from: real, to: real, now: real, cutoff: real)
    requires After(p, ops) == charges && Prune(charges, now - p.window) == live
    ensures var next := ops + [SettleOp(from, to, now)];
            && After(p, next) == Revalue(live, from, to)
            && WindowSpend(p, next, cutoff) == WindowSpend(p, ops, cutoff)
  {
    var next := ops + [SettleOp(from, to, now)];
    assert next[..|ops|] == ops;
    SettleOn(p, charges, from, to, now, live);
  }

  /** One more step of a run: the ledger it leaves and what the window has seen so far. */
  ghost predicate SoFar(p: Policy, ops: seq<Op>, charges: seq<Charge>, cutoff: real, spend: real) {
    After(p, ops) == charges && WindowSpend(p, ops, cutoff) == spend
  }

  lemma ReserveSoFar(p: Policy, ops: seq<Op>, charges: seq<Charge>, live: seq<Charge>, cost: real, now: real, cutoff: real,
                 spend: real, after: seq<Charge>)
    requires SoFar(p, ops, charges, cutoff, spend) && Prune(charges, now - p.window) == live
    requires after == live + [Charge(cost, now)]
    ensures SoFar(p, ops + [ReserveOp(cost, now)], after, cutoff,
                    spend + (if now >= cutoff && Total(live) + cost < p.threshold then cost else 0.0))
  {
    ReserveNext(p, ops, charges, live, cost, now, cutoff);
  }

  const POLICY := Policy(0.025, 60.0)

  const COST := 0.01

  /** Three reservations, of which the third is degraded; a fourth, once the first two have
      expired, which is not; the degraded task settles; and two more reservations. */
  const OPS := [ReserveOp(COST, -59.0), ReserveOp(COST, -59.0), ReserveOp(COST, 0.0), ReserveOp(COST, 50.0),
                SettleOp(COST, 0.001, 55.0), ReserveOp(COST, 61.0), ReserveOp(COST, 61.0)]

  lemma FirstThree()
    ensures SoFar(POLICY, OPS[..3], [Charge(COST, -59.0), Charge(COST, -59.0), Charge(COST, 0.0)], 1.0, 0.0)
  {
    var a, d := Charge(COST, -59.0), Charge(COST, 0.0);
    assert SoFar(POLICY, [], [], 1.0, 0.0);
    ReserveSoFar(POLICY, [], [], [], COST, -59.0, 1.0, 0.0, [a]);
    assert [] + [OPS[0]] == OPS[..1] && OPS[..1] + [OPS[1]] == OPS[..2] && OPS[..2] + [OPS[2]] == OPS[..3];
    OneCharge(a, -119.0);
    ReserveSoFar(POLICY, OPS[..1], [a], [a], COST, -59.0, 1.0, 0.0, [a, a]);
    TwoCharges(a, a, -60.0);
    ReserveSoFar(POLICY, OPS[..2], [a, a], [a, a], COST, 0.0, 1.0, 0.0, [a, a, d]);
  }

  lemma OneLives(a: Charge, d: Charge)
    requires a.ts < -10.0 <= d.ts
    ensures Prune([a, a, d], -10.0) == [d] && Total([d]) == d.amount
  {
    OldPairGoes(a, a, d, -10.0);
    OneCharge(d, -10.0);
  }

  lemma NextOp(k: nat)
    requires k < |OPS|
    ensures OPS[..k] + [OPS[k]] == OPS[..k + 1]
  {
  }

  lemma FourthIsFree()
    ensures SoFar(POLICY, OPS[..4], [Charge(COST, 0.0), Charge(COST, 50.0)], 1.0, 0.01)
  {
    var a, d, f := Charge(COST, -59.0), Charge(COST, 0.0), Charge(COST, 50.0);
    FirstThree();
    OneLives(a, d);
    NextOp(3);
    ReserveSoFar(POLICY, OPS[..3], [a, a, d], [d], COST, 50.0, 1.0, 0.0, [d, f]);
  }

  lemma OldPairGoes(a: Charge, b: Charge, c: Charge, cutoff: real)
    requires a.ts < cutoff && b.ts < cutoff <= c.ts
    ensures Prune([a, b, c], cutoff) == [c]
  {
    assert [a, b, c][..2] == [a, b] && [a, b][..1] == [a];
    OneCharge(a, cutoff);
  }

  lemma SettledOnTheNewer()
    ensures SoFar(POLICY, OPS[..5], [Charge(COST, 0.0), Charge(0.001, 50.0)], 1.0, 0.01)
  {
    var d, f, low := Charge(COST, 0.0), Charge(COST, 50.0), Charge(0.001, 50.0);
    FourthIsFree();
    TwoCharges(d, f, -5.0);
    SettleNext(POLICY, OPS[..4], [d, f], [d, f], COST, 0.001, 55.0, 1.0);
    assert Revalue([d, f], COST, 0.001) == [d, low];
    NextOp(4);
  }

  lemma FifthIsFree()
    ensures SoFar(POLICY, OPS[..6], [Charge(0.001, 50.0), Charge(COST, 61.0)], 1.0, 0.02)
  {
    var d, low, g := Charge(COST, 0.0), Charge(0.001, 50.0), Charge(COST, 61.0);
    SettledOnTheNewer();
    LastOfTwo(d, low, 1.0);
    OneCharge(low, 1.0);
    ReserveSoFar(POLICY, OPS[..5], [d, low], [low], COST, 61.0, 1.0, 0.01, [low, g]);
    NextOp(5);
  }

  lemma SixthIsFree()
    ensures SoFar(POLICY, OPS, [Charge(0.001, 50.0), Charge(COST, 61.0), Charge(COST, 61.0)], 1.0, 0.03)
  {
    var low, g := Charge(0.001, 50.0), Charge(COST, 61.0);
    FifthIsFree();
    TwoCharges(low, g, 1.0);
    ReserveSoFar(POLICY, OPS[..6], [low, g], [low, g], COST, 61.0, 1.0, 0.02, [low, g, g]);
    assert OPS[..6] + [OPS[6]] == OPS;
  }

  /** Every settlement is in time, yet three non-degraded reservations of 0.01 fall within one
      window of 60 under a threshold of 0.025: the degraded task reserved at 0 settles at 55, while
      its own charge is live, on the newer charge reserved at 50. */
  lemma WindowBudgetCanBreak()
    ensures AllCosted(OPS) && NoneLater(OPS, 61.0)
    ensures WindowSpend(POLICY, OPS, 61.0 - POLICY.window) == 0.03 > POLICY.threshold
  {
    SixthIsFree();
    CostedInOrder();
    assert 61.0 - POLICY.window == 1.0;
  }

  lemma CostedInOrder()
    ensures AllCosted(OPS) && NoneLater(OPS, 61.0)
  {
  }
}
