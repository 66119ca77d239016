/** What the degradation threshold bounds even when rows are pruned early, clocks step back and
    `settle` revalues a row of another task: the charges inserted by non-degraded reservations. */
module FreeCharges {
  import opened AccountLedger

  /** A charge, whether its reservation was not degraded, and what that reservation asked for. */
  datatype Tagged = Tagged(charge: Charge, free: bool, asked: real)

  function Untag(tagged: seq<Tagged>): seq<Charge> {
    if tagged == [] then []
    else Untag(tagged[..|tagged| - 1]) + [tagged[|tagged| - 1].charge]
  }

  function PruneTagged(tagged: seq<Tagged>, cutoff: real): seq<Tagged> {
    if tagged == [] then []
    else
      var last := |tagged| - 1;
      if tagged[last].charge.ts < cutoff then PruneTagged(tagged[..last], cutoff)
      else PruneTagged(tagged[..last], cutoff) + [tagged[last]]
  }

  function RevalueTagged(tagged: seq<Tagged>, from: real, to: real): seq<Tagged> {
    if tagged == [] then []
    else
      var last := |tagged| - 1;
      var t := tagged[last];
      if t.charge.amount == from then tagged[..last] + [t.(charge := t.charge.(amount := to))]
      else RevalueTagged(tagged[..last], from, to) + [t]
  }

  /** The tagged charge a reservation inserts. */
  function Inserted(p: Policy, charges: seq<Charge>, cost: real, now: real): Tagged {
    Tagged(Charge(cost, now), !Reserve(p, charges, cost, now).1.degraded, cost)
  }

  function ApplyTagged(p: Policy, tagged: seq<Tagged>, op: Op): seq<Tagged> {
    var live := PruneTagged(tagged, op.now - p.window);
    match op
    case ReserveOp(cost, now) =>
      live + [Inserted(p, Untag(tagged), cost, now)]
    case SettleOp(reserved, actual, now) => RevalueTagged(live, reserved, actual)
    case BalanceOp(now, commits) => if commits then live else tagged
  }

  /** The ledger after a run, and the same with tags. */
  function After(p: Policy, ops: seq<Op>): seq<Charge> {
    if ops == [] then [] else Apply(p, After(p, ops[..|ops| - 1]), ops[|ops| - 1]).0
  }

  function AfterTagged(p: Policy, ops: seq<Op>): seq<Tagged> {
    if ops == [] then [] else ApplyTagged(p, AfterTagged(p, ops[..|ops| - 1]), ops[|ops| - 1])
  }

  function FreeTotal(tagged: seq<Tagged>): real {
    if tagged == [] then 0.0
    else
      var last := |tagged| - 1;
      FreeTotal(tagged[..last]) + (if tagged[last].free then tagged[last].charge.amount else 0.0)
  }

  /** Costs are nonnegative and a settlement never raises a charge. Clocks are arbitrary. */
  ghost predicate Costed(op: Op) {
    match op
    case ReserveOp(cost, _) => cost >= 0.0
    case SettleOp(reserved, actual, _) => 0.0 <= actual <= reserved
    case BalanceOp(_, _) => true
  }

  // ---- the tags change nothing -----------------------------------------------------------

  lemma UntagAppend(tagged: seq<Tagged>, t: Tagged)
    ensures Untag(tagged + [t]) == Untag(tagged) + [t.charge]
  {
    assert (tagged + [t])[..|tagged|] == tagged;
  }

  lemma {:induction false} UntagPrune(tagged: seq<Tagged>, cutoff: real)
    ensures Untag(PruneTagged(tagged, cutoff)) == Prune(Untag(tagged), cutoff)
  {
    if tagged != [] {
      var last := |tagged| - 1;
      UntagPrune(tagged[..last], cutoff);
      UntagAppend(PruneTagged(tagged[..last], cutoff), tagged[last]);
      PruneAppend(Untag(tagged[..last]), tagged[last].charge, cutoff);
    }
  }

  lemma {:induction false} UntagRevalue(tagged: seq<Tagged>, from: real, to: real)
    ensures Untag(RevalueTagged(tagged, from, to)) == Revalue(Untag(tagged), from, to)
  {
    if tagged != [] {
      var last := |tagged| - 1;
      var front, t := tagged[..last], tagged[last];
      assert Untag(tagged)[..|Untag(tagged)| - 1] == Untag(front);
      if t.charge.amount == from {
        UntagAppend(front, t.(charge := t.charge.(amount := to)));
      } else {
        UntagRevalue(front, from, to);
        UntagAppend(RevalueTagged(front, from, to), t);
      }
    }
  }

  lemma ApplyTaggedErases(p: Policy, tagged: seq<Tagged>, op: Op)
    ensures Untag(ApplyTagged(p, tagged, op)) == Apply(p, Untag(tagged), op).0
  {
    var live := PruneTagged(tagged, op.now - p.window);
    UntagPrune(tagged, op.now - p.window);
    match op {
      case ReserveOp(cost, now) =>
        ReserveOn(p, Untag(tagged), cost, now, Untag(live));
        UntagAppend(live, Inserted(p, Untag(tagged), cost, now));
      case SettleOp(reserved, actual, now) =>
        SettleOn(p, Untag(tagged), reserved, actual, now, Untag(live));
        UntagRevalue(live, reserved, actual);
      case BalanceOp(now, commits) =>
    }
  }

  lemma {:induction false} TagsAreInert(p: Policy, ops: seq<Op>)
    ensures Untag(AfterTagged(p, ops)) == After(p, ops)
  {
    if ops != [] {
      TagsAreInert(p, ops[..|ops| - 1]);
      ApplyTaggedErases(p, AfterTagged(p, ops[..|ops| - 1]), ops[|ops| - 1]);
    }
  }

  // ---- the bound -------------------------------------------------------------------------

  lemma {:induction false} FreeAtMostTotal(tagged: seq<Tagged>)
    requires NonNegative(Untag(tagged))
    ensures 0.0 <= FreeTotal(tagged) <= Total(Untag(tagged))
  {
    if tagged != [] {
      var front, t := tagged[..|tagged| - 1], tagged[|tagged| - 1];
      AppendNonNegative(Untag(front), t.charge);
      FreeAtMostTotal(front);
      AppendCharge(Untag(front), t.charge);
    }
  }

  lemma FreeAppend(tagged: seq<Tagged>, t: Tagged)
    ensures FreeTotal(tagged + [t]) == FreeTotal(tagged) + (if t.free then t.charge.amount else 0.0)
  {
    assert (tagged + [t])[..|tagged|] == tagged;
  }

  lemma {:induction false} FreePrune(tagged: seq<Tagged>, cutoff: real)
    requires NonNegative(Untag(tagged))
    ensures FreeTotal(PruneTagged(tagged, cutoff)) <= FreeTotal(tagged)
  {
    if tagged != [] {
      var front, t := tagged[..|tagged| - 1], tagged[|tagged| - 1];
      AppendNonNegative(Untag(front), t.charge);
      FreePrune(front, cutoff);
      if t.charge.ts >= cutoff {
        FreeAppend(PruneTagged(front, cutoff), t);
      }
    }
  }

  lemma {:induction false} FreeRevalue(tagged: seq<Tagged>, from: real, to: real)
    requires to <= from
    ensures FreeTotal(RevalueTagged(tagged, from, to)) <= FreeTotal(tagged)
  {
    if tagged != [] {
      var front, t := tagged[..|tagged| - 1], tagged[|tagged| - 1];
      if t.charge.amount == from {
        FreeAppend(front, t.(charge := t.charge.(amount := to)));
      } else {
        FreeRevalue(front, from, to);
        FreeAppend(RevalueTagged(front, from, to), t);
      }
    }
  }

  /** Amounts stay nonnegative. */
  lemma AppliedNonNegative(p: Policy, charges: seq<Charge>, op: Op)
    requires NonNegative(charges) && Costed(op)
    ensures NonNegative(Apply(p, charges, op).0)
    ensures NonNegative(Prune(charges, op.now - p.window))
  {
    var live := Prune(charges, op.now - p.window);
    PruneNeverRaises(charges, op.now - p.window);
    match op
    case ReserveOp(cost, now) =>
      ReserveOn(p, charges, cost, now, live);
      AppendNonNegative(live, Charge(cost, now));
    case SettleOp(reserved, actual, now) => SettleNeverRaises(p, charges, reserved, actual, now);
    case BalanceOp(_, _) =>
  }

  ghost predicate AllCosted(ops: seq<Op>) {
    forall k :: 0 <= k < |ops| ==> Costed(ops[k])
  }

  lemma {:induction false} AfterNonNegative(p: Policy, ops: seq<Op>)
    requires AllCosted(ops)
    ensures NonNegative(Untag(AfterTagged(p, ops)))
  {
    if ops != [] {
      var before, op := AfterTagged(p, ops[..|ops| - 1]), ops[|ops| - 1];
      AfterNonNegative(p, ops[..|ops| - 1]);
      ApplyTaggedErases(p, before, op);
      AppliedNonNegative(p, Untag(before), op);
    }
  }

  /** The tag of an inserted charge says that the live charges and the new one stay below the
      threshold, so that the free ones among them do. */
  lemma InsertedWithin(p: Policy, tagged: seq<Tagged>, cost: real, now: real)
    requires NonNegative(Untag(tagged)) && cost >= 0.0
    ensures var live := PruneTagged(tagged, now - p.window);
            var t := Inserted(p, Untag(tagged), cost, now);
            t.free ==> FreeTotal(live) + t.charge.amount < p.threshold && p.threshold > 0.0
  {
    var live := PruneTagged(tagged, now - p.window);
    UntagPrune(tagged, now - p.window);
    PruneNeverRaises(Untag(tagged), now - p.window);
    FreeAtMostTotal(live);
    ReserveOn(p, Untag(tagged), cost, now, Untag(live));
  }

  /** The charges of non-degraded reservations stay below the threshold. */
  ghost predicate Within(p: Policy, tagged: seq<Tagged>) {
    FreeTotal(tagged) < p.threshold
  }

  lemma ReserveWithin(p: Policy, before: seq<Tagged>, cost: real, now: real)
    requires NonNegative(Untag(before)) && cost >= 0.0 && Within(p, PruneTagged(before, now - p.window))
    ensures Within(p, PruneTagged(before, now - p.window) + [Inserted(p, Untag(before), cost, now)])
  {
    InsertedWithin(p, before, cost, now);
    FreeAppend(PruneTagged(before, now - p.window), Inserted(p, Untag(before), cost, now));
  }

  lemma PruneWithin(p: Policy, before: seq<Tagged>, cutoff: real)
    requires NonNegative(Untag(before)) && Within(p, before)
    ensures Within(p, PruneTagged(before, cutoff))
  {
    FreePrune(before, cutoff);
  }

  lemma RevalueWithin(p: Policy, live: seq<Tagged>, from: real, to: real)
    requires to <= from && Within(p, live)
    ensures Within(p, RevalueTagged(live, from, to))
  {
    FreeRevalue(live, from, to);
  }

  lemma AppliedWithin(p: Policy, before: seq<Tagged>, op: Op)
    requires NonNegative(Untag(before)) && Costed(op) && Within(p, before)
    ensures Within(p, ApplyTagged(p, before, op))
  {
    PruneWithin(p, before, op.now - p.window);
    match op
    case ReserveOp(cost, now) => ReserveWithin(p, before, cost, now);
    case SettleOp(reserved, actual, now) => RevalueWithin(p, PruneTagged(before, now - p.window), reserved, actual);
    case BalanceOp(_, _) =>
  }

  /** After any run at all, the surviving charges of non-degraded reservations sum to strictly
      less than a positive threshold. */
  lemma {:induction false} FreeTotalBelowThreshold(p: Policy, ops: seq<Op>)
    requires p.threshold > 0.0 && AllCosted(ops)
    ensures NonNegative(Untag(AfterTagged(p, ops)))
    ensures FreeTotal(AfterTagged(p, ops)) < p.threshold
  {
    AfterNonNegative(p, ops);
    if ops != [] {
      FreeTotalBelowThreshold(p, ops[..|ops| - 1]);
      AppliedWithin(p, AfterTagged(p, ops[..|ops| - 1]), ops[|ops| - 1]);
    }
  }

  ghost predicate NoneFree(tagged: seq<Tagged>) {
    forall k :: 0 <= k < |tagged| ==> !tagged[k].free
  }

  /** A threshold of zero or less degrades every reservation. */
  lemma {:induction false} NoFreeReservation(p: Policy, ops: seq<Op>)
    requires p.threshold <= 0.0 && AllCosted(ops)
    ensures NonNegative(Untag(AfterTagged(p, ops))) && NoneFree(AfterTagged(p, ops))
  {
    AfterNonNegative(p, ops);
    if ops != [] {
      var before, op := AfterTagged(p, ops[..|ops| - 1]), ops[|ops| - 1];
      NoFreeReservation(p, ops[..|ops| - 1]);
      PruneKeepsTags(before, op.now - p.window);
      match op
      case ReserveOp(cost, now) => InsertedWithin(p, before, cost, now);
      case SettleOp(reserved, actual, now) =>
        RevalueKeepsTags(PruneTagged(before, now - p.window), reserved, actual);
      case BalanceOp(_, _) =>
    }
  }

  lemma {:induction false} PruneKeepsTags(tagged: seq<Tagged>, cutoff: real)
    requires NoneFree(tagged)
    ensures NoneFree(PruneTagged(tagged, cutoff))
  {
    if tagged != [] {
      PruneKeepsTags(tagged[..|tagged| - 1], cutoff);
    }
  }

  lemma {:induction false} RevalueKeepsTags(tagged: seq<Tagged>, from: real, to: real)
    requires NoneFree(tagged)
    ensures NoneFree(RevalueTagged(tagged, from, to))
  {
    if tagged != [] {
      RevalueKeepsTags(tagged[..|tagged| - 1], from, to);
    }
  }
}
