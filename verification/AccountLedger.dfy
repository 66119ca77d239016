/** The rolling-window ledger of one account, as a list of charges in id order. Both stores are
    proved against these functions. Lists are taken apart from the newest charge backwards. */
module AccountLedger {

  datatype Charge = Charge(amount: real, ts: real)

  datatype Policy = Policy(threshold: real, window: real)

  datatype Reservation = Reservation(degraded: bool, projected: real, balance: real)

  /** Drop the charges older than `cutoff`. */
  function Prune(charges: seq<Charge>, cutoff: real): seq<Charge> {
    if charges == [] then []
    else
      var last := |charges| - 1;
      if charges[last].ts < cutoff then Prune(charges[..last], cutoff)
      else Prune(charges[..last], cutoff) + [charges[last]]
  }

  function Total(charges: seq<Charge>): real {
    if charges == [] then 0.0
    else Total(charges[..|charges| - 1]) + charges[|charges| - 1].amount
  }

  /** Give the newest charge of exactly `from` the amount `to`; no such charge, no change. */
  function Revalue(charges: seq<Charge>, from: real, to: real): (r: seq<Charge>)
    ensures |r| == |charges|
  {
    if charges == [] then []
    else
      var last := |charges| - 1;
      if charges[last].amount == from then charges[..last] + [charges[last].(amount := to)]
      else Revalue(charges[..last], from, to) + [charges[last]]
  }

  function Reserve(p: Policy, charges: seq<Charge>, cost: real, now: real): (seq<Charge>, Reservation) {
    var live := Prune(charges, now - p.window);
    var balance := Total(live) + cost;
    (live + [Charge(cost, now)], Reservation(balance >= p.threshold, cost, balance))
  }

  function Settle(p: Policy, charges: seq<Charge>, reserved: real, actual: real, now: real): (seq<Charge>, real) {
    var settled := Revalue(Prune(charges, now - p.window), reserved, actual);
    (settled, Total(settled))
  }

  // ---- one account's operations, and runs of them ----------------------------------------

  /** `BalanceOp.commits` tells whether the store commits the prune a balance read performs:
      the Postgres store does, the SQLite store closes the connection without committing. */
  datatype Op =
    | ReserveOp(cost: real, now: real)
    | SettleOp(reserved: real, actual: real, now: real)
    | BalanceOp(now: real, commits: bool)

  datatype Answer = Reserved(reservation: Reservation) | Settled(balance: real) | BalanceIs(balance: real)

  function Apply(p: Policy, charges: seq<Charge>, op: Op): (seq<Charge>, Answer) {
    match op
    case ReserveOp(cost, now) =>
      var (after, reservation) := Reserve(p, charges, cost, now);
      (after, Reserved(reservation))
    case SettleOp(reserved, actual, now) =>
      var (after, balance) := Settle(p, charges, reserved, actual, now);
      (after, Settled(balance))
    case BalanceOp(now, commits) =>
      var live := Prune(charges, now - p.window);
      (if commits then live else charges, BalanceIs(Total(live)))
  }

  function Answers(p: Policy, charges: seq<Charge>, ops: seq<Op>): seq<Answer>
    decreases |ops|
  {
    if ops == [] then []
    else
      var (after, answer) := Apply(p, charges, ops[0]);
      [answer] + Answers(p, after, ops[1..])
  }

  // ---- sums and multisets ----------------------------------------------------------------

  function Amounts(charges: seq<Charge>): multiset<real> {
    if charges == [] then multiset{}
    else Amounts(charges[..|charges| - 1]) + multiset{charges[|charges| - 1].amount}
  }

  ghost predicate NoneOlder(charges: seq<Charge>, cutoff: real) {
    forall k :: 0 <= k < |charges| ==> charges[k].ts >= cutoff
  }

  lemma {:induction false} PruneKeepsAll(charges: seq<Charge>, cutoff: real)
    requires NoneOlder(charges, cutoff)
    ensures Prune(charges, cutoff) == charges
  {
    if charges != [] {
      var last := |charges| - 1;
      PruneKeepsAll(charges[..last], cutoff);
      assert charges == charges[..last] + [charges[last]];
    }
  }

  lemma AppendCharge(charges: seq<Charge>, c: Charge)
    ensures Total(charges + [c]) == Total(charges) + c.amount
    ensures Amounts(charges + [c]) == Amounts(charges) + multiset{c.amount}
  {
    assert (charges + [c])[..|charges|] == charges;
  }

  lemma PruneAppend(charges: seq<Charge>, c: Charge, cutoff: real)
    ensures Prune(charges + [c], cutoff)
            == if c.ts < cutoff then Prune(charges, cutoff) else Prune(charges, cutoff) + [c]
  {
    assert (charges + [c])[..|charges|] == charges;
  }

  lemma {:induction false} PruneAgain(charges: seq<Charge>, early: real, late: real)
    requires early <= late
    ensures Prune(Prune(charges, early), late) == Prune(charges, late)
  {
    if charges != [] {
      var last := |charges| - 1;
      var front := Prune(charges[..last], early);
      PruneAgain(charges[..last], early, late);
      if charges[last].ts >= early {
        assert (front + [charges[last]])[..|front|] == front;
      }
    }
  }

  lemma {:induction false} PruneLeavesLive(charges: seq<Charge>, cutoff: real)
    ensures NoneOlder(Prune(charges, cutoff), cutoff)
  {
    if charges != [] {
      PruneLeavesLive(charges[..|charges| - 1], cutoff);
    }
  }

  lemma {:induction false} RevalueKeepsAges(charges: seq<Charge>, from: real, to: real, cutoff: real)
    ensures forall k :: 0 <= k < |charges| ==> Revalue(charges, from, to)[k].ts == charges[k].ts
    ensures NoneOlder(charges, cutoff) ==> NoneOlder(Revalue(charges, from, to), cutoff)
  {
    if charges != [] {
      RevalueKeepsAges(charges[..|charges| - 1], from, to, cutoff);
    }
  }

  lemma OneCharge(b: Charge, cutoff: real)
    ensures Prune([b], cutoff) == if b.ts < cutoff then [] else [b]
    ensures Total([b]) == b.amount
  {
    assert [b][..0] == [];
  }

  lemma TwoCharges(b: Charge, c: Charge, cutoff: real)
    requires b.ts >= cutoff && c.ts >= cutoff
    ensures Prune([b, c], cutoff) == [b, c]
    ensures Total([b, c]) == b.amount + c.amount
  {
    assert [b, c][..1] == [b];
    OneCharge(b, cutoff);
  }

  lemma SwapUnit(m: multiset<real>, from: real, to: real, other: real)
    requires from in m
    ensures m - multiset{from} + multiset{to} + multiset{other} == m + multiset{other} - multiset{from} + multiset{to}
  {
  }

  /** Revaluing moves one unit of the multiset and shifts the total, whichever row it hits. */
  lemma {:induction false} RevalueEffect(charges: seq<Charge>, from: real, to: real)
    ensures from in Amounts(charges) ==>
              && Amounts(Revalue(charges, from, to)) == Amounts(charges) - multiset{from} + multiset{to}
              && Total(Revalue(charges, from, to)) == Total(charges) - from + to
    ensures from !in Amounts(charges) ==> Revalue(charges, from, to) == charges
  {
    if charges != [] {
      var last := |charges| - 1;
      var front, c := charges[..last], charges[last];
      assert charges == front + [c];
      AppendCharge(front, c);
      if c.amount == from {
        AppendCharge(front, c.(amount := to));
      } else {
        RevalueEffect(front, from, to);
        AppendCharge(Revalue(front, from, to), c);
        if from in Amounts(front) {
          SwapUnit(Amounts(front), from, to, c.amount);
        }
      }
    }
  }

  /** Where `settle` lands: the newest charge of the reserved amount, and nowhere else. */
  lemma {:induction false} RevalueHitsNewest(charges: seq<Charge>, from: real, to: real) returns (k: nat)
    requires from in Amounts(charges)
    ensures k < |charges| && charges[k].amount == from
    ensures forall j :: k < j < |charges| ==> charges[j].amount != from
    ensures Revalue(charges, from, to) == charges[k := charges[k].(amount := to)]
  {
    k := |charges| - 1;
    if charges[k].amount == from {
      assert charges[..k] + [charges[k].(amount := to)] == charges[k := charges[k].(amount := to)];
    } else {
      var last := k;
      k := RevalueHitsNewest(charges[..last], from, to);
      assert charges[..last][k := charges[k].(amount := to)] + [charges[last]]
          == charges[k := charges[k].(amount := to)];
    }
  }

  /** `settle` is not idempotent: repeated, it takes the next charge of the same amount. */
  lemma RevalueTwice(charges: seq<Charge>, from: real, to: real)
    ensures var once := Revalue(charges, from, to);
            Revalue(once, from, to) == once <==> from == to || Amounts(charges)[from] <= 1
  {
    var once := Revalue(charges, from, to);
    RevalueEffect(charges, from, to);
    RevalueEffect(once, from, to);
    if from == to {
      RevalueSame(charges, from);
    } else if from in Amounts(charges) {
      assert Amounts(once)[from] == Amounts(charges)[from] - 1;
      if from in Amounts(once) {
        assert Amounts(Revalue(once, from, to))[from] == Amounts(once)[from] - 1;
      }
    }
  }

  /** A repeated `settle`, with the prune it makes at its own clock reading: beyond what expired
      meanwhile it changes nothing exactly when it changes no amount or no live charge is left at
      the reserved amount; at the same reading, when at most one live charge had that amount. */
  lemma SettleTwice(p: Policy, charges: seq<Charge>, reserved: real, actual: real, now: real, again: real)
    ensures var once := Settle(p, charges, reserved, actual, now).0;
            var left := Prune(once, again - p.window);
            Settle(p, once, reserved, actual, again).0 == left <==> reserved == actual || reserved !in Amounts(left)
    ensures var once := Settle(p, charges, reserved, actual, now).0;
            Settle(p, once, reserved, actual, now).0 == once
            <==> reserved == actual || Amounts(Prune(charges, now - p.window))[reserved] <= 1
  {
    var live := Prune(charges, now - p.window);
    var once := Revalue(live, reserved, actual);
    SettleOn(p, charges, reserved, actual, now, live);
    var left := Prune(once, again - p.window);
    SettleOn(p, once, reserved, actual, again, left);
    RevalueChanges(left, reserved, actual);
    SettledStaysLive(charges, reserved, actual, now - p.window);
    SettleOn(p, once, reserved, actual, now, once);
    RevalueTwice(live, reserved, actual);
  }

  lemma RevalueChanges(charges: seq<Charge>, from: real, to: real)
    ensures Revalue(charges, from, to) == charges <==> from == to || from !in Amounts(charges)
  {
    RevalueEffect(charges, from, to);
    if from == to {
      RevalueSame(charges, from);
    } else if from in Amounts(charges) {
      assert Amounts(Revalue(charges, from, to))[from] == Amounts(charges)[from] - 1;
    }
  }

  lemma SettledStaysLive(charges: seq<Charge>, from: real, to: real, cutoff: real)
    ensures var once := Revalue(Prune(charges, cutoff), from, to); Prune(once, cutoff) == once
  {
    PruneLeavesLive(charges, cutoff);
    RevalueKeepsAges(Prune(charges, cutoff), from, to, cutoff);
    PruneKeepsAll(Revalue(Prune(charges, cutoff), from, to), cutoff);
  }

  lemma {:induction false} RevalueSame(charges: seq<Charge>, amount: real)
    ensures Revalue(charges, amount, amount) == charges
  {
    if charges != [] {
      RevalueSame(charges[..|charges| - 1], amount);
      assert charges == charges[..|charges| - 1] + [charges[|charges| - 1]];
    }
  }

  ghost predicate NonNegative(charges: seq<Charge>) {
    charges == []
    || (NonNegative(charges[..|charges| - 1]) && charges[|charges| - 1].amount >= 0.0)
  }

  lemma AppendNonNegative(charges: seq<Charge>, c: Charge)
    ensures NonNegative(charges + [c]) <==> NonNegative(charges) && c.amount >= 0.0
  {
    assert (charges + [c])[..|charges|] == charges;
  }

  lemma {:induction false} PruneNeverRaises(charges: seq<Charge>, cutoff: real)
    requires NonNegative(charges)
    ensures NonNegative(Prune(charges, cutoff)) && 0.0 <= Total(Prune(charges, cutoff)) <= Total(charges)
  {
    if charges != [] {
      var last := |charges| - 1;
      PruneNeverRaises(charges[..last], cutoff);
      AppendCharge(Prune(charges[..last], cutoff), charges[last]);
      AppendNonNegative(Prune(charges[..last], cutoff), charges[last]);
    }
  }

  lemma {:induction false} RevalueNeverRaises(charges: seq<Charge>, from: real, to: real)
    requires NonNegative(charges) && 0.0 <= to <= from
    ensures NonNegative(Revalue(charges, from, to)) && Total(Revalue(charges, from, to)) <= Total(charges)
  {
    if charges != [] {
      var last := |charges| - 1;
      RevalueNeverRaises(charges[..last], from, to);
      AppendCharge(charges[..last], charges[last].(amount := to));
      AppendNonNegative(charges[..last], charges[last].(amount := to));
      AppendCharge(Revalue(charges[..last], from, to), charges[last]);
      AppendNonNegative(Revalue(charges[..last], from, to), charges[last]);
    }
  }

  /** What `Reserve` and `Settle` return, given what pruning leaves. */
  lemma ReserveOn(p: Policy, charges: seq<Charge>, cost: real, now: real, live: seq<Charge>)
    requires live == Prune(charges, now - p.window)
    ensures Reserve(p, charges, cost, now).0 == live + [Charge(cost, now)]
    ensures Reserve(p, charges, cost, now).1
            == Reservation(Total(live) + cost >= p.threshold, cost, Total(live) + cost)
  {
  }

  lemma SettleOn(p: Policy, charges: seq<Charge>, reserved: real, actual: real, now: real, live: seq<Charge>)
    requires live == Prune(charges, now - p.window)
    ensures Settle(p, charges, reserved, actual, now).0 == Revalue(live, reserved, actual)
    ensures Settle(p, charges, reserved, actual, now).1 == Total(Revalue(live, reserved, actual))
  {
  }

  /** What `reserve` and `settle` answer is the balance the account then holds: all its live charges,
      the new one or the revalued one included. */
  lemma AnswersAreBalances(p: Policy, charges: seq<Charge>, cost: real, reserved: real, actual: real, now: real)
    ensures Reserve(p, charges, cost, now).1.balance == Total(Reserve(p, charges, cost, now).0)
    ensures Settle(p, charges, reserved, actual, now).1 == Total(Settle(p, charges, reserved, actual, now).0)
  {
    var live := Prune(charges, now - p.window);
    ReserveOn(p, charges, cost, now, live);
    SettleOn(p, charges, reserved, actual, now, live);
    AppendCharge(live, Charge(cost, now));
  }

  /** The ledger after an operation on `before`, and its balance, no higher than it was. */
  ghost predicate NoHigher(before: seq<Charge>, after: seq<Charge>, balance: real) {
    NonNegative(after) && balance <= Total(before)
  }

  lemma LiveRevalueNeverRaises(charges: seq<Charge>, from: real, to: real, cutoff: real)
    requires NonNegative(charges) && 0.0 <= to <= from
    ensures var settled := Revalue(Prune(charges, cutoff), from, to);
            NoHigher(charges, settled, Total(settled))
  {
    PruneNeverRaises(charges, cutoff);
    RevalueNeverRaises(Prune(charges, cutoff), from, to);
  }

  lemma SettledNoHigher(p: Policy, charges: seq<Charge>, reserved: real, actual: real, now: real)
    returns (settled: seq<Charge>, balance: real)
    requires NonNegative(charges) && 0.0 <= actual <= reserved
    ensures NoHigher(charges, settled, balance)
    ensures Settle(p, charges, reserved, actual, now).0 == settled && Settle(p, charges, reserved, actual, now).1 == balance
  {
    LiveRevalueNeverRaises(charges, reserved, actual, now - p.window);
    SettleOn(p, charges, reserved, actual, now, Prune(charges, now - p.window));
    settled := Revalue(Prune(charges, now - p.window), reserved, actual);
    balance := Total(settled);
  }

  /** Settling at no more than the reserved amount never raises the balance, whichever row it hits
      and whatever it prunes. */
  lemma SettleNeverRaises(p: Policy, charges: seq<Charge>, reserved: real, actual: real, now: real)
    requires NonNegative(charges) && 0.0 <= actual <= reserved
    ensures NoHigher(charges, Settle(p, charges, reserved, actual, now).0, Settle(p, charges, reserved, actual, now).1)
  {
    var settled, balance := SettledNoHigher(p, charges, reserved, actual, now);
    assert Settle(p, charges, reserved, actual, now) == (settled, balance);
  }

  /** A task settling after its own charge has expired takes another task's: of two reservations
      of 5.0 the first expires before it settles at 1.0, and what is left is the second's charge,
      lowered to a cost its task never had. */
  lemma ExpiredTakesAnother()
    ensures var p := Policy(10.0, 60.0);
            var first := Reserve(p, [], 5.0, 0.0).0;
            var both := Reserve(p, first, 5.0, 50.0).0;
            && both == [Charge(5.0, 0.0), Charge(5.0, 50.0)]
            && Settle(p, both, 5.0, 1.0, 70.0) == ([Charge(1.0, 50.0)], 1.0)
  {
    var p := Policy(10.0, 60.0);
    var a, b := Charge(5.0, 0.0), Charge(5.0, 50.0);
    OneCharge(a, -10.0);
    OneCharge(Charge(1.0, 50.0), 10.0);
    assert Reserve(p, [], 5.0, 0.0).0 == [a];
    assert Reserve(p, [a], 5.0, 50.0).0 == [a, b];
    LastOfTwo(a, b, 10.0);
    SettleOn(p, [a, b], 5.0, 1.0, 70.0, [b]);
    assert Revalue([b], 5.0, 1.0) == [Charge(1.0, 50.0)];
  }

  lemma LastOfTwo(b: Charge, c: Charge, cutoff: real)
    requires b.ts < cutoff <= c.ts
    ensures Prune([b, c], cutoff) == [c]
  {
    assert [b, c][..1] == [b];
    OneCharge(b, cutoff);
  }
}
