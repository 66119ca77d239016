/** When destructive pruning can be told from a ledger that keeps every charge and only filters by
    the window: exactly when an operation that deletes read a later clock than one after it. */
module KeepingLedger {
  import opened AccountLedger

  /** Revalue, looking only at charges no older than `cutoff`. */
  function RevalueLive(charges: seq<Charge>, from: real, to: real, cutoff: real): seq<Charge> {
    if charges == [] then []
    else
      var last := |charges| - 1;
      if charges[last].amount == from && charges[last].ts >= cutoff then
        charges[..last] + [charges[last].(amount := to)]
      else RevalueLive(charges[..last], from, to, cutoff) + [charges[last]]
  }

  /** The same operations on a ledger that never deletes: the window only filters what is summed
      and what may be revalued. */
  function ApplyKeeping(p: Policy, charges: seq<Charge>, op: Op): (seq<Charge>, Answer) {
    var cutoff := op.now - p.window;
    match op
    case ReserveOp(cost, now) =>
      var balance := Total(Prune(charges, cutoff)) + cost;
      (charges + [Charge(cost, now)], Reserved(Reservation(balance >= p.threshold, cost, balance)))
    case SettleOp(reserved, actual, now) =>
      var settled := RevalueLive(charges, reserved, actual, cutoff);
      (settled, Settled(Total(Prune(settled, cutoff))))
    case BalanceOp(now, commits) =>
      (charges, BalanceIs(Total(Prune(charges, cutoff))))
  }

  function AnswersKeeping(p: Policy, charges: seq<Charge>, ops: seq<Op>): seq<Answer>
    decreases |ops|
  {
    if ops == [] then []
    else
      var (after, answer) := ApplyKeeping(p, charges, ops[0]);
      [answer] + AnswersKeeping(p, after, ops[1..])
  }

  /** Whether the operation's prune is committed. */
  predicate Deletes(op: Op) {
    op.BalanceOp? ==> op.commits
  }

  /** No operation that deletes read a later clock than an operation after it. */
  ghost predicate DeletesInOrder(ops: seq<Op>) {
    forall i, j :: 0 <= i < j < |ops| && Deletes(ops[i]) ==> ops[i].now <= ops[j].now
  }

  // ---- in order: nothing shows -----------------------------------------------------------

  /** Revaluing among the live rows and then filtering is filtering and then revaluing. */
  lemma {:induction false} RevalueCommutes(charges: seq<Charge>, from: real, to: real, cutoff: real, later: real)
    requires cutoff <= later
    ensures Prune(RevalueLive(charges, from, to, cutoff), later)
            == Prune(Revalue(Prune(charges, cutoff), from, to), later)
  {
    if charges != [] {
      var last := |charges| - 1;
      var c := charges[last];
      var front := Prune(charges[..last], cutoff);
      if c.ts >= cutoff {
        assert (front + [c])[..|front|] == front;
      }
      if c.amount == from && c.ts >= cutoff {
        PruneAppend(charges[..last], c.(amount := to), later);
        PruneAppend(front, c.(amount := to), later);
        PruneAgain(charges[..last], cutoff, later);
      } else {
        RevalueCommutes(charges[..last], from, to, cutoff, later);
        PruneAppend(RevalueLive(charges[..last], from, to, cutoff), c, later);
        if c.ts >= cutoff {
          PruneAppend(Revalue(front, from, to), c, later);
        }
      }
    }
  }

  /** Two ledgers no query at or after `bound` can tell apart. */
  ghost predicate AgreeFrom(a: seq<Charge>, b: seq<Charge>, bound: real) {
    forall cutoff: real :: cutoff >= bound ==> Prune(a, cutoff) == Prune(b, cutoff)
  }

  lemma ReserveAgrees(pruned: seq<Charge>, kept: seq<Charge>, c: Charge, cutoff: real)
    requires AgreeFrom(pruned, kept, cutoff)
    ensures AgreeFrom(Prune(pruned, cutoff) + [c], kept + [c], cutoff)
  {
    forall later: real | later >= cutoff
      ensures Prune(Prune(pruned, cutoff) + [c], later) == Prune(kept + [c], later)
    {
      PruneAgain(pruned, cutoff, later);
      PruneAppend(Prune(pruned, cutoff), c, later);
      PruneAppend(kept, c, later);
    }
  }

  lemma SettleAgrees(pruned: seq<Charge>, kept: seq<Charge>, reserved: real, actual: real, cutoff: real)
    requires AgreeFrom(pruned, kept, cutoff)
    ensures var settled := Revalue(Prune(pruned, cutoff), reserved, actual);
            && AgreeFrom(settled, RevalueLive(kept, reserved, actual, cutoff), cutoff)
            && settled == Prune(RevalueLive(kept, reserved, actual, cutoff), cutoff)
  {
    var live := Prune(pruned, cutoff);
    assert live == Prune(kept, cutoff);
    forall later: real | later >= cutoff
      ensures Prune(Revalue(live, reserved, actual), later)
              == Prune(RevalueLive(kept, reserved, actual, cutoff), later)
    {
      RevalueCommutes(kept, reserved, actual, cutoff, later);
    }
    PruneLeavesLive(pruned, cutoff);
    RevalueKeepsAges(live, reserved, actual, cutoff);
    PruneKeepsAll(Revalue(live, reserved, actual), cutoff);
  }

  lemma BalanceAgrees(pruned: seq<Charge>, kept: seq<Charge>, cutoff: real)
    requires AgreeFrom(pruned, kept, cutoff)
    ensures AgreeFrom(Prune(pruned, cutoff), kept, cutoff)
  {
    forall later: real | later >= cutoff
      ensures Prune(Prune(pruned, cutoff), later) == Prune(kept, later)
    {
      PruneAgain(pruned, cutoff, later);
    }
  }

  lemma ApplyAgrees(p: Policy, pruned: seq<Charge>, kept: seq<Charge>, op: Op)
    requires AgreeFrom(pruned, kept, op.now - p.window)
    ensures Apply(p, pruned, op).1 == ApplyKeeping(p, kept, op).1
    ensures AgreeFrom(Apply(p, pruned, op).0, ApplyKeeping(p, kept, op).0, op.now - p.window)
  {
    var cutoff := op.now - p.window;
    assert Prune(pruned, cutoff) == Prune(kept, cutoff);
    match op
    case ReserveOp(cost, now) => ReserveAgrees(pruned, kept, Charge(cost, now), cutoff);
    case SettleOp(reserved, actual, now) => SettleAgrees(pruned, kept, reserved, actual, cutoff);
    case BalanceOp(now, commits) => BalanceAgrees(pruned, kept, cutoff);
  }

  lemma {:induction false} AnswersAgree(p: Policy, pruned: seq<Charge>, kept: seq<Charge>, ops: seq<Op>, bound: real)
    requires DeletesInOrder(ops) && AgreeFrom(pruned, kept, bound)
    requires forall k :: 0 <= k < |ops| ==> bound <= ops[k].now - p.window
    ensures Answers(p, pruned, ops) == AnswersKeeping(p, kept, ops)
    decreases |ops|
  {
    if ops != [] {
      var op := ops[0];
      ApplyAgrees(p, pruned, kept, op);
      var next := if Deletes(op) then op.now - p.window else bound;
      AnswersAgree(p, Apply(p, pruned, op).0, ApplyKeeping(p, kept, op).0, ops[1..], next);
    }
  }

  lemma {:induction false} BoundBelow(p: Policy, ops: seq<Op>) returns (bound: real)
    ensures forall k :: 0 <= k < |ops| ==> bound <= ops[k].now - p.window
  {
    bound := 0.0;
    if ops != [] {
      var last := |ops| - 1;
      bound := BoundBelow(p, ops[..last]);
      if ops[last].now - p.window < bound {
        bound := ops[last].now - p.window;
      }
    }
  }

  // ---- out of order: one old charge shows it ---------------------------------------------

  function BalanceOf(answer: Answer): real {
    match answer
    case Reserved(reservation) => reservation.balance
    case Settled(balance) => balance
    case BalanceIs(balance) => balance
  }

  /** No settlement asks for the amount. */
  ghost predicate NeverSettled(ops: seq<Op>, amount: real) {
    forall k :: 0 <= k < |ops| && ops[k].SettleOp? ==> ops[k].reserved != amount
  }

  lemma {:induction false} PruneFirst(b: Charge, rest: seq<Charge>, cutoff: real)
    ensures Prune([b] + rest, cutoff) == (if b.ts < cutoff then Prune(rest, cutoff) else [b] + Prune(rest, cutoff))
  {
    if rest == [] {
      assert [b] + rest == [] + [b];
      PruneAppend([], b, cutoff);
    } else {
      var front, c := rest[..|rest| - 1], rest[|rest| - 1];
      assert [b] + rest == ([b] + front) + [c];
      PruneFirst(b, front, cutoff);
      PruneAppend([b] + front, c, cutoff);
    }
  }

  lemma {:induction false} RevalueFirst(b: Charge, rest: seq<Charge>, from: real, to: real)
    requires b.amount != from
    ensures Revalue([b] + rest, from, to) == [b] + Revalue(rest, from, to)
  {
    if rest == [] {
      assert [b] + rest == [b] && [b][..0] == [];
    } else {
      var front := rest[..|rest| - 1];
      assert ([b] + rest)[..|rest|] == [b] + front;
      RevalueFirst(b, front, from, to);
    }
  }

  lemma {:induction false} RevalueLiveFirst(b: Charge, rest: seq<Charge>, from: real, to: real, cutoff: real)
    requires b.amount != from
    ensures RevalueLive([b] + rest, from, to, cutoff) == [b] + RevalueLive(rest, from, to, cutoff)
  {
    if rest == [] {
      assert [b] + rest == [b] && [b][..0] == [];
    } else {
      var front := rest[..|rest| - 1];
      assert ([b] + rest)[..|rest|] == [b] + front;
      RevalueLiveFirst(b, front, from, to, cutoff);
    }
  }

  lemma {:induction false} TotalFirst(b: Charge, rest: seq<Charge>)
    ensures Total([b] + rest) == b.amount + Total(rest)
  {
    if rest == [] {
      assert [b] + rest == [b] && [b][..0] == [];
    } else {
      assert ([b] + rest)[..|rest|] == [b] + rest[..|rest| - 1];
      TotalFirst(b, rest[..|rest| - 1]);
    }
  }

  /** The pruning ledger carries the first charge along until an operation deletes it. */
  lemma ApplyFirst(p: Policy, b: Charge, rest: seq<Charge>, op: Op)
    requires op.SettleOp? ==> op.reserved != b.amount
    ensures Apply(p, [b] + rest, op).0
            == if Deletes(op) && b.ts < op.now - p.window then Apply(p, rest, op).0
               else [b] + Apply(p, rest, op).0
  {
    var cutoff := op.now - p.window;
    PruneFirst(b, rest, cutoff);
    match op
    case ReserveOp(cost, now) =>
      assert ([b] + Prune(rest, cutoff)) + [Charge(cost, now)] == [b] + (Prune(rest, cutoff) + [Charge(cost, now)]);
    case SettleOp(reserved, actual, now) => RevalueFirst(b, Prune(rest, cutoff), reserved, actual);
    case BalanceOp(now, commits) =>
  }

  /** The keeping ledger carries it along for good, and counts it while it is in the window. */
  lemma ApplyKeepingFirst(p: Policy, b: Charge, rest: seq<Charge>, op: Op)
    requires op.SettleOp? ==> op.reserved != b.amount
    ensures ApplyKeeping(p, [b] + rest, op).0 == [b] + ApplyKeeping(p, rest, op).0
    ensures b.ts >= op.now - p.window ==>
              BalanceOf(ApplyKeeping(p, [b] + rest, op).1) == b.amount + BalanceOf(ApplyKeeping(p, rest, op).1)
  {
    var cutoff := op.now - p.window;
    match op
    case ReserveOp(cost, now) =>
      assert ([b] + rest) + [Charge(cost, now)] == [b] + (rest + [Charge(cost, now)]);
      FilteredFirst(b, rest, cutoff);
    case SettleOp(reserved, actual, now) =>
      RevalueLiveFirst(b, rest, reserved, actual, cutoff);
      FilteredFirst(b, RevalueLive(rest, reserved, actual, cutoff), cutoff);
    case BalanceOp(now, commits) => FilteredFirst(b, rest, cutoff);
  }

  lemma FilteredFirst(b: Charge, rest: seq<Charge>, cutoff: real)
    ensures b.ts >= cutoff ==> Total(Prune([b] + rest, cutoff)) == b.amount + Total(Prune(rest, cutoff))
  {
    PruneFirst(b, rest, cutoff);
    TotalFirst(b, Prune(rest, cutoff));
  }

  /** Once an operation before `j` has deleted the first charge, answer `j` no longer counts it. */
  lemma {:induction false} DeletedIsForgotten(p: Policy, b: Charge, rest: seq<Charge>, ops: seq<Op>, i: nat, j: nat)
    requires i < j < |ops| && Deletes(ops[i]) && b.ts < ops[i].now - p.window && NeverSettled(ops, b.amount)
    ensures |Answers(p, [b] + rest, ops)| == |Answers(p, rest, ops)| == |ops|
    ensures Answers(p, [b] + rest, ops)[j] == Answers(p, rest, ops)[j]
    decreases |ops|
  {
    var after := Apply(p, rest, ops[0]).0;
    ApplyFirst(p, b, rest, ops[0]);
    AnswerAt(p, rest, ops, after, j);
    if Deletes(ops[0]) && b.ts < ops[0].now - p.window {
      AnswerAt(p, [b] + rest, ops, after, j);
    } else {
      AnswerAt(p, [b] + rest, ops, [b] + after, j);
      DeletedIsForgotten(p, b, after, ops[1..], i - 1, j - 1);
    }
  }

  /** A charge inside operation `j`'s window still counts in its answer when nothing is deleted. */
  lemma {:induction false} KeptIsCounted(p: Policy, b: Charge, rest: seq<Charge>, ops: seq<Op>, j: nat)
    requires j < |ops| && b.ts >= ops[j].now - p.window && NeverSettled(ops, b.amount)
    ensures KeptCounts(p, b, [b] + rest, rest, ops, j)
    decreases |ops|
  {
    var after, with := ApplyKeeping(p, rest, ops[0]).0, ApplyKeeping(p, [b] + rest, ops[0]).0;
    assert with == [b] + after && (j == 0 ==> BalanceOf(ApplyKeeping(p, [b] + rest, ops[0]).1)
                                              == b.amount + BalanceOf(ApplyKeeping(p, rest, ops[0]).1)) by {
      ApplyKeepingFirst(p, b, rest, ops[0]);
    }
    if j > 0 {
      KeptIsCounted(p, b, after, ops[1..], j - 1);
    }
    KeptLater(p, b, [b] + rest, rest, with, after, ops, j);
  }

  ghost predicate KeptCounts(p: Policy, b: Charge, with: seq<Charge>, rest: seq<Charge>, ops: seq<Op>, j: nat)
    requires j < |ops|
  {
    && |AnswersKeeping(p, with, ops)| == |AnswersKeeping(p, rest, ops)| == |ops|
    && BalanceOf(AnswersKeeping(p, with, ops)[j]) == b.amount + BalanceOf(AnswersKeeping(p, rest, ops)[j])
  }

  lemma KeptLater(p: Policy, b: Charge, with: seq<Charge>, rest: seq<Charge>, with': seq<Charge>, rest': seq<Charge>,
                  ops: seq<Op>, j: nat)
    requires j < |ops| && with' == ApplyKeeping(p, with, ops[0]).0 && rest' == ApplyKeeping(p, rest, ops[0]).0
    requires if j == 0 then BalanceOf(ApplyKeeping(p, with, ops[0]).1) == b.amount + BalanceOf(ApplyKeeping(p, rest, ops[0]).1)
             else KeptCounts(p, b, with', rest', ops[1..], j - 1)
    ensures KeptCounts(p, b, with, rest, ops, j)
  {
    KeepingAnswerAt(p, with, ops, with', j);
    KeepingAnswerAt(p, rest, ops, rest', j);
  }

  lemma {:induction false} AnswersLength(p: Policy, charges: seq<Charge>, ops: seq<Op>)
    ensures |Answers(p, charges, ops)| == |ops|
    decreases |ops|
  {
    if ops != [] {
      AnswersLength(p, Apply(p, charges, ops[0]).0, ops[1..]);
    }
  }

  lemma {:induction false} KeepingLength(p: Policy, charges: seq<Charge>, ops: seq<Op>)
    ensures |AnswersKeeping(p, charges, ops)| == |ops|
    decreases |ops|
  {
    if ops != [] {
      KeepingLength(p, ApplyKeeping(p, charges, ops[0]).0, ops[1..]);
    }
  }

  /** Answer `j` is the answer to the first operation, or one of the rest's answers. */
  lemma AnswerAt(p: Policy, charges: seq<Charge>, ops: seq<Op>, after: seq<Charge>, j: nat)
    requires j < |ops| && after == Apply(p, charges, ops[0]).0
    ensures |Answers(p, charges, ops)| == |ops| && |Answers(p, after, ops[1..])| == |ops| - 1
    ensures Answers(p, charges, ops)[j]
            == if j == 0 then Apply(p, charges, ops[0]).1 else Answers(p, after, ops[1..])[j - 1]
  {
    AnswersLength(p, charges, ops);
    AnswersLength(p, after, ops[1..]);
  }

  lemma KeepingAnswerAt(p: Policy, charges: seq<Charge>, ops: seq<Op>, after: seq<Charge>, j: nat)
    requires j < |ops| && after == ApplyKeeping(p, charges, ops[0]).0
    ensures |AnswersKeeping(p, charges, ops)| == |ops| && |AnswersKeeping(p, after, ops[1..])| == |ops| - 1
    ensures AnswersKeeping(p, charges, ops)[j]
            == if j == 0 then ApplyKeeping(p, charges, ops[0]).1 else AnswersKeeping(p, after, ops[1..])[j - 1]
  {
    KeepingLength(p, charges, ops);
    KeepingLength(p, after, ops[1..]);
  }

  /** Some amount above `least` that no settlement asks for. */
  lemma {:induction false} UnsettledAmount(ops: seq<Op>, least: real) returns (amount: real)
    ensures amount > least && forall k :: 0 <= k < |ops| && ops[k].SettleOp? ==> ops[k].reserved < amount
  {
    amount := least + 1.0;
    if ops != [] {
      var last := |ops| - 1;
      amount := UnsettledAmount(ops[..last], least);
      if ops[last].SettleOp? && ops[last].reserved >= amount {
        amount := ops[last].reserved + 1.0;
      }
    }
  }

  /** A deletion followed by an earlier reading is seen from a ledger that holds one charge just
      inside the later operation's window. */
  lemma BackwardDeleteShows(p: Policy, ops: seq<Op>, i: nat, j: nat) returns (charges: seq<Charge>)
    requires i < j < |ops| && Deletes(ops[i]) && ops[i].now > ops[j].now
    ensures Answers(p, charges, ops) != AnswersKeeping(p, charges, ops)
  {
    AnswersLength(p, [], ops);
    KeepingLength(p, [], ops);
    var gap := BalanceOf(Answers(p, [], ops)[j]) - BalanceOf(AnswersKeeping(p, [], ops)[j]);
    var amount := UnsettledAmount(ops, gap);
    var b := Charge(amount, ops[j].now - p.window);
    DeletedIsForgotten(p, b, [], ops, i, j);
    KeptIsCounted(p, b, [], ops, j);
    charges := [b] + [];
    assert Answers(p, charges, ops)[j] != AnswersKeeping(p, charges, ops)[j];
  }

  /** Deleting old rows changes no answer of any operation, from any ledger, if and only if no
      operation that deletes read a later clock than one after it. */
  lemma PruningIsInvisible(p: Policy, ops: seq<Op>)
    ensures (forall charges :: Answers(p, charges, ops) == AnswersKeeping(p, charges, ops)) <==> DeletesInOrder(ops)
  {
    if DeletesInOrder(ops) {
      var bound := BoundBelow(p, ops);
      forall charges ensures Answers(p, charges, ops) == AnswersKeeping(p, charges, ops) {
        AnswersAgree(p, charges, charges, ops, bound);
      }
    } else {
      var i, j :| 0 <= i < j < |ops| && Deletes(ops[i]) && ops[i].now > ops[j].now;
      var charges := BackwardDeleteShows(p, ops, i, j);
    }
  }

  lemma ThirdAnswer(p: Policy, ops: seq<Op>)
    requires |ops| == 3
    ensures |Answers(p, [], ops)| == |AnswersKeeping(p, [], ops)| == 3
    ensures Answers(p, [], ops)[2] == Apply(p, Apply(p, Apply(p, [], ops[0]).0, ops[1]).0, ops[2]).1
    ensures AnswersKeeping(p, [], ops)[2]
            == ApplyKeeping(p, ApplyKeeping(p, ApplyKeeping(p, [], ops[0]).0, ops[1]).0, ops[2]).1
  {
    var one := Apply(p, [], ops[0]).0;
    var two := Apply(p, one, ops[1]).0;
    AnswerAt(p, [], ops, one, 2);
    AnswerAt(p, one, ops[1..], two, 1);
    AnswerAt(p, two, ops[1..][1..], Apply(p, two, ops[2]).0, 0);
    ThirdKeepingAnswer(p, ops);
  }

  lemma ThirdKeepingAnswer(p: Policy, ops: seq<Op>)
    requires |ops| == 3
    ensures |AnswersKeeping(p, [], ops)| == 3
    ensures AnswersKeeping(p, [], ops)[2]
            == ApplyKeeping(p, ApplyKeeping(p, ApplyKeeping(p, [], ops[0]).0, ops[1]).0, ops[2]).1
  {
    var one := ApplyKeeping(p, [], ops[0]).0;
    var two := ApplyKeeping(p, one, ops[1]).0;
    KeepingAnswerAt(p, [], ops, one, 2);
    KeepingAnswerAt(p, one, ops[1..], two, 1);
    KeepingAnswerAt(p, two, ops[1..][1..], ApplyKeeping(p, two, ops[2]).0, 0);
  }

  /** A run of reservations from the empty ledger that shows it: one reading far ahead deletes a
      row for good, and the next reading, back in the window, no longer sees it. */
  lemma BackwardClockIsVisible()
    ensures var p := Policy(10.0, 60.0);
            var ops := [ReserveOp(1.0, 0.0), ReserveOp(1.0, 100.0), ReserveOp(1.0, 1.0)];
            Answers(p, [], ops) != AnswersKeeping(p, [], ops)
  {
    var p := Policy(10.0, 60.0);
    var b, c := Charge(1.0, 0.0), Charge(1.0, 100.0);
    ThirdAnswer(p, [ReserveOp(1.0, 0.0), ReserveOp(1.0, 100.0), ReserveOp(1.0, 1.0)]);
    OneCharge(b, 40.0);
    OneCharge(c, -59.0);
    TwoCharges(b, c, -59.0);
    assert Apply(p, [], ReserveOp(1.0, 0.0)).0 == [b] == ApplyKeeping(p, [], ReserveOp(1.0, 0.0)).0;
    assert Apply(p, [b], ReserveOp(1.0, 100.0)).0 == [c];
    assert ApplyKeeping(p, [b], ReserveOp(1.0, 100.0)).0 == [b, c];
    assert BalanceOf(Apply(p, [c], ReserveOp(1.0, 1.0)).1) == 2.0;
    assert BalanceOf(ApplyKeeping(p, [b, c], ReserveOp(1.0, 1.0)).1) == 3.0;
  }
}
