/** What the interleaved workflows owe together is what the ledger holds, even though `settle`
    finds its reservation by value and may revalue another task's row. */
module Conservation {
  import opened Options
  import opened RoutingModel
  import opened TaskTable
  import opened TaskWorkflow
  import opened Orchestration
  import L = AccountLedger
  import Router

  // ---- what one workflow owes ------------------------------------------------------------

  /** Its charge: the projection until it settles, the routed cost afterwards. */
  function ChargeAt(p: Progress): Option<real> {
    if HasSettled(p) then Some(p.dec.cost)
    else if HasReservation(p) then Some(p.res.projected)
    else None
  }

  function Bag(charge: Option<real>): multiset<real> {
    if charge.Some? then multiset{charge.value} else multiset{}
  }

  function Orphans(wf: Workflow): multiset<real> {
    Copies(wf.orphans, Router.ProjectCost(wf.input.task))
  }

  function Copies(n: nat, cost: real): multiset<real> {
    if n == 0 then multiset{} else Copies(n - 1, cost) + multiset{cost}
  }

  function Owes(wf: Workflow): multiset<real> {
    Bag(ChargeAt(wf.local.at)) + Orphans(wf)
  }

  function OwesTotal(wf: Workflow): real {
    (if ChargeAt(wf.local.at).Some? then ChargeAt(wf.local.at).value else 0.0)
    + Times(wf.orphans, Router.ProjectCost(wf.input.task))
  }

  function Times(n: nat, cost: real): real {
    if n == 0 then 0.0 else Times(n - 1, cost) + cost
  }

  /** What an account's workflows owe together. */
  function Expected(wfs: seq<Workflow>, account: string): multiset<real> {
    if wfs == [] then multiset{}
    else
      Expected(wfs[..|wfs| - 1], account) + Share(wfs[|wfs| - 1], account)
  }

  function ExpectedTotal(wfs: seq<Workflow>, account: string): real {
    if wfs == [] then 0.0
    else
      var last := wfs[|wfs| - 1];
      ExpectedTotal(wfs[..|wfs| - 1], account) + (if last.input.account == account then OwesTotal(last) else 0.0)
  }

  /** `after` is `all` with `next` in place of `part`. */
  ghost predicate Swapped(all: multiset<real>, part: multiset<real>, next: multiset<real>, after: multiset<real>) {
    part <= all && after == all - part + next
  }

  lemma SwappedLast(front: multiset<real>, part: multiset<real>, next: multiset<real>)
    ensures Swapped(front + part, part, next, front + next)
  {
  }

  lemma SwappedBefore(front: multiset<real>, part: multiset<real>, next: multiset<real>, after: multiset<real>, rest: multiset<real>)
    requires Swapped(front, part, next, after)
    ensures Swapped(front + rest, part, next, after + rest)
  {
  }

  /** One workflow's part of what the account owes. */
  function Share(wf: Workflow, account: string): multiset<real> {
    if wf.input.account == account then Owes(wf) else multiset{}
  }

  lemma ExpectedLast(wfs: seq<Workflow>, a: string)
    requires wfs != []
    ensures Expected(wfs, a) == Expected(wfs[..|wfs| - 1], a) + Share(wfs[|wfs| - 1], a)
  {
  }

  lemma LastUpdate(wfs: seq<Workflow>, wf: Workflow, a: string)
    requires wfs != []
    ensures var last := |wfs| - 1;
            Swapped(Expected(wfs, a), Share(wfs[last], a), Share(wf, a), Expected(wfs[last := wf], a))
  {
    var last := |wfs| - 1;
    SwappedLast(Expected(wfs[..last], a), Share(wfs[last], a), Share(wf, a));
    ExpectedLast(wfs, a);
    ExpectedLast(wfs[last := wf], a);
    assert wfs[last := wf][..last] == wfs[..last];
  }

  lemma {:induction false} ExpectedUpdate(wfs: seq<Workflow>, i: nat, wf: Workflow, a: string)
    requires i < |wfs|
    ensures Swapped(Expected(wfs, a), Share(wfs[i], a), Share(wf, a), Expected(wfs[i := wf], a))
  {
    var last := |wfs| - 1;
    if i == last {
      LastUpdate(wfs, wf, a);
    } else {
      var front, updated := wfs[..last], wfs[..last][i := wf];
      ExpectedUpdate(front, i, wf, a);
      SwappedBefore(Expected(front, a), Share(wfs[i], a), Share(wf, a), Expected(updated, a), Share(wfs[last], a));
      assert Expected(wfs, a) == Expected(front, a) + Share(wfs[last], a);
      assert Expected(wfs[i := wf], a) == Expected(updated, a) + Share(wfs[last], a) by {
        ExpectedLast(wfs[i := wf], a);
        assert wfs[i := wf][..last] == updated;
      }
    }
  }

  lemma {:induction false} ExpectedTotalUpdate(wfs: seq<Workflow>, i: nat, wf: Workflow, a: string)
    requires i < |wfs| && wf.input.account == wfs[i].input.account == a
    ensures ExpectedTotal(wfs[i := wf], a) == ExpectedTotal(wfs, a) - OwesTotal(wfs[i]) + OwesTotal(wf)
  {
    var last := |wfs| - 1;
    if i == last {
      assert wfs[i := wf][..last] == wfs[..last];
    } else {
      ExpectedTotalUpdate(wfs[..last], i, wf, a);
      assert wfs[i := wf][..last] == wfs[..last][i := wf];
    }
  }

  lemma {:induction false} ExpectedElsewhere(wfs: seq<Workflow>, i: nat, wf: Workflow, a: string)
    requires i < |wfs| && wf.input.account == wfs[i].input.account != a
    ensures Expected(wfs[i := wf], a) == Expected(wfs, a)
    ensures ExpectedTotal(wfs[i := wf], a) == ExpectedTotal(wfs, a)
  {
    ExpectedUpdate(wfs, i, wf, a);
    TotalElsewhere(wfs, i, wf, a);
  }

  lemma {:induction false} TotalElsewhere(wfs: seq<Workflow>, i: nat, wf: Workflow, a: string)
    requires i < |wfs| && wf.input.account == wfs[i].input.account != a
    ensures ExpectedTotal(wfs[i := wf], a) == ExpectedTotal(wfs, a)
  {
    var last := |wfs| - 1;
    if i == last {
      assert wfs[i := wf][..last] == wfs[..last];
    } else {
      TotalElsewhere(wfs[..last], i, wf, a);
      assert wfs[i := wf][..last] == wfs[..last][i := wf];
    }
  }

  lemma ExpectedAppend(wfs: seq<Workflow>, wf: Workflow, a: string)
    requires Owes(wf) == multiset{} && OwesTotal(wf) == 0.0
    ensures Expected(wfs + [wf], a) == Expected(wfs, a) && ExpectedTotal(wfs + [wf], a) == ExpectedTotal(wfs, a)
  {
    assert (wfs + [wf])[..|wfs|] == wfs;
  }

  // ---- the invariant ---------------------------------------------------------------------

  /** The account holds exactly what its workflows owe, charge by charge and in total. */
  ghost predicate ConservedFor(s: System, a: string) {
    L.Amounts(Charges(s, a)) == Expected(s.wfs, a) && L.Total(Charges(s, a)) == ExpectedTotal(s.wfs, a)
  }

  ghost predicate Conserved(s: System) {
    forall a :: ConservedFor(s, a)
  }

  predicate TouchesLedger(command: Command) {
    command.ReserveUsage? || command.SettleUsage?
  }

  /** Whether the attempt did what it was asked to, reported or not. */
  predicate Effective(l: Label)
    requires l.Attempt?
  {
    l.report.Success? || l.report.effective
  }

  /** The step changes the ledger. */
  predicate OnLedger(c: Config, s: System, l: Label) {
    Enabled(c, s, l) && l.Attempt? && Effective(l) && TouchesLedger(CommandOf(s, l.i))
  }

  /** An attempt that changes the ledger finds no charge of its account outside the window. */
  ghost predicate NothingExpires(c: Config, s: System, l: Label) {
    OnLedger(c, s, l) ==> L.NoneOlder(Charges(s, s.wfs[l.i].input.account), l.now - c.policy.window)
  }

  /** A settlement that takes effect and is reported as failed settles at the reserved amount. */
  ghost predicate SettlesOnce(c: Config, s: System, l: Label) {
    OnLedger(c, s, l) && CommandOf(s, l.i).SettleUsage? && l.report.Failed? ==>
      CommandOf(s, l.i).actual == CommandOf(s, l.i).reserved
  }

  ghost predicate KeepsBooks(c: Config, s: System, l: Label) {
    NothingExpires(c, s, l) && SettlesOnce(c, s, l)
  }

  ghost predicate BooksKept(c: Config, labels: seq<Label>) {
    labels == []
    || (&& BooksKept(c, labels[..|labels| - 1])
        && KeepsBooks(c, Exec(c, labels[..|labels| - 1]), labels[|labels| - 1]))
  }

  /** A reservation that took effect added the projection to what the account holds. */
  lemma ReserveAdds(p: L.Policy, charges: seq<L.Charge>, cost: real, now: real)
    requires L.NoneOlder(charges, now - p.window)
    ensures var after := L.Reserve(p, charges, cost, now).0;
            && L.Amounts(after) == L.Amounts(charges) + multiset{cost}
            && L.Total(after) == L.Total(charges) + cost
    ensures var res := L.Reserve(p, charges, cost, now).1;
            && res.balance == L.Total(charges) + cost
            && res.projected == cost && (res.degraded <==> res.balance >= p.threshold)
  {
    L.PruneKeepsAll(charges, now - p.window);
    L.ReserveOn(p, charges, cost, now, charges);
    L.AppendCharge(charges, L.Charge(cost, now));
  }

  /** One charge of `from` has become one of `to`. */
  ghost predicate Revalued(before: seq<L.Charge>, after: seq<L.Charge>, from: real, to: real) {
    && L.Amounts(after) == L.Amounts(before) - multiset{from} + multiset{to}
    && L.Total(after) == L.Total(before) - from + to
  }

  lemma RevalueMoves(charges: seq<L.Charge>, from: real, to: real)
    requires from in L.Amounts(charges)
    ensures Revalued(charges, L.Revalue(charges, from, to), from, to)
  {
    L.RevalueEffect(charges, from, to);
  }

  lemma SettleMoves(p: L.Policy, charges: seq<L.Charge>, reserved: real, actual: real, now: real)
    requires L.NoneOlder(charges, now - p.window) && reserved in L.Amounts(charges)
    ensures Revalued(charges, L.Settle(p, charges, reserved, actual, now).0, reserved, actual)
  {
    assert L.Settle(p, charges, reserved, actual, now).0 == L.Revalue(charges, reserved, actual) by {
      L.PruneKeepsAll(charges, now - p.window);
      L.SettleOn(p, charges, reserved, actual, now, charges);
    }
    RevalueMoves(charges, reserved, actual);
  }

  /** Progress that neither reserves nor settles keeps the charge. */
  lemma AdvanceKeepsCharge(input: Input, l: Local, v: Value)
    requires Next(input, l).Some? && !TouchesLedger(Next(input, l).value)
    ensures ChargeAt(Advance(l, v).at) == ChargeAt(l.at)
  {
  }

  lemma FailureKeepsPlace(l: Local, f: Failure)
    ensures Consume(l, Exhausted(f)).at == l.at
  {
  }

  lemma OrphansAdd(wf: Workflow, wf': Workflow)
    requires wf'.input == wf.input && wf'.orphans == wf.orphans + 1
    ensures Orphans(wf') == Orphans(wf) + multiset{Router.ProjectCost(wf.input.task)}
  {
  }

  /** How an attempt moves its own workflow: where it stands and how many orphans it has. */
  lemma MovedShape(c: Config, s: System, l: Label)
    requires Enabled(c, s, l) && l.Attempt?
    ensures var before, after, command := s.wfs[l.i], Moved(c, s, l), CommandOf(s, l.i);
            && after.input == before.input
            && (l.report.Success? ==>
                  && after.local == Advance(before.local, Reply(c, s, l.i, command, l.now, l.allowed))
                  && after.orphans == before.orphans)
            && (l.report.Failed? ==>
                  && after.local.at == before.local.at
                  && after.orphans == before.orphans + (if l.report.effective && command.ReserveUsage? then 1 else 0))
  {
    if l.report.Failed? {
      FailureKeepsPlace(s.wfs[l.i].local, l.report.failure);
    }
  }

  /** What an effective reservation does to its own workflow's share. */
  lemma ReserveShare(c: Config, s: System, l: Label)
    requires Enabled(c, s, l) && l.Attempt? && Effective(l) && CommandOf(s, l.i).ReserveUsage?
    ensures var before, after, cost := s.wfs[l.i], Moved(c, s, l), CommandOf(s, l.i).projected;
            && Owes(after) == Owes(before) + multiset{cost}
            && OwesTotal(after) == OwesTotal(before) + cost
  {
    var before, after := s.wfs[l.i], Moved(c, s, l);
    MovedShape(c, s, l);
    assert before.local == Active(Limited) && ChargeAt(Limited) == None;
    if l.report.Success? {
      assert ChargeAt(after.local.at) == Some(CommandOf(s, l.i).projected);
    } else {
      OrphansAdd(before, after);
    }
  }

  lemma SettleShare(c: Config, s: System, l: Label)
    requires Enabled(c, s, l) && l.Attempt? && l.report.Success? && CommandOf(s, l.i).SettleUsage?
    ensures var before, after, command := s.wfs[l.i], Moved(c, s, l), CommandOf(s, l.i);
            && command.reserved in Owes(before)
            && Owes(after) == Owes(before) - multiset{command.reserved} + multiset{command.actual}
            && OwesTotal(after) == OwesTotal(before) - command.reserved + command.actual
  {
    var before, after := s.wfs[l.i], Moved(c, s, l);
    MovedShape(c, s, l);
    assert before.local.Active? && before.local.at.Routed?;
    assert ChargeAt(before.local.at) == Some(CommandOf(s, l.i).reserved);
    assert ChargeAt(after.local.at) == Some(CommandOf(s, l.i).actual);
  }

  lemma FailedSettleShare(c: Config, s: System, l: Label)
    requires Enabled(c, s, l) && l.Attempt? && l.report.Failed? && CommandOf(s, l.i).SettleUsage?
    ensures CommandOf(s, l.i).reserved in Owes(s.wfs[l.i])
    ensures Owes(Moved(c, s, l)) == Owes(s.wfs[l.i]) && OwesTotal(Moved(c, s, l)) == OwesTotal(s.wfs[l.i])
  {
    var before, after := s.wfs[l.i], Moved(c, s, l);
    MovedShape(c, s, l);
    assert before.local.Active? && before.local.at.Routed?;
    assert ChargeAt(before.local.at) == Some(CommandOf(s, l.i).reserved);
    assert Orphans(after) == Orphans(before);
  }

  lemma OtherShare(c: Config, s: System, l: Label)
    requires Enabled(c, s, l) && l.Attempt?
    requires !Effective(l) || !TouchesLedger(CommandOf(s, l.i))
    ensures Owes(Moved(c, s, l)) == Owes(s.wfs[l.i]) && OwesTotal(Moved(c, s, l)) == OwesTotal(s.wfs[l.i])
  {
    var before, after := s.wfs[l.i], Moved(c, s, l);
    MovedShape(c, s, l);
    if l.report.Success? {
      AdvanceKeepsCharge(before.input, before.local, Reply(c, s, l.i, CommandOf(s, l.i), l.now, l.allowed));
    }
    assert ChargeAt(after.local.at) == ChargeAt(before.local.at);
    assert Orphans(after) == Orphans(before);
  }

  lemma LedgerMoves(c: Config, s: System, l: Label)
    requires SystemOk(c, s) && Enabled(c, s, l) && l.Attempt?
    ensures forall a :: a != s.wfs[l.i].input.account ==> Charges(Step(c, s, l), a) == Charges(s, a)
    ensures var a, command := s.wfs[l.i].input.account, CommandOf(s, l.i);
            var effective := l.report.Success? || l.report.effective;
            Charges(Step(c, s, l), a)
            == if effective && command.ReserveUsage? then
                 L.Reserve(c.policy, Charges(s, a), command.projected, l.now).0
               else if effective && command.SettleUsage? then
                 L.Settle(c.policy, Charges(s, a), command.reserved, command.actual, l.now).0
               else Charges(s, a)
  {
  }

  // ---- what the account is expected to hold after a step ---------------------------------

  lemma PartAdded(all: multiset<real>, part: multiset<real>, cost: real, after: multiset<real>)
    requires Swapped(all, part, part + multiset{cost}, after)
    ensures after == all + multiset{cost}
  {
  }

  lemma PartMoved(all: multiset<real>, part: multiset<real>, from: real, to: real, after: multiset<real>)
    requires from in part && Swapped(all, part, part - multiset{from} + multiset{to}, after)
    ensures from in all && after == all - multiset{from} + multiset{to}
  {
  }

  lemma PartKept(all: multiset<real>, part: multiset<real>, after: multiset<real>)
    requires Swapped(all, part, part, after)
    ensures after == all
  {
  }

  /** What the moving workflow's account is expected to hold changes by the workflow's own share. */
  lemma OwnExpected(c: Config, s: System, l: Label)
    requires SystemOk(c, s) && Enabled(c, s, l) && l.Attempt?
    ensures var a, before, after := s.wfs[l.i].input.account, s.wfs[l.i], Moved(c, s, l);
            && Swapped(Expected(s.wfs, a), Owes(before), Owes(after), Expected(Step(c, s, l).wfs, a))
            && ExpectedTotal(Step(c, s, l).wfs, a) == ExpectedTotal(s.wfs, a) - OwesTotal(before) + OwesTotal(after)
  {
    var a, after := s.wfs[l.i].input.account, Moved(c, s, l);
    MovedShape(c, s, l);
    assert Step(c, s, l).wfs == s.wfs[l.i := after];
    ExpectedUpdate(s.wfs, l.i, after, a);
    ExpectedTotalUpdate(s.wfs, l.i, after, a);
  }

  lemma ReserveExpected(c: Config, s: System, l: Label)
    requires SystemOk(c, s) && Enabled(c, s, l) && l.Attempt? && Effective(l) && CommandOf(s, l.i).ReserveUsage?
    ensures var a, cost := s.wfs[l.i].input.account, CommandOf(s, l.i).projected;
            && Expected(Step(c, s, l).wfs, a) == Expected(s.wfs, a) + multiset{cost}
            && ExpectedTotal(Step(c, s, l).wfs, a) == ExpectedTotal(s.wfs, a) + cost
  {
    var a := s.wfs[l.i].input.account;
    OwnExpected(c, s, l);
    ReserveShare(c, s, l);
    PartAdded(Expected(s.wfs, a), Owes(s.wfs[l.i]), CommandOf(s, l.i).projected, Expected(Step(c, s, l).wfs, a));
  }

  lemma SettleExpected(c: Config, s: System, l: Label)
    requires SystemOk(c, s) && Enabled(c, s, l) && l.Attempt? && l.report.Success? && CommandOf(s, l.i).SettleUsage?
    ensures var a, command := s.wfs[l.i].input.account, CommandOf(s, l.i);
            && command.reserved in Expected(s.wfs, a)
            && Expected(Step(c, s, l).wfs, a)
               == Expected(s.wfs, a) - multiset{command.reserved} + multiset{command.actual}
            && ExpectedTotal(Step(c, s, l).wfs, a) == ExpectedTotal(s.wfs, a) - command.reserved + command.actual
  {
    var a, command := s.wfs[l.i].input.account, CommandOf(s, l.i);
    OwnExpected(c, s, l);
    SettleShare(c, s, l);
    PartMoved(Expected(s.wfs, a), Owes(s.wfs[l.i]), command.reserved, command.actual, Expected(Step(c, s, l).wfs, a));
  }

  lemma SameExpected(c: Config, s: System, l: Label)
    requires SystemOk(c, s) && Enabled(c, s, l) && l.Attempt?
    requires !OnLedger(c, s, l) || (l.report.Failed? && CommandOf(s, l.i).SettleUsage?)
    ensures var a := s.wfs[l.i].input.account;
            && Expected(Step(c, s, l).wfs, a) == Expected(s.wfs, a)
            && ExpectedTotal(Step(c, s, l).wfs, a) == ExpectedTotal(s.wfs, a)
  {
    var a := s.wfs[l.i].input.account;
    OwnExpected(c, s, l);
    if l.report.Failed? && CommandOf(s, l.i).SettleUsage? {
      FailedSettleShare(c, s, l);
    } else {
      OtherShare(c, s, l);
    }
    PartKept(Expected(s.wfs, a), Owes(s.wfs[l.i]), Expected(Step(c, s, l).wfs, a));
  }

  /** A failed settlement's reserved amount is among what its account holds. */
  lemma FailedSettleFinds(c: Config, s: System, l: Label)
    requires SystemOk(c, s) && Enabled(c, s, l) && l.Attempt? && l.report.Failed? && CommandOf(s, l.i).SettleUsage?
    ensures CommandOf(s, l.i).reserved in Expected(s.wfs, s.wfs[l.i].input.account)
  {
    FailedSettleShare(c, s, l);
    ExpectedUpdate(s.wfs, l.i, s.wfs[l.i], s.wfs[l.i].input.account);
  }

  // ---- steps that keep the books ---------------------------------------------------------

  lemma ReserveConserves(c: Config, s: System, l: Label)
    requires SystemOk(c, s) && OnLedger(c, s, l) && ConservedFor(s, s.wfs[l.i].input.account)
    requires CommandOf(s, l.i).ReserveUsage? && NothingExpires(c, s, l)
    ensures ConservedFor(Step(c, s, l), s.wfs[l.i].input.account)
  {
    LedgerMoves(c, s, l);
    ReserveExpected(c, s, l);
    ReserveAdds(c.policy, Charges(s, s.wfs[l.i].input.account), CommandOf(s, l.i).projected, l.now);
  }

  /** One charge moved from one amount to another, and the account is expected to hold just that. */
  lemma ConservedByMove(s: System, s': System, a: string, from: real, to: real)
    requires ConservedFor(s, a) && Revalued(Charges(s, a), Charges(s', a), from, to)
    requires Expected(s'.wfs, a) == Expected(s.wfs, a) - multiset{from} + multiset{to}
    requires ExpectedTotal(s'.wfs, a) == ExpectedTotal(s.wfs, a) - from + to
    ensures ConservedFor(s', a)
  {
  }

  /** One charge moved, and the account is expected to hold what it held before. */
  lemma ConservedDespiteMove(s: System, s': System, a: string, from: real, to: real)
    requires ConservedFor(s, a) && Revalued(Charges(s, a), Charges(s', a), from, to) && from in Expected(s.wfs, a)
    requires Expected(s'.wfs, a) == Expected(s.wfs, a) && ExpectedTotal(s'.wfs, a) == ExpectedTotal(s.wfs, a)
    ensures ConservedFor(s', a) <==> from == to
  {
    MovedDiffers(Expected(s.wfs, a), from, to);
  }

  /** What a settlement does to the account's charges, if nothing expires. */
  lemma SettleRevalues(c: Config, s: System, l: Label)
    requires SystemOk(c, s) && OnLedger(c, s, l) && CommandOf(s, l.i).SettleUsage? && NothingExpires(c, s, l)
    requires CommandOf(s, l.i).reserved in L.Amounts(Charges(s, s.wfs[l.i].input.account))
    ensures var a, command := s.wfs[l.i].input.account, CommandOf(s, l.i);
            Revalued(Charges(s, a), Charges(Step(c, s, l), a), command.reserved, command.actual)
  {
    var a, command := s.wfs[l.i].input.account, CommandOf(s, l.i);
    LedgerMoves(c, s, l);
    SettleMoves(c.policy, Charges(s, a), command.reserved, command.actual, l.now);
  }

  /** A settlement keeps the balance even when it revalues another task's row. */
  lemma SettleConserves(c: Config, s: System, l: Label)
    requires SystemOk(c, s) && OnLedger(c, s, l) && ConservedFor(s, s.wfs[l.i].input.account)
    requires CommandOf(s, l.i).SettleUsage? && l.report.Success? && NothingExpires(c, s, l)
    ensures ConservedFor(Step(c, s, l), s.wfs[l.i].input.account)
  {
    var command := CommandOf(s, l.i);
    SettleExpected(c, s, l);
    SettleRevalues(c, s, l);
    ConservedByMove(s, Step(c, s, l), s.wfs[l.i].input.account, command.reserved, command.actual);
  }

  lemma MovedDiffers(m: multiset<real>, from: real, to: real)
    requires from in m
    ensures m - multiset{from} + multiset{to} == m <==> from == to
  {
    if from != to {
      assert (m - multiset{from} + multiset{to})[from] == m[from] - 1;
    }
  }

  /** A settlement reported as failed keeps it exactly when it changed no amount. */
  lemma FailedSettleConserves(c: Config, s: System, l: Label)
    requires SystemOk(c, s) && OnLedger(c, s, l) && ConservedFor(s, s.wfs[l.i].input.account)
    requires CommandOf(s, l.i).SettleUsage? && l.report.Failed? && NothingExpires(c, s, l)
    ensures ConservedFor(Step(c, s, l), s.wfs[l.i].input.account) <==> SettlesOnce(c, s, l)
  {
    var command := CommandOf(s, l.i);
    FailedSettleFinds(c, s, l);
    SettleRevalues(c, s, l);
    SameExpected(c, s, l);
    ConservedDespiteMove(s, Step(c, s, l), s.wfs[l.i].input.account, command.reserved, command.actual);
  }

  lemma {:induction false} AmountsSize(charges: seq<L.Charge>)
    ensures |L.Amounts(charges)| == |charges|
  {
    if charges != [] {
      AmountsSize(charges[..|charges| - 1]);
    }
  }

  lemma {:induction false} PruneShrinks(charges: seq<L.Charge>, cutoff: real)
    ensures |L.Prune(charges, cutoff)| <= |charges|
    ensures !L.NoneOlder(charges, cutoff) ==> |L.Prune(charges, cutoff)| < |charges|
  {
    if charges != [] {
      var last := |charges| - 1;
      PruneShrinks(charges[..last], cutoff);
      if !L.NoneOlder(charges, cutoff) && charges[last].ts >= cutoff {
        var k :| 0 <= k < |charges| && charges[k].ts < cutoff;
        assert charges[..last][k].ts < cutoff;
      }
    }
  }

  lemma ReserveSize(p: L.Policy, charges: seq<L.Charge>, cost: real, now: real)
    ensures |L.Amounts(L.Reserve(p, charges, cost, now).0)| == |L.Prune(charges, now - p.window)| + 1
  {
    var live := L.Prune(charges, now - p.window);
    L.ReserveOn(p, charges, cost, now, live);
    AmountsSize(live + [L.Charge(cost, now)]);
  }

  lemma SettleSize(p: L.Policy, charges: seq<L.Charge>, reserved: real, actual: real, now: real)
    ensures |L.Amounts(L.Settle(p, charges, reserved, actual, now).0)| == |L.Prune(charges, now - p.window)|
  {
    var live := L.Prune(charges, now - p.window);
    L.SettleOn(p, charges, reserved, actual, now, live);
    AmountsSize(L.Revalue(live, reserved, actual));
  }

  /** A reservation or settlement that deletes a row leaves fewer charges than it should. */
  lemma FewerCharges(p: L.Policy, charges: seq<L.Charge>, now: real, cost: real, reserved: real, actual: real)
    requires !L.NoneOlder(charges, now - p.window)
    ensures |L.Amounts(L.Reserve(p, charges, cost, now).0)| < |L.Amounts(charges)| + 1
    ensures |L.Amounts(L.Settle(p, charges, reserved, actual, now).0)| < |L.Amounts(charges)|
  {
    PruneShrinks(charges, now - p.window);
    AmountsSize(charges);
    ReserveSize(p, charges, cost, now);
    SettleSize(p, charges, reserved, actual, now);
  }

  lemma ExpiryBreaks(c: Config, s: System, l: Label)
    requires SystemOk(c, s) && OnLedger(c, s, l) && ConservedFor(s, s.wfs[l.i].input.account)
    requires !NothingExpires(c, s, l)
    ensures !ConservedFor(Step(c, s, l), s.wfs[l.i].input.account)
  {
    var a, command := s.wfs[l.i].input.account, CommandOf(s, l.i);
    LedgerMoves(c, s, l);
    match command
    case ReserveUsage(cost) =>
      FewerCharges(c.policy, Charges(s, a), l.now, cost, cost, cost);
      ReserveExpected(c, s, l);
    case SettleUsage(reserved, actual) =>
      FewerCharges(c.policy, Charges(s, a), l.now, reserved, reserved, actual);
      if l.report.Success? {
        SettleExpected(c, s, l);
      } else {
        SameExpected(c, s, l);
      }
  }

  lemma OtherConserves(c: Config, s: System, l: Label)
    requires SystemOk(c, s) && Enabled(c, s, l) && l.Attempt? && !OnLedger(c, s, l)
    requires ConservedFor(s, s.wfs[l.i].input.account)
    ensures ConservedFor(Step(c, s, l), s.wfs[l.i].input.account)
  {
    LedgerMoves(c, s, l);
    SameExpected(c, s, l);
  }

  /** An attempt leaves its own account conserved exactly when it keeps the books. */
  lemma AttemptConservesOwn(c: Config, s: System, l: Label)
    requires SystemOk(c, s) && Enabled(c, s, l) && l.Attempt? && ConservedFor(s, s.wfs[l.i].input.account)
    ensures ConservedFor(Step(c, s, l), s.wfs[l.i].input.account) <==> KeepsBooks(c, s, l)
  {
    if !OnLedger(c, s, l) {
      OtherConserves(c, s, l);
    } else if !NothingExpires(c, s, l) {
      ExpiryBreaks(c, s, l);
    } else if CommandOf(s, l.i).ReserveUsage? {
      ReserveConserves(c, s, l);
    } else if l.report.Success? {
      SettleConserves(c, s, l);
    } else {
      FailedSettleConserves(c, s, l);
    }
  }

  lemma AttemptConserves(c: Config, s: System, l: Label)
    requires SystemOk(c, s) && Conserved(s) && Enabled(c, s, l) && l.Attempt?
    ensures Conserved(Step(c, s, l)) <==> KeepsBooks(c, s, l)
  {
    var mine := s.wfs[l.i].input.account;
    assert ConservedFor(s, mine);
    AttemptConservesOwn(c, s, l);
    forall a | a != mine ensures ConservedFor(Step(c, s, l), a) {
      AttemptElsewhere(c, s, l, a);
    }
  }

  lemma AttemptElsewhere(c: Config, s: System, l: Label, a: string)
    requires SystemOk(c, s) && Enabled(c, s, l) && l.Attempt? && a != s.wfs[l.i].input.account
    requires Conserved(s)
    ensures ConservedFor(Step(c, s, l), a)
  {
    assert ConservedFor(s, a);
    MovedShape(c, s, l);
    LedgerMoves(c, s, l);
    assert Step(c, s, l).wfs == s.wfs[l.i := Moved(c, s, l)];
    ExpectedElsewhere(s.wfs, l.i, Moved(c, s, l), a);
  }

  lemma BeginConserves(c: Config, s: System, l: Label)
    requires Conserved(s) && l.Begin?
    ensures Conserved(Step(c, s, l))
  {
    var wf := Workflow(l.input, Active(Started), 0, 0);
    assert Owes(wf) == multiset{} && OwesTotal(wf) == 0.0;
    forall a ensures ConservedFor(Step(c, s, l), a) {
      ExpectedAppend(s.wfs, wf, a);
      assert ConservedFor(s, a);
    }
  }

  lemma EmptyConserved()
    ensures Conserved(EMPTY)
  {
    forall a ensures ConservedFor(EMPTY, a) {
      assert Charges(EMPTY, a) == [];
    }
  }

  /** Conservation: in every reachable state of every interleaving that keeps the books, each
      account's charges are exactly one projection for every reserved and unsettled task, one routed
      cost for every settled task, and the orphans of reservations reported as failed. */
  lemma {:induction false} ChargesAreConserved(c: Config, labels: seq<Label>)
    requires ValidRun(c, labels) && BooksKept(c, labels)
    ensures Conserved(Exec(c, labels))
    ensures forall i :: 0 <= i < |Exec(c, labels).wfs| ==> OrphansOk(c, Exec(c, labels).wfs[i])
  {
    RunOk(c, labels);
    ConservedExactly(c, labels);
    assert ConservedThroughout(c, labels);
    forall i | 0 <= i < |Exec(c, labels).wfs| ensures OrphansOk(c, Exec(c, labels).wfs[i]) {
      assert WorkflowOk(c, Exec(c, labels).wfs[i]);
    }
  }

  /** Conserved in every state of the run. */
  ghost predicate ConservedThroughout(c: Config, labels: seq<Label>) {
    Conserved(Exec(c, labels)) && (labels == [] || ConservedThroughout(c, labels[..|labels| - 1]))
  }

  /** Exactly when a run conserves what its workflows owe: it does in every state if and only if no
      attempt that changed the ledger found an expired charge of its account, and no settlement was
      reported as failed after changing an amount. */
  lemma {:induction false} ConservedExactly(c: Config, labels: seq<Label>)
    requires ValidRun(c, labels)
    ensures ConservedThroughout(c, labels) <==> BooksKept(c, labels)
  {
    if labels == [] {
      EmptyConserved();
    } else {
      var front, l := labels[..|labels| - 1], labels[|labels| - 1];
      ConservedExactly(c, front);
      RunOk(c, front);
      if ConservedThroughout(c, front) {
        if l.Attempt? {
          AttemptConserves(c, Exec(c, front), l);
        } else {
          BeginConserves(c, Exec(c, front), l);
        }
      }
    }
  }

  ghost predicate NeverExpired(c: Config, labels: seq<Label>) {
    labels == []
    || (&& NeverExpired(c, labels[..|labels| - 1])
        && NothingExpires(c, Exec(c, labels[..|labels| - 1]), labels[|labels| - 1]))
  }

  /** Where settlements are never reported as failed after taking effect, expired charges alone decide. */
  lemma {:induction false} ConservedUnlessExpired(c: Config, labels: seq<Label>)
    requires ValidRun(c, labels) && SettleKind !in c.lossy
    ensures ConservedThroughout(c, labels) <==> NeverExpired(c, labels)
  {
    ConservedExactly(c, labels);
    BooksByExpiry(c, labels);
  }

  lemma {:induction false} BooksByExpiry(c: Config, labels: seq<Label>)
    requires SettleKind !in c.lossy
    ensures BooksKept(c, labels) <==> NeverExpired(c, labels)
  {
    if labels != [] {
      BooksByExpiry(c, labels[..|labels| - 1]);
    }
  }
}
