/** The global spend breaker: an aggregate that latches once it crosses its threshold. */
module SpendBreaker {

  datatype Breaker = Breaker(aggregate: real, tripped: bool)

  const UNTRIPPED := Breaker(0.0, false)

  function AfterRecord(threshold: real, b: Breaker, cost: real): Breaker {
    Breaker(b.aggregate + cost, b.tripped || b.aggregate + cost >= threshold)
  }

  function AfterCosts(threshold: real, costs: seq<real>): Breaker {
    if costs == [] then UNTRIPPED
    else AfterRecord(threshold, AfterCosts(threshold, costs[..|costs| - 1]), costs[|costs| - 1])
  }

  function Sum(costs: seq<real>): real {
    if costs == [] then 0.0 else Sum(costs[..|costs| - 1]) + costs[|costs| - 1]
  }

  class CircuitBreaker {
    const rateThreshold: real
    var aggregateCost: real
    var tripped: bool
    /** Costs recorded so far. */
    ghost var costs: seq<real>

    ghost predicate Valid()
      reads this
    {
      Breaker(aggregateCost, tripped) == AfterCosts(rateThreshold, costs)
    }

    constructor (threshold: real)
      requires threshold >= 0.0
      ensures Valid() && rateThreshold == threshold && costs == []
    {
      rateThreshold, aggregateCost, tripped, costs := threshold, 0.0, false, [];
    }

    method Record(cost: real)
      requires Valid()
      modifies this
      ensures Valid() && costs == old(costs) + [cost]
    {
      aggregateCost := aggregateCost + cost;
      if aggregateCost >= rateThreshold {
        tripped := true;
      }
      costs := costs + [cost];
      assert costs[..|costs| - 1] == old(costs);
    }

    method EffectiveDegraded(alreadyDegraded: bool) returns (degraded: bool)
      requires Valid()
      ensures degraded <==> alreadyDegraded || AfterCosts(rateThreshold, costs).tripped
    {
      degraded := alreadyDegraded || tripped;
    }
  }

  /** The constructor's guard: a breaker exists exactly for a nonnegative threshold. */
  method NewBreaker(threshold: real) returns (breaker: CircuitBreaker?)
    ensures breaker == null <==> threshold < 0.0
    ensures breaker != null ==> fresh(breaker) && breaker.Valid() && breaker.costs == []
    ensures breaker != null ==> breaker.rateThreshold == threshold
  {
    if threshold < 0.0 {
      return null;
    }
    breaker := new CircuitBreaker(threshold);
  }

  /** The breaker is tripped exactly when the total crossed the threshold at some record, even if
      later records took the total below it again. */
  lemma {:induction false} TrippedExactly(threshold: real, costs: seq<real>)
    ensures AfterCosts(threshold, costs).aggregate == Sum(costs)
    ensures AfterCosts(threshold, costs).tripped
      <==> exists k :: 0 < k <= |costs| && Sum(costs[..k]) >= threshold
  {
    if costs != [] {
      var last := |costs| - 1;
      var front := costs[..last];
      TrippedExactly(threshold, front);
      assert costs[..|costs|] == costs;
      if k :| 0 < k <= |front| && Sum(front[..k]) >= threshold {
        assert front[..k] == costs[..k];
      }
      if k :| 0 < k <= |costs| && Sum(costs[..k]) >= threshold {
        if k <= last {
          assert front[..k] == costs[..k];
        }
      }
    }
  }

  /** With nonnegative costs it is tripped exactly when something was recorded and the total is at
      the threshold or over. */
  lemma {:induction false} TrippedByTotal(threshold: real, costs: seq<real>)
    requires threshold >= 0.0 && forall k :: 0 <= k < |costs| ==> costs[k] >= 0.0
    ensures AfterCosts(threshold, costs).tripped <==> costs != [] && Sum(costs) >= threshold
    ensures AfterCosts(threshold, costs).aggregate == Sum(costs) >= 0.0
  {
    if costs != [] {
      TrippedByTotal(threshold, costs[..|costs| - 1]);
    }
  }
}
