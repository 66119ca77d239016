/** A bucket seen as arithmetic: each call first gains some tokens, up to the capacity, and then
    spends one if it can. Everything here is linear in the gains. */
module BucketLevels {

  function Max(x: real, y: real): real { if x >= y then x else y }

  function Min(x: real, y: real): real { if x <= y then x else y }

  /** Tokens available to call k, after its gain; the bucket starts full. */
  function Level(capacity: real, gains: seq<real>, k: nat): real
    requires k < |gains|
    decreases k, 0
  {
    if k == 0 then capacity else Min(capacity, Left(capacity, gains, k - 1) + gains[k])
  }

  predicate Allowed(capacity: real, gains: seq<real>, k: nat)
    requires k < |gains|
  {
    Level(capacity, gains, k) >= 1.0
  }

  /** Tokens left after call k. */
  function Left(capacity: real, gains: seq<real>, k: nat): real
    requires k < |gains|
    decreases k, 1
  {
    Level(capacity, gains, k) - (if Level(capacity, gains, k) >= 1.0 then 1.0 else 0.0)
  }

  /** Number of calls allowed among j..k-1. */
  function AllowedBetween(capacity: real, gains: seq<real>, j: nat, k: nat): nat
    requires j <= k <= |gains|
    decreases k - j
  {
    if j == k then 0
    else AllowedBetween(capacity, gains, j, k - 1) + (if Allowed(capacity, gains, k - 1) then 1 else 0)
  }

  /** Total gain of calls 1..k. */
  function Gained(gains: seq<real>, k: nat): real
    requires k < |gains|
  {
    if k == 0 then 0.0 else Gained(gains, k - 1) + gains[k]
  }

  /** What the window starting at call j leaves for call k. */
  function Envelope(capacity: real, gains: seq<real>, j: nat, k: nat): real
    requires j <= k < |gains|
  {
    capacity + Gained(gains, k) - Gained(gains, j) - AllowedBetween(capacity, gains, j, k) as real
  }

  lemma {:induction false} LevelPrefix(capacity: real, gains: seq<real>, more: seq<real>, k: nat)
    requires k < |gains|
    ensures Level(capacity, gains + more, k) == Level(capacity, gains, k)
  {
    if k > 0 {
      LevelPrefix(capacity, gains, more, k - 1);
    }
  }

  lemma EnvelopeStep(capacity: real, gains: seq<real>, j: nat, k: nat)
    requires j <= k && k + 1 < |gains|
    ensures Envelope(capacity, gains, j, k + 1)
            == Envelope(capacity, gains, j, k) - Level(capacity, gains, k) + Left(capacity, gains, k) + gains[k + 1]
  {
  }

  /** The tokens available to call k are the least envelope over all windows ending at k. */
  lemma {:induction false} LevelIsLeastEnvelope(capacity: real, gains: seq<real>, k: nat)
    requires k < |gains|
    ensures forall j: nat :: j <= k ==> Level(capacity, gains, k) <= Envelope(capacity, gains, j, k)
    ensures exists j: nat :: j <= k && Level(capacity, gains, k) == Envelope(capacity, gains, j, k)
  {
    assert Envelope(capacity, gains, k, k) == capacity;
    if k > 0 {
      LevelIsLeastEnvelope(capacity, gains, k - 1);
      forall j: nat | j <= k ensures Level(capacity, gains, k) <= Envelope(capacity, gains, j, k) {
        if j < k {
          EnvelopeStep(capacity, gains, j, k - 1);
        }
      }
      var j: nat :| j <= k - 1 && Level(capacity, gains, k - 1) == Envelope(capacity, gains, j, k - 1);
      EnvelopeStep(capacity, gains, j, k - 1);
      assert Level(capacity, gains, k) == Envelope(capacity, gains, j, k)
          || Level(capacity, gains, k) == Envelope(capacity, gains, k, k);
    }
  }

  /** Call k is allowed if and only if every window j..k leaves it a whole token. */
  lemma AllowedIffEveryWindow(capacity: real, gains: seq<real>, k: nat)
    requires k < |gains|
    ensures Allowed(capacity, gains, k) <==> forall j: nat :: j <= k ==> Envelope(capacity, gains, j, k) >= 1.0
  {
    LevelIsLeastEnvelope(capacity, gains, k);
  }

  /** Tokens stay in [0, capacity] when gains are nonnegative. */
  lemma {:induction false} LevelInRange(capacity: real, gains: seq<real>, k: nat)
    requires capacity > 0.0 && k < |gains| && forall i :: 0 <= i < |gains| ==> gains[i] >= 0.0
    ensures 0.0 <= Left(capacity, gains, k) <= Level(capacity, gains, k) <= capacity
  {
    if k > 0 {
      LevelInRange(capacity, gains, k - 1);
    }
  }

  lemma AllowedInTotal(capacity: real, gains: seq<real>, k: nat)
    requires capacity > 0.0 && k < |gains| && forall i :: 0 <= i < |gains| ==> gains[i] >= 0.0
    ensures AllowedBetween(capacity, gains, 0, k + 1) as real <= capacity + Gained(gains, k)
  {
    LevelIsLeastEnvelope(capacity, gains, k);
    assert Level(capacity, gains, k) <= Envelope(capacity, gains, 0, k);
    LevelInRange(capacity, gains, k);
  }
}

/** The per-account token-bucket limiter and what its answers mean in clock time. */
module RateLimit {
  import opened BucketLevels

  /** Tokens a call gains after the previous one: nothing when the clock stepped back. */
  function Gain(rate: real, last: real, now: real): real {
    Max(0.0, now - last) * rate
  }

  function Gains(rate: real, calls: seq<real>): (gains: seq<real>)
    ensures |gains| == |calls|
  {
    if calls == [] then []
    else
      var k := |calls| - 1;
      Gains(rate, calls[..k]) + [if k == 0 then 0.0 else Gain(rate, calls[k - 1], calls[k])]
  }

  /** Seconds the limiter credits up to call k: forward movements of the clock only. */
  function Credited(calls: seq<real>, k: nat): real
    requires k < |calls|
  {
    if k == 0 then 0.0 else Credited(calls, k - 1) + Max(0.0, calls[k] - calls[k - 1])
  }

  /** The limiter's answer to call k of an account. */
  predicate Answer(rate: real, capacity: real, calls: seq<real>, k: nat)
    requires k < |calls|
  {
    Allowed(capacity, Gains(rate, calls), k)
  }

  /** Calls allowed among j..k-1. */
  function Admitted(rate: real, capacity: real, calls: seq<real>, j: nat, k: nat): nat
    requires j <= k <= |calls|
  {
    AllowedBetween(capacity, Gains(rate, calls), j, k)
  }

  /** The tokens available to the last of an account's calls. */
  ghost predicate IsLevel(rate: real, capacity: real, calls: seq<real>, tokens: real) {
    calls != [] && tokens == Level(capacity, Gains(rate, calls), |calls| - 1)
  }

  /** What an account's two dictionary entries are after its calls so far. */
  ghost predicate BucketOk(rate: real, capacity: real, calls: seq<real>, tokens: real, updated: real) {
    && calls != []
    && updated == calls[|calls| - 1]
    && tokens == Left(capacity, Gains(rate, calls), |calls| - 1)
  }

  /** The two dictionaries are those the accounts' calls give. */
  ghost predicate BucketsOk(rate: real, capacity: real, calls: map<string, seq<real>>,
                            buckets: map<string, real>, updated: map<string, real>) {
    && buckets.Keys == updated.Keys == calls.Keys
    && forall a :: a in calls ==> BucketOk(rate, capacity, calls[a], buckets[a], updated[a])
  }

  /** One account's next call keeps the others' buckets. */
  lemma NextBucketsOk(rate: real, capacity: real, calls: map<string, seq<real>>, buckets: map<string, real>,
                      updated: map<string, real>, account: string, later: seq<real>, tokens: real, now: real)
    requires BucketsOk(rate, capacity, calls, buckets, updated) && BucketOk(rate, capacity, later, tokens, now)
    ensures BucketsOk(rate, capacity, calls[account := later], buckets[account := tokens], updated[account := now])
  {
  }

  /** Nothing but the account's own entry differs. */
  ghost predicate SameElsewhere(before: map<string, real>, after: map<string, real>, account: string) {
    && after.Keys == before.Keys + {account}
    && forall other :: other in before && other != account ==> after[other] == before[other]
  }

  lemma SetKeepsOthers(m: map<string, real>, account: string, value: real)
    ensures SameElsewhere(m, m[account := value], account)
  {
  }

  lemma SetTwice(m: map<string, real>, account: string, first: real, second: real)
    ensures m[account := first][account := second] == m[account := second]
  {
  }

  class TokenBucketLimiter {
    const rate: real
    const capacity: real
    var buckets: map<string, real>
    var updated: map<string, real>
    /** Clock readings of each account's calls so far. */
    ghost var calls: map<string, seq<real>>

    ghost predicate Valid()
      reads this
    {
      rate > 0.0 && capacity > 0.0 && BucketsOk(rate, capacity, calls, buckets, updated)
    }

    ghost function CallsOf(account: string): seq<real>
      reads this
    {
      if account in calls then calls[account] else []
    }

    constructor (rate: real, capacity: int)
      requires rate > 0.0 && capacity > 0
      ensures Valid() && this.rate == rate && this.capacity == capacity as real && calls == map[]
    {
      this.rate, this.capacity := rate, capacity as real;
      buckets, updated, calls := map[], map[], map[];
    }

    /** Refill the account's bucket in place. */
    method Tokens(account: string, now: real) returns (tokens: real)
      requires Valid()
      modifies this`buckets, this`updated
      ensures buckets == old(buckets)[account := tokens] && updated == old(updated)[account := now]
      ensures IsLevel(rate, capacity, CallsOf(account) + [now], tokens)
    {
      tokens := if account in buckets then buckets[account] else capacity;
      var last := if account in updated then updated[account] else now;
      var gain := Gain(rate, last, now);
      if account in calls {
        LaterLevel(rate, capacity, calls[account], tokens, last, now);
      } else {
        FirstLevel(rate, capacity, now);
      }
      tokens := Min(capacity, tokens + gain);
      buckets := buckets[account := tokens];
      updated := updated[account := now];
    }

    /** Answers the account's next call and records it. The answer depends on the account's own
        calls only, and other accounts' buckets are untouched. */
    method Allow(account: string, now: real) returns (ok: bool)
      requires Valid()
      modifies this
      ensures Valid()
      ensures calls == old(calls)[account := old(CallsOf(account)) + [now]]
      ensures ok <==> Answer(rate, capacity, old(CallsOf(account)) + [now], |old(CallsOf(account))|)
      ensures SameElsewhere(old(buckets), buckets, account) && SameElsewhere(old(updated), updated, account)
    {
      ghost var later := CallsOf(account) + [now];
      ghost var was, wasTokens, wasUpdated := calls, buckets, updated;
      var tokens := Tokens(account, now);
      calls := calls[account := later];
      ok := tokens >= 1.0;
      LeftAfter(rate, capacity, later, tokens, now);
      ghost var left := if ok then tokens - 1.0 else tokens;
      NextBucketsOk(rate, capacity, was, wasTokens, wasUpdated, account, later, left, now);
      if ok {
        SetTwice(wasTokens, account, tokens, left);
        buckets := buckets[account := tokens - 1.0];
      }
      SetKeepsOthers(wasTokens, account, left);
      SetKeepsOthers(wasUpdated, account, now);
    }
  }

  /** The constructor's guard: a limiter exists exactly for positive settings. */
  method NewLimiter(rate: real, capacity: int) returns (limiter: TokenBucketLimiter?)
    ensures limiter == null <==> rate <= 0.0 || capacity <= 0
    ensures limiter != null ==> fresh(limiter) && limiter.Valid() && limiter.calls == map[]
    ensures limiter != null ==> limiter.rate == rate && limiter.capacity == capacity as real
  {
    if rate <= 0.0 || capacity <= 0 {
      return null;
    }
    limiter := new TokenBucketLimiter(rate, capacity);
  }

  /** Spending what the level allows leaves the bucket as its calls say. */
  lemma LeftAfter(rate: real, capacity: real, calls: seq<real>, level: real, now: real)
    requires calls != [] && calls[|calls| - 1] == now
    requires IsLevel(rate, capacity, calls, level)
    ensures BucketOk(rate, capacity, calls, if level >= 1.0 then level - 1.0 else level, now)
    ensures Answer(rate, capacity, calls, |calls| - 1) <==> level >= 1.0
  {
  }

  lemma FirstLevel(rate: real, capacity: real, now: real)
    ensures IsLevel(rate, capacity, [] + [now], Min(capacity, capacity + Gain(rate, now, now)))
  {
    assert Max(0.0, now - now) == 0.0;
  }

  lemma LaterLevel(rate: real, capacity: real, calls: seq<real>, tokens: real, last: real, now: real)
    requires BucketOk(rate, capacity, calls, tokens, last)
    ensures IsLevel(rate, capacity, calls + [now], Min(capacity, tokens + Gain(rate, last, now)))
  {
    var g := Gain(rate, last, now);
    assert (calls + [now])[..|calls|] == calls;
    assert Gains(rate, calls + [now]) == Gains(rate, calls) + [g];
    LevelPrefix(capacity, Gains(rate, calls), [g], |calls| - 1);
  }

  // ---- from gains to seconds -------------------------------------------------------------

  lemma {:induction false} GainAt(rate: real, calls: seq<real>, k: nat)
    requires k < |calls|
    ensures Gains(rate, calls)[k] == if k == 0 then 0.0 else Gain(rate, calls[k - 1], calls[k])
  {
    if k < |calls| - 1 {
      GainAt(rate, calls[..|calls| - 1], k);
    }
  }

  lemma Distribute(rate: real, x: real, y: real)
    ensures rate * (x + y) == rate * x + y * rate
  {
  }

  lemma {:induction false} GainedIsCredit(rate: real, calls: seq<real>, k: nat)
    requires k < |calls|
    ensures Gained(Gains(rate, calls), k) == rate * Credited(calls, k)
  {
    if k > 0 {
      GainedIsCredit(rate, calls, k - 1);
      GainAt(rate, calls, k);
      Distribute(rate, Credited(calls, k - 1), Max(0.0, calls[k] - calls[k - 1]));
    }
  }

  /** Tokens gained in that many seconds. */
  function Refill(rate: real, seconds: real): real {
    rate * seconds
  }

  lemma RefillBetween(rate: real, x: real, y: real)
    ensures Refill(rate, y - x) == rate * y - rate * x
  {
  }

  lemma WindowCredit(rate: real, calls: seq<real>, j: nat, k: nat)
    requires j <= k < |calls|
    ensures Gained(Gains(rate, calls), k) - Gained(Gains(rate, calls), j)
            == Refill(rate, Credited(calls, k) - Credited(calls, j))
  {
    GainedIsCredit(rate, calls, j);
    GainedIsCredit(rate, calls, k);
    RefillBetween(rate, Credited(calls, j), Credited(calls, k));
  }

  /** No window from call j to call k, with call k counted in, exceeds the burst plus `refill`. */
  ghost predicate WithinEnvelope(rate: real, capacity: real, calls: seq<real>, j: nat, k: nat, refill: real)
    requires j <= k < |calls|
  {
    Admitted(rate, capacity, calls, j, k) as real + 1.0 <= capacity + refill
  }

  lemma AllowedFitsWindow(rate: real, capacity: real, calls: seq<real>, j: nat, k: nat, refill: real)
    requires j <= k < |calls| && Answer(rate, capacity, calls, k)
    requires refill == Gained(Gains(rate, calls), k) - Gained(Gains(rate, calls), j)
    ensures WithinEnvelope(rate, capacity, calls, j, k, refill)
  {
    AllowedIffEveryWindow(capacity, Gains(rate, calls), k);
    assert Envelope(capacity, Gains(rate, calls), j, k) >= 1.0;
  }

  lemma DeniedBreaksWindow(rate: real, capacity: real, calls: seq<real>, k: nat) returns (j: nat)
    requires k < |calls| && !Answer(rate, capacity, calls, k)
    ensures j <= k
    ensures !WithinEnvelope(rate, capacity, calls, j, k,
                            Gained(Gains(rate, calls), k) - Gained(Gains(rate, calls), j))
  {
    AllowedIffEveryWindow(capacity, Gains(rate, calls), k);
    j :| j <= k && Envelope(capacity, Gains(rate, calls), j, k) < 1.0;
  }

  /** The same window, refilled only for the seconds by which the clock moved forward. */
  ghost predicate WithinCredit(rate: real, capacity: real, calls: seq<real>, j: nat, k: nat)
    requires j <= k < |calls|
  {
    WithinEnvelope(rate, capacity, calls, j, k, Refill(rate, Credited(calls, k) - Credited(calls, j)))
  }

  lemma AllowedFitsCredit(rate: real, capacity: real, calls: seq<real>, j: nat, k: nat)
    requires j <= k < |calls| && Answer(rate, capacity, calls, k)
    ensures WithinCredit(rate, capacity, calls, j, k)
  {
    WindowCredit(rate, calls, j, k);
    AllowedFitsWindow(rate, capacity, calls, j, k, Gained(Gains(rate, calls), k) - Gained(Gains(rate, calls), j));
  }

  lemma DeniedBreaksCredit(rate: real, capacity: real, calls: seq<real>, k: nat) returns (j: nat)
    requires k < |calls| && !Answer(rate, capacity, calls, k)
    ensures j <= k && !WithinCredit(rate, capacity, calls, j, k)
  {
    j := DeniedBreaksWindow(rate, capacity, calls, k);
    WindowCredit(rate, calls, j, k);
  }

  /** Exactness for any clock readings: call k is allowed if and only if every window ending at it
      stays within the burst plus the refill of the seconds by which the clock moved forward. */
  lemma AnswerExactly(rate: real, capacity: real, calls: seq<real>, k: nat)
    requires k < |calls|
    ensures Answer(rate, capacity, calls, k)
      <==> forall j: nat :: j <= k ==> WithinCredit(rate, capacity, calls, j, k)
  {
    if Answer(rate, capacity, calls, k) {
      forall j: nat | j <= k ensures WithinCredit(rate, capacity, calls, j, k) {
        AllowedFitsCredit(rate, capacity, calls, j, k);
      }
    } else {
      var j := DeniedBreaksCredit(rate, capacity, calls, k);
    }
  }

  ghost predicate NonDecreasing(calls: seq<real>) {
    forall i, j :: 0 <= i < j < |calls| ==> calls[i] <= calls[j]
  }

  lemma {:induction false} CreditedIsElapsed(calls: seq<real>, k: nat)
    requires NonDecreasing(calls) && k < |calls|
    ensures Credited(calls, k) == calls[k] - calls[0]
  {
    if k > 0 {
      CreditedIsElapsed(calls, k - 1);
    }
  }

  /** Exactness in clock time, for a clock that never steps back: the limiter neither over-admits
      in any interval nor denies a call the envelope permits. */
  lemma AnswerExactlyByClock(rate: real, capacity: real, calls: seq<real>, k: nat)
    requires NonDecreasing(calls) && k < |calls|
    ensures Answer(rate, capacity, calls, k)
      <==> forall j: nat :: j <= k ==>
             WithinEnvelope(rate, capacity, calls, j, k, Refill(rate, calls[k] - calls[j]))
  {
    if Answer(rate, capacity, calls, k) {
      forall j: nat | j <= k
        ensures WithinEnvelope(rate, capacity, calls, j, k, Refill(rate, calls[k] - calls[j]))
      {
        WindowElapsed(rate, calls, j, k);
        AllowedFitsWindow(rate, capacity, calls, j, k, Refill(rate, calls[k] - calls[j]));
      }
    } else {
      var j := DeniedBreaksWindow(rate, capacity, calls, k);
      WindowElapsed(rate, calls, j, k);
    }
  }

  lemma WindowElapsed(rate: real, calls: seq<real>, j: nat, k: nat)
    requires NonDecreasing(calls) && j <= k < |calls|
    ensures Gained(Gains(rate, calls), k) - Gained(Gains(rate, calls), j) == Refill(rate, calls[k] - calls[j])
  {
    assert Credited(calls, k) - Credited(calls, j) == calls[k] - calls[j] by {
      CreditedIsElapsed(calls, j);
      CreditedIsElapsed(calls, k);
    }
    WindowCredit(rate, calls, j, k);
  }

  lemma {:induction false} GainsNonNegative(rate: real, calls: seq<real>)
    requires rate > 0.0
    ensures forall k :: 0 <= k < |calls| ==> Gains(rate, calls)[k] >= 0.0
  {
    forall k: nat | k < |calls| ensures Gains(rate, calls)[k] >= 0.0 {
      GainAt(rate, calls, k);
    }
  }

  /** For any readings at all, tokens stay in range and the calls allowed are bounded by the burst
      plus the credited refill. */
  lemma BoundedForAnyClock(rate: real, capacity: real, calls: seq<real>)
    requires rate > 0.0 && capacity > 0.0 && calls != []
    ensures 0.0 <= Left(capacity, Gains(rate, calls), |calls| - 1) <= capacity
    ensures Admitted(rate, capacity, calls, 0, |calls|) as real
            <= capacity + rate * Credited(calls, |calls| - 1)
  {
    var k := |calls| - 1;
    GainsNonNegative(rate, calls);
    LevelInRange(capacity, Gains(rate, calls), k);
    AllowedInTotal(capacity, Gains(rate, calls), k);
    GainedIsCredit(rate, calls, k);
  }

  /** Call k's answer is what the elapsed-time envelope says. */
  ghost predicate ByElapsedTime(rate: real, capacity: real, calls: seq<real>, k: nat)
    requires k < |calls|
  {
    Answer(rate, capacity, calls, k)
    <==> forall j: nat :: j <= k ==> WithinEnvelope(rate, capacity, calls, j, k, Refill(rate, calls[k] - calls[j]))
  }

  /** However the clock moves, a bucket has lost at most one token a call. */
  lemma {:induction false} LevelAtLeast(capacity: real, gains: seq<real>, k: nat)
    requires k < |gains| && forall i :: 0 <= i < |gains| ==> gains[i] >= 0.0
    ensures Level(capacity, gains, k) >= capacity - k as real
  {
    if k > 0 {
      LevelAtLeast(capacity, gains, k - 1);
    }
  }

  /** A step back into call k that the elapsed-time envelope punishes and the limiter does not. */
  lemma StepBackShows(calls: seq<real>, k: nat) returns (rate: real, capacity: real)
    requires 0 < k < |calls| && calls[k] < calls[k - 1]
    ensures rate > 0.0 && capacity > 0.0 && !ByElapsedTime(rate, capacity, calls, k)
  {
    var back := calls[k - 1] - calls[k];
    rate, capacity := (k + 2) as real / back, (k + 1) as real;
    GainsNonNegative(rate, calls);
    LevelAtLeast(capacity, Gains(rate, calls), k);
    assert Answer(rate, capacity, calls, k);
    assert Refill(rate, calls[k] - calls[k - 1]) == -((k + 2) as real);
    assert !WithinEnvelope(rate, capacity, calls, k - 1, k, Refill(rate, calls[k] - calls[k - 1]));
  }

  lemma {:induction false} StepBack(calls: seq<real>, i: nat, j: nat) returns (k: nat)
    requires i < j < |calls| && calls[i] > calls[j]
    ensures 0 < k < |calls| && calls[k] < calls[k - 1]
  {
    k := j;
    if calls[j - 1] <= calls[j] {
      k := StepBack(calls, i, j - 1);
    }
  }

  /** The elapsed-time envelope says every answer of every limiter if and only if the clock never
      steps back. */
  lemma ElapsedTimeExactly(calls: seq<real>)
    ensures (forall rate, capacity, k: nat :: rate > 0.0 && capacity > 0.0 && k < |calls| ==>
               ByElapsedTime(rate, capacity, calls, k))
      <==> NonDecreasing(calls)
  {
    if NonDecreasing(calls) {
      forall rate, capacity, k: nat | rate > 0.0 && capacity > 0.0 && k < |calls|
        ensures ByElapsedTime(rate, capacity, calls, k)
      {
        AnswerExactlyByClock(rate, capacity, calls, k);
      }
    } else {
      var i, j :| 0 <= i < j < |calls| && calls[i] > calls[j];
      var k := StepBack(calls, i, j);
      var rate, capacity := StepBackShows(calls, k);
    }
  }

  /** A backward step is credited on the clock's way back: the elapsed-time reading of the
      envelope is false there, while the credited one holds. */
  lemma BackwardClockRefills()
    ensures var calls := [10.0, 9.0, 10.0];
            && Answer(1.0, 1.0, calls, 2)
            && (Admitted(1.0, 1.0, calls, 0, 2) + 1) as real > 1.0 + 1.0 * (calls[2] - calls[0])
  {
    var calls := [10.0, 9.0, 10.0];
    var gains := Gains(1.0, calls);
    GainAt(1.0, calls, 0);
    GainAt(1.0, calls, 1);
    GainAt(1.0, calls, 2);
    assert gains == [0.0, 0.0, 1.0];
    assert Left(1.0, gains, 0) == 0.0;
    assert Level(1.0, gains, 1) == 0.0;
    assert AllowedBetween(1.0, gains, 0, 1) == 1;
    assert AllowedBetween(1.0, gains, 0, 2) == 1;
  }
}
