/**
 The token-bucket rate limiter: buckets that refill with time, a bounded table of them in
 least-recently-used order, a shared overflow bucket, and the sweep of idle buckets.

 Token counts are real numbers, times whole milliseconds. A key always comes with the same limits.
 */
module RateLimit {

  datatype Limits = Limits(capacity: real, refillPerSec: real)

  predicate LimitsOk(l: Limits) {
    l.capacity >= 0.0 && l.refillPerSec >= 0.0
  }

  // ----- one bucket -----

  datatype Bucket = Bucket(tokens: real, lastRefill: int, limits: Limits, lastTouched: int)

  predicate BucketOk(b: Bucket) {
    LimitsOk(b.limits) && 0.0 <= b.tokens <= b.limits.capacity
  }

  function Full(l: Limits, now: int): Bucket {
    Bucket(l.capacity, now, l, now)
  }

  /** What flows in during `ms` milliseconds. */
  function Inflow(l: Limits, ms: int): real {
    ms as real / 1000.0 * l.refillPerSec
  }

  function Min(x: real, y: real): real {
    if x < y then x else y
  }

  function Refilled(b: Bucket, now: int): Bucket {
    if now > b.lastRefill
    then b.(tokens := Min(b.limits.capacity, b.tokens + Inflow(b.limits, now - b.lastRefill)), lastRefill := now)
    else b
  }

  predicate Admits(b: Bucket, now: int) {
    Refilled(b, now).tokens >= 1.0
  }

  /** The bucket after a check. */
  function Take(b: Bucket, now: int): Bucket {
    var r := Refilled(b, now);
    if r.tokens < 1.0 then r else r.(tokens := r.tokens - 1.0)
  }

  function Ceil(x: real): int {
    -((-x).Floor)
  }

  function RetryAfter(b: Bucket, idleEvictMs: int): int {
    if b.limits.refillPerSec > 0.0 then Ceil((1.0 - b.tokens) / b.limits.refillPerSec * 1000.0) else idleEvictMs
  }

  function TakeAll(b: Bucket, times: seq<int>): Bucket {
    if times == [] then b else Take(TakeAll(b, times[..|times| - 1]), times[|times| - 1])
  }

  /** How many of the checks at `times` are admitted. */
  function Admitted(b: Bucket, times: seq<int>): nat {
    if times == [] then 0
    else
      var before := times[..|times| - 1];
      Admitted(b, before) + if Admits(TakeAll(b, before), times[|times| - 1]) then 1 else 0
  }

  /** `count` admissions in a window of `ms` milliseconds keep to the limits. */
  predicate WithinRate(l: Limits, count: int, ms: int) {
    count as real <= l.capacity + Inflow(l, ms)
  }

  lemma InflowGrows(l: Limits, x: int, y: int)
    requires LimitsOk(l) && x <= y
    ensures Inflow(l, x) <= Inflow(l, y)
    ensures 0 <= x ==> Inflow(l, x) >= 0.0
    ensures Inflow(l, y) == Inflow(l, x) + Inflow(l, y - x)
  {
  }

  /** One check: the count stays in range, and the tokens spent and left are covered by the inflow. */
  lemma TakeFacts(b: Bucket, now: int)
    requires BucketOk(b)
    ensures BucketOk(Take(b, now)) && Take(b, now).limits == b.limits
    ensures Take(b, now).lastRefill == if now > b.lastRefill then now else b.lastRefill
    ensures Take(b, now).tokens + (if Admits(b, now) then 1.0 else 0.0)
            <= b.tokens + Inflow(b.limits, Take(b, now).lastRefill - b.lastRefill)
  {
    InflowGrows(b.limits, 0, Take(b, now).lastRefill - b.lastRefill);
  }

  lemma {:induction false} TokensInRange(b: Bucket, times: seq<int>)
    requires BucketOk(b)
    ensures BucketOk(TakeAll(b, times)) && TakeAll(b, times).limits == b.limits
  {
    if times != [] {
      TokensInRange(b, times[..|times| - 1]);
      TakeFacts(TakeAll(b, times[..|times| - 1]), times[|times| - 1]);
    }
  }

  /** Over any run, what was spent and what is left came from the start or flowed in since. */
  lemma {:induction false} Conserved(b: Bucket, times: seq<int>)
    requires BucketOk(b)
    ensures TakeAll(b, times).tokens + Admitted(b, times) as real
            <= b.tokens + Inflow(b.limits, TakeAll(b, times).lastRefill - b.lastRefill)
  {
    if times != [] {
      var before := times[..|times| - 1];
      Conserved(b, before);
      TokensInRange(b, before);
      var p := TakeAll(b, before);
      TakeFacts(p, times[|times| - 1]);
      InflowGrows(b.limits, p.lastRefill - b.lastRefill, Take(p, times[|times| - 1]).lastRefill - b.lastRefill);
    }
  }

  lemma {:induction false} LastRefillBound(b: Bucket, times: seq<int>, latest: int)
    requires forall k :: 0 <= k < |times| ==> times[k] <= latest
    ensures b.lastRefill <= TakeAll(b, times).lastRefill
    ensures TakeAll(b, times).lastRefill == b.lastRefill || TakeAll(b, times).lastRefill <= latest
  {
    if times != [] { LastRefillBound(b, times[..|times| - 1], latest); }
  }

  /** Checking later checks: the run from where the earlier ones left the bucket. */
  lemma {:induction false} TakeAllConcat(b: Bucket, xs: seq<int>, ys: seq<int>)
    ensures TakeAll(b, xs + ys) == TakeAll(TakeAll(b, xs), ys)
    ensures Admitted(b, xs + ys) == Admitted(b, xs) + Admitted(TakeAll(b, xs), ys)
  {
    if ys == [] {
      assert xs + ys == xs;
    } else {
      assert (xs + ys)[..|xs + ys| - 1] == xs + ys[..|ys| - 1];
      TakeAllConcat(b, xs, ys[..|ys| - 1]);
    }
  }

  /** Refilling just before a run of checks changes none of them. */
  lemma {:induction false} RefillFirst(b: Bucket, times: seq<int>)
    requires times != []
    ensures TakeAll(Refilled(b, times[0]), times) == TakeAll(b, times)
    ensures Admitted(Refilled(b, times[0]), times) == Admitted(b, times)
  {
    if |times| == 1 {
      assert times[..0] == [];
      assert Refilled(Refilled(b, times[0]), times[0]) == Refilled(b, times[0]);
    } else {
      RefillFirst(b, times[..|times| - 1]);
    }
  }

  lemma RefillKeepsOk(b: Bucket, now: int)
    requires BucketOk(b)
    ensures BucketOk(Refilled(b, now)) && Refilled(b, now).limits == b.limits && Refilled(b, now).lastRefill >= now
  {
    InflowGrows(b.limits, 0, if now > b.lastRefill then now - b.lastRefill else 0);
  }

  lemma BoundSince(b: Bucket, times: seq<int>, first: int, latest: int)
    requires BucketOk(b) && first <= b.lastRefill && first <= latest
    requires forall k :: 0 <= k < |times| ==> times[k] <= latest
    ensures WithinRate(b.limits, Admitted(b, times), latest - first)
  {
    Conserved(b, times);
    TokensInRange(b, times);
    LastRefillBound(b, times, latest);
    InflowGrows(b.limits, TakeAll(b, times).lastRefill - b.lastRefill, latest - first);
  }

  /**
   The rate bound: from any state of the bucket and over any later checks, even with a clock that
   jumps back, no more is admitted than a full bucket plus the inflow since the first of them.
   */
  lemma AdmissionBound(b: Bucket, times: seq<int>, latest: int)
    requires BucketOk(b) && times != [] && forall k :: 0 <= k < |times| ==> times[k] <= latest
    ensures WithinRate(b.limits, Admitted(b, times), latest - times[0])
  {
    RefillKeepsOk(b, times[0]);
    RefillFirst(b, times);
    BoundSince(Refilled(b, times[0]), times, times[0], latest);
  }

  /** The same for every window of a run. */
  lemma WindowBound(b: Bucket, times: seq<int>, i: nat, latest: int)
    requires BucketOk(b) && i < |times| && forall k :: i <= k < |times| ==> times[k] <= latest
    ensures WithinRate(b.limits, Admitted(b, times) - Admitted(b, times[..i]), latest - times[i])
  {
    var earlier, window := times[..i], times[i..];
    assert times == earlier + window && window[0] == times[i];
    assert forall k :: 0 <= k < |window| ==> window[k] == times[i + k];
    var start := TakeAll(b, earlier);
    var count := Admitted(start, window);
    assert start.limits == b.limits && BucketOk(start) by { TokensInRange(b, earlier); }
    assert WithinRate(b.limits, count, latest - times[i]) by { AdmissionBound(start, window, latest); }
    assert Admitted(b, times) - Admitted(b, earlier) == count by { TakeAllConcat(b, earlier, window); }
  }

  /**
   The hint is exact, counted from the last refill: with nothing admitted since, a check succeeds
   from that moment on and not before. The last refill is the rejected check itself unless the
   clock has jumped back.
   */
  lemma RetryAfterIsExact(b: Bucket, now: int, idleEvictMs: int, t: int)
    requires BucketOk(b) && b.limits.capacity >= 1.0 && b.limits.refillPerSec > 0.0 && !Admits(b, now)
    ensures Take(b, now).lastRefill == now <==> now >= b.lastRefill
    ensures Admits(Take(b, now), t) <==> t >= Take(b, now).lastRefill + RetryAfter(Take(b, now), idleEvictMs)
  {
    var r := Take(b, now);
    var rate := r.limits.refillPerSec;
    var wait := (1.0 - r.tokens) / rate * 1000.0;
    assert wait > 0.0 by { assert (1.0 - r.tokens) / rate > 0.0; }
    CeilIsLeast(wait, 0);
    EnoughInflow(rate, r.tokens, wait, t - r.lastRefill);
    CeilIsLeast(wait, t - r.lastRefill);
  }

  lemma CeilIsLeast(x: real, n: int)
    ensures n >= Ceil(x) <==> n as real >= x
  {
  }

  lemma EnoughInflow(rate: real, tokens: real, wait: real, ms: int)
    requires rate > 0.0 && wait == (1.0 - tokens) / rate * 1000.0
    ensures tokens + ms as real / 1000.0 * rate >= 1.0 <==> ms as real >= wait
  {
    var u := (1.0 - tokens) / rate;
    assert u * rate == 1.0 - tokens;
    var v := ms as real / 1000.0;
    assert v >= u ==> v * rate >= u * rate;
    assert v < u ==> v * rate < u * rate;
  }

  /** A rejected check leaves the moment of the next success where it was. */
  lemma RejectionsCostNothing(b: Bucket, now: int, t: int)
    requires BucketOk(b) && b.lastRefill <= now <= t && !Admits(b, now)
    ensures Admits(Take(b, now), t) <==> Admits(b, t)
  {
    InflowGrows(b.limits, now - b.lastRefill, t - b.lastRefill);
  }

  // ----- idle buckets -----

  /** Every bucket idle for longer than `idleEvictMs` is full again, so that dropping it loses nothing. */
  ghost predicate IdleIsFull(l: Limits, idleEvictMs: int) {
    forall b: Bucket, now: int {:trigger Refilled(b, now)} ::
      BucketOk(b) && b.limits == l && now - b.lastRefill > idleEvictMs ==> Refilled(b, now).tokens == l.capacity
  }

  predicate RefillsWhileIdle(l: Limits, idleEvictMs: int) {
    Inflow(l, idleEvictMs + 1) >= l.capacity
  }

  /** It is so exactly when an empty bucket fills up in the shortest time a sweep waits for. This speaks of token levels. */
  lemma IdleIsFullIff(l: Limits, idleEvictMs: nat)
    requires LimitsOk(l)
    ensures IdleIsFull(l, idleEvictMs) <==> RefillsWhileIdle(l, idleEvictMs)
  {
    var drained := Bucket(0.0, 0, l, 0);
    assert Refilled(drained, idleEvictMs + 1).tokens == Min(l.capacity, Inflow(l, idleEvictMs + 1));
    if RefillsWhileIdle(l, idleEvictMs) {
      forall b: Bucket, now: int | BucketOk(b) && b.limits == l && now - b.lastRefill > idleEvictMs
        ensures Refilled(b, now).tokens == l.capacity
      {
        InflowGrows(l, idleEvictMs + 1, now - b.lastRefill);
      }
    }
  }
}
