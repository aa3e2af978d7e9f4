/**
 The levels that a bucket can be left at. Checks take whole tokens, so a bucket that is never full in
 between keeps the fraction its inflow gave it; the lowest level need not be zero.
 */
module RateLevels {
  import opened RateLimit

  function Frac(x: real): real {
    x - x.Floor as real
  }

  /** What is left of a full bucket that is emptied as far as it goes, now and in each of the next `ms` milliseconds. */
  function DrainedLevel(l: Limits, ms: nat): real {
    if ms == 0 then Frac(l.capacity) else Frac(Min(l.capacity, DrainedLevel(l, ms - 1) + Inflow(l, 1)))
  }

  /** `tokens` is a drained level plus whole tokens. */
  ghost predicate OnLevel(l: Limits, tokens: real) {
    tokens >= 0.0 && exists ms: nat :: Frac(tokens) == DrainedLevel(l, ms)
  }

  /** The shortest time for which a dropped bucket was idle. */
  function ShortestIdle(idleEvictMs: int): nat {
    if idleEvictMs < 0 then 0 else idleEvictMs + 1
  }

  /** From every level it can be left at, a bucket fills up in the shortest time a sweep waits for. */
  ghost predicate FillsWhileIdle(l: Limits, idleEvictMs: int) {
    forall ms: nat :: DrainedLevel(l, ms) + Inflow(l, ShortestIdle(idleEvictMs)) >= l.capacity
  }

  lemma FracFacts(x: real, n: int)
    ensures 0.0 <= Frac(x) < 1.0
    ensures Frac(x + n as real) == Frac(x)
    ensures 0.0 <= x < 1.0 ==> Frac(x) == x
    ensures x >= 0.0 ==> Frac(x) <= x
  {
    assert (x + n as real).Floor == x.Floor + n;
  }

  lemma LevelRange(l: Limits, ms: nat)
    ensures 0.0 <= DrainedLevel(l, ms) < 1.0
  {
    FracFacts(l.capacity, 0);
    if ms > 0 { FracFacts(Min(l.capacity, DrainedLevel(l, ms - 1) + Inflow(l, 1)), 0); }
  }

  /** Inflow below the capacity moves along the levels. */
  lemma {:induction false} LevelAfter(l: Limits, tokens: real, ms: nat, wait: nat)
    requires LimitsOk(l) && tokens >= 0.0 && Frac(tokens) == DrainedLevel(l, ms)
    requires tokens + Inflow(l, wait) <= l.capacity
    ensures Frac(tokens + Inflow(l, wait)) == DrainedLevel(l, ms + wait)
  {
    if wait == 0 {
      assert Inflow(l, wait) == 0.0;
    } else {
      var more, less := Inflow(l, wait), Inflow(l, wait - 1);
      assert more == less + Inflow(l, 1) && less >= 0.0 && Inflow(l, 1) >= 0.0 by { InflowSplits(l, wait); }
      LevelAfter(l, tokens, ms, wait - 1);
      LevelStep(l, tokens + less, ms + wait - 1);
    }
  }

  lemma InflowSplits(l: Limits, wait: nat)
    requires LimitsOk(l) && wait > 0
    ensures Inflow(l, wait) == Inflow(l, wait - 1) + Inflow(l, 1) && Inflow(l, wait - 1) >= 0.0 && Inflow(l, 1) >= 0.0
  {
    InflowGrows(l, wait - 1, wait);
    InflowGrows(l, 0, wait - 1);
    InflowGrows(l, 0, 1);
  }

  /** One millisecond. */
  lemma LevelStep(l: Limits, tokens: real, ms: nat)
    requires tokens >= 0.0 && Frac(tokens) == DrainedLevel(l, ms)
    requires tokens + Inflow(l, 1) <= l.capacity
    ensures Frac(tokens + Inflow(l, 1)) == DrainedLevel(l, ms + 1)
  {
    FracFacts(tokens, 0);
    FracOfSum(tokens, Inflow(l, 1));
  }

  lemma FracOfSum(x: real, y: real)
    ensures Frac(Frac(x) + y) == Frac(x + y)
  {
    FracFacts(Frac(x) + y, x.Floor);
  }

  /** A check leaves a bucket on a level. */
  lemma TakeKeepsLevel(b: Bucket, now: int)
    requires BucketOk(b) && OnLevel(b.limits, b.tokens) && b.lastRefill <= now
    ensures OnLevel(b.limits, Take(b, now).tokens)
  {
    var l, r := b.limits, Refilled(b, now);
    var ms: nat :| Frac(b.tokens) == DrainedLevel(l, ms);
    InflowGrows(l, 0, now - b.lastRefill);
    if b.tokens + Inflow(l, now - b.lastRefill) <= l.capacity {
      LevelAfter(l, b.tokens, ms, now - b.lastRefill);
      assert Frac(r.tokens) == DrainedLevel(l, ms + (now - b.lastRefill));
    } else {
      assert Frac(r.tokens) == DrainedLevel(l, 0);
    }
    FracFacts(r.tokens, -1);
  }

  lemma FullIsOnLevel(l: Limits)
    requires LimitsOk(l)
    ensures OnLevel(l, l.capacity)
  {
    assert Frac(l.capacity) == DrainedLevel(l, 0);
  }

  /** A bucket that fills from its lowest level fills from where it is. */
  lemma LevelFills(l: Limits, tokens: real, idleEvictMs: int)
    requires OnLevel(l, tokens) && FillsWhileIdle(l, idleEvictMs)
    ensures tokens + Inflow(l, ShortestIdle(idleEvictMs)) >= l.capacity
  {
    var ms: nat :| Frac(tokens) == DrainedLevel(l, ms);
    FracFacts(tokens, 0);
  }

  /** Where an empty bucket fills, every bucket does; for a whole-number capacity that is the same. */
  lemma EmptyFillsIff(l: Limits, idleEvictMs: nat)
    ensures RefillsWhileIdle(l, idleEvictMs) ==> FillsWhileIdle(l, idleEvictMs)
    ensures Frac(l.capacity) == 0.0 && FillsWhileIdle(l, idleEvictMs) ==> RefillsWhileIdle(l, idleEvictMs)
  {
    forall ms: nat ensures DrainedLevel(l, ms) >= 0.0 { LevelRange(l, ms); }
    assert DrainedLevel(l, 0) == Frac(l.capacity);
  }

  // ----- the first level that is too low -----

  predicate TooLow(l: Limits, ms: nat, idleEvictMs: int) {
    DrainedLevel(l, ms) + Inflow(l, ShortestIdle(idleEvictMs)) < l.capacity
  }

  lemma {:induction false} FirstTooLow(l: Limits, ms: nat, idleEvictMs: int) returns (first: nat)
    requires TooLow(l, ms, idleEvictMs)
    ensures TooLow(l, first, idleEvictMs) && forall i: nat :: i < first ==> !TooLow(l, i, idleEvictMs)
  {
    if i: nat :| i < ms && TooLow(l, i, idleEvictMs) {
      first := FirstTooLow(l, i, idleEvictMs);
    } else {
      first := ms;
    }
  }

  /** A bucket that filled up on the way starts over. */
  lemma {:induction false} LevelsRepeat(l: Limits, i: nat, j: nat)
    requires DrainedLevel(l, i) == DrainedLevel(l, 0)
    ensures DrainedLevel(l, i + j) == DrainedLevel(l, j)
  {
    if j > 0 { LevelsRepeat(l, i, j - 1); }
  }

  /** From level `ms` one millisecond does not fill the bucket. */
  predicate RoomAt(l: Limits, ms: nat) {
    DrainedLevel(l, ms) + Inflow(l, 1) <= l.capacity
  }

  ghost predicate NeverFull(l: Limits, ms: nat) {
    forall i: nat :: i < ms ==> RoomAt(l, i)
  }

  lemma NeverFullBelow(l: Limits, prev: nat, ms: nat)
    requires NeverFull(l, ms) && prev < ms
    ensures NeverFull(l, prev) && RoomAt(l, prev)
  {
  }

  /** So on the way to the first level that is too low no bucket fills up. */
  lemma NeverFullBefore(l: Limits, first: nat, idleEvictMs: int, i: nat)
    requires TooLow(l, first, idleEvictMs) && forall j: nat :: j < first ==> !TooLow(l, j, idleEvictMs)
    requires i < first
    ensures RoomAt(l, i)
  {
    if DrainedLevel(l, i) + Inflow(l, 1) > l.capacity {
      assert DrainedLevel(l, i + 1) == DrainedLevel(l, 0);
      assert !TooLow(l, first - i - 1, idleEvictMs);
      LevelsRepeat(l, i + 1, first - i - 1);
    }
  }
}
