/**
 Exactly when dropping idle buckets is invisible in the answers.
 */
module RateSweep {
  import opened RateDrain
  import opened RateLevels
  import opened RateLimit
  import opened RateTable

  // ----- draining both -----

  /** As long as both answer alike, `n` checks keep their levels `d` apart. */
  lemma {:induction false} DrainBoth(c: Settings, plan: Plan, acts: seq<Action>, k: string, now: int, y: real, d: real, n: nat)
    returns (all: seq<Action>)
    requires c.maxEntries >= 1 && LimitsOk(plan(k)) && AnswersAlike(c, plan)
    requires RunOf(acts, k, now) && Finds(c, plan, acts, k, now, y, d)
    ensures RunOf(all, k, now) && Finds(c, plan, all, k, now, SpendAll(y, n), d)
    ensures n > 0 ==> Holds(c, plan, all, k, now, SpendAll(y, n), d)
  {
    if n == 0 {
      all := acts;
    } else {
      var before := DrainBoth(c, plan, acts, k, now, y, d, n - 1);
      all := DrainOne(c, plan, before, k, now, SpendAll(y, n - 1), d);
    }
  }

  /** Enough checks leave only the fraction. */
  lemma DrainToFraction(c: Settings, plan: Plan, acts: seq<Action>, k: string, now: int, y: real, d: real)
    returns (all: seq<Action>)
    requires c.maxEntries >= 1 && LimitsOk(plan(k)) && AnswersAlike(c, plan) && y >= 0.0
    requires RunOf(acts, k, now) && Finds(c, plan, acts, k, now, y, d)
    ensures RunOf(all, k, now) && Holds(c, plan, all, k, now, Frac(y), d)
  {
    SpentToFraction(y, y.Floor + 1);
    all := DrainBoth(c, plan, acts, k, now, y, d, y.Floor + 1);
  }

  lemma LowestLevel(c: Settings, plan: Plan, acts: seq<Action>, k: string, now: int, d: real) returns (all: seq<Action>)
    requires c.maxEntries >= 1 && LimitsOk(plan(k)) && AnswersAlike(c, plan) && d >= 0.0
    requires RunOf(acts, k, now) && Finds(c, plan, acts, k, now, plan(k).capacity, d)
    ensures AtLevel(c, plan, all, k, now, 0, d)
  {
    all := DrainToFraction(c, plan, acts, k, now, plan(k).capacity, d);
  }

  /** One millisecond later, emptied again. */
  lemma NextLevel(c: Settings, plan: Plan, acts: seq<Action>, k: string, now: int, d: real, ms: nat, ms': nat)
    returns (all: seq<Action>, next: int)
    requires c.maxEntries >= 1 && LimitsOk(plan(k)) && AnswersAlike(c, plan) && d >= 0.0
    requires AtLevel(c, plan, acts, k, now, ms, d) && RoomAt(plan(k), ms) && ms' == ms + 1
    ensures AtLevel(c, plan, all, k, next, ms', d)
  {
    var refilled := DrainedLevel(plan(k), ms) + Inflow(plan(k), 1);
    assert refilled >= 0.0 && Frac(refilled) == DrainedLevel(plan(k), ms') by {
      LevelRange(plan(k), ms);
      InflowGrows(plan(k), 0, 1);
    }
    next := now + 1;
    BothWait(c, plan, acts, k, now, next, DrainedLevel(plan(k), ms), refilled, d);
    LaterRun(acts, k, now, next);
    all := DrainToFraction(c, plan, acts, k, next, refilled, d);
  }

  /** Emptied now and in each of the next `ms` milliseconds, a full bucket that never fills up again gets to level `ms`. */
  lemma {:induction false} DrainToLevel(c: Settings, plan: Plan, acts: seq<Action>, k: string, start: int, d: real, ms: nat)
    returns (all: seq<Action>, now: int)
    requires c.maxEntries >= 1 && LimitsOk(plan(k)) && AnswersAlike(c, plan) && d >= 0.0 && RunOf(acts, k, start)
    requires Finds(c, plan, acts, k, start, plan(k).capacity, d) && NeverFull(plan(k), ms)
    ensures AtLevel(c, plan, all, k, now, ms, d)
  {
    if ms == 0 {
      now := start;
      all := LowestLevel(c, plan, acts, k, start, d);
    } else {
      var prev: nat := ms - 1;
      NeverFullBelow(plan(k), prev, ms);
      var before, past := DrainToLevel(c, plan, acts, k, start, d, prev);
      all, now := NextLevel(c, plan, before, k, past, d, prev, ms);
    }
  }

  // ----- one round, and many -----

  /** `first` is the first level from which a bucket does not fill while idle. */
  ghost predicate LowAt(c: Settings, l: Limits, first: nat) {
    LimitsOk(l) && TooLow(l, first, c.idleEvictMs) && forall i: nat :: i < first ==> !TooLow(l, i, c.idleEvictMs)
  }

  /** What is missing at that level. */
  function MissingAt(c: Settings, l: Limits, first: nat): real {
    Missing(l, DrainedLevel(l, first), c.idleEvictMs)
  }

  /** The sweep at the first moment that takes the bucket widens the gap; until then it is less than a token. */
  lemma SweepWidens(c: Settings, plan: Plan, acts: seq<Action>, k: string, now: int, d: real, first: nat)
    returns (all: seq<Action>, next: int)
    requires LowAt(c, plan(k), first) && d >= 0.0 && AtLevel(c, plan, acts, k, now, first, d)
    ensures d < 1.0
    ensures RunOf(all, k, next) && Finds(c, plan, all, k, next, plan(k).capacity, d + MissingAt(c, plan(k), first))
  {
    next := now + ShortestIdle(c.idleEvictMs);
    all := acts + [Sweep(next)];
    GapBelowOne(c, plan, acts, k, now, first, d);
    SweepBoth(c, plan, acts, k, now, next, DrainedLevel(plan(k), first), d, MissingAt(c, plan(k), first));
    SweepRunsOn(acts, k, now, next);
  }

  /** Each round the unbounded table falls behind by what is missing; yet it is never a whole token behind. */
  lemma RoundWidens(c: Settings, plan: Plan, acts: seq<Action>, k: string, start: int, d: real, first: nat)
    returns (all: seq<Action>, next: int)
    requires c.maxEntries >= 1 && AnswersAlike(c, plan) && LowAt(c, plan(k), first) && d >= 0.0 && RunOf(acts, k, start)
    requires Finds(c, plan, acts, k, start, plan(k).capacity, d)
    ensures d < 1.0
    ensures RunOf(all, k, next) && Finds(c, plan, all, k, next, plan(k).capacity, d + MissingAt(c, plan(k), first))
  {
    forall i: nat | i < first ensures RoomAt(plan(k), i) { NeverFullBefore(plan(k), first, c.idleEvictMs, i); }
    var drained, now := DrainToLevel(c, plan, acts, k, start, d, first);
    all, next := SweepWidens(c, plan, drained, k, now, d, first);
  }

  function Behind(missing: real, j: nat): real {
    if j == 0 then 0.0 else Behind(missing, j - 1) + missing
  }

  lemma {:induction false} BehindGrows(missing: real, j: nat)
    ensures Behind(missing, j) == j as real * missing
  {
    if j > 0 { BehindGrows(missing, j - 1); }
  }

  lemma EmptyFinds(c: Settings, plan: Plan, k: string)
    ensures RunOf([], k, 0) && Finds(c, plan, [], k, 0, plan(k).capacity, 0.0)
  {
  }

  lemma {:induction false} RoundsWiden(c: Settings, plan: Plan, k: string, first: nat, j: nat)
    returns (acts: seq<Action>, now: int)
    requires c.maxEntries >= 1 && AnswersAlike(c, plan) && LowAt(c, plan(k), first)
    ensures Behind(MissingAt(c, plan(k), first), j) >= 0.0
    ensures RunOf(acts, k, now) && Finds(c, plan, acts, k, now, plan(k).capacity, Behind(MissingAt(c, plan(k), first), j))
  {
    if j == 0 {
      acts, now := [], 0;
      EmptyFinds(c, plan, k);
    } else {
      var before, past := RoundsWiden(c, plan, k, first, j - 1);
      acts, now := RoundWidens(c, plan, before, k, past, Behind(MissingAt(c, plan(k), first), j - 1), first);
    }
  }

  /** Enough rounds put the unbounded table more than a token behind. */
  lemma EnoughRounds(missing: real) returns (j: nat)
    requires missing > 0.0
    ensures Behind(missing, j) > 1.0
  {
    var q := 1.0 / missing;
    j := q.Floor + 1;
    BehindGrows(missing, j);
    assert q * missing == 1.0;
    assert (j as real - q) * missing > 0.0;
  }

  /** A level that is too low shows in the answers of some run. */
  lemma TooLowShows(c: Settings, plan: Plan, k: string, ms: nat)
    requires c.maxEntries >= 1 && LimitsOk(plan(k)) && TooLow(plan(k), ms, c.idleEvictMs)
    ensures !AnswersAlike(c, plan)
  {
    if AnswersAlike(c, plan) {
      var first := FirstTooLow(plan(k), ms, c.idleEvictMs);
      var j := EnoughRounds(MissingAt(c, plan(k), first));
      var acts, now := RoundsWiden(c, plan, k, first, j);
      var all, next := RoundWidens(c, plan, acts, k, now, Behind(MissingAt(c, plan(k), first), j), first);
    }
  }

  // ----- the exact condition -----

  /** A table without room answers nothing by itself. */
  lemma NoRoomOverflows(c: Settings, plan: Plan, acts: seq<Action>, k: string, now: int)
    requires c.maxEntries < 1
    ensures !NoOverflow(c, plan, acts + [Check(k, now)])
  {
    var all, t := acts + [Check(k, now)], After(c, plan, acts);
    AlwaysBounded(c, plan, acts);
    assert t.buckets == map[];
    assert forall i :: 0 <= i < |t.order| ==> t.order[i] in t.buckets;
    assert all[..|acts|] == acts && all[|acts|] == Check(k, now);
  }

  lemma FillingIsUnseen(c: Settings, plan: Plan)
    requires Safe(plan, c)
    ensures AnswersAlike(c, plan)
  {
    forall acts: seq<Action>, k: string, now: int
      | Forward(acts) && NotAfter(acts, now) && NoOverflow(c, plan, acts + [Check(k, now)])
      ensures Passes(c, plan, acts, k, now) <==> IdealPasses(plan, acts, k, now)
    {
      SameAnswers(c, plan, acts, k, now);
    }
  }

  /**
   The sweep and the bounded table are invisible in the answers if and only if there is no room for
   any bucket, or every key's bucket fills up, from each level it can be left at, in the shortest
   time a sweep waits for.
   */
  lemma AnswersAlikeIff(c: Settings, plan: Plan)
    requires forall k {:trigger LimitsOk(plan(k))} :: LimitsOk(plan(k))
    ensures AnswersAlike(c, plan) <==>
            c.maxEntries < 1 || forall k {:trigger FillsWhileIdle(plan(k), c.idleEvictMs)} :: FillsWhileIdle(plan(k), c.idleEvictMs)
  {
    if c.maxEntries < 1 {
      forall acts: seq<Action>, k: string, now: int ensures !NoOverflow(c, plan, acts + [Check(k, now)]) {
        NoRoomOverflows(c, plan, acts, k, now);
      }
    } else if forall k {:trigger FillsWhileIdle(plan(k), c.idleEvictMs)} :: FillsWhileIdle(plan(k), c.idleEvictMs) {
      FillingIsUnseen(c, plan);
    } else {
      var k: string :| !FillsWhileIdle(plan(k), c.idleEvictMs);
      var ms: nat :| !(DrainedLevel(plan(k), ms) + Inflow(plan(k), ShortestIdle(c.idleEvictMs)) >= plan(k).capacity);
      assert LimitsOk(plan(k));
      TooLowShows(c, plan, k, ms);
    }
  }

  /** For whole-number capacities it is enough to look at an empty bucket. */
  lemma WholeAnswersAlikeIff(c: Settings, plan: Plan)
    requires c.maxEntries >= 1 && c.idleEvictMs >= 0
    requires forall k {:trigger LimitsOk(plan(k))} :: LimitsOk(plan(k)) && Frac(plan(k).capacity) == 0.0
    ensures AnswersAlike(c, plan) <==> forall k {:trigger RefillsWhileIdle(plan(k), c.idleEvictMs)} :: RefillsWhileIdle(plan(k), c.idleEvictMs)
  {
    AnswersAlikeIff(c, plan);
    forall k ensures FillsWhileIdle(plan(k), c.idleEvictMs) <==> RefillsWhileIdle(plan(k), c.idleEvictMs) {
      assert LimitsOk(plan(k));
      EmptyFillsIff(plan(k), c.idleEvictMs);
    }
  }
}
