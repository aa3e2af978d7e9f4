/**
 Runs of one key, in the bounded, swept table and in the unbounded one side by side.
 */
module RateDrain {
  import opened RateLevels
  import opened RateLimit
  import opened RateTable

  /** On every run in order of time that uses no shared bucket, the table answers as an unbounded one. */
  ghost predicate AnswersAlike(c: Settings, plan: Plan) {
    forall acts: seq<Action>, k: string, now: int {:trigger Passes(c, plan, acts, k, now)} ::
      Forward(acts) && NotAfter(acts, now) && NoOverflow(c, plan, acts + [Check(k, now)]) ==>
        (Passes(c, plan, acts, k, now) <==> IdealPasses(plan, acts, k, now))
  }

  // ----- runs of one key -----

  lemma OneMore(c: Settings, plan: Plan, acts: seq<Action>, a: Action)
    ensures After(c, plan, acts + [a]) == Step(After(c, plan, acts), c, plan, a)
    ensures IdealAfter(plan, acts + [a]) == IdealStep(IdealAfter(plan, acts), plan, a)
  {
    assert (acts + [a])[..|acts|] == acts;
  }

  /** The key's own bucket, or a full one. */
  function Own(m: Ideal, l: Limits, k: string, now: int): Bucket {
    if k in m then m[k].(limits := l, lastTouched := now) else Full(l, now)
  }

  /** In a run of one key, a check finds the key's own bucket and puts it back. */
  lemma OneCheck(c: Settings, plan: Plan, acts: seq<Action>, k: string, now: int)
    requires c.maxEntries >= 1 && KeysIn(acts, {k})
    ensures var b := Own(After(c, plan, acts).buckets, plan(k), k, now);
            After(c, plan, acts + [Check(k, now)]).buckets == map[k := Take(b, now)]
  {
    TableKeysIn(c, plan, acts, {k});
    OneMore(c, plan, acts, Check(k, now));
    CheckedAlone(After(c, plan, acts), c, k, plan(k), now);
  }

  lemma CheckedAlone(t: Table, c: Settings, k: string, l: Limits, now: int)
    requires TableOk(t) && c.maxEntries >= 1 && t.buckets.Keys <= {k}
    ensures Checked(t, c, k, l, now).buckets == map[k := Take(Own(t.buckets, l, k, now), now)]
  {
    SingleKeyHasRoom(t, c, k, now);
    UpdatedAlone(t.buckets, k, Take(Own(t.buckets, l, k, now), now));
  }

  lemma UpdatedAlone(m: Ideal, k: string, b: Bucket)
    requires m.Keys <= {k}
    ensures m[k := b] == map[k := b]
  {
  }

  lemma OneAnswer(c: Settings, plan: Plan, acts: seq<Action>, k: string, now: int)
    requires c.maxEntries >= 1 && KeysIn(acts, {k})
    ensures Passes(c, plan, acts, k, now) <==> Admits(Own(After(c, plan, acts).buckets, plan(k), k, now), now)
  {
    TableKeysIn(c, plan, acts, {k});
    SingleKeyHasRoom(After(c, plan, acts), c, k, now);
  }

  lemma SingleKeyHasRoom(t: Table, c: Settings, k: string, now: int)
    requires TableOk(t) && c.maxEntries >= 1 && t.buckets.Keys <= {k}
    ensures !Overflows(t, c, k, now) && Roomy(t, c, k) == t
  {
    if k !in t.buckets {
      assert t.buckets.Keys == {};
    }
  }

  lemma SingleKeyRun(c: Settings, plan: Plan, acts: seq<Action>, k: string)
    requires c.maxEntries >= 1 && KeysIn(acts, {k})
    ensures NoOverflow(c, plan, acts)
  {
    FewKeysNeverOverflow(c, plan, acts, {k});
  }

  // ----- what both tables find -----

  /** A bucket that was refilled and touched now. */
  function Holding(l: Limits, tokens: real, now: int): Bucket {
    Bucket(tokens, now, l, now)
  }

  /** The bucket a check at `now` finds, refilled. */
  function Found(m: Ideal, l: Limits, k: string, now: int): Bucket {
    Refilled(Own(m, l, k, now), now)
  }

  /** A check of `k` at `now` would find `y` tokens in the table and `d` less in the unbounded one. */
  ghost predicate Finds(c: Settings, plan: Plan, acts: seq<Action>, k: string, now: int, y: real, d: real) {
    && Found(After(c, plan, acts).buckets, plan(k), k, now) == Holding(plan(k), y, now)
    && Found(IdealAfter(plan, acts), plan(k), k, now) == Holding(plan(k), y - d, now)
  }

  /** Both tables hold a bucket of `k` that was checked at `now`, the unbounded one with `d` less. */
  ghost predicate Holds(c: Settings, plan: Plan, acts: seq<Action>, k: string, now: int, y: real, d: real) {
    && After(c, plan, acts).buckets == map[k := Holding(plan(k), y, now)]
    && k in IdealAfter(plan, acts) && IdealAfter(plan, acts)[k] == Holding(plan(k), y - d, now)
  }

  /** The run is one of `k` alone, in order of time, up to `now`. */
  predicate RunOf(acts: seq<Action>, k: string, now: int) {
    KeysIn(acts, {k}) && Forward(acts) && NotAfter(acts, now)
  }

  /** After `acts`, a run of `k` up to `now`, the table is at drained level `ms` and the unbounded one `d` below. */
  ghost predicate AtLevel(c: Settings, plan: Plan, acts: seq<Action>, k: string, now: int, ms: nat, d: real) {
    RunOf(acts, k, now) && Holds(c, plan, acts, k, now, DrainedLevel(plan(k), ms), d)
  }

  function Spend(y: real): real {
    if y >= 1.0 then y - 1.0 else y
  }

  function SpendAll(y: real, n: nat): real {
    if n == 0 then y else Spend(SpendAll(y, n - 1))
  }

  /** Enough draws leave the fraction. */
  lemma {:induction false} SpentToFraction(y: real, n: nat)
    requires y >= 0.0
    ensures n <= y.Floor ==> SpendAll(y, n) == y - n as real
    ensures n >= y.Floor ==> SpendAll(y, n) == Frac(y)
  {
    if n > 0 { SpentToFraction(y, n - 1); }
  }

  lemma TakeFound(m: Ideal, l: Limits, k: string, now: int, y: real)
    requires Found(m, l, k, now) == Holding(l, y, now)
    ensures Admits(Own(m, l, k, now), now) <==> y >= 1.0
    ensures Take(Own(m, l, k, now), now) == Holding(l, Spend(y), now)
  {
  }

  lemma IdealOwn(m: Ideal, plan: Plan, k: string, now: int)
    requires k in m ==> m[k].limits == plan(k)
    ensures IdealBucket(m, plan, k, now) == Own(m, plan(k), k, now)
  {
  }

  lemma {:induction false} IdealOk(plan: Plan, acts: seq<Action>, k: string)
    requires LimitsOk(plan(k))
    ensures k in IdealAfter(plan, acts) ==> BucketOk(IdealAfter(plan, acts)[k]) && IdealAfter(plan, acts)[k].limits == plan(k)
  {
    if acts != [] {
      var before, a := acts[..|acts| - 1], acts[|acts| - 1];
      IdealOk(plan, before, k);
      if a.Check? && a.key == k { TakeFacts(IdealBucket(IdealAfter(plan, before), plan, k, a.now), a.now); }
    }
  }

  /** What the two tables answer. */
  lemma AnswersBoth(c: Settings, plan: Plan, acts: seq<Action>, k: string, now: int, y: real, d: real)
    requires c.maxEntries >= 1 && KeysIn(acts, {k}) && LimitsOk(plan(k)) && Finds(c, plan, acts, k, now, y, d)
    ensures Passes(c, plan, acts, k, now) <==> y >= 1.0
    ensures IdealPasses(plan, acts, k, now) <==> y - d >= 1.0
  {
    TakeFound(After(c, plan, acts).buckets, plan(k), k, now, y);
    TakeFound(IdealAfter(plan, acts), plan(k), k, now, y - d);
    OneAnswer(c, plan, acts, k, now);
    IdealOk(plan, acts, k);
    IdealOwn(IdealAfter(plan, acts), plan, k, now);
  }

  /** What they hold after a check that both answer alike. */
  lemma CheckBoth(c: Settings, plan: Plan, acts: seq<Action>, k: string, now: int, y: real, d: real)
    requires c.maxEntries >= 1 && KeysIn(acts, {k}) && LimitsOk(plan(k)) && Finds(c, plan, acts, k, now, y, d)
    requires y >= 1.0 <==> y - d >= 1.0
    ensures Holds(c, plan, acts + [Check(k, now)], k, now, Spend(y), d)
  {
    TakeFound(After(c, plan, acts).buckets, plan(k), k, now, y);
    TakeFound(IdealAfter(plan, acts), plan(k), k, now, y - d);
    OneCheck(c, plan, acts, k, now);
    IdealOk(plan, acts, k);
    IdealOwn(IdealAfter(plan, acts), plan, k, now);
    OneMore(c, plan, acts, Check(k, now));
  }

  /** A bucket that does not fill up in between is found with the inflow added. */
  lemma FoundLater(m: Ideal, l: Limits, k: string, past: int, now: int, z: real, z': real)
    requires k in m && m[k] == Holding(l, z, past) && past <= now
    requires z' == z + Inflow(l, now - past) <= l.capacity
    ensures Found(m, l, k, now) == Holding(l, z', now)
  {
    if now == past { NoTimeNoInflow(l, now - past); }
  }

  lemma NoTimeNoInflow(l: Limits, ms: int)
    requires ms == 0
    ensures Inflow(l, ms) == 0.0
  {
  }

  /** Time passes; nothing fills up. */
  lemma BothWait(c: Settings, plan: Plan, acts: seq<Action>, k: string, past: int, now: int, y: real, y': real, d: real)
    requires Holds(c, plan, acts, k, past, y, d) && past <= now && LimitsOk(plan(k))
    requires d >= 0.0 && y' == y + Inflow(plan(k), now - past) <= plan(k).capacity
    ensures Finds(c, plan, acts, k, now, y', d)
  {
    FoundLater(After(c, plan, acts).buckets, plan(k), k, past, now, y, y');
    FoundLater(IdealAfter(plan, acts), plan(k), k, past, now, y - d, y' - d);
  }

  lemma HeldIsFound(c: Settings, plan: Plan, acts: seq<Action>, k: string, now: int, y: real, d: real)
    requires Holds(c, plan, acts, k, now, y, d)
    ensures Finds(c, plan, acts, k, now, y, d)
  {
  }

  lemma CheckRunsOn(acts: seq<Action>, k: string, now: int)
    requires RunOf(acts, k, now)
    ensures RunOf(acts + [Check(k, now)], k, now)
  {
  }

  lemma LaterRun(acts: seq<Action>, k: string, past: int, now: int)
    requires RunOf(acts, k, past) && past <= now
    ensures RunOf(acts, k, now)
  {
  }

  lemma SweepRunsOn(acts: seq<Action>, k: string, past: int, now: int)
    requires RunOf(acts, k, past) && past <= now
    ensures RunOf(acts + [Sweep(now)], k, now)
  {
  }

  lemma AlikeNow(c: Settings, plan: Plan, acts: seq<Action>, k: string, now: int)
    requires c.maxEntries >= 1 && AnswersAlike(c, plan) && RunOf(acts, k, now)
    ensures Passes(c, plan, acts, k, now) <==> IdealPasses(plan, acts, k, now)
  {
    SingleKeyRun(c, plan, acts + [Check(k, now)], k);
  }

  /** One more check, as long as both answer alike. */
  lemma DrainOne(c: Settings, plan: Plan, acts: seq<Action>, k: string, now: int, y: real, d: real) returns (all: seq<Action>)
    requires c.maxEntries >= 1 && LimitsOk(plan(k)) && AnswersAlike(c, plan)
    requires RunOf(acts, k, now) && Finds(c, plan, acts, k, now, y, d)
    ensures RunOf(all, k, now)
    ensures Holds(c, plan, all, k, now, Spend(y), d) && Finds(c, plan, all, k, now, Spend(y), d)
  {
    all := acts + [Check(k, now)];
    AlikeNow(c, plan, acts, k, now);
    AnswersBoth(c, plan, acts, k, now, y, d);
    CheckBoth(c, plan, acts, k, now, y, d);
    HeldIsFound(c, plan, all, k, now, Spend(y), d);
    CheckRunsOn(acts, k, now);
  }

  lemma SweptAway(t: Table, c: Settings, l: Limits, k: string, y: real, now: int)
    requires TableOk(t) && t.buckets == map[k := Holding(l, y, now)]
    ensures Swept(t, c, now + ShortestIdle(c.idleEvictMs)).buckets == map[]
  {
    assert IsIdle(t.buckets[k], c, now + ShortestIdle(c.idleEvictMs));
  }

  /** By how much a level misses the capacity when the bucket is dropped. */
  function Missing(l: Limits, level: real, idleEvictMs: int): real {
    l.capacity - level - Inflow(l, ShortestIdle(idleEvictMs))
  }

  lemma SweptRun(c: Settings, plan: Plan, acts: seq<Action>, k: string, now: int, next: int, y: real, d: real)
    requires Holds(c, plan, acts, k, now, y, d) && next == now + ShortestIdle(c.idleEvictMs)
    ensures After(c, plan, acts + [Sweep(next)]).buckets == map[]
    ensures IdealAfter(plan, acts + [Sweep(next)]) == IdealAfter(plan, acts)
  {
    OneMore(c, plan, acts, Sweep(next));
    SweptAway(After(c, plan, acts), c, plan(k), k, y, now);
  }

  lemma StillBehind(l: Limits, y: real, d: real, missing: real, inflow: real)
    requires missing == l.capacity - y - inflow && d >= 0.0 && missing >= 0.0
    ensures l.capacity - (d + missing) == y - d + inflow <= l.capacity
  {
  }

  /** The table starts afresh; the unbounded one goes on from where it is. */
  lemma SweepBoth(c: Settings, plan: Plan, acts: seq<Action>, k: string, now: int, next: int, y: real, d: real, missing: real)
    requires Holds(c, plan, acts, k, now, y, d) && next == now + ShortestIdle(c.idleEvictMs)
    requires d >= 0.0 && missing == Missing(plan(k), y, c.idleEvictMs) >= 0.0
    ensures Finds(c, plan, acts + [Sweep(next)], k, next, plan(k).capacity, d + missing)
  {
    var l := plan(k);
    SweptRun(c, plan, acts, k, now, next, y, d);
    StillBehind(l, y, d, missing, Inflow(l, next - now));
    FoundLater(IdealAfter(plan, acts), l, k, now, next, y - d, l.capacity - (d + missing));
    assert Found(map[], l, k, next) == Holding(l, l.capacity, next);
  }

  lemma GapBelowOne(c: Settings, plan: Plan, acts: seq<Action>, k: string, now: int, ms: nat, d: real)
    requires LimitsOk(plan(k)) && Holds(c, plan, acts, k, now, DrainedLevel(plan(k), ms), d)
    ensures d < 1.0
  {
    IdealOk(plan, acts, k);
    LevelRange(plan(k), ms);
  }
}
