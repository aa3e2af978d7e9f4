/**
 The rate bound without the assumption that the table never overflows: for a key's own bucket, for
 a shared bucket, and for a key that is served by both.
 */
module RateOverflow {
  import opened RateLevels
  import opened RateLimit
  import opened RateTable
  import opened Wrappers

  // ----- one place for a bucket -----

  /** The bucket a check finds in a place. */
  function Consult(held: Option<Bucket>, l: Limits, now: int): Bucket {
    if held.Some? then held.value.(limits := l, lastTouched := now) else Full(l, now)
  }

  /** The bucket that would be there had it never been dropped. */
  function Lasting(l: Limits, times: seq<int>): Bucket
    requires times != []
  {
    TakeAll(Full(l, times[0]), times)
  }

  /** A place checked at `times`, of which `count` passed, holds the lasting bucket or has had time to refill it. */
  ghost predicate PlaceOk(held: Option<Bucket>, l: Limits, times: seq<int>, count: nat, now: int) {
    if times == [] then held.None? && count == 0
    else
      var b := Lasting(l, times);
      && count == Admitted(Full(l, times[0]), times)
      && BucketOk(b) && b.limits == l && b.lastRefill <= now && OnLevel(l, b.tokens)
      && if held.None? then Filled(b, now) else SameLevel(held.value, b) && held.value.lastTouched == held.value.lastRefill
  }

  lemma PlaceWaits(held: Option<Bucket>, l: Limits, times: seq<int>, count: nat, now: int, later: int)
    requires PlaceOk(held, l, times, count, now) && now <= later
    ensures PlaceOk(held, l, times, count, later)
  {
    if times != [] {
      var b := Lasting(l, times);
      InflowGrows(l, now - b.lastRefill, later - b.lastRefill);
    }
  }

  lemma PlaceDropped(h: Bucket, l: Limits, times: seq<int>, count: nat, now: int, c: Settings)
    requires PlaceOk(Some(h), l, times, count, now) && IsIdle(h, c, now) && FillsWhileIdle(l, c.idleEvictMs)
    ensures PlaceOk(None, l, times, count, now)
  {
    IdleIsFilled(h, l, c, now);
  }

  /** A bucket that is present, and one that had time to fill, answer and continue like the lasting one. */
  lemma PlaceAnswers(held: Option<Bucket>, l: Limits, times: seq<int>, count: nat, now: int)
    requires PlaceOk(held, l, times, count, now) && times != []
    ensures var b, found := Lasting(l, times), Consult(held, l, now);
            && (Admits(found, now) <==> Admits(b, now)) && SameLevel(Take(found, now), Take(b, now))
  {
    var b := Lasting(l, times);
    if held.Some? {
      assert held.value.(limits := l, lastTouched := now) == held.value.(lastTouched := now);
      SameLevelTakes(held.value, b, now);
    } else {
      var used := b.(lastTouched := b.lastRefill);
      FilledIsNew(used, l, now);
      SameLevelTakes(used, b, now);
    }
  }

  lemma TakenNow(b: Bucket, now: int)
    requires b.lastRefill <= now && b.lastTouched == now
    ensures Take(b, now).lastRefill == now && Take(b, now).lastTouched == now
  {
  }

  lemma ConsultedNow(held: Option<Bucket>, l: Limits, times: seq<int>, count: nat, now: int)
    requires PlaceOk(held, l, times, count, now)
    ensures Consult(held, l, now).lastRefill <= now && Consult(held, l, now).lastTouched == now
  {
  }

  lemma PlaceCheckedAgain(held: Option<Bucket>, l: Limits, times: seq<int>, count: nat, now: int)
    requires PlaceOk(held, l, times, count, now) && times != []
    ensures var b := Consult(held, l, now);
            PlaceOk(Some(Take(b, now)), l, times + [now], count + if Admits(b, now) then 1 else 0, now)
  {
    var b := Lasting(l, times);
    PlaceAnswers(held, l, times, count, now);
    TakeAllSnoc(Full(l, times[0]), times, now);
    TakeFacts(b, now);
    TakeKeepsLevel(b, now);
    ConsultedNow(held, l, times, count, now);
    TakenNow(Consult(held, l, now), now);
    assert Lasting(l, times + [now]) == Take(b, now);
  }

  lemma PlaceCheckedFirst(l: Limits, now: int)
    requires LimitsOk(l)
    ensures var b := Full(l, now);
            PlaceOk(Some(Take(b, now)), l, [now], if Admits(b, now) then 1 else 0, now)
  {
    assert [] + [now] == [now];
    TakeAllSnoc(Full(l, now), [], now);
    TakeFacts(Full(l, now), now);
    FullIsOnLevel(l);
    TakeKeepsLevel(Full(l, now), now);
    TakenNow(Full(l, now), now);
  }

  lemma PlaceChecked(held: Option<Bucket>, l: Limits, times: seq<int>, count: nat, now: int)
    requires PlaceOk(held, l, times, count, now) && LimitsOk(l)
    ensures var b := Consult(held, l, now);
            PlaceOk(Some(Take(b, now)), l, times + [now], count + if Admits(b, now) then 1 else 0, now)
  {
    if times == [] {
      assert times + [now] == [now];
      PlaceCheckedFirst(l, now);
    } else {
      PlaceCheckedAgain(held, l, times, count, now);
    }
  }

  predicate Counts(l: Limits, times: seq<int>, count: nat) {
    count == if times == [] then 0 else Admitted(Full(l, times[0]), times)
  }

  lemma PlaceCounts(held: Option<Bucket>, l: Limits, times: seq<int>, count: nat, now: int)
    requires PlaceOk(held, l, times, count, now)
    ensures Counts(l, times, count)
  {
  }

  /** `times` continues `before` with moments between `first` and `latest`. */
  predicate Continues(before: seq<int>, times: seq<int>, first: int, latest: int) {
    before <= times && forall j :: |before| <= j < |times| ==> first <= times[j] <= latest
  }

  lemma ContinuesSelf(times: seq<int>, first: int, latest: int)
    ensures Continues(times, times, first, latest)
  {
  }

  /** `times'` adds at most the moment `x`. */
  predicate AddsAtMost(times: seq<int>, times': seq<int>, x: int) {
    times' == times + [x] || times' == times + []
  }

  lemma ContinuesMore(before: seq<int>, times: seq<int>, times': seq<int>, first: int, latest: int, x: int)
    requires Continues(before, times, first, latest) && first <= x <= latest && AddsAtMost(times, times', x)
    ensures Continues(before, times', first, latest)
  {
    assert times + [] == times;
  }

  /** The window bound for a place. */
  lemma PlaceRate(l: Limits, times: seq<int>, before: seq<int>, count: nat, count0: nat, first: int, latest: int)
    requires LimitsOk(l) && first <= latest && Continues(before, times, first, latest)
    requires Counts(l, times, count) && Counts(l, before, count0)
    ensures WithinRate(l, count - count0, latest - first)
  {
    InflowGrows(l, 0, latest - first);
    if |before| < |times| {
      assert times[..|before|] == before;
      WindowBound(Full(l, times[0]), times, |before|, latest);
      InflowGrows(l, latest - times[|before|], latest - first);
    } else {
      assert before == times;
    }
  }

  // ----- which place serves a check -----

  /** The check in action `a`, made on table `t`, falls back on a shared bucket. */
  ghost predicate Shares(t: Table, c: Settings, a: Action)
    requires TableOk(t)
  {
    a.Check? && Overflows(t, c, a.key, a.now)
  }

  ghost predicate ServedOwn(t: Table, c: Settings, a: Action, k: string)
    requires TableOk(t)
  {
    a.Check? && a.key == k && !Shares(t, c, a)
  }

  ghost predicate ServedShared(t: Table, c: Settings, plan: Plan, a: Action, l: Limits)
    requires TableOk(t)
  {
    Shares(t, c, a) && plan(a.key) == l
  }

  function One(b: bool): nat { if b then 1 else 0 }

  /** When the key was checked against its own bucket, and how often it passed. */
  ghost function OwnTimes(c: Settings, plan: Plan, acts: seq<Action>, k: string): seq<int> {
    if acts == [] then []
    else
      var before, a := acts[..|acts| - 1], acts[|acts| - 1];
      OwnTimes(c, plan, before, k) + if ServedOwn(After(c, plan, before), c, a, k) then [a.now] else []
  }

  ghost function OwnPassed(c: Settings, plan: Plan, acts: seq<Action>, k: string): nat {
    if acts == [] then 0
    else
      var before, a := acts[..|acts| - 1], acts[|acts| - 1];
      OwnPassed(c, plan, before, k) + One(ServedOwn(After(c, plan, before), c, a, k) && Passes(c, plan, before, k, a.now))
  }

  /** When the shared bucket for limits `l` was checked, and how often a check passed. */
  ghost function SharedTimes(c: Settings, plan: Plan, acts: seq<Action>, l: Limits): seq<int> {
    if acts == [] then []
    else
      var before, a := acts[..|acts| - 1], acts[|acts| - 1];
      SharedTimes(c, plan, before, l) + if ServedShared(After(c, plan, before), c, plan, a, l) then [a.now] else []
  }

  ghost function SharedPassed(c: Settings, plan: Plan, acts: seq<Action>, l: Limits): nat {
    if acts == [] then 0
    else
      var before, a := acts[..|acts| - 1], acts[|acts| - 1];
      SharedPassed(c, plan, before, l)
        + One(ServedShared(After(c, plan, before), c, plan, a, l) && Passes(c, plan, before, a.key, a.now))
  }

  function OwnHeld(t: Table, k: string): Option<Bucket> {
    if k in t.buckets then Some(t.buckets[k]) else None
  }

  function SharedHeld(t: Table, l: Limits): Option<Bucket> {
    if l in t.overflow then Some(t.overflow[l]) else None
  }

  // ----- both kinds of places stay in order -----

  /** What one step does to a key's own place. */
  lemma OwnStep(t: Table, c: Settings, plan: Plan, a: Action, k: string)
    requires TableOk(t)
    ensures var held, t' := OwnHeld(t, k), Step(t, c, plan, a);
            if ServedOwn(t, c, a, k) then
              && Consulted(t, c, k, plan(k), a.now) == Consult(held, plan(k), a.now)
              && OwnHeld(t', k) == Some(Take(Consult(held, plan(k), a.now), a.now))
            else OwnHeld(t', k) == held || (held.Some? && IsIdle(held.value, c, a.now) && OwnHeld(t', k) == None)
  {
    if t.order != [] { assert t.order[0] in t.buckets; }
  }

  lemma SharedStep(t: Table, c: Settings, plan: Plan, a: Action, l: Limits)
    requires TableOk(t) && (l in t.overflow ==> t.overflow[l].limits == l)
    ensures var held, t' := SharedHeld(t, l), Step(t, c, plan, a);
            if ServedShared(t, c, plan, a, l) then
              && Consulted(t, c, a.key, l, a.now) == Consult(held, l, a.now)
              && SharedHeld(t', l) == Some(Take(Consult(held, l, a.now), a.now))
            else SharedHeld(t', l) == held || (held.Some? && IsIdle(held.value, c, a.now) && SharedHeld(t', l) == None)
  {
  }

  lemma {:induction false} OwnPlaceOk(c: Settings, plan: Plan, acts: seq<Action>, k: string, now: int)
    requires Forward(acts) && NotAfter(acts, now) && Safe(plan, c)
    ensures PlaceOk(OwnHeld(After(c, plan, acts), k), plan(k), OwnTimes(c, plan, acts, k), OwnPassed(c, plan, acts, k), now)
  {
    if acts != [] {
      var before, a := acts[..|acts| - 1], acts[|acts| - 1];
      var t := After(c, plan, before);
      var held, l := OwnHeld(t, k), plan(k);
      OwnPlaceOk(c, plan, before, k, a.now);
      OwnStep(t, c, plan, a, k);
      assert LimitsOk(plan(k)) && FillsWhileIdle(plan(k), c.idleEvictMs);
      PlaceStep(held, OwnHeld(After(c, plan, acts), k), l, OwnTimes(c, plan, before, k), OwnPassed(c, plan, before, k),
                a.now, now, c, ServedOwn(t, c, a, k));
    }
  }

  /** One step of a place: checked, left alone, or dropped when idle; then time passes. */
  lemma PlaceStep(held: Option<Bucket>, held': Option<Bucket>, l: Limits, times: seq<int>, count: nat, at: int, now: int,
                  c: Settings, served: bool)
    requires PlaceOk(held, l, times, count, at) && at <= now && LimitsOk(l) && FillsWhileIdle(l, c.idleEvictMs)
    requires if served then held' == Some(Take(Consult(held, l, at), at))
             else held' == held || (held.Some? && IsIdle(held.value, c, at) && held' == None)
    ensures PlaceOk(held', l, times + (if served then [at] else []), count + One(served && Admits(Consult(held, l, at), at)), now)
  {
    if served {
      PlaceChecked(held, l, times, count, at);
      PlaceWaits(held', l, times + [at], count + One(Admits(Consult(held, l, at), at)), at, now);
    } else {
      assert times + [] == times;
      if held' != held { PlaceDropped(held.value, l, times, count, at, c); }
      PlaceWaits(held', l, times, count, at, now);
    }
  }

  lemma {:induction false} SharedPlaceOk(c: Settings, plan: Plan, acts: seq<Action>, l: Limits, now: int)
    requires Forward(acts) && NotAfter(acts, now) && LimitsOk(l) && FillsWhileIdle(l, c.idleEvictMs)
    ensures PlaceOk(SharedHeld(After(c, plan, acts), l), l, SharedTimes(c, plan, acts, l), SharedPassed(c, plan, acts, l), now)
    ensures l in After(c, plan, acts).overflow ==> After(c, plan, acts).overflow[l].limits == l
  {
    if acts != [] {
      var before, a := acts[..|acts| - 1], acts[|acts| - 1];
      var t := After(c, plan, before);
      SharedPlaceOk(c, plan, before, l, a.now);
      SharedStep(t, c, plan, a, l);
      PlaceStep(SharedHeld(t, l), SharedHeld(After(c, plan, acts), l), l, SharedTimes(c, plan, before, l),
                SharedPassed(c, plan, before, l), a.now, now, c, ServedShared(t, c, plan, a, l));
    }
  }

  // ----- the bounds -----

  lemma InOrder(acts: seq<Action>, i: nat, latest: int)
    requires i < |acts| && Forward(acts) && NotAfter(acts, latest)
    ensures acts[i].now <= acts[|acts| - 1].now <= latest
    ensures Forward(acts[..|acts| - 1]) && NotAfter(acts[..|acts| - 1], latest)
  {
  }

  lemma OwnTimesLast(c: Settings, plan: Plan, acts: seq<Action>, k: string)
    requires acts != []
    ensures AddsAtMost(OwnTimes(c, plan, acts[..|acts| - 1], k), OwnTimes(c, plan, acts, k), acts[|acts| - 1].now)
  {
  }

  lemma {:induction false} OwnTimesSplit(c: Settings, plan: Plan, acts: seq<Action>, i: nat, k: string, latest: int)
    requires i < |acts| && Forward(acts) && NotAfter(acts, latest)
    ensures Continues(OwnTimes(c, plan, acts[..i], k), OwnTimes(c, plan, acts, k), acts[i].now, latest)
  {
    var init, x := acts[..|acts| - 1], acts[|acts| - 1].now;
    InOrder(acts, i, latest);
    OwnTimesLast(c, plan, acts, k);
    if i < |init| {
      OwnTimesSplit(c, plan, init, i, k, latest);
      assert init[..i] == acts[..i];
    } else {
      ContinuesSelf(OwnTimes(c, plan, init, k), acts[i].now, latest);
    }
    ContinuesMore(OwnTimes(c, plan, acts[..i], k), OwnTimes(c, plan, init, k), OwnTimes(c, plan, acts, k), acts[i].now, latest, x);
  }

  lemma SharedTimesLast(c: Settings, plan: Plan, acts: seq<Action>, l: Limits)
    requires acts != []
    ensures AddsAtMost(SharedTimes(c, plan, acts[..|acts| - 1], l), SharedTimes(c, plan, acts, l), acts[|acts| - 1].now)
  {
  }

  lemma {:induction false} SharedTimesSplit(c: Settings, plan: Plan, acts: seq<Action>, i: nat, l: Limits, latest: int)
    requires i < |acts| && Forward(acts) && NotAfter(acts, latest)
    ensures Continues(SharedTimes(c, plan, acts[..i], l), SharedTimes(c, plan, acts, l), acts[i].now, latest)
  {
    var init, x := acts[..|acts| - 1], acts[|acts| - 1].now;
    InOrder(acts, i, latest);
    SharedTimesLast(c, plan, acts, l);
    if i < |init| {
      SharedTimesSplit(c, plan, init, i, l, latest);
      assert init[..i] == acts[..i];
    } else {
      ContinuesSelf(SharedTimes(c, plan, init, l), acts[i].now, latest);
    }
    ContinuesMore(SharedTimes(c, plan, acts[..i], l), SharedTimes(c, plan, init, l), SharedTimes(c, plan, acts, l), acts[i].now, latest, x);
  }

  lemma OwnCounts(c: Settings, plan: Plan, acts: seq<Action>, k: string, now: int)
    requires Forward(acts) && NotAfter(acts, now) && Safe(plan, c)
    ensures Counts(plan(k), OwnTimes(c, plan, acts, k), OwnPassed(c, plan, acts, k))
  {
    OwnPlaceOk(c, plan, acts, k, now);
    PlaceCounts(OwnHeld(After(c, plan, acts), k), plan(k), OwnTimes(c, plan, acts, k), OwnPassed(c, plan, acts, k), now);
  }

  lemma SharedCounts(c: Settings, plan: Plan, acts: seq<Action>, l: Limits, now: int)
    requires Forward(acts) && NotAfter(acts, now) && LimitsOk(l) && FillsWhileIdle(l, c.idleEvictMs)
    ensures Counts(l, SharedTimes(c, plan, acts, l), SharedPassed(c, plan, acts, l))
  {
    SharedPlaceOk(c, plan, acts, l, now);
    PlaceCounts(SharedHeld(After(c, plan, acts), l), l, SharedTimes(c, plan, acts, l), SharedPassed(c, plan, acts, l), now);
  }

  /** From any action on, a key's own bucket passes no more than its capacity plus the inflow since. */
  lemma OwnRate(c: Settings, plan: Plan, acts: seq<Action>, i: nat, k: string, latest: int)
    requires i < |acts| && Forward(acts) && NotAfter(acts, latest) && Safe(plan, c)
    ensures WithinRate(plan(k), OwnPassed(c, plan, acts, k) - OwnPassed(c, plan, acts[..i], k), latest - acts[i].now)
  {
    OwnCounts(c, plan, acts, k, latest);
    OwnCounts(c, plan, acts[..i], k, latest);
    OwnTimesSplit(c, plan, acts, i, k, latest);
    assert LimitsOk(plan(k));
    PlaceRate(plan(k), OwnTimes(c, plan, acts, k), OwnTimes(c, plan, acts[..i], k),
              OwnPassed(c, plan, acts, k), OwnPassed(c, plan, acts[..i], k), acts[i].now, latest);
  }

  /** All keys that overflow with the same limits together pass no more than one such bucket. */
  lemma SharedRate(c: Settings, plan: Plan, acts: seq<Action>, i: nat, l: Limits, latest: int)
    requires i < |acts| && Forward(acts) && NotAfter(acts, latest) && LimitsOk(l) && FillsWhileIdle(l, c.idleEvictMs)
    ensures WithinRate(l, SharedPassed(c, plan, acts, l) - SharedPassed(c, plan, acts[..i], l), latest - acts[i].now)
  {
    SharedCounts(c, plan, acts, l, latest);
    SharedCounts(c, plan, acts[..i], l, latest);
    SharedTimesSplit(c, plan, acts, i, l, latest);
    PlaceRate(l, SharedTimes(c, plan, acts, l), SharedTimes(c, plan, acts[..i], l),
              SharedPassed(c, plan, acts, l), SharedPassed(c, plan, acts[..i], l), acts[i].now, latest);
  }

  /** Each pass of a key is one of its own bucket or one of the shared bucket for its limits. */
  lemma {:induction false} PassedByEither(c: Settings, plan: Plan, acts: seq<Action>, i: nat, k: string)
    requires i <= |acts|
    ensures Passed(c, plan, acts, k) - Passed(c, plan, acts[..i], k)
            <= (OwnPassed(c, plan, acts, k) - OwnPassed(c, plan, acts[..i], k))
               + (SharedPassed(c, plan, acts, plan(k)) - SharedPassed(c, plan, acts[..i], plan(k)))
  {
    var last := |acts| - 1;
    if i == |acts| {
      assert acts[..i] == acts;
    } else {
      PassedByEither(c, plan, acts[..last], i, k);
      assert acts[..last][..i] == acts[..i];
    }
  }

  /** So a key that is served by both, over any run, passes at most twice the rate. */
  lemma KeyRate(c: Settings, plan: Plan, acts: seq<Action>, i: nat, k: string, latest: int)
    requires i < |acts| && Forward(acts) && NotAfter(acts, latest) && Safe(plan, c)
    ensures (Passed(c, plan, acts, k) - Passed(c, plan, acts[..i], k)) as real
            <= 2.0 * (plan(k).capacity + Inflow(plan(k), latest - acts[i].now))
  {
    var allowed := plan(k).capacity + Inflow(plan(k), latest - acts[i].now);
    var ownPassed := OwnPassed(c, plan, acts, k) - OwnPassed(c, plan, acts[..i], k);
    var sharedPassed := SharedPassed(c, plan, acts, plan(k)) - SharedPassed(c, plan, acts[..i], plan(k));
    assert ownPassed as real <= allowed by { OwnRate(c, plan, acts, i, k, latest); }
    assert LimitsOk(plan(k)) && FillsWhileIdle(plan(k), c.idleEvictMs);
    assert sharedPassed as real <= allowed by { SharedRate(c, plan, acts, i, plan(k), latest); }
    PassedByEither(c, plan, acts, i, k);
  }
}
