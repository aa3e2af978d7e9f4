/**
 The table of rate-limit buckets, and its equivalence with an unbounded table that never drops one.
 */
module RateTable {
  import opened RateLevels
  import opened RateLimit

  /** Buckets in order of last use, and the shared buckets that stand in when the table is full. */
  datatype Table = Table(order: seq<string>, buckets: map<string, Bucket>, overflow: map<Limits, Bucket>)

  datatype Settings = Settings(maxEntries: int, idleEvictMs: int)

  type Plan = string -> Limits

  const Empty := Table([], map[], map[])

  predicate Distinct(order: seq<string>) {
    forall i, j :: 0 <= i < j < |order| ==> order[i] != order[j]
  }

  ghost predicate TableOk(t: Table) {
    Distinct(t.order) && forall k :: k in t.order <==> k in t.buckets
  }

  function Drop(order: seq<string>, k: string): seq<string> {
    if order == [] then []
    else
      var last := |order| - 1;
      var before := Drop(order[..last], k);
      if order[last] == k then before else before + [order[last]]
  }

  function Delete(t: Table, k: string): Table {
    t.(order := Drop(t.order, k), buckets := t.buckets - {k})
  }

  function Append(t: Table, k: string, b: Bucket): Table {
    t.(order := Drop(t.order, k) + [k], buckets := t.buckets[k := b])
  }

  predicate IsIdle(b: Bucket, c: Settings, now: int) {
    now - b.lastTouched > c.idleEvictMs
  }

  /** A new key finds the table full and its oldest bucket in use. */
  predicate Overflows(t: Table, c: Settings, k: string, now: int)
    requires TableOk(t)
  {
    k !in t.buckets && |t.buckets| >= c.maxEntries && (t.order == [] || !IsIdle(t.buckets[t.order[0]], c, now))
  }

  /** The table with room for the key: the oldest bucket goes when the key is new and the table full. */
  function Roomy(t: Table, c: Settings, k: string): Table {
    if k !in t.buckets && |t.buckets| >= c.maxEntries && t.order != [] then Delete(t, t.order[0]) else t
  }

  function SharedBucket(t: Table, l: Limits, now: int): Bucket {
    if l in t.overflow then t.overflow[l].(lastTouched := now) else Full(l, now)
  }

  /** The bucket a check consults. */
  function Consulted(t: Table, c: Settings, k: string, l: Limits, now: int): Bucket
    requires TableOk(t)
  {
    if Overflows(t, c, k, now) then SharedBucket(t, l, now)
    else if k in t.buckets then t.buckets[k].(limits := l, lastTouched := now)
    else Full(l, now)
  }

  /** The table after a check. */
  function Checked(t: Table, c: Settings, k: string, l: Limits, now: int): Table
    requires TableOk(t)
  {
    var b := Take(Consulted(t, c, k, l, now), now);
    if Overflows(t, c, k, now) then t.(overflow := t.overflow[l := b]) else Append(Roomy(t, c, k), k, b)
  }

  function Kept(order: seq<string>, buckets: map<string, Bucket>, c: Settings, now: int): seq<string>
    requires forall k :: k in order ==> k in buckets
  {
    if order == [] then []
    else
      var last := |order| - 1;
      var before := Kept(order[..last], buckets, c, now);
      if IsIdle(buckets[order[last]], c, now) then before else before + [order[last]]
  }

  function KeptBuckets(buckets: map<string, Bucket>, c: Settings, now: int): map<string, Bucket> {
    map k | k in buckets && !IsIdle(buckets[k], c, now) :: buckets[k]
  }

  /** The table after a sweep. */
  function Swept(t: Table, c: Settings, now: int): Table
    requires TableOk(t)
  {
    Table(Kept(t.order, t.buckets, c, now), KeptBuckets(t.buckets, c, now),
          map l | l in t.overflow && !IsIdle(t.overflow[l], c, now) :: t.overflow[l])
  }

  // ----- the table stays well formed and bounded -----

  lemma {:induction false} DropFacts(order: seq<string>, k: string)
    requires Distinct(order)
    ensures Distinct(Drop(order, k)) && k !in Drop(order, k)
    ensures forall x :: x in Drop(order, k) <==> x in order && x != k
  {
    if order != [] {
      var last := |order| - 1;
      DropFacts(order[..last], k);
      assert order == order[..last] + [order[last]];
      assert order[last] !in Drop(order[..last], k);
    }
  }

  lemma {:induction false} KeptFacts(order: seq<string>, buckets: map<string, Bucket>, c: Settings, now: int)
    requires Distinct(order) && forall k :: k in order ==> k in buckets
    ensures Distinct(Kept(order, buckets, c, now))
    ensures forall k :: k in Kept(order, buckets, c, now) <==> k in order && !IsIdle(buckets[k], c, now)
  {
    if order != [] {
      var last := |order| - 1;
      KeptFacts(order[..last], buckets, c, now);
      assert forall x :: x in order <==> x == order[last] || x in order[..last];
    }
  }

  lemma DeleteKeepsOk(t: Table, k: string)
    requires TableOk(t)
    ensures TableOk(Delete(t, k))
  {
    DropFacts(t.order, k);
  }

  lemma AppendKeepsOk(t: Table, k: string, b: Bucket)
    requires TableOk(t)
    ensures TableOk(Append(t, k, b))
  {
    DropFacts(t.order, k);
  }

  lemma CheckKeepsOk(t: Table, c: Settings, k: string, l: Limits, now: int)
    requires TableOk(t)
    ensures TableOk(Checked(t, c, k, l, now))
  {
    if t.order != [] { DeleteKeepsOk(t, t.order[0]); }
    AppendKeepsOk(Roomy(t, c, k), k, Take(Consulted(t, c, k, l, now), now));
  }

  lemma SweepKeepsOk(t: Table, c: Settings, now: int)
    requires TableOk(t)
    ensures TableOk(Swept(t, c, now))
  {
    KeptFacts(t.order, t.buckets, c, now);
  }

  predicate Bounded(t: Table, c: Settings) {
    |t.buckets| <= if c.maxEntries < 0 then 0 else c.maxEntries
  }

  lemma CheckKeepsBound(t: Table, c: Settings, k: string, l: Limits, now: int)
    requires TableOk(t) && Bounded(t, c)
    ensures Bounded(Checked(t, c, k, l, now), c)
  {
    if !Overflows(t, c, k, now) {
      var r := Roomy(t, c, k);
      RoomSize(t, c, k);
      assert Append(r, k, Take(Consulted(t, c, k, l, now), now)).buckets.Keys == r.buckets.Keys + {k};
    }
  }

  lemma RoomSize(t: Table, c: Settings, k: string)
    requires TableOk(t) && Bounded(t, c)
    ensures k !in t.buckets && (t.order != [] || |t.buckets| < c.maxEntries) ==> |Roomy(t, c, k).buckets| < c.maxEntries
    ensures k in t.buckets ==> Roomy(t, c, k) == t
  {
    if t.order != [] {
      var oldest := t.order[0];
      assert oldest in t.order;
      assert (t.buckets - {oldest}).Keys == t.buckets.Keys - {oldest};
    }
  }

  lemma SweepKeepsBound(t: Table, c: Settings, now: int)
    requires TableOk(t) && Bounded(t, c)
    ensures Bounded(Swept(t, c, now), c)
  {
    assert KeptBuckets(t.buckets, c, now).Keys <= t.buckets.Keys;
    Subset(KeptBuckets(t.buckets, c, now).Keys, t.buckets.Keys);
  }

  lemma {:induction false} Subset(a: set<string>, b: set<string>)
    requires a <= b
    ensures |a| <= |b|
  {
    assert b == a + (b - a);
  }

  // ----- runs -----

  datatype Action = Check(key: string, now: int) | Sweep(now: int)

  ghost function Step(t: Table, c: Settings, plan: Plan, a: Action): (r: Table)
    requires TableOk(t)
    ensures TableOk(r)
  {
    match a
    case Check(k, now) => CheckKeepsOk(t, c, k, plan(k), now); Checked(t, c, k, plan(k), now)
    case Sweep(now) => SweepKeepsOk(t, c, now); Swept(t, c, now)
  }

  ghost function After(c: Settings, plan: Plan, acts: seq<Action>): (t: Table)
    ensures TableOk(t)
  {
    if acts == [] then Empty else Step(After(c, plan, acts[..|acts| - 1]), c, plan, acts[|acts| - 1])
  }

  ghost predicate Passes(c: Settings, plan: Plan, acts: seq<Action>, k: string, now: int) {
    Admits(Consulted(After(c, plan, acts), c, k, plan(k), now), now)
  }

  predicate Forward(acts: seq<Action>) {
    forall i, j :: 0 <= i <= j < |acts| ==> acts[i].now <= acts[j].now
  }

  predicate NotAfter(acts: seq<Action>, now: int) {
    forall i :: 0 <= i < |acts| ==> acts[i].now <= now
  }

  /** The table never outgrows its limit. */
  lemma {:induction false} AlwaysBounded(c: Settings, plan: Plan, acts: seq<Action>)
    ensures Bounded(After(c, plan, acts), c)
  {
    if acts != [] {
      var t := After(c, plan, acts[..|acts| - 1]);
      AlwaysBounded(c, plan, acts[..|acts| - 1]);
      match acts[|acts| - 1]
      case Check(k, now) => CheckKeepsBound(t, c, k, plan(k), now);
      case Sweep(now) => SweepKeepsBound(t, c, now);
    }
  }

  // ----- oldest first -----

  /** Buckets stand in order of last use, and none was used after `now`. */
  ghost predicate OldestFirst(order: seq<string>, buckets: map<string, Bucket>, now: int)
    requires forall k :: k in order ==> k in buckets
  {
    && (forall i, j :: 0 <= i < j < |order| ==> buckets[order[i]].lastTouched <= buckets[order[j]].lastTouched)
    && (forall i :: 0 <= i < |order| ==> buckets[order[i]].lastTouched <= now)
  }

  lemma {:induction false} DropKeepsOrder(order: seq<string>, buckets: map<string, Bucket>, k: string, now: int)
    requires Distinct(order) && (forall k :: k in order ==> k in buckets) && OldestFirst(order, buckets, now)
    ensures forall x :: x in Drop(order, k) ==> x in order
    ensures OldestFirst(Drop(order, k), buckets, now)
  {
    if order != [] {
      var last := |order| - 1;
      DropKeepsOrder(order[..last], buckets, k, now);
      var before := Drop(order[..last], k);
      forall x | x in before ensures x in order && buckets[x].lastTouched <= buckets[order[last]].lastTouched {
        var j :| 0 <= j < last && order[j] == x;
      }
    }
  }

  lemma {:induction false} KeptKeepsOrder(order: seq<string>, buckets: map<string, Bucket>, c: Settings, at: int, now: int)
    requires (forall k :: k in order ==> k in buckets) && OldestFirst(order, buckets, now)
    ensures forall x :: x in Kept(order, buckets, c, at) ==> x in order
    ensures OldestFirst(Kept(order, buckets, c, at), buckets, now)
  {
    if order != [] {
      var last := |order| - 1;
      KeptKeepsOrder(order[..last], buckets, c, at, now);
      var before := Kept(order[..last], buckets, c, at);
      forall x | x in before ensures x in order && buckets[x].lastTouched <= buckets[order[last]].lastTouched {
        var j :| 0 <= j < last && order[j] == x;
      }
    }
  }

  lemma AppendKeepsOrder(t: Table, k: string, b: Bucket, now: int)
    requires TableOk(t) && OldestFirst(t.order, t.buckets, now) && b.lastTouched == now
    ensures TableOk(Append(t, k, b)) && OldestFirst(Append(t, k, b).order, Append(t, k, b).buckets, now)
  {
    AppendKeepsOk(t, k, b);
    DropFacts(t.order, k);
    DropKeepsOrder(t.order, t.buckets, k, now);
  }

  lemma DeleteKeepsOrder(t: Table, k: string, now: int)
    requires TableOk(t) && OldestFirst(t.order, t.buckets, now)
    ensures TableOk(Delete(t, k)) && OldestFirst(Delete(t, k).order, Delete(t, k).buckets, now)
  {
    DeleteKeepsOk(t, k);
    DropFacts(t.order, k);
    DropKeepsOrder(t.order, t.buckets, k, now);
  }

  lemma RoomyKeepsOrder(t: Table, c: Settings, k: string, now: int)
    requires TableOk(t) && OldestFirst(t.order, t.buckets, now)
    ensures TableOk(Roomy(t, c, k)) && OldestFirst(Roomy(t, c, k).order, Roomy(t, c, k).buckets, now)
  {
    if t.order != [] { DeleteKeepsOrder(t, t.order[0], now); }
  }

  lemma CheckKeepsOrder(t: Table, c: Settings, k: string, l: Limits, now: int)
    requires TableOk(t) && OldestFirst(t.order, t.buckets, now)
    ensures TableOk(Checked(t, c, k, l, now))
    ensures OldestFirst(Checked(t, c, k, l, now).order, Checked(t, c, k, l, now).buckets, now)
  {
    CheckKeepsOk(t, c, k, l, now);
    if !Overflows(t, c, k, now) {
      RoomyKeepsOrder(t, c, k, now);
      AppendKeepsOrder(Roomy(t, c, k), k, Take(Consulted(t, c, k, l, now), now), now);
    }
  }

  lemma SweepKeepsOrder(t: Table, c: Settings, now: int)
    requires TableOk(t) && OldestFirst(t.order, t.buckets, now)
    ensures TableOk(Swept(t, c, now))
    ensures OldestFirst(Swept(t, c, now).order, Swept(t, c, now).buckets, now)
  {
    SweepKeepsOk(t, c, now);
    KeptFacts(t.order, t.buckets, c, now);
    KeptKeepsOrder(t.order, t.buckets, c, now, now);
  }

  lemma {:induction false} AlwaysOldestFirst(c: Settings, plan: Plan, acts: seq<Action>, now: int)
    requires Forward(acts) && NotAfter(acts, now)
    ensures OldestFirst(After(c, plan, acts).order, After(c, plan, acts).buckets, now)
  {
    if acts != [] {
      var before, a := acts[..|acts| - 1], acts[|acts| - 1];
      AlwaysOldestFirst(c, plan, before, a.now);
      match a
      case Check(k, at) => CheckKeepsOrder(After(c, plan, before), c, k, plan(k), at);
      case Sweep(at) => SweepKeepsOrder(After(c, plan, before), c, at);
    }
  }

  /** Looking at the first bucket alone decides whether any bucket is idle. */
  lemma OverflowMeansBusy(c: Settings, plan: Plan, acts: seq<Action>, k: string, now: int)
    requires Forward(acts) && NotAfter(acts, now)
    ensures var t := After(c, plan, acts);
            Overflows(t, c, k, now) <==>
            k !in t.buckets && |t.buckets| >= c.maxEntries && forall x :: x in t.buckets ==> !IsIdle(t.buckets[x], c, now)
  {
    var t := After(c, plan, acts);
    AlwaysOldestFirst(c, plan, acts, now);
    if t.order != [] {
      assert t.order[0] in t.buckets;
      forall x | x in t.buckets ensures t.buckets[t.order[0]].lastTouched <= t.buckets[x].lastTouched {
        var j :| 0 <= j < |t.order| && t.order[j] == x;
      }
    }
  }

  // ----- the unbounded table -----

  /** A limiter that keeps every bucket for ever. */
  type Ideal = map<string, Bucket>

  function IdealBucket(m: Ideal, plan: Plan, k: string, now: int): Bucket {
    if k in m then m[k].(lastTouched := now) else Full(plan(k), now)
  }

  function IdealStep(m: Ideal, plan: Plan, a: Action): Ideal {
    match a
    case Check(k, now) => m[k := Take(IdealBucket(m, plan, k, now), now)]
    case Sweep(_) => m
  }

  function IdealAfter(plan: Plan, acts: seq<Action>): Ideal {
    if acts == [] then map[] else IdealStep(IdealAfter(plan, acts[..|acts| - 1]), plan, acts[|acts| - 1])
  }

  predicate IdealPasses(plan: Plan, acts: seq<Action>, k: string, now: int) {
    Admits(IdealBucket(IdealAfter(plan, acts), plan, k, now), now)
  }

  ghost predicate Safe(plan: Plan, c: Settings) {
    && (forall k {:trigger LimitsOk(plan(k))} :: LimitsOk(plan(k)))
    && (forall k {:trigger FillsWhileIdle(plan(k), c.idleEvictMs)} :: FillsWhileIdle(plan(k), c.idleEvictMs))
  }

  ghost predicate InUse(b: Bucket, l: Limits, now: int) {
    BucketOk(b) && b.limits == l && b.lastTouched == b.lastRefill <= now && OnLevel(l, b.tokens)
  }

  /** Buckets present are the ideal ones, and every dropped one has had time to fill. */
  ghost predicate Agrees(t: Table, m: Ideal, plan: Plan, now: int) {
    && (forall k :: k in m ==> InUse(m[k], plan(k), now))
    && (forall k :: k in t.buckets ==> k in m && t.buckets[k] == m[k])
    && (forall k :: k in m && k !in t.buckets ==> Filled(m[k], now))
  }

  predicate Filled(b: Bucket, now: int) {
    b.tokens + Inflow(b.limits, now - b.lastRefill) >= b.limits.capacity
  }

  lemma TimePasses(t: Table, m: Ideal, plan: Plan, now: int, later: int)
    requires Agrees(t, m, plan, now) && now <= later
    ensures Agrees(t, m, plan, later)
  {
    forall k | k in m && k !in t.buckets ensures Filled(m[k], later) {
      InflowGrows(m[k].limits, now - m[k].lastRefill, later - m[k].lastRefill);
    }
  }

  /** A filled bucket and a new one answer alike and leave the same bucket. */
  lemma FilledIsNew(b: Bucket, l: Limits, now: int)
    requires InUse(b, l, now) && Filled(b, now)
    ensures Take(b.(lastTouched := now), now) == Take(Full(l, now), now)
    ensures Admits(b.(lastTouched := now), now) <==> Admits(Full(l, now), now)
  {
  }

  /** A bucket idle long enough to be dropped is filled. */
  lemma IdleIsFilled(b: Bucket, l: Limits, c: Settings, now: int)
    requires InUse(b, l, now) && IsIdle(b, c, now) && FillsWhileIdle(l, c.idleEvictMs)
    ensures Filled(b, now)
  {
    LevelFills(l, b.tokens, c.idleEvictMs);
    InflowGrows(l, ShortestIdle(c.idleEvictMs), now - b.lastRefill);
  }

  lemma TakeInUse(b: Bucket, l: Limits, now: int)
    requires InUse(b, l, now)
    ensures InUse(Take(b.(lastTouched := now), now), l, now)
  {
    TakeFacts(b.(lastTouched := now), now);
    TakeKeepsLevel(b.(lastTouched := now), now);
  }

  lemma SameConsulted(t: Table, m: Ideal, c: Settings, plan: Plan, k: string, now: int)
    requires TableOk(t) && Agrees(t, m, plan, now) && !Overflows(t, c, k, now) && Safe(plan, c)
    ensures Admits(Consulted(t, c, k, plan(k), now), now) <==> Admits(IdealBucket(m, plan, k, now), now)
    ensures Take(Consulted(t, c, k, plan(k), now), now) == Take(IdealBucket(m, plan, k, now), now)
    ensures InUse(Take(IdealBucket(m, plan, k, now), now), plan(k), now)
  {
    if k in m {
      TakeInUse(m[k], plan(k), now);
      if k !in t.buckets { FilledIsNew(m[k], plan(k), now); }
    } else {
      FullIsOnLevel(plan(k));
      TakeInUse(Full(plan(k), now), plan(k), now);
    }
  }

  lemma RoomyAgrees(t: Table, m: Ideal, c: Settings, plan: Plan, k: string, now: int)
    requires TableOk(t) && Agrees(t, m, plan, now) && !Overflows(t, c, k, now) && Safe(plan, c)
    ensures Agrees(Roomy(t, c, k), m, plan, now)
  {
    if k !in t.buckets && |t.buckets| >= c.maxEntries {
      var oldest := t.order[0];
      assert oldest in t.buckets;
      IdleIsFilled(m[oldest], plan(oldest), c, now);
    }
  }

  lemma CheckAgrees(t: Table, m: Ideal, c: Settings, plan: Plan, k: string, now: int)
    requires TableOk(t) && Agrees(t, m, plan, now) && !Overflows(t, c, k, now) && Safe(plan, c)
    ensures Agrees(Checked(t, c, k, plan(k), now), IdealStep(m, plan, Check(k, now)), plan, now)
  {
    SameConsulted(t, m, c, plan, k, now);
    RoomyAgrees(t, m, c, plan, k, now);
    WriteAgrees(Roomy(t, c, k), m, plan, k, Take(IdealBucket(m, plan, k, now), now), now);
  }

  lemma WriteAgrees(t: Table, m: Ideal, plan: Plan, k: string, b: Bucket, now: int)
    requires Agrees(t, m, plan, now) && InUse(b, plan(k), now)
    ensures Agrees(Append(t, k, b), m[k := b], plan, now)
  {
  }

  lemma SweepAgrees(t: Table, m: Ideal, c: Settings, plan: Plan, now: int)
    requires TableOk(t) && Agrees(t, m, plan, now) && Safe(plan, c)
    ensures Agrees(Swept(t, c, now), m, plan, now)
  {
    forall k | k in m && k !in Swept(t, c, now).buckets ensures Filled(m[k], now) {
      if k in t.buckets { IdleIsFilled(m[k], plan(k), c, now); }
    }
  }

  /** No check of the run had to fall back on a shared bucket. */
  ghost predicate NoOverflow(c: Settings, plan: Plan, acts: seq<Action>) {
    forall i :: 0 <= i < |acts| && acts[i].Check? ==> !Overflows(After(c, plan, acts[..i]), c, acts[i].key, acts[i].now)
  }

  lemma {:induction false} AlwaysAgrees(c: Settings, plan: Plan, acts: seq<Action>, now: int)
    requires Forward(acts) && NotAfter(acts, now) && Safe(plan, c) && NoOverflow(c, plan, acts)
    ensures Agrees(After(c, plan, acts), IdealAfter(plan, acts), plan, now)
  {
    if acts != [] {
      var before, a := acts[..|acts| - 1], acts[|acts| - 1];
      assert forall i :: 0 <= i < |before| ==> before[..i] == acts[..i];
      AlwaysAgrees(c, plan, before, a.now);
      var t, m := After(c, plan, before), IdealAfter(plan, before);
      match a {
        case Check(k, at) => CheckAgrees(t, m, c, plan, k, at);
        case Sweep(at) => SweepAgrees(t, m, c, plan, at);
      }
      TimePasses(After(c, plan, acts), IdealAfter(plan, acts), plan, a.now, now);
    }
  }

  /**
   The bounded, swept table answers every check as the table that keeps all buckets would, when
   buckets fill up while idle and the table never overflows.
   */
  lemma SameAnswers(c: Settings, plan: Plan, acts: seq<Action>, k: string, now: int)
    requires Forward(acts) && NotAfter(acts, now) && Safe(plan, c) && NoOverflow(c, plan, acts + [Check(k, now)])
    ensures Passes(c, plan, acts, k, now) <==> IdealPasses(plan, acts, k, now)
  {
    var all := acts + [Check(k, now)];
    assert all[..|acts|] == acts;
    assert forall i :: 0 <= i < |acts| ==> all[..i] == acts[..i] && all[i] == acts[i];
    assert all[|acts|] == Check(k, now);
    AlwaysAgrees(c, plan, acts, now);
    SameConsulted(After(c, plan, acts), IdealAfter(plan, acts), c, plan, k, now);
  }

  predicate KeysIn(acts: seq<Action>, keys: set<string>) {
    forall i :: 0 <= i < |acts| && acts[i].Check? ==> acts[i].key in keys
  }

  lemma {:induction false} TableKeysIn(c: Settings, plan: Plan, acts: seq<Action>, keys: set<string>)
    requires KeysIn(acts, keys)
    ensures After(c, plan, acts).buckets.Keys <= keys
  {
    if acts != [] { TableKeysIn(c, plan, acts[..|acts| - 1], keys); }
  }

  /** With no more keys than entries nothing overflows. */
  lemma FewKeysNeverOverflow(c: Settings, plan: Plan, acts: seq<Action>, keys: set<string>)
    requires KeysIn(acts, keys) && |keys| <= c.maxEntries
    ensures NoOverflow(c, plan, acts)
  {
    forall i | 0 <= i < |acts| && acts[i].Check?
      ensures !Overflows(After(c, plan, acts[..i]), c, acts[i].key, acts[i].now)
    {
      var t := After(c, plan, acts[..i]);
      TableKeysIn(c, plan, acts[..i], keys);
      if acts[i].key !in t.buckets {
        assert t.buckets.Keys <= keys - {acts[i].key};
        Subset(t.buckets.Keys, keys - {acts[i].key});
      }
    }
  }

  const SpentBucket := Bucket(0.0, 0, Limits(1.0, 1.0), 0)

  lemma SweepForgets(c: Settings, plan: Plan, k: string)
    requires plan(k) == Limits(1.0, 1.0) && c == Settings(10, 1)
    ensures After(c, plan, [Check(k, 0), Sweep(2)]).buckets == map[]
  {
    var acts := [Check(k, 0), Sweep(2)];
    assert acts[..1] == [Check(k, 0)] && acts[..1][..0] == [];
    assert After(c, plan, acts[..1]) == Checked(Empty, c, k, plan(k), 0);
    assert Checked(Empty, c, k, plan(k), 0).buckets == map[k := SpentBucket];
  }

  lemma IdealRemembers(plan: Plan, k: string)
    requires plan(k) == Limits(1.0, 1.0)
    ensures IdealAfter(plan, [Check(k, 0), Sweep(2)]) == map[k := SpentBucket]
  {
    var acts := [Check(k, 0), Sweep(2)];
    assert acts[..1] == [Check(k, 0)] && acts[..1][..0] == [];
    assert IdealAfter(plan, acts[..1]) == map[k := SpentBucket];
  }

  /** Buckets too slow to fill while idle: the sweep hands out a token the plain bucket would refuse. */
  lemma SlowBucketsGainBySweep(plan: Plan, k: string)
    requires plan(k) == Limits(1.0, 1.0)
    ensures Passes(Settings(10, 1), plan, [Check(k, 0), Sweep(2)], k, 2)
    ensures !IdealPasses(plan, [Check(k, 0), Sweep(2)], k, 2)
  {
    SweepForgets(Settings(10, 1), plan, k);
    IdealRemembers(plan, k);
  }

  // ----- the rate bound for the whole table -----

  /** When the key was checked. */
  function KeyTimes(acts: seq<Action>, k: string): seq<int> {
    if acts == [] then []
    else
      var before, a := KeyTimes(acts[..|acts| - 1], k), acts[|acts| - 1];
      if a.Check? && a.key == k then before + [a.now] else before
  }

  /** How many checks of the key passed. */
  ghost function Passed(c: Settings, plan: Plan, acts: seq<Action>, k: string): nat {
    if acts == [] then 0
    else
      var before, a := acts[..|acts| - 1], acts[|acts| - 1];
      Passed(c, plan, before, k) + if a.Check? && a.key == k && Passes(c, plan, before, k, a.now) then 1 else 0
  }

  predicate SameLevel(a: Bucket, b: Bucket) {
    a.tokens == b.tokens && a.lastRefill == b.lastRefill && a.limits == b.limits
  }

  /** A key's ideal bucket is one bucket checked at the key's times. */
  ghost predicate Tracks(m: Ideal, l: Limits, k: string, times: seq<int>, count: nat) {
    if times == [] then k !in m && count == 0
    else k in m && SameLevel(m[k], TakeAll(Full(l, times[0]), times)) && count == Admitted(Full(l, times[0]), times)
  }

  lemma SameLevelTakes(a: Bucket, b: Bucket, now: int)
    requires SameLevel(a, b)
    ensures SameLevel(Take(a.(lastTouched := now), now), Take(b, now))
    ensures Admits(a.(lastTouched := now), now) <==> Admits(b, now)
  {
  }

  lemma TakeAllSnoc(b: Bucket, times: seq<int>, now: int)
    ensures TakeAll(b, times + [now]) == Take(TakeAll(b, times), now)
    ensures Admitted(b, times + [now]) == Admitted(b, times) + if Admits(TakeAll(b, times), now) then 1 else 0
  {
    assert (times + [now])[..|times|] == times;
  }

  lemma TracksFirst(m: Ideal, plan: Plan, k: string, now: int)
    requires k !in m
    ensures Tracks(m[k := Take(IdealBucket(m, plan, k, now), now)], plan(k), k, [now],
                   if Admits(IdealBucket(m, plan, k, now), now) then 1 else 0)
  {
    assert [] + [now] == [now];
    TakeAllSnoc(Full(plan(k), now), [], now);
  }

  lemma TracksNext(m: Ideal, plan: Plan, k: string, times: seq<int>, count: nat, now: int)
    requires Tracks(m, plan(k), k, times, count) && times != []
    ensures Tracks(m[k := Take(IdealBucket(m, plan, k, now), now)], plan(k), k, times + [now],
                   count + if Admits(IdealBucket(m, plan, k, now), now) then 1 else 0)
  {
    var b := Full(plan(k), times[0]);
    TakeAllSnoc(b, times, now);
    SameLevelTakes(m[k], TakeAll(b, times), now);
  }

  lemma TracksCheck(m: Ideal, plan: Plan, k: string, times: seq<int>, count: nat, now: int, passes: bool)
    requires Tracks(m, plan(k), k, times, count) && (passes <==> Admits(IdealBucket(m, plan, k, now), now))
    ensures Tracks(m[k := Take(IdealBucket(m, plan, k, now), now)], plan(k), k, times + [now], count + if passes then 1 else 0)
  {
    if times == [] {
      assert times + [now] == [now];
      TracksFirst(m, plan, k, now);
    } else {
      TracksNext(m, plan, k, times, count, now);
    }
  }

  lemma TracksOther(m: Ideal, plan: Plan, k: string, times: seq<int>, count: nat, a: Action)
    requires Tracks(m, plan(k), k, times, count) && !(a.Check? && a.key == k)
    ensures Tracks(IdealStep(m, plan, a), plan(k), k, times, count)
  {
  }

  lemma NoOverflowBefore(c: Settings, plan: Plan, acts: seq<Action>)
    requires acts != [] && Forward(acts) && NoOverflow(c, plan, acts)
    ensures Forward(acts[..|acts| - 1]) && NotAfter(acts[..|acts| - 1], acts[|acts| - 1].now)
    ensures NoOverflow(c, plan, acts[..|acts| - 1])
  {
    var before := acts[..|acts| - 1];
    assert forall i :: 0 <= i < |before| ==> before[..i] == acts[..i] && before[i] == acts[i];
  }

  lemma {:induction false} AlwaysTracks(c: Settings, plan: Plan, acts: seq<Action>, k: string)
    requires Forward(acts) && Safe(plan, c) && NoOverflow(c, plan, acts)
    ensures Tracks(IdealAfter(plan, acts), plan(k), k, KeyTimes(acts, k), Passed(c, plan, acts, k))
  {
    if acts != [] {
      var before, a := acts[..|acts| - 1], acts[|acts| - 1];
      NoOverflowBefore(c, plan, acts);
      AlwaysTracks(c, plan, before, k);
      if a.Check? && a.key == k {
        assert Passes(c, plan, before, k, a.now) <==> IdealPasses(plan, before, k, a.now) by {
          assert acts == before + [Check(k, a.now)];
          SameAnswers(c, plan, before, k, a.now);
        }
        TracksCheck(IdealAfter(plan, before), plan, k, KeyTimes(before, k), Passed(c, plan, before, k), a.now,
                    Passes(c, plan, before, k, a.now));
      } else {
        TracksOther(IdealAfter(plan, before), plan, k, KeyTimes(before, k), Passed(c, plan, before, k), a);
      }
    }
  }

  /** The checks of a key before and after action `i`. */
  lemma {:induction false} KeyTimesSplit(acts: seq<Action>, k: string, i: nat, latest: int)
    requires Forward(acts) && i < |acts| && NotAfter(acts, latest)
    ensures KeyTimes(acts[..i], k) <= KeyTimes(acts, k)
    ensures forall j :: |KeyTimes(acts[..i], k)| <= j < |KeyTimes(acts, k)| ==> acts[i].now <= KeyTimes(acts, k)[j] <= latest
  {
    var last := |acts| - 1;
    if i < last {
      KeyTimesSplit(acts[..last], k, i, latest);
      assert acts[..last][..i] == acts[..i];
    }
  }

  /** From any action on, the limiter as a whole passes no more than one bucket's worth plus the inflow since. */
  lemma LimiterRate(c: Settings, plan: Plan, acts: seq<Action>, i: nat, k: string, latest: int)
    requires i < |acts| && Forward(acts) && NotAfter(acts, latest) && Safe(plan, c) && NoOverflow(c, plan, acts)
    ensures WithinRate(plan(k), Passed(c, plan, acts, k) - Passed(c, plan, acts[..i], k), latest - acts[i].now)
  {
    NoOverflowBelow(c, plan, acts, i);
    AlwaysTracks(c, plan, acts, k);
    AlwaysTracks(c, plan, acts[..i], k);
    KeyTimesSplit(acts, k, i, latest);
    TrackedRate(IdealAfter(plan, acts), IdealAfter(plan, acts[..i]), plan(k), k, KeyTimes(acts, k), KeyTimes(acts[..i], k),
                Passed(c, plan, acts, k), Passed(c, plan, acts[..i], k), acts[i].now, latest);
  }

  lemma NoOverflowBelow(c: Settings, plan: Plan, acts: seq<Action>, i: nat)
    requires i <= |acts| && Forward(acts) && NoOverflow(c, plan, acts)
    ensures Forward(acts[..i]) && NoOverflow(c, plan, acts[..i])
  {
    assert forall j :: 0 <= j < i ==> acts[..i][..j] == acts[..j] && acts[..i][j] == acts[j];
  }

  lemma TrackedRate(m: Ideal, m0: Ideal, l: Limits, k: string, times: seq<int>, before: seq<int>, count: nat, count0: nat,
                    first: int, latest: int)
    requires Tracks(m, l, k, times, count) && Tracks(m0, l, k, before, count0) && LimitsOk(l) && first <= latest
    requires before <= times && forall j :: |before| <= j < |times| ==> first <= times[j] <= latest
    ensures WithinRate(l, count - count0, latest - first)
  {
    InflowGrows(l, 0, latest - first);
    if |before| < |times| {
      var b := Full(l, times[0]);
      assert times[..|before|] == before;
      WindowBound(b, times, |before|, latest);
      InflowGrows(l, latest - times[|before|], latest - first);
    } else {
      assert before == times;
    }
  }

  // ----- for the code -----

  lemma {:induction false} DropAbsent(order: seq<string>, k: string)
    requires k !in order
    ensures Drop(order, k) == order
  {
    if order != [] { DropAbsent(order[..|order| - 1], k); }
  }

  lemma {:induction false} DropOfConcat(a: seq<string>, b: seq<string>, k: string)
    ensures Drop(a + b, k) == Drop(a, k) + Drop(b, k)
  {
    if b == [] {
      assert a + b == a;
    } else {
      var last := |b| - 1;
      assert (a + b)[..|a + b| - 1] == a + b[..last];
      DropOfConcat(a, b[..last], k);
    }
  }

  /** Deleting key `i` in the course of the sweep. */
  lemma DropFromMiddle(done: seq<string>, k: string, rest: seq<string>)
    requires k !in done && k !in rest
    ensures Drop(done + ([k] + rest), k) == done + rest
  {
    DropAbsent(done, k);
    DropAbsent(rest, k);
    assert [k][..0] == [];
    assert Drop([k], k) == [];
    DropOfConcat([k], rest, k);
    assert [] + rest == rest;
    DropOfConcat(done, [k] + rest, k);
  }

  /** The sweep after the keys in `done`. */
  ghost function PartlyKept(buckets: map<string, Bucket>, done: seq<string>, c: Settings, now: int): map<string, Bucket> {
    map k | k in buckets && !(k in done && IsIdle(buckets[k], c, now)) :: buckets[k]
  }

  ghost function PartlyOrdered(keys: seq<string>, i: nat, buckets: map<string, Bucket>, c: Settings, now: int): seq<string>
    requires i <= |keys| && forall k :: k in keys ==> k in buckets
  {
    Kept(keys[..i], buckets, c, now) + keys[i..]
  }

  /** The table in the course of the sweep, past the first `i` keys. */
  ghost function Partial(t: Table, i: nat, c: Settings, now: int): Table
    requires TableOk(t) && i <= |t.order|
  {
    Table(PartlyOrdered(t.order, i, t.buckets, c, now), PartlyKept(t.buckets, t.order[..i], c, now), t.overflow)
  }

  lemma SweepStarts(t: Table, c: Settings, now: int)
    requires TableOk(t)
    ensures Partial(t, 0, c, now) == t
  {
  }

  lemma SweepEnds(t: Table, c: Settings, now: int)
    requires TableOk(t)
    ensures Partial(t, |t.order|, c, now) == Swept(t, c, now).(overflow := t.overflow)
  {
    assert t.order[..|t.order|] == t.order;
  }

  lemma SweepOne(t: Table, i: nat, c: Settings, now: int)
    requires TableOk(t) && i < |t.order|
    ensures var k, part := t.order[i], Partial(t, i, c, now);
            && k in part.buckets
            && Partial(t, i + 1, c, now) == if IsIdle(part.buckets[k], c, now) then Delete(part, k) else part
  {
    SweepOneBucket(t, i, c, now);
    SweepOneKey(t, i, c, now);
  }

  /** One key of the sweep, in the map. */
  lemma SweepOneBucket(t: Table, i: nat, c: Settings, now: int)
    requires TableOk(t) && i < |t.order|
    ensures var k, part := t.order[i], PartlyKept(t.buckets, t.order[..i], c, now);
            && k in t.buckets && k in part && part[k] == t.buckets[k]
            && PartlyKept(t.buckets, t.order[..i + 1], c, now) == if IsIdle(t.buckets[k], c, now) then part - {k} else part
  {
    var k := t.order[i];
    assert k in t.order && k !in t.order[..i];
    assert forall x :: x in t.order[..i + 1] <==> x in t.order[..i] || x == k;
  }

  /** One key of the sweep, in the order. */
  lemma SweepOneKey(t: Table, i: nat, c: Settings, now: int)
    requires TableOk(t) && i < |t.order| && t.order[i] in t.buckets
    ensures var k, part := t.order[i], PartlyOrdered(t.order, i, t.buckets, c, now);
            PartlyOrdered(t.order, i + 1, t.buckets, c, now) == if IsIdle(t.buckets[k], c, now) then Drop(part, k) else part
  {
    var k, rest, done := t.order[i], t.order[i + 1..], Kept(t.order[..i], t.buckets, c, now);
    assert t.order[i..] == [k] + rest;
    KeptNext(t.order, i, t.buckets, c, now);
    if IsIdle(t.buckets[k], c, now) {
      assert k !in done && k !in rest by { KeptFacts(t.order[..i], t.buckets, c, now); }
      DropFromMiddle(done, k, rest);
    } else {
      Regroup(done, [k], rest);
    }
  }

  lemma KeptNext(order: seq<string>, i: nat, buckets: map<string, Bucket>, c: Settings, now: int)
    requires i < |order| && forall k :: k in order ==> k in buckets
    ensures Kept(order[..i + 1], buckets, c, now) ==
            if IsIdle(buckets[order[i]], c, now) then Kept(order[..i], buckets, c, now) else Kept(order[..i], buckets, c, now) + [order[i]]
  {
    assert order[..i + 1][..i] == order[..i];
  }

  lemma Regroup(a: seq<string>, b: seq<string>, c: seq<string>)
    ensures a + b + c == a + (b + c)
  {
  }

  /** Appending a key twice is appending it once with the later bucket. */
  lemma AppendTwice(t: Table, k: string, b: Bucket, later: Bucket)
    ensures Append(t, k, b).(buckets := Append(t, k, b).buckets[k := later]) == Append(t, k, later)
  {
  }
}
