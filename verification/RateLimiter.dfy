/**
 The rate limiter's own steps, proved against the table of `RateTable`.
 */
module RateLimiter {
  import opened RateLimit
  import opened RateTable

  datatype Verdict = Allowed | Limited(retryAfterMs: int)

  function Answer(b: Bucket, now: int, idleEvictMs: int): Verdict {
    if Admits(b, now) then Allowed else Limited(RetryAfter(Take(b, now), idleEvictMs))
  }

  /** Refills the bucket and spends a token, or says when to come back. */
  method Draw(bucket: Bucket, now: int, idleEvictMs: int) returns (b: Bucket, v: Verdict)
    ensures b == Take(bucket, now) && v == Answer(bucket, now, idleEvictMs)
  {
    b := bucket;
    var elapsed := now - b.lastRefill;
    if elapsed > 0 {
      var level := b.tokens + elapsed as real / 1000.0 * b.limits.refillPerSec;
      b := b.(tokens := if b.limits.capacity < level then b.limits.capacity else level, lastRefill := now);
    }
    if b.tokens < 1.0 {
      v := Limited(RetryAfter(b, idleEvictMs));
    } else {
      b := b.(tokens := b.tokens - 1.0);
      v := Allowed;
    }
  }

  class RateLimiter {
    const enabled: bool
    const settings: Settings
    var order: seq<string>
    var buckets: map<string, Bucket>
    var overflow: map<Limits, Bucket>

    ghost function View(): Table
      reads this
    {
      Table(order, buckets, overflow)
    }

    ghost predicate Valid()
      reads this
    {
      TableOk(View())
    }

    constructor (enabled: bool, settings: Settings)
      ensures Valid() && View() == Empty && this.enabled == enabled && this.settings == settings
    {
      this.enabled, this.settings := enabled, settings;
      order, buckets, overflow := [], map[], map[];
    }

    method Remove(key: string)
      modifies this
      ensures View() == Delete(old(View()), key)
    {
      buckets := buckets - {key};
      order := Drop(order, key);
    }

    /** Puts the key's bucket at the fresh end of the map. */
    method Touch(key: string, b: Bucket)
      requires Valid()
      modifies this
      ensures Valid() && View() == Append(old(View()), key, b)
    {
      AppendKeepsOk(View(), key, b);
      order := Drop(order, key) + [key];
      buckets := buckets[key := b];
    }

    /** Finds or makes the bucket for a key; `shared` tells an overflow bucket from the key's own. */
    method GetBucket(key: string, l: Limits, now: int) returns (b: Bucket, shared: bool)
      requires Valid()
      modifies this
      ensures Valid() && b == Consulted(old(View()), settings, key, l, now)
      ensures shared <==> Overflows(old(View()), settings, key, now)
      ensures View() == if shared then old(View()).(overflow := old(overflow)[l := b])
                        else Append(Roomy(old(View()), settings, key), key, b)
    {
      if key in buckets {
        b := buckets[key].(limits := l, lastTouched := now);
        Touch(key, b);
        return b, false;
      }
      if |buckets| >= settings.maxEntries {
        if order != [] {
          assert order[0] in buckets;
        }
        if order != [] && now - buckets[order[0]].lastTouched > settings.idleEvictMs {
          DeleteKeepsOk(View(), order[0]);
          Remove(order[0]);
        } else {
          b := if l in overflow then overflow[l].(lastTouched := now) else Full(l, now);
          overflow := overflow[l := b];
          return b, true;
        }
      }
      b := Full(l, now);
      Touch(key, b);
      shared := false;
    }

    /** One check. An empty key is not limited. */
    method CheckRate(key: string, l: Limits, now: int) returns (v: Verdict)
      requires Valid()
      modifies this
      ensures Valid()
      ensures !enabled || key == "" ==> v == Allowed && View() == old(View())
      ensures enabled && key != "" ==>
                && View() == Checked(old(View()), settings, key, l, now)
                && v == Answer(Consulted(old(View()), settings, key, l, now), now, settings.idleEvictMs)
    {
      if !enabled || key == "" { return Allowed; }
      ghost var before := View();
      CheckKeepsOk(before, settings, key, l, now);
      var b, shared := GetBucket(key, l, now);
      var drawn;
      drawn, v := Draw(b, now, settings.idleEvictMs);
      Store(key, l, drawn, shared);
      AppendTwice(Roomy(before, settings, key), key, b, drawn);
    }

    /** The bucket object changes in place: the map's order is untouched. */
    method Store(key: string, l: Limits, b: Bucket, shared: bool)
      modifies this
      ensures View() == if shared then old(View()).(overflow := old(overflow)[l := b])
                        else old(View()).(buckets := old(buckets)[key := b])
    {
      if shared { overflow := overflow[l := b]; } else { buckets := buckets[key := b]; }
    }

    /** Drops idle buckets from both maps. */
    method EvictIdle(now: int)
      requires Valid()
      modifies this
      ensures Valid() && View() == Swept(old(View()), settings, now)
    {
      SweepKeepsOk(View(), settings, now);
      EvictOwn(now);
      EvictShared(now);
    }

    method EvictOwn(now: int)
      requires Valid()
      modifies this
      ensures View() == Swept(old(View()), settings, now).(overflow := old(overflow))
    {
      var keys := order;
      ghost var t := View();
      SweepStarts(t, settings, now);
      for i := 0 to |keys|
        invariant View() == Partial(t, i, settings, now)
      {
        var k := keys[i];
        SweepOne(t, i, settings, now);
        if now - buckets[k].lastTouched > settings.idleEvictMs { Remove(k); }
      }
      SweepEnds(t, settings, now);
    }

    method EvictShared(now: int)
      modifies this`overflow
      ensures overflow == map l | l in old(overflow) && !IsIdle(old(overflow)[l], settings, now) :: old(overflow)[l]
    {
      var todo := overflow.Keys;
      ghost var was := overflow;
      while todo != {}
        invariant todo <= was.Keys
        invariant overflow == map l | l in was && (l in todo || !IsIdle(was[l], settings, now)) :: was[l]
        decreases |todo|
      {
        var l :| l in todo;
        if now - overflow[l].lastTouched > settings.idleEvictMs { overflow := overflow - {l}; }
        todo := todo - {l};
      }
    }
  }
}
