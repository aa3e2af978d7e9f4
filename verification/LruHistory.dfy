/** What the cache means over a whole history of calls: recency, capacity, eviction and freshness. */
module LruHistory {
  import opened LruSpec
  import opened Wrappers

  datatype Call =
    | Look(key: string, now: int)                              // `get` or `has`
    | Store(key: string, value: Value, expiresAt: int)         // `set`
    | Forget(key: string)                                      // `delete`

  function Do(es: seq<Entry>, c: Call, maxEntries: int): seq<Entry> {
    match c
    case Look(key, now) => Looked(es, key, now).0
    case Store(key, value, expiresAt) => Put(es, key, value, expiresAt, maxEntries)
    case Forget(key) => Without(es, key)
  }

  function After(calls: seq<Call>, maxEntries: int): seq<Entry> {
    if calls == [] then [] else Do(After(calls[..|calls| - 1], maxEntries), calls[|calls| - 1], maxEntries)
  }

  /** A call uses a key when it stores it or finds it live. */
  predicate Uses(es: seq<Entry>, c: Call, key: string) {
    c.key == key && (c.Store? || (c.Look? && Looked(es, key, c.now).1.Some?))
  }

  /** The number of the last call that used `key`, or -1. */
  function LastUse(calls: seq<Call>, maxEntries: int, key: string): int {
    if calls == [] then -1
    else
      var n := |calls| - 1;
      if Uses(After(calls[..n], maxEntries), calls[n], key) then n else LastUse(calls[..n], maxEntries, key)
  }

  datatype Stored = Stored(value: Value, expiresAt: int)

  /** What was last stored under `key`, unless it was deleted since. */
  function LastStored(calls: seq<Call>, key: string): Option<Stored> {
    if calls == [] then None
    else
      var c := calls[|calls| - 1];
      if c.key == key && c.Store? then Some(Stored(c.value, c.expiresAt))
      else if c.key == key && c.Forget? then None
      else LastStored(calls[..|calls| - 1], key)
  }

  /** Sorted by last use, most recent first; each entry is the last value stored under its key. */
  ghost predicate Faithful(es: seq<Entry>, calls: seq<Call>, maxEntries: int) {
    && DistinctKeys(es)
    && |es| <= (if maxEntries > 0 then maxEntries else 0)
    && (forall i, j :: 0 <= i < j < |es| ==>
          LastUse(calls, maxEntries, es[i].key) > LastUse(calls, maxEntries, es[j].key))
    && (forall i :: 0 <= i < |es| ==> LastStored(calls, es[i].key) == Some(Stored(es[i].value, es[i].expiresAt)))
  }

  lemma {:induction false} LastUseBound(calls: seq<Call>, maxEntries: int, key: string)
    ensures -1 <= LastUse(calls, maxEntries, key) < |calls|
  {
    if calls != [] {
      LastUseBound(calls[..|calls| - 1], maxEntries, key);
    }
  }

  /** Entries whose keys a call does not mention keep their order and their values. */
  lemma Untouched(es: seq<Entry>, calls: seq<Call>, c: Call, maxEntries: int, e: Entry)
    requires es == After(calls, maxEntries) && e.key != c.key
    ensures LastUse(calls + [c], maxEntries, e.key) == LastUse(calls, maxEntries, e.key)
    ensures LastStored(calls + [c], e.key) == LastStored(calls, e.key)
  {
    assert (calls + [c])[..|calls|] == calls;
  }

  lemma WithoutPicks(es: seq<Entry>, key: string)
    requires DistinctKeys(es)
    ensures var p, rest := PosFrom(es, key, 0), Without(es, key);
            && |rest| == (if p < |es| then |es| - 1 else |es|)
            && forall i :: 0 <= i < |rest| ==> rest[i] == es[if i < p then i else i + 1] && rest[i].key != key
  {
  }

  /** Leaving one entry out changes nothing for the others. */
  lemma OneLessIsFaithful(es: seq<Entry>, calls: seq<Call>, maxEntries: int, rest: seq<Entry>, p: nat)
    requires Faithful(es, calls, maxEntries) && |rest| <= |es|
    requires forall i :: 0 <= i < |rest| ==> (if i < p then i else i + 1) < |es| && rest[i] == es[if i < p then i else i + 1]
    ensures Faithful(rest, calls, maxEntries)
  {
  }

  /** A call says nothing about entries of other keys. */
  lemma OtherCallIsFaithful(calls: seq<Call>, c: Call, maxEntries: int, rest: seq<Entry>)
    requires Faithful(rest, calls, maxEntries) && forall i :: 0 <= i < |rest| ==> rest[i].key != c.key
    ensures Faithful(rest, calls + [c], maxEntries)
  {
    forall i | 0 <= i < |rest|
      ensures LastUse(calls + [c], maxEntries, rest[i].key) == LastUse(calls, maxEntries, rest[i].key)
      ensures LastStored(calls + [c], rest[i].key) == LastStored(calls, rest[i].key)
    {
      Untouched(After(calls, maxEntries), calls, c, maxEntries, rest[i]);
    }
  }

  lemma RestIsFaithful(es: seq<Entry>, calls: seq<Call>, c: Call, maxEntries: int, rest: seq<Entry>)
    requires Faithful(es, calls, maxEntries) && es == After(calls, maxEntries)
    requires rest == Without(es, c.key)
    ensures Faithful(rest, calls + [c], maxEntries)
    ensures forall i :: 0 <= i < |rest| ==> rest[i].key != c.key
  {
    WithoutPicks(es, c.key);
    OneLessIsFaithful(es, calls, maxEntries, rest, PosFrom(es, c.key, 0));
    OtherCallIsFaithful(calls, c, maxEntries, rest);
  }

  /** Putting the used key in front of the rest keeps everything sorted by last use. */
  lemma FrontIsFaithful(calls: seq<Call>, c: Call, maxEntries: int, e: Entry, rest: seq<Entry>)
    requires Faithful(rest, calls + [c], maxEntries) && forall i :: 0 <= i < |rest| ==> rest[i].key != c.key
    requires e.key == c.key && Uses(After(calls, maxEntries), c, e.key)
    requires LastStored(calls + [c], e.key) == Some(Stored(e.value, e.expiresAt))
    ensures DistinctKeys([e] + rest)
    ensures forall i, j :: 0 <= i < j < |[e] + rest| ==>
              LastUse(calls + [c], maxEntries, ([e] + rest)[i].key) > LastUse(calls + [c], maxEntries, ([e] + rest)[j].key)
    ensures forall i :: 0 <= i < |[e] + rest| ==>
              var x := ([e] + rest)[i]; LastStored(calls + [c], x.key) == Some(Stored(x.value, x.expiresAt))
  {
    assert (calls + [c])[..|calls|] == calls;
    assert LastUse(calls + [c], maxEntries, e.key) == |calls|;
    forall i | 0 <= i < |rest| ensures LastUse(calls + [c], maxEntries, rest[i].key) < |calls| {
      Untouched(After(calls, maxEntries), calls, c, maxEntries, rest[i]);
      LastUseBound(calls, maxEntries, rest[i].key);
    }
  }

  lemma StepIsFaithful(es: seq<Entry>, calls: seq<Call>, c: Call, maxEntries: int, calls': seq<Call>)
    requires Faithful(es, calls, maxEntries) && es == After(calls, maxEntries) && calls' == calls + [c]
    ensures Faithful(Do(es, c, maxEntries), calls', maxEntries)
  {
    assert (calls + [c])[..|calls|] == calls;
    var rest := Without(es, c.key);
    RestIsFaithful(es, calls, c, maxEntries, rest);
    var p := PosFrom(es, c.key, 0);
    match c
    case Forget(key) =>
    case Store(key, value, expiresAt) =>
      FrontIsFaithful(calls, c, maxEntries, Entry(key, value, expiresAt), rest);
    case Look(key, now) =>
      if p < |es| && IsLive(es[p], now) {
        FrontIsFaithful(calls, c, maxEntries, es[p], rest);
      }
  }

  lemma {:induction false} AlwaysFaithful(calls: seq<Call>, maxEntries: int)
    ensures Faithful(After(calls, maxEntries), calls, maxEntries)
  {
    if calls != [] {
      var n := |calls| - 1;
      AlwaysFaithful(calls[..n], maxEntries);
      StepIsFaithful(After(calls[..n], maxEntries), calls[..n], calls[n], maxEntries, calls);
    }
  }

  /** The size never exceeds the capacity, in any history. */
  lemma CapacityHolds(calls: seq<Call>, maxEntries: nat)
    ensures |After(calls, maxEntries)| <= maxEntries
  {
    AlwaysFaithful(calls, maxEntries);
  }

  /** `get` returns the value last stored, not deleted since and not expired. */
  lemma HitIsLatestAndLive(calls: seq<Call>, maxEntries: int, key: string, now: int)
    requires Looked(After(calls, maxEntries), key, now).1.Some?
    ensures LastStored(calls, key).Some?
    ensures Looked(After(calls, maxEntries), key, now).1.value == LastStored(calls, key).value.value
    ensures now <= LastStored(calls, key).value.expiresAt
  {
    AlwaysFaithful(calls, maxEntries);
  }

  /**
   Overflow evicts the least recently used key and only that one: the entry that goes is the
   one whose last use is the oldest, and `maxEntries` other keys were used after it.
   */
  lemma OverflowEvictsLeastRecent(calls: seq<Call>, maxEntries: nat, key: string, value: Value, expiresAt: int)
    requires maxEntries > 0 && Find(After(calls, maxEntries), key).None? && |After(calls, maxEntries)| == maxEntries
    ensures var es := After(calls, maxEntries);
            var es' := After(calls + [Store(key, value, expiresAt)], maxEntries);
            var victim := es[maxEntries - 1];
            && es' == [Entry(key, value, expiresAt)] + es[..maxEntries - 1]
            && (forall i :: 0 <= i < maxEntries - 1 ==>
                  LastUse(calls, maxEntries, victim.key) < LastUse(calls, maxEntries, es[i].key))
            && forall i :: 0 <= i < |es'| ==> es'[i].key != victim.key
  {
    AlwaysFaithful(calls, maxEntries);
    var c := Store(key, value, expiresAt);
    assert (calls + [c])[..|calls|] == calls;
    var es := After(calls, maxEntries);
    var all := [Entry(key, value, expiresAt)] + es;
    assert all[..|all| - 1] == [Entry(key, value, expiresAt)] + es[..maxEntries - 1];
  }

  /** Nothing else is ever evicted: a call that is no overflowing store loses no other key. */
  lemma OnlyOverflowEvicts(es: seq<Entry>, c: Call, maxEntries: nat, e: Entry)
    requires e in es && e.key != c.key
    requires c.Store? ==> Find(es, c.key).Some? || |es| < maxEntries
    ensures e in Do(es, c, maxEntries)
  {
    var i :| 0 <= i < |es| && es[i] == e;
    var p := PosFrom(es, c.key, 0);
    var rest := Without(es, c.key);
    assert rest[if i < p then i else i - 1] == e;
    if c.Store? {
      var all := ToFront(es, Entry(c.key, c.value, c.expiresAt));
      assert all[1..] == rest && e in rest;
    } else if c.Look? && p < |es| {
      assert ToFront(es, es[p])[1..] == rest && e in rest;
    }
  }

  // ----- when a stored key is missed -----

  /** The other keys used since `key` was last used. */
  function UsedSince(calls: seq<Call>, maxEntries: int, key: string): set<string> {
    set i | 0 <= i < |calls| && calls[i].key != key
            && LastUse(calls, maxEntries, calls[i].key) > LastUse(calls, maxEntries, key) :: calls[i].key
  }

  lemma {:induction false} LastUseIsACall(calls: seq<Call>, maxEntries: int, key: string)
    requires LastUse(calls, maxEntries, key) >= 0
    ensures LastUse(calls, maxEntries, key) < |calls| && calls[LastUse(calls, maxEntries, key)].key == key
  {
    var n := |calls| - 1;
    if !Uses(After(calls[..n], maxEntries), calls[n], key) { LastUseIsACall(calls[..n], maxEntries, key); }
  }

  /** A key whose last use is later is among the keys used since. */
  lemma LaterIsUsedSince(calls: seq<Call>, maxEntries: int, key: string, other: string)
    requires other != key && LastUse(calls, maxEntries, other) > LastUse(calls, maxEntries, key)
    ensures other in UsedSince(calls, maxEntries, key)
  {
    LastUseBound(calls, maxEntries, key);
    LastUseIsACall(calls, maxEntries, other);
  }

  /** A call that does not use `key` keeps every key used since. */
  lemma UsedSinceGrows(calls: seq<Call>, c: Call, maxEntries: int, key: string)
    requires !Uses(After(calls, maxEntries), c, key)
    ensures UsedSince(calls, maxEntries, key) <= UsedSince(calls + [c], maxEntries, key)
  {
    var all := calls + [c];
    assert all[..|calls|] == calls;
    forall k | k in UsedSince(calls, maxEntries, key) ensures k in UsedSince(all, maxEntries, key) {
      LastUseBound(calls, maxEntries, k);
      LaterIsUsedSince(all, maxEntries, key, k);
    }
  }

  lemma {:induction false} KeysSize(es: seq<Entry>)
    requires DistinctKeys(es)
    ensures |Keys(es)| == |es|
  {
    if es != [] {
      var init, last := es[..|es| - 1], es[|es| - 1];
      KeysSize(init);
      assert es == init + [last];
      assert Keys(es) == Keys(init) + {last.key};
    }
  }

  lemma SubsetSize(a: set<string>, b: set<string>)
    requires a <= b
    ensures |a| <= |b|
  {
    assert b == a + (b - a);
  }

  lemma FoundIsMember(es: seq<Entry>, key: string)
    ensures Find(es, key).Some? <==> exists i :: 0 <= i < |es| && es[i].key == key
  {
  }

  /** An overflowing store keeps every entry but the last. */
  lemma OverflowKeeps(es: seq<Entry>, c: Call, maxEntries: nat, i: nat)
    requires c.Store? && Find(es, c.key).None? && |es| == maxEntries && i < maxEntries - 1
    ensures Find(Do(es, c, maxEntries), es[i].key).Some?
  {
    var all := [Entry(c.key, c.value, c.expiresAt)] + es;
    assert Do(es, c, maxEntries) == all[..maxEntries] && all[..maxEntries][i + 1] == es[i];
    FoundIsMember(Do(es, c, maxEntries), es[i].key);
  }

  /** A key that a call on another key pushes out was the last, and all the others were used after it. */
  lemma PushedOutIsLast(es: seq<Entry>, c: Call, maxEntries: nat, key: string)
    requires DistinctKeys(es) && |es| <= maxEntries && c.key != key
    requires Find(es, key).Some? && Find(Do(es, c, maxEntries), key).None?
    ensures c.Store? && Find(es, c.key).None? && |es| == maxEntries && es[maxEntries - 1].key == key
  {
    FoundIsMember(es, key);
    FoundIsMember(Do(es, c, maxEntries), key);
    var i :| 0 <= i < |es| && es[i].key == key;
    if !(c.Store? && Find(es, c.key).None? && |es| == maxEntries) {
      OnlyOverflowEvicts(es, c, maxEntries, es[i]);
    } else if i < maxEntries - 1 {
      OverflowKeeps(es, c, maxEntries, i);
    }
  }

  /** The moment `key` is pushed out, `maxEntries` other keys were used after it. */
  lemma PushedOutByMany(calls: seq<Call>, c: Call, maxEntries: nat, key: string)
    requires c.key != key && Find(After(calls, maxEntries), key).Some? && Find(After(calls + [c], maxEntries), key).None?
    ensures |UsedSince(calls + [c], maxEntries, key)| >= maxEntries
  {
    var es, all := After(calls, maxEntries), calls + [c];
    assert all[..|calls|] == calls;
    AlwaysFaithful(calls, maxEntries);
    PushedOutIsLast(es, c, maxEntries, key);
    var others := es[..maxEntries - 1];
    forall k | k in Keys(others) ensures k in UsedSince(all, maxEntries, key) && k != c.key {
      var i :| 0 <= i < |others| && others[i].key == k;
      FoundIsMember(es, c.key);
      assert es[i].key == k;
      LaterIsUsedSince(all, maxEntries, key, k);
    }
    LastUseBound(calls, maxEntries, key);
    LaterIsUsedSince(all, maxEntries, key, c.key);
    KeysSize(others);
    SubsetSize(Keys(others) + {c.key}, UsedSince(all, maxEntries, key));
  }

  /** No look at `key` came after `limit`. */
  predicate LooksBy(calls: seq<Call>, key: string, limit: int) {
    forall i :: 0 <= i < |calls| && calls[i].Look? && calls[i].key == key ==> calls[i].now <= limit
  }

  lemma UsedIsFound(es: seq<Entry>, c: Call, maxEntries: nat)
    requires Uses(es, c, c.key) && maxEntries > 0
    ensures Find(Do(es, c, maxEntries), c.key).Some?
  {
    assert Do(es, c, maxEntries)[0].key == c.key;
  }

  /** A call on the key itself loses it only by expiry, deletion, or a cache without room. */
  lemma OwnCallKeeps(calls: seq<Call>, c: Call, maxEntries: nat, key: string)
    requires c.key == key && LastStored(calls + [c], key).Some? && Find(After(calls + [c], maxEntries), key).None?
    requires c.Look? ==> c.now <= LastStored(calls + [c], key).value.expiresAt
    ensures maxEntries == 0 || (c.Look? && Find(After(calls, maxEntries), key).None?)
  {
    var es := After(calls, maxEntries);
    assert (calls + [c])[..|calls|] == calls;
    AlwaysFaithful(calls, maxEntries);
    assert c.Store? || (c.Look? && Find(es, key).Some?) ==> Uses(es, c, key);
    if Uses(es, c, key) && maxEntries > 0 { UsedIsFound(es, c, maxEntries); }
  }

  lemma {:induction false} AbsentMeansCrowdedOut(calls: seq<Call>, maxEntries: nat, key: string)
    requires LastStored(calls, key).Some? && LooksBy(calls, key, LastStored(calls, key).value.expiresAt)
    requires Find(After(calls, maxEntries), key).None?
    ensures |UsedSince(calls, maxEntries, key)| >= maxEntries
  {
    if maxEntries > 0 {
      var n := |calls| - 1;
      var init, c := calls[..n], calls[n];
      assert calls == init + [c];
      if c.key == key { OwnCallKeeps(init, c, maxEntries, key); }
      if Find(After(init, maxEntries), key).Some? {
        PushedOutByMany(init, c, maxEntries, key);
      } else {
        AbsentMeansCrowdedOut(init, maxEntries, key);
        UsedSinceGrows(init, c, maxEntries, key);
        SubsetSize(UsedSince(init, maxEntries, key), UsedSince(calls, maxEntries, key));
      }
    }
  }

  /** A stored, undeleted, unexpired key is missed only if at least `maxEntries` other keys were used since. */
  lemma MissMeansCrowdedOut(calls: seq<Call>, maxEntries: nat, key: string, now: int)
    requires LastStored(calls, key).Some? && now <= LastStored(calls, key).value.expiresAt && LooksBy(calls, key, now)
    requires Looked(After(calls, maxEntries), key, now).1.None?
    ensures |UsedSince(calls, maxEntries, key)| >= maxEntries
  {
    AlwaysFaithful(calls, maxEntries);
    if Find(After(calls, maxEntries), key).None? { AbsentMeansCrowdedOut(calls, maxEntries, key); }
  }
}
