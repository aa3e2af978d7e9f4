/**
 The idempotency cache as a plain sequence of entries, most recently used first: what each
 call does to it.
 */
module LruSpec {
  import opened Wrappers

  type Value(==, !new)

  datatype Entry = Entry(key: string, value: Value, expiresAt: int)

  function Keys(es: seq<Entry>): set<string> {
    set i | 0 <= i < |es| :: es[i].key
  }

  ghost predicate DistinctKeys(es: seq<Entry>) {
    forall i, j :: 0 <= i < j < |es| ==> es[i].key != es[j].key
  }

  /** The position of `key` at or after `from`, or `|es|`. */
  function PosFrom(es: seq<Entry>, key: string, from: nat): (p: nat)
    requires from <= |es|
    ensures from <= p <= |es| && (p < |es| ==> es[p].key == key)
    ensures forall i :: from <= i < p ==> es[i].key != key
    decreases |es| - from
  {
    if from == |es| || es[from].key == key then from else PosFrom(es, key, from + 1)
  }

  function Find(es: seq<Entry>, key: string): Option<Entry> {
    var p := PosFrom(es, key, 0);
    if p < |es| then Some(es[p]) else None
  }

  /** `s` without position `i`. */
  function Drop<T>(s: seq<T>, i: nat): (r: seq<T>)
    requires i < |s|
    ensures |r| == |s| - 1
  {
    seq(|s| - 1, k requires 0 <= k < |s| - 1 => if k < i then s[k] else s[k + 1])
  }

  function Without(es: seq<Entry>, key: string): seq<Entry> {
    var p := PosFrom(es, key, 0);
    if p < |es| then Drop(es, p) else es
  }

  function ToFront(es: seq<Entry>, e: Entry): seq<Entry> {
    [e] + Without(es, e.key)
  }

  function Expiry(now: int, ttlMs: int): int {
    now + ttlMs
  }

  predicate IsLive(e: Entry, now: int) {
    now <= e.expiresAt
  }

  /** `get` and `has`: a live entry is answered and becomes the most recent, an expired one is dropped. */
  function Looked(es: seq<Entry>, key: string, now: int): (seq<Entry>, Option<Value>) {
    match Find(es, key)
    case None => (es, None)
    case Some(e) => if IsLive(e, now) then (ToFront(es, e), Some(e.value)) else (Without(es, key), None)
  }

  /** `set`: the new entry goes to the front; a new key beyond the capacity pushes out the last entry. */
  function Put(es: seq<Entry>, key: string, value: Value, expiresAt: int, maxEntries: int): seq<Entry> {
    var all := ToFront(es, Entry(key, value, expiresAt));
    if Find(es, key).None? && |all| > maxEntries then all[..|all| - 1] else all
  }

  /** With distinct keys, a key has one position. */
  lemma PosAt(es: seq<Entry>, i: nat)
    requires DistinctKeys(es) && i < |es|
    ensures PosFrom(es, es[i].key, 0) == i
  {
  }

  /** Overwriting an entry before moving it to the front is the same as moving the new one. */
  lemma FrontOfUpdated(es: seq<Entry>, i: nat, e: Entry)
    requires DistinctKeys(es) && i < |es| && e.key == es[i].key
    ensures ToFront(es[i := e], e) == ToFront(es, e)
  {
    PosAt(es, i);
    PosAt(es[i := e], i);
    assert Drop(es[i := e], i) == Drop(es, i);
  }

  lemma LastIsDropped(es: seq<Entry>)
    requires DistinctKeys(es) && es != []
    ensures Without(es, es[|es| - 1].key) == es[..|es| - 1]
  {
    PosAt(es, |es| - 1);
    assert Drop(es, |es| - 1) == es[..|es| - 1];
  }
}
