/**
 The idempotency cache: a map into an intrusive doubly linked list, most recently used first,
 with a time to live per entry. Every method is proved against the sequence in `LruSpec`.
 */
module LruCache {
  import opened LruSpec
  import opened LruNodes
  import opened Wrappers

  class LruIdempotencyCache {
    var index: map<string, Node>
    var head: Node?
    var tail: Node?
    const maxEntries: int
    const ttlMs: int
    const enabled: bool

    /** The nodes in list order. */
    ghost var order: seq<Node>
    /** The cache's contents, most recently used first. */
    ghost var entries: seq<Entry>

    ghost predicate Valid()
      reads this, order
    {
      Chain(order, head, tail) && Indexed(index, order) && Carries(order, entries)
    }

    constructor (enabled: bool, maxEntries: int, ttlMs: int)
      ensures Valid() && entries == []
      ensures this.enabled == enabled && this.maxEntries == maxEntries && this.ttlMs == ttlMs
    {
      this.enabled, this.maxEntries, this.ttlMs := enabled, maxEntries, ttlMs;
      index, head, tail, order, entries := map[], null, null, [], [];
    }

    /** The first half of `detach`: the forward chain skips node `i`. */
    method SkipForth(node: Node, ghost i: nat)
      requires i < |order| && order[i] == node && DistinctNodes(order) && Linked(order)
      modifies this`head, order`next
      ensures BypassedForth(order, i) && node.next == old(node.next)
      ensures head == if i == 0 then node.next else old(head)
    {
      assert order[i].prev == At(order, i - 1) && order[i].next == At(order, i + 1);
      assert i > 0 ==> order[i - 1] in order;
      if node.prev != null { node.prev.next := node.next; } else { head := node.next; }
    }

    /** The second half of `detach`: the backward chain skips node `i`. */
    method SkipBack(node: Node, ghost i: nat)
      requires i < |order| && order[i] == node && DistinctNodes(order) && LinkedBack(order)
      requires node.next == At(order, i + 1)
      modifies this`tail, order`prev
      ensures BypassedBack(order, i) && node.prev == old(node.prev)
      ensures tail == if i == |order| - 1 then node.prev else old(tail)
    {
      assert i < |order| - 1 ==> order[i + 1] in order;
      if node.next != null { node.next.prev := node.prev; } else { tail := node.prev; }
    }

    /** Takes node `i` out of the list; the map is left to the caller. */
    method Detach(node: Node, ghost i: nat)
      requires i < |order| && order[i] == node
      requires Chain(order, head, tail)
      modifies this`head, this`tail, this`order, order`prev, order`next
      ensures order == Drop(old(order), i)
      ensures Chain(order, head, tail)
      ensures node.prev == null && node.next == null
    {
      assert order[i].prev == At(order, i - 1) && order[i].next == At(order, i + 1);
      SkipForth(node, i);
      SkipBack(node, i);
      node.prev := null;
      node.next := null;
      BypassedIsLinked(order, i);
      order := Drop(order, i);
    }

    /** Puts a detached node in front. */
    method AppendHead(node: Node)
      requires node !in order && node.prev == null && node.next == null
      requires Chain(order, head, tail)
      modifies this`head, this`tail, this`order, node`next, order`prev
      ensures order == [node] + old(order)
      ensures Chain(order, head, tail)
    {
      ghost var s := order;
      assert s != [] ==> s[0] in s;
      node.next := head;
      if head != null { head.prev := node; }
      head := node;
      if tail == null { tail := node; }
      order := [node] + order;
      assert Linked(order) by {
        forall k | 0 <= k < |order| ensures order[k].prev == At(order, k - 1) && order[k].next == At(order, k + 1) {
          assert k > 0 ==> order[k] == s[k - 1] && old(s[k - 1].prev) == At(s, k - 2) && old(s[k - 1].next) == At(s, k);
        }
      }
    }

    /** The links of `moveToHead`. */
    method Relink(node: Node, ghost i: nat)
      requires Chain(order, head, tail)
      requires i < |order| && order[i] == node
      modifies this`head, this`tail, this`order, order`prev, order`next
      ensures order == Moved(old(order), i)
      ensures Chain(order, head, tail)
    {
      if head == node {
        assert order == Moved(order, i);
        return;
      }
      assert node !in Drop(order, i);
      Detach(node, i);
      AppendHead(node);
    }

    method MoveToHead(node: Node, ghost i: nat)
      requires Valid() && i < |order| && order[i] == node
      modifies this`head, this`tail, this`order, this`entries, order`prev, order`next
      ensures Valid() && order == Moved(old(order), i)
      ensures entries == ToFront(old(entries), old(entries)[i])
    {
      ghost var s := order;
      Relink(node, i);
      assert Carries(s, entries);
      entries := FrontFacts(index, s, entries, i, order);
    }

    /** Removes the entry at position `i` from the list and from the map. */
    method Remove(node: Node, ghost i: nat)
      requires Valid() && i < |order| && order[i] == node
      modifies this`index, this`head, this`tail, this`order, this`entries, order`prev, order`next
      ensures Valid() && order == Drop(old(order), i)
      ensures entries == Without(old(entries), node.key)
    {
      ghost var es := DropFacts(index, order, entries, i);
      Detach(node, i);
      index := index - {node.key};
      entries := es;
    }

    /** The position of `key`'s node, for the proofs. */
    lemma Locate(key: string) returns (i: nat)
      requires Valid() && key in index
      ensures i < |order| && order[i] == index[key] && entries[i] == EntryOf(order[i]) && entries[i].key == key
      ensures Find(entries, key) == Some(entries[i])
    {
      i :| 0 <= i < |order| && order[i] == index[key];
      KeysAreDistinct(index, order, entries);
      PosAt(entries, i);
    }

    lemma Absent(key: string)
      requires Valid() && key !in index
      ensures Find(entries, key).None? && Without(entries, key) == entries
    {
      assert forall p :: 0 <= p < |order| ==> order[p] in order && entries[p].key == order[p].key;
    }

    /** Common to `has` and `get`. */
    method Look(key: string, now: int) returns (found: Node?)
      requires Valid()
      modifies this`index, this`head, this`tail, this`order, this`entries, order`prev, order`next
      ensures Valid() && entries == Looked(old(entries), key, now).0
      ensures found != null <==> Looked(old(entries), key, now).1.Some?
      ensures found != null ==> found in old(order) && found.value == Looked(old(entries), key, now).1.value
      ensures forall n :: n in order ==> n in old(order)
    {
      if key !in index {
        Absent(key);
        return null;
      }
      var node := index[key];
      ghost var i := Locate(key);
      if now > node.expiresAt {
        Remove(node, i);
        return null;
      }
      MoveToHead(node, i);
      found := node;
    }

    method Has(key: string, now: int) returns (r: bool)
      requires Valid()
      modifies this`index, this`head, this`tail, this`order, this`entries, order`prev, order`next
      ensures Valid()
      ensures !enabled ==> !r && entries == old(entries)
      ensures enabled ==> entries == Looked(old(entries), key, now).0 && (r <==> Looked(old(entries), key, now).1.Some?)
    {
      if !enabled { return false; }
      var node := Look(key, now);
      r := node != null;
    }

    method Get(key: string, now: int) returns (r: Option<Value>)
      requires Valid()
      modifies this`index, this`head, this`tail, this`order, this`entries, order`prev, order`next
      ensures Valid()
      ensures !enabled ==> r.None? && entries == old(entries)
      ensures enabled ==> (entries, r) == Looked(old(entries), key, now)
    {
      if !enabled { return None; }
      var node := Look(key, now);
      r := if node == null then None else Some(node.value);
    }

    /** `set` on a key that is present. */
    method Overwrite(node: Node, value: Value, expiresAt: int, ghost i: nat)
      requires Valid() && i < |order| && order[i] == node
      modifies this`head, this`tail, this`order, this`entries, order`prev, order`next, node`value, node`expiresAt
      ensures Valid() && entries == ToFront(old(entries), Entry(node.key, value, expiresAt))
      ensures forall n :: n in order ==> n in old(order)
    {
      ghost var e := Entry(node.key, value, expiresAt);
      assert entries[i] == EntryOf(order[i]);
      KeysAreDistinct(index, order, entries);
      FrontOfUpdated(entries, i, e);
      node.value := value;
      node.expiresAt := expiresAt;
      entries := entries[i := e];
      MoveToHead(node, i);
    }

    /** Files a new node in list and map. */
    method File(node: Node)
      requires Valid() && node !in order && node.key !in index && node.prev == null && node.next == null
      modifies this`index, this`head, this`tail, this`order, this`entries, node`next, order`prev
      ensures Valid() && order == [node] + old(order) && entries == [EntryOf(node)] + old(entries)
    {
      ghost var s, es := order, entries;
      AddedFacts(index, s, es, node, [node] + s);
      AppendHead(node);
      index := index[node.key := node];
      entries := [EntryOf(node)] + es;
    }

    /** `set` on a new key, before the capacity check. */
    method Insert(key: string, value: Value, expiresAt: int)
      requires Valid() && key !in index
      modifies this`index, this`head, this`tail, this`order, this`entries, order`prev
      ensures Valid() && entries == ToFront(old(entries), Entry(key, value, expiresAt))
      ensures |order| == |old(order)| + 1 && order[1..] == old(order) && fresh(order[0])
    {
      Absent(key);
      var node := new Node(key, value, expiresAt);
      File(node);
    }

    method DropTail()
      requires Valid() && order != []
      modifies this`index, this`head, this`tail, this`order, this`entries, order`prev, order`next
      ensures Valid() && entries == old(entries)[..|old(entries)| - 1]
      ensures forall n :: n in order ==> n in old(order)
    {
      assert entries[|order| - 1] == EntryOf(order[|order| - 1]);
      KeysAreDistinct(index, order, entries);
      LastIsDropped(entries);
      Remove(tail, |order| - 1);
    }

    method InsertBounded(key: string, value: Value, expiresAt: int)
      requires Valid() && key !in index
      modifies this`index, this`head, this`tail, this`order, this`entries, order`prev, order`next
      ensures Valid() && entries == Put(old(entries), key, value, expiresAt, maxEntries)
      ensures forall n :: n in order ==> n in old(order) || fresh(n)
    {
      Absent(key);
      Insert(key, value, expiresAt);
      assert forall n :: n in order ==> n == order[0] || n in order[1..];
      assert |index| == |order| == |entries| by { MapSize(index, order); }
      if |index| > maxEntries { DropTail(); }
    }

    method SetUntil(key: string, value: Value, expiresAt: int)
      requires Valid()
      modifies this`index, this`head, this`tail, this`order, this`entries, order
      ensures Valid() && entries == Put(old(entries), key, value, expiresAt, maxEntries)
      ensures forall n :: n in order ==> n in old(order) || fresh(n)
    {
      if key in index {
        ghost var i := Locate(key);
        var node := index[key];
        assert node.key == key;
        Overwrite(node, value, expiresAt, i);
      } else {
        InsertBounded(key, value, expiresAt);
      }
    }

    method Set(key: string, value: Value, now: int)
      requires Valid()
      modifies this`index, this`head, this`tail, this`order, this`entries, order
      ensures Valid()
      ensures !enabled ==> entries == old(entries)
      ensures enabled ==> entries == Put(old(entries), key, value, Expiry(now, ttlMs), maxEntries)
      ensures forall n :: n in order ==> n in old(order) || fresh(n)
    {
      if enabled { SetUntil(key, value, Expiry(now, ttlMs)); }
    }

    method Delete(key: string) returns (removed: bool)
      requires Valid()
      modifies this`index, this`head, this`tail, this`order, this`entries, order`prev, order`next
      ensures Valid() && entries == Without(old(entries), key)
      ensures removed <==> Find(old(entries), key).Some?
    {
      if key !in index {
        Absent(key);
        return false;
      }
      ghost var i := Locate(key);
      Remove(index[key], i);
      removed := true;
    }

    method Clear()
      modifies this`index, this`head, this`tail, this`order, this`entries
      ensures Valid() && entries == []
    {
      index, head, tail, order, entries := map[], null, null, [], [];
    }
  }
}
