/** The doubly linked nodes of the idempotency cache. */
module LruNodes {
  import opened LruSpec

  class Node {
    const key: string
    var value: Value
    var expiresAt: int
    var prev: Node?
    var next: Node?

    constructor (key: string, value: Value, expiresAt: int)
      ensures this.key == key && this.value == value && this.expiresAt == expiresAt && prev == null && next == null
    {
      this.key, this.value, this.expiresAt := key, value, expiresAt;
      prev, next := null, null;
    }
  }

  ghost predicate DistinctNodes(s: seq<Node>) {
    forall i, j :: 0 <= i < j < |s| ==> s[i] != s[j]
  }

  /** `s` is linked both ways, from its first node to its last. */
  ghost predicate Linked(s: seq<Node>)
    reads s`prev, s`next
  {
    LinkedBack(s) && LinkedForth(s)
  }

  ghost predicate LinkedBack(s: seq<Node>)
    reads s`prev
  {
    forall i {:trigger s[i].prev} :: 0 <= i < |s| ==> s[i].prev == At(s, i - 1)
  }

  ghost predicate LinkedForth(s: seq<Node>)
    reads s`next
  {
    forall i {:trigger s[i].next} :: 0 <= i < |s| ==> s[i].next == At(s, i + 1)
  }

  ghost function At(s: seq<Node>, i: int): Node? {
    if 0 <= i < |s| then s[i] else null
  }

  function EntryOf(n: Node): Entry
    reads n`value, n`expiresAt
  {
    Entry(n.key, n.value, n.expiresAt)
  }

  /** The nodes of `s` carry the entries `es`, in order. */
  ghost predicate Carries(s: seq<Node>, es: seq<Entry>)
    reads s`value, s`expiresAt
  {
    |es| == |s| && forall i {:trigger es[i]} :: 0 <= i < |s| ==> es[i] == EntryOf(s[i])
  }

  /** Every node but `i` points back past `i`. */
  ghost predicate BypassedBack(s: seq<Node>, i: nat)
    reads s`prev
  {
    forall m {:trigger s[m].prev} :: 0 <= m < |s| && m != i ==> s[m].prev == At(s, if m == i + 1 then i - 1 else m - 1)
  }

  /** Every node but `i` points forth past `i`. */
  ghost predicate BypassedForth(s: seq<Node>, i: nat)
    reads s`next
  {
    forall m {:trigger s[m].next} :: 0 <= m < |s| && m != i ==> s[m].next == At(s, if m == i - 1 then i + 1 else m + 1)
  }

  lemma BypassedIsLinked(s: seq<Node>, i: nat)
    requires i < |s| && BypassedBack(s, i) && BypassedForth(s, i)
    ensures Linked(Drop(s, i))
  {
    var r := Drop(s, i);
    forall k | 0 <= k < |r| ensures r[k].prev == At(r, k - 1) && r[k].next == At(r, k + 1) {
      var m := if k < i then k else k + 1;
      assert r[k] == s[m];
    }
  }

  /** Position `i` moved to the front. */
  ghost function Moved(s: seq<Node>, i: nat): seq<Node>
    requires i < |s|
  {
    [s[i]] + Drop(s, i)
  }

  /** The map holds exactly the nodes of the list, each under its own key. */
  ghost predicate Indexed(index: map<string, Node>, s: seq<Node>) {
    && (forall k :: k in index ==> index[k] in s && index[k].key == k)
    && (forall n :: n in s ==> n.key in index && index[n.key] == n)
  }

  lemma MovedIsIndexed(index: map<string, Node>, s: seq<Node>, i: nat)
    requires i < |s| && Indexed(index, s)
    ensures Indexed(index, Moved(s, i))
  {
    var r := Moved(s, i);
    forall n | n in s ensures n in r {
      var k :| 0 <= k < |s| && s[k] == n;
      assert k < i ==> r[k + 1] == n;
      assert k > i ==> r[k] == n;
      assert k == i ==> r[0] == n;
    }
  }

  lemma DroppedIsIndexed(index: map<string, Node>, s: seq<Node>, i: nat)
    requires i < |s| && DistinctNodes(s) && Indexed(index, s)
    ensures Indexed(index - {s[i].key}, Drop(s, i))
  {
    var r := Drop(s, i);
    forall n | n in s && n != s[i] ensures n in r {
      var k :| 0 <= k < |s| && s[k] == n;
      assert k < i ==> r[k] == n;
      assert k > i ==> r[k - 1] == n;
    }
  }

  lemma KeysAreDistinct(index: map<string, Node>, s: seq<Node>, es: seq<Entry>)
    requires DistinctNodes(s) && Indexed(index, s) && Carries(s, es)
    ensures DistinctKeys(es)
  {
    forall i, j | 0 <= i < j < |s| ensures es[i].key != es[j].key {
      assert s[i] in s && s[j] in s;
    }
  }

  /** What moving position `i` to the front does to everything but the links. */
  lemma FrontFacts(index: map<string, Node>, s: seq<Node>, es: seq<Entry>, i: nat, s': seq<Node>) returns (es': seq<Entry>)
    requires i < |s| && DistinctNodes(s) && Indexed(index, s) && Carries(s, es) && s' == Moved(s, i)
    ensures es' == ToFront(es, es[i]) && Indexed(index, s') && Carries(s', es')
  {
    KeysAreDistinct(index, s, es);
    PosAt(es, i);
    MovedIsIndexed(index, s, i);
    es' := [es[i]] + Drop(es, i);
  }

  /** What dropping position `i` does to everything but the links. */
  lemma DropFacts(index: map<string, Node>, s: seq<Node>, es: seq<Entry>, i: nat) returns (es': seq<Entry>)
    requires i < |s| && DistinctNodes(s) && Indexed(index, s) && Carries(s, es)
    ensures es' == Without(es, s[i].key)
    ensures Indexed(index - {s[i].key}, Drop(s, i)) && Carries(Drop(s, i), es')
  {
    KeysAreDistinct(index, s, es);
    PosAt(es, i);
    DroppedIsIndexed(index, s, i);
    es' := Drop(es, i);
    assert es[i] == EntryOf(s[i]);
  }

  lemma AddedFacts(index: map<string, Node>, s: seq<Node>, es: seq<Entry>, node: Node, s': seq<Node>)
    requires Indexed(index, s) && Carries(s, es) && node.key !in index && s' == [node] + s
    ensures Indexed(index[node.key := node], s') && Carries(s', [EntryOf(node)] + es)
  {
  }

  lemma {:induction false} MapSize(index: map<string, Node>, s: seq<Node>)
    requires DistinctNodes(s) && Indexed(index, s)
    ensures |index| == |s|
    decreases |s|
  {
    if s == [] {
      assert index == map[];
    } else {
      var i := |s| - 1;
      DroppedIsIndexed(index, s, i);
      assert s[i] in s;
      var rest := index - {s[i].key};
      MapSize(rest, Drop(s, i));
      assert rest.Keys == index.Keys - {s[i].key};
    }
  }

  /** `s` is a well-formed list between `head` and `tail`. */
  ghost predicate Chain(s: seq<Node>, head: Node?, tail: Node?)
    reads s`prev, s`next
  {
    DistinctNodes(s) && Linked(s) && head == At(s, 0) && tail == At(s, |s| - 1)
  }
}
