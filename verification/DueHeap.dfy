/** The scheduler's binary min-heap of due times. */
module DueHeap {
  import opened Wrappers

  datatype Entry = Entry(runAt: int, id: string)

  function Parent(k: int): int
    requires k >= 1
  {
    (k - 1) / 2
  }

  /** Heap order everywhere except, possibly, between `hole` and its parent. */
  ghost predicate OrderedAbove(s: seq<Entry>, hole: int) {
    && (forall k :: 1 <= k < |s| && k != hole ==> s[Parent(k)].runAt <= s[k].runAt)
    && (forall k :: 1 <= k < |s| && Parent(k) == hole && hole >= 1 && hole < |s| ==> s[Parent(hole)].runAt <= s[k].runAt)
  }

  /** Heap order everywhere except, possibly, between `hole` and its children. */
  ghost predicate OrderedBelow(s: seq<Entry>, hole: int) {
    && (forall k :: 1 <= k < |s| && Parent(k) != hole ==> s[Parent(k)].runAt <= s[k].runAt)
    && (forall k :: 1 <= k < |s| && Parent(k) == hole && hole >= 1 && hole < |s| ==> s[Parent(hole)].runAt <= s[k].runAt)
  }

  ghost predicate Ordered(s: seq<Entry>) {
    forall k :: 1 <= k < |s| ==> s[Parent(k)].runAt <= s[k].runAt
  }

  function Swap(s: seq<Entry>, i: nat, j: nat): (r: seq<Entry>)
    requires i < |s| && j < |s|
    ensures |r| == |s| && r[i] == s[j] && r[j] == s[i]
    ensures forall k :: 0 <= k < |s| && k != i && k != j ==> r[k] == s[k]
  {
    s[i := s[j]][j := s[i]]
  }

  lemma SwapPermutes(s: seq<Entry>, i: nat, j: nat)
    requires i < |s| && j < |s|
    ensures multiset(Swap(s, i, j)) == multiset(s)
  {
  }

  /** In an ordered heap the root is a least entry. */
  lemma {:induction false} RootIsLeast(s: seq<Entry>, k: nat)
    requires Ordered(s) && k < |s|
    ensures s[0].runAt <= s[k].runAt
    decreases k
  {
    if k > 0 {
      RootIsLeast(s, Parent(k));
    }
  }

  lemma SiftUpStep(s: seq<Entry>, i: nat)
    requires 1 <= i < |s| && OrderedAbove(s, i) && s[Parent(i)].runAt > s[i].runAt
    ensures OrderedAbove(Swap(s, Parent(i), i), Parent(i))
  {
    var p := Parent(i);
    var r := Swap(s, p, i);
    forall k | 1 <= k < |r| && k != p ensures r[Parent(k)].runAt <= r[k].runAt {
      if k != i && Parent(k) == p { assert s[p].runAt <= s[k].runAt; }
    }
    forall k | 1 <= k < |r| && Parent(k) == p && p >= 1 ensures r[Parent(p)].runAt <= r[k].runAt {
      assert s[Parent(p)].runAt <= s[p].runAt;
    }
  }

  lemma SiftDownStep(s: seq<Entry>, i: nat, c: nat)
    requires i < c < |s| && Parent(c) == i && OrderedBelow(s, i) && s[c].runAt < s[i].runAt
    requires forall k :: 1 <= k < |s| && Parent(k) == i ==> s[c].runAt <= s[k].runAt
    ensures OrderedBelow(Swap(s, c, i), c)
  {
    var r := Swap(s, c, i);
    forall k | 1 <= k < |r| && Parent(k) != c ensures r[Parent(k)].runAt <= r[k].runAt {
      if k == i { assert Parent(i) != i && Parent(i) < i; }
    }
    forall k | 1 <= k < |r| && Parent(k) == c ensures r[Parent(c)].runAt <= r[k].runAt {
      assert k != i && k != c;
      assert s[c].runAt <= s[k].runAt;
    }
  }

  class DueHeap {
    var items: seq<Entry>

    ghost predicate Valid()
      reads this
    {
      Ordered(items)
    }

    constructor ()
      ensures Valid() && items == []
    {
      items := [];
    }

    method Push(runAt: int, id: string)
      requires Valid()
      modifies this
      ensures Valid()
      ensures multiset(items) == old(multiset(items)) + multiset{Entry(runAt, id)}
    {
      items := items + [Entry(runAt, id)];
      ghost var all := multiset(items);
      var i := |items| - 1;
      while i > 0
        invariant 0 <= i < |items|
        invariant OrderedAbove(items, i)
        invariant multiset(items) == all
      {
        var parent := Parent(i);
        if items[parent].runAt <= items[i].runAt {
          break;
        }
        SiftUpStep(items, i);
        SwapPermutes(items, parent, i);
        items := Swap(items, parent, i);
        i := parent;
      }
    }

    method PeekRunAt() returns (r: Option<int>)
      requires Valid()
      ensures r.None? <==> items == []
      ensures r.Some? ==> items != [] && r.value == items[0].runAt
      ensures r.Some? ==> forall e :: e in items ==> r.value <= e.runAt
    {
      if items == [] { return None; }
      forall k | 0 <= k < |items| ensures items[0].runAt <= items[k].runAt {
        RootIsLeast(items, k);
      }
      r := Some(items[0].runAt);
    }

    method Pop() returns (r: Option<Entry>)
      requires Valid()
      modifies this
      ensures Valid()
      ensures r.None? <==> old(items) == []
      ensures r.None? ==> items == []
      ensures r.Some? ==> old(items) != [] && r.value == old(items)[0]
      ensures r.Some? ==> old(multiset(items)) == multiset(items) + multiset{r.value} && |items| == |old(items)| - 1
      ensures r.Some? ==> forall e :: e in old(items) ==> r.value.runAt <= e.runAt
    {
      if items == [] { return None; }
      var top := items[0];
      forall k | 0 <= k < |items| ensures items[0].runAt <= items[k].runAt {
        RootIsLeast(items, k);
      }
      var last := items[|items| - 1];
      assert items == items[..|items| - 1] + [last];
      items := items[..|items| - 1];
      if |items| > 0 {
        assert items == [top] + items[1..];
        ghost var rest := multiset(items[1..]);
        items := items[0 := last];
        assert items == [last] + old(items)[1..|old(items)| - 1];
        assert multiset(items) == rest + multiset{last};
        SiftDown();
      }
      r := Some(top);
    }

    /** The loop of `pop`, from the root down. */
    method SiftDown()
      requires items != [] && OrderedBelow(items, 0)
      modifies this
      ensures Valid()
      ensures multiset(items) == old(multiset(items)) && |items| == |old(items)|
    {
      var i := 0;
      while true
        invariant 0 <= i < |items| == |old(items)|
        invariant OrderedBelow(items, i)
        invariant multiset(items) == old(multiset(items))
        decreases |items| - i
      {
        var left, right := 2 * i + 1, 2 * i + 2;
        var smallest := i;
        if left < |items| && items[left].runAt < items[smallest].runAt { smallest := left; }
        if right < |items| && items[right].runAt < items[smallest].runAt { smallest := right; }
        assert forall k :: 1 <= k < |items| && Parent(k) == i ==> k == left || k == right;
        if smallest == i { break; }
        SiftDownStep(items, i, smallest);
        SwapPermutes(items, smallest, i);
        items := Swap(items, smallest, i);
        i := smallest;
      }
    }

    method Clear()
      modifies this
      ensures Valid() && items == []
    {
      items := [];
    }
  }
}
