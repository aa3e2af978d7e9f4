/** In-place selection of the k-th smallest element, and what "k-th smallest" means. */
module Quickselect {

  ghost predicate IsSorted(s: seq<real>) {
    forall i, j :: 0 <= i < j < |s| ==> s[i] <= s[j]
  }

  // ----- sorting, as the reference -----

  function Insert(x: real, s: seq<real>): (r: seq<real>)
    ensures |r| == |s| + 1
  {
    if s == [] || x <= s[0] then [x] + s else [s[0]] + Insert(x, s[1..])
  }

  /** The ascending rearrangement of `s`. */
  function Sorted(s: seq<real>): (r: seq<real>)
    ensures |r| == |s|
  {
    if s == [] then [] else Insert(s[0], Sorted(s[1..]))
  }

  lemma {:induction false} InsertPermutes(x: real, s: seq<real>)
    ensures multiset(Insert(x, s)) == multiset(s) + multiset{x}
  {
    if s != [] && x > s[0] {
      InsertPermutes(x, s[1..]);
      assert s == [s[0]] + s[1..];
    }
  }

  lemma {:induction false} InsertIsSorted(x: real, s: seq<real>)
    requires IsSorted(s)
    ensures IsSorted(Insert(x, s))
  {
    if s != [] && x > s[0] {
      var r := Insert(x, s[1..]);
      InsertIsSorted(x, s[1..]);
      InsertPermutes(x, s[1..]);
      forall j | 0 <= j < |r| ensures s[0] <= r[j] {
        assert r[j] in multiset(r);
        assert r[j] == x || r[j] in s[1..];
      }
      PrependIsSorted(s[0], r);
    } else if s != [] {
      PrependIsSorted(x, s);
    }
  }

  lemma PrependIsSorted(y: real, r: seq<real>)
    requires IsSorted(r) && forall j :: 0 <= j < |r| ==> y <= r[j]
    ensures IsSorted([y] + r)
  {
  }

  lemma {:induction false} SortedIsSorted(s: seq<real>)
    ensures IsSorted(Sorted(s)) && multiset(Sorted(s)) == multiset(s)
  {
    if s != [] {
      SortedIsSorted(s[1..]);
      InsertIsSorted(s[0], Sorted(s[1..]));
      InsertPermutes(s[0], Sorted(s[1..]));
      assert s == [s[0]] + s[1..];
    }
  }

  // ----- counting -----

  function CountLess(s: seq<real>, v: real): nat {
    if s == [] then 0 else (if s[0] < v then 1 else 0) + CountLess(s[1..], v)
  }

  lemma {:induction false} CountConcat(s: seq<real>, t: seq<real>, v: real)
    ensures CountLess(s + t, v) == CountLess(s, v) + CountLess(t, v)
  {
    if s == [] {
      assert s + t == t;
    } else {
      CountConcat(s[1..], t, v);
      assert (s + t)[1..] == s[1..] + t;
    }
  }

  lemma {:induction false} CountBounds(s: seq<real>, v: real)
    ensures CountLess(s, v) <= |s|
    ensures (forall i :: 0 <= i < |s| ==> s[i] < v) ==> CountLess(s, v) == |s|
    ensures (forall i :: 0 <= i < |s| ==> s[i] >= v) ==> CountLess(s, v) == 0
  {
    if s != [] { CountBounds(s[1..], v); }
  }

  /** Counting does not depend on the order. */
  lemma {:induction false} CountPermutes(s: seq<real>, t: seq<real>, v: real)
    requires multiset(s) == multiset(t)
    ensures CountLess(s, v) == CountLess(t, v)
    decreases |s|
  {
    if s == [] {
      assert |multiset(t)| == 0;
    } else {
      assert s[0] in multiset(t);
      var j :| 0 <= j < |t| && t[j] == s[0];
      var rest := t[..j] + t[j + 1..];
      assert s == [s[0]] + s[1..];
      assert multiset(s) == multiset(s[1..]) + multiset{s[0]};
      TakeOut(t, j, v);
      assert multiset(s[1..]) == multiset(s) - multiset{s[0]} && multiset(rest) == multiset(t) - multiset{s[0]};
      CountPermutes(s[1..], rest, v);
    }
  }

  lemma TakeOut(t: seq<real>, j: nat, v: real)
    requires j < |t|
    ensures var rest := t[..j] + t[j + 1..];
            && multiset(t) == multiset(rest) + multiset{t[j]}
            && CountLess(t, v) == CountLess(rest, v) + CountLess([t[j]], v)
  {
    assert t == t[..j] + ([t[j]] + t[j + 1..]);
    CountConcat(t[..j], t[j + 1..], v);
    CountConcat(t[..j], [t[j]] + t[j + 1..], v);
    CountConcat([t[j]], t[j + 1..], v);
  }

  /** Position `k` separates the smaller elements from the larger ones. */
  ghost predicate Separates(s: seq<real>, k: nat) {
    k < |s| && (forall p :: 0 <= p < k ==> s[p] <= s[k]) && (forall q :: k <= q < |s| ==> s[k] <= s[q])
  }

  lemma CountAround(s: seq<real>, k: nat, v: real)
    requires Separates(s, k)
    ensures v <= s[k] ==> CountLess(s, v) <= k
    ensures v > s[k] ==> CountLess(s, v) > k
  {
    if v <= s[k] {
      assert s == s[..k] + s[k..];
      CountConcat(s[..k], s[k..], v);
      CountBounds(s[..k], v);
      CountBounds(s[k..], v);
    } else {
      assert s == s[..k + 1] + s[k + 1..];
      CountConcat(s[..k + 1], s[k + 1..], v);
      CountBounds(s[..k + 1], v);
    }
  }

  /** Two rearrangements of the same elements have the same element at a separating position. */
  lemma SeparatedIsUnique(s: seq<real>, t: seq<real>, k: nat)
    requires multiset(s) == multiset(t) && Separates(s, k) && Separates(t, k)
    ensures s[k] == t[k]
  {
    CountPermutes(s, t, s[k]);
    CountPermutes(s, t, t[k]);
    CountAround(s, k, s[k]);
    CountAround(s, k, t[k]);
    CountAround(t, k, s[k]);
    CountAround(t, k, t[k]);
  }

  lemma SortedSeparates(s: seq<real>, k: nat)
    requires IsSorted(s) && k < |s|
    ensures Separates(s, k)
  {
  }

  lemma SeparatedIsKth(s: seq<real>, original: seq<real>, k: nat)
    requires multiset(s) == multiset(original) && |s| == |original| && Separates(s, k)
    ensures s[k] == Sorted(original)[k]
  {
    SortedIsSorted(original);
    SortedSeparates(Sorted(original), k);
    SeparatedIsUnique(s, Sorted(original), k);
  }

  // ----- the algorithm -----

  method Swap(a: array<real>, i: nat, j: nat)
    requires i <= j < a.Length
    modifies a
    ensures a[i] == old(a[j]) && a[j] == old(a[i])
    ensures forall m :: 0 <= m < a.Length && m != i && m != j ==> a[m] == old(a[m])
    ensures multiset(a[..]) == multiset(old(a[..]))
  {
    a[i], a[j] := a[j], a[i];
  }

  /** The part of the array below `lo` and above `hi` is settled. */
  ghost predicate Bracketed(s: seq<real>, lo: int, hi: int) {
    && (forall p, q :: 0 <= p < lo <= q < |s| ==> s[p] <= s[q])
    && (forall p, q :: 0 <= p <= hi < q < |s| ==> s[p] <= s[q])
  }

  /** Everything in `lo..hi` below `i` is at most the pivot, everything above `j` at least. */
  ghost predicate Halves(s: seq<real>, lo: int, hi: int, i: int, j: int, pivot: real) {
    && 0 <= lo && hi < |s|
    && (forall p :: lo <= p < i && p <= hi ==> s[p] <= pivot)
    && (forall q :: j < q <= hi && lo <= q ==> pivot <= s[q])
  }

  /** `i` scans up to the first element that is not below the pivot; there is one. */
  method ScanUp(a: array<real>, from: nat, hi: nat, pivot: real) returns (i: nat)
    requires from <= hi < a.Length && exists g :: from <= g <= hi && a[g] >= pivot
    ensures from <= i <= hi && a[i] >= pivot
    ensures forall p :: from <= p < i ==> a[p] < pivot
  {
    i := from;
    ghost var g :| from <= g <= hi && a[g] >= pivot;
    while a[i] < pivot
      invariant from <= i <= g
      invariant forall p :: from <= p < i ==> a[p] < pivot
      decreases g - i
    {
      i := i + 1;
    }
  }

  /** `j` scans down to the first element that is not above the pivot; there is one. */
  method ScanDown(a: array<real>, lo: nat, from: nat, pivot: real) returns (j: nat)
    requires lo <= from < a.Length && exists g :: lo <= g <= from && a[g] <= pivot
    ensures lo <= j <= from && a[j] <= pivot
    ensures forall q :: j < q <= from ==> a[q] > pivot
  {
    j := from;
    ghost var g :| lo <= g <= from && a[g] <= pivot;
    while a[j] > pivot
      invariant g <= j <= from
      invariant forall q :: j < q <= from ==> a[q] > pivot
      decreases j - g
    {
      j := j - 1;
    }
  }

  /** `t` is `s` with positions `i` and `j` exchanged. */
  ghost predicate Exchanged(s: seq<real>, t: seq<real>, i: int, j: int) {
    && |t| == |s| && 0 <= i <= j < |s| && t[i] == s[j] && t[j] == s[i]
    && (forall m :: 0 <= m < |s| && m != i && m != j ==> t[m] == s[m])
  }

  /** Exchanging two misplaced elements keeps the brackets and widens the halves. */
  lemma ExchangeStep(s: seq<real>, t: seq<real>, lo: int, hi: int, i: int, j: int, pivot: real)
    requires Exchanged(s, t, i, j) && 0 <= lo <= i <= j <= hi < |s|
    requires Bracketed(s, lo, hi) && Halves(s, lo, hi, i, j, pivot) && s[j] <= pivot <= s[i]
    ensures Bracketed(t, lo, hi) && Halves(t, lo, hi, i + 1, j - 1, pivot)
    ensures t[i] <= pivot <= t[j]
  {
  }

  /** An element on the far side stops each scan. */
  ghost predicate Guarded(s: seq<real>, lo: int, hi: int, i: int, j: int, pivot: real) {
    && (exists g :: i <= g <= hi && 0 <= g < |s| && s[g] >= pivot)
    && (exists g :: lo <= g <= j && 0 <= g < |s| && s[g] <= pivot)
  }

  /** Both scans and, unless they met, the exchange. */
  method PartitionStep(a: array<real>, lo: nat, hi: nat, i0: nat, j0: nat, pivot: real) returns (i: int, j: int)
    requires lo <= i0 <= j0 <= hi < a.Length
    requires Bracketed(a[..], lo, hi) && Halves(a[..], lo, hi, i0, j0, pivot) && Guarded(a[..], lo, hi, i0, j0, pivot)
    modifies a
    ensures Bracketed(a[..], lo, hi) && Halves(a[..], lo, hi, i, j, pivot)
    ensures multiset(a[..]) == multiset(old(a[..]))
    ensures i0 <= i <= hi + 1 && lo - 1 <= j <= j0
    ensures i <= j ==> i0 < i && j < j0 && Guarded(a[..], lo, hi, i, j, pivot)
    ensures (exists g :: i0 <= g <= j0 && old(a[g]) == pivot) ==> i0 < i && j < j0
  {
    i := ScanUp(a, i0, hi, pivot);
    j := ScanDown(a, lo, j0, pivot);
    ghost var s := a[..];
    assert Halves(s, lo, hi, i, j, pivot);
    if i <= j {
      Swap(a, i, j);
      ghost var t := a[..];
      ExchangeStep(s, t, lo, hi, i, j, pivot);
      i, j := i + 1, j - 1;
      assert t[j + 1] >= pivot && t[i - 1] <= pivot;
    }
  }

  /** One pass over `lo..hi`. Both scans run unguarded; the invariant keeps a sentinel ahead of each. */
  method Partition(a: array<real>, lo: nat, hi: nat, pivot: real) returns (i: int, j: int)
    requires lo < hi < a.Length && Bracketed(a[..], lo, hi)
    requires exists g :: lo <= g <= hi && a[g] == pivot
    modifies a
    ensures Bracketed(a[..], lo, hi) && multiset(a[..]) == multiset(old(a[..]))
    ensures Halves(a[..], lo, hi, i, j, pivot)
    ensures lo - 1 <= j < i <= hi + 1 && lo < i && j < hi
  {
    i, j := lo, hi;
    while i <= j
      invariant lo <= i <= hi + 1 && lo - 1 <= j <= hi
      invariant (i == lo && j == hi && exists g :: lo <= g <= hi && a[g] == pivot) || (lo < i && j < hi)
      invariant Bracketed(a[..], lo, hi) && Halves(a[..], lo, hi, i, j, pivot)
      invariant multiset(a[..]) == multiset(old(a[..]))
      invariant i <= j ==> Guarded(a[..], lo, hi, i, j, pivot)
      decreases j - i
    {
      i, j := PartitionStep(a, lo, hi, i, j, pivot);
    }
  }

  /** The k-th smallest element, found by rearranging the array. */
  method SelectKth(a: array<real>, k: nat) returns (r: real)
    requires k < a.Length
    modifies a
    ensures multiset(a[..]) == multiset(old(a[..]))
    ensures Separates(a[..], k) && r == a[k]
    ensures r == Sorted(old(a[..]))[k]
  {
    var lo, hi := 0, a.Length - 1;
    while lo < hi
      invariant 0 <= lo <= k <= hi < a.Length
      invariant Bracketed(a[..], lo, hi)
      invariant multiset(a[..]) == multiset(old(a[..]))
      decreases hi - lo
    {
      var pivot := a[(lo + hi) / 2];
      var i, j := Partition(a, lo, hi, pivot);
      if k <= j {
        hi := j;
      } else if k >= i {
        lo := i;
      } else {
        assert a[k] == pivot;
        break;
      }
    }
    SeparatedIsKth(a[..], old(a[..]), k);
    r := a[k];
  }
}
