/** Edit distance with two rows, and the closest-name suggestion built on it. */
module Levenshtein {
  import opened Wrappers

  function Min(x: nat, y: nat): nat { if x <= y then x else y }

  function Init(s: string): string
    requires s != []
  {
    s[..|s| - 1]
  }

  function Last(s: string): char
    requires s != []
  {
    s[|s| - 1]
  }

  /** The edit distance, by its recursive definition. */
  function Dist(a: string, b: string): nat
    decreases |a| + |b|
  {
    if a == [] then |b|
    else if b == [] then |a|
    else
      Min(Min(Dist(Init(a), b) + 1, Dist(a, Init(b)) + 1), Dist(Init(a), Init(b)) + if Last(a) == Last(b) then 0 else 1)
  }

  // ----- the definition is the cost of a cheapest edit script -----

  datatype Edit = Keep(c: char) | Replace(c: char, d: char) | Delete(c: char) | Add(d: char)

  function Read(e: Edit): string {
    if e.Add? then [] else [e.c]
  }

  function Written(e: Edit): string {
    match e case Keep(c) => [c] case Replace(_, d) => [d] case Delete(_) => [] case Add(d) => [d]
  }

  function Price(e: Edit): nat {
    if e.Keep? then 0 else 1
  }

  function Source(es: seq<Edit>): string {
    if es == [] then [] else Source(es[..|es| - 1]) + Read(es[|es| - 1])
  }

  function Target(es: seq<Edit>): string {
    if es == [] then [] else Target(es[..|es| - 1]) + Written(es[|es| - 1])
  }

  function Cost(es: seq<Edit>): nat {
    if es == [] then 0 else Cost(es[..|es| - 1]) + Price(es[|es| - 1])
  }

  /** Appending a character to one side changes the distance by at most one. */
  lemma {:induction false} OneMore(a: string, b: string, c: char)
    ensures Dist(a + [c], b) <= Dist(a, b) + 1
    ensures Dist(a, b + [c]) <= Dist(a, b) + 1
  {
    assert Init(a + [c]) == a && Init(b + [c]) == b;
  }

  lemma BothMore(a: string, b: string, c: char, d: char)
    ensures Dist(a + [c], b + [d]) <= Dist(a, b) + if c == d then 0 else 1
  {
    assert Init(a + [c]) == a && Init(b + [d]) == b;
  }

  lemma OneEdit(s: string, t: string, e: Edit)
    ensures Dist(s + Read(e), t + Written(e)) <= Dist(s, t) + Price(e)
  {
    match e
    case Keep(c) => BothMore(s, t, c, c);
    case Replace(c, d) => BothMore(s, t, c, d);
    case Delete(c) => OneMore(s, t, c); assert t + [] == t;
    case Add(d) => OneMore(s, t, d); assert s + [] == s;
  }

  /** No script is cheaper than the distance of its ends. */
  lemma {:induction false} ScriptCostsAtLeastDist(es: seq<Edit>)
    ensures Dist(Source(es), Target(es)) <= Cost(es)
  {
    if es != [] {
      var init := es[..|es| - 1];
      ScriptCostsAtLeastDist(init);
      OneEdit(Source(init), Target(init), es[|es| - 1]);
    }
  }

  lemma Extended(es: seq<Edit>, e: Edit)
    ensures Source(es + [e]) == Source(es) + Read(e)
    ensures Target(es + [e]) == Target(es) + Written(e)
    ensures Cost(es + [e]) == Cost(es) + Price(e)
  {
    assert (es + [e])[..|es|] == es;
  }

  lemma LastOfAll(a: string)
    requires a != []
    ensures Init(a) + [Last(a)] == a
  {
  }

  lemma WithDelete(es: seq<Edit>, a: string, b: string)
    requires a != [] && Source(es) == Init(a) && Target(es) == b
    ensures var es' := es + [Delete(Last(a))]; Source(es') == a && Target(es') == b && Cost(es') == Cost(es) + 1
  {
    Extended(es, Delete(Last(a)));
    LastOfAll(a);
    assert b + [] == b;
  }

  lemma WithAdd(es: seq<Edit>, a: string, b: string)
    requires b != [] && Source(es) == a && Target(es) == Init(b)
    ensures var es' := es + [Add(Last(b))]; Source(es') == a && Target(es') == b && Cost(es') == Cost(es) + 1
  {
    Extended(es, Add(Last(b)));
    LastOfAll(b);
    assert a + [] == a;
  }

  lemma WithBoth(es: seq<Edit>, a: string, b: string, e: Edit)
    requires a != [] && b != [] && Source(es) == Init(a) && Target(es) == Init(b)
    requires e == if Last(a) == Last(b) then Keep(Last(a)) else Replace(Last(a), Last(b))
    ensures var es' := es + [e];
            Source(es') == a && Target(es') == b && Cost(es') == Cost(es) + if Last(a) == Last(b) then 0 else 1
  {
    Extended(es, e);
    LastOfAll(a);
    LastOfAll(b);
  }

  /** Some script costs exactly the distance. */
  lemma {:induction false} ScriptOfDist(a: string, b: string) returns (es: seq<Edit>)
    ensures Source(es) == a && Target(es) == b && Cost(es) == Dist(a, b)
    decreases |a| + |b|
  {
    if a == [] && b == [] {
      es := [];
    } else if b == [] || (a != [] && Dist(a, b) == Dist(Init(a), b) + 1) {
      es := ScriptOfDist(Init(a), b);
      WithDelete(es, a, b);
      es := es + [Delete(Last(a))];
    } else if a == [] || Dist(a, b) == Dist(a, Init(b)) + 1 {
      es := ScriptOfDist(a, Init(b));
      WithAdd(es, a, b);
      es := es + [Add(Last(b))];
    } else {
      es := ScriptOfDist(Init(a), Init(b));
      var e := if Last(a) == Last(b) then Keep(Last(a)) else Replace(Last(a), Last(b));
      WithBoth(es, a, b, e);
      es := es + [e];
    }
  }

  // ----- facts the algorithm relies on -----

  lemma {:induction false} Symmetric(a: string, b: string)
    ensures Dist(a, b) == Dist(b, a)
    decreases |a| + |b|
  {
    if a != [] && b != [] {
      Symmetric(Init(a), b);
      Symmetric(a, Init(b));
      Symmetric(Init(a), Init(b));
    }
  }

  lemma {:induction false} SameIsZero(a: string)
    ensures Dist(a, a) == 0
  {
    if a != [] { SameIsZero(Init(a)); }
  }

  /** The distance is at least the difference in length. */
  lemma {:induction false} LengthBound(a: string, b: string)
    ensures Dist(a, b) >= |a| - |b| && Dist(a, b) >= |b| - |a|
    decreases |a| + |b|
  {
    if a != [] && b != [] {
      LengthBound(Init(a), b);
      LengthBound(a, Init(b));
      LengthBound(Init(a), Init(b));
    }
  }

  // ----- the table, row by row -----

  /** Row of the table for `b`: the distances of all prefixes of `a` to `b`. */
  ghost function Row(a: string, b: string): (r: seq<nat>)
    ensures |r| == |a| + 1
  {
    seq(|a| + 1, i requires 0 <= i <= |a| => Dist(a[..i], b))
  }

  function NextCell(left: nat, above: nat, corner: nat, same: bool): nat {
    Min(Min(left + 1, above + 1), corner + if same then 0 else 1)
  }

  /** The first `n + 1` cells of the row after `row` when `c` is appended, which starts with `j`. */
  function NextCells(a: string, c: char, row: seq<nat>, j: nat, n: nat): (r: seq<nat>)
    requires |row| == |a| + 1 && n <= |a|
    ensures |r| == n + 1
  {
    if n == 0 then [j]
    else
      var r := NextCells(a, c, row, j, n - 1);
      r + [NextCell(r[n - 1], row[n], row[n - 1], a[n - 1] == c)]
  }

  lemma CellStep(a: string, b: string, c: char, n: nat)
    requires 0 < n <= |a|
    ensures Dist(a[..n], b + [c]) ==
              NextCell(Dist(a[..n - 1], b + [c]), Dist(a[..n], b), Dist(a[..n - 1], b), a[n - 1] == c)
  {
    assert Init(a[..n]) == a[..n - 1] && Init(b + [c]) == b;
  }

  predicate CellOk(a: string, c: char, row: seq<nat>, next: seq<nat>, m: nat)
    requires |row| == |next| == |a| + 1 && 0 < m <= |a|
  {
    next[m] == NextCell(next[m - 1], row[m], row[m - 1], a[m - 1] == c)
  }

  /** A row that obeys the cell rule is what the loop fills in. */
  lemma {:induction false} CellsFollowRule(a: string, c: char, row: seq<nat>, next: seq<nat>, n: nat)
    requires |row| == |next| == |a| + 1 && n <= |a|
    requires forall m :: 0 < m <= |a| ==> CellOk(a, c, row, next, m)
    ensures NextCells(a, c, row, next[0], n) == next[..n + 1]
  {
    if n > 0 {
      CellsFollowRule(a, c, row, next, n - 1);
      assert CellOk(a, c, row, next, n);
    }
  }

  lemma RowAt(a: string, b: string, i: nat)
    requires i <= |a|
    ensures Row(a, b)[i] == Dist(a[..i], b)
  {
  }

  lemma RowCell(a: string, b: string, c: char, m: nat)
    requires 0 < m <= |a|
    ensures CellOk(a, c, Row(a, b), Row(a, b + [c]), m)
  {
    CellStep(a, b, c, m);
    RowAt(a, b + [c], m);
    RowAt(a, b + [c], m - 1);
    RowAt(a, b, m);
    RowAt(a, b, m - 1);
  }

  lemma RowStart(a: string, b: string)
    ensures Row(a, b)[0] == |b|
  {
    RowAt(a, b, 0);
  }

  lemma RowObeysRule(a: string, b: string, c: char)
    ensures forall m :: 0 < m <= |a| ==> CellOk(a, c, Row(a, b), Row(a, b + [c]), m)
  {
    forall m | 0 < m <= |a| ensures CellOk(a, c, Row(a, b), Row(a, b + [c]), m) {
      RowCell(a, b, c, m);
    }
  }

  lemma WholeRow(a: string, c: char, row: seq<nat>, next: seq<nat>, j: nat)
    requires |row| == |next| == |a| + 1 && next[0] == j
    requires forall m :: 0 < m <= |a| ==> CellOk(a, c, row, next, m)
    ensures NextCells(a, c, row, j, |a|) == next
  {
    CellsFollowRule(a, c, row, next, |a|);
    assert next[..|a| + 1] == next;
  }

  lemma RowStep(a: string, b: string, c: char)
    ensures NextCells(a, c, Row(a, b), |b| + 1, |a|) == Row(a, b + [c])
  {
    RowStart(a, b + [c]);
    RowObeysRule(a, b, c);
    WholeRow(a, c, Row(a, b), Row(a, b + [c]), |b| + 1);
  }

  lemma {:induction false} FirstRow(a: string, row: seq<nat>)
    requires |row| == |a| + 1 && forall i :: 0 <= i <= |a| ==> row[i] == i
    ensures row == Row(a, [])
  {
  }

  // ----- the algorithm -----

  /** Fills `curr` with the next row from the one in `prev`. */
  method NextRow(a: string, c: char, j: nat, prev: array<nat>, curr: array<nat>)
    requires prev.Length == curr.Length == |a| + 1 && prev != curr
    modifies curr
    ensures curr[..] == NextCells(a, c, prev[..], j, |a|)
  {
    curr[0] := j;
    for i := 1 to |a| + 1
      invariant curr[..i] == NextCells(a, c, prev[..], j, i - 1)
    {
      var cost := if a[i - 1] == c then 0 else 1;
      ghost var done := curr[..i];
      assert done[i - 1] == curr[i - 1];
      curr[i] := Min(Min(curr[i - 1] + 1, prev[i] + 1), prev[i - 1] + cost);
      assert curr[..i + 1] == done + [curr[i]];
    }
    assert curr[..] == curr[..|a| + 1];
  }

  /** Two rows over the shorter string. */
  method LevenshteinDistance(s: string, t: string) returns (d: nat)
    ensures d == Dist(s, t)
  {
    if s == t {
      SameIsZero(s);
      return 0;
    }
    if s == [] { return |t|; }
    if t == [] { return |s|; }
    if |s| > |t| {
      Symmetric(s, t);
      d := TwoRows(t, s);
    } else {
      d := TwoRows(s, t);
    }
  }

  method TwoRows(a: string, b: string) returns (d: nat)
    ensures d == Dist(a, b)
  {
    var prev := new nat[|a| + 1];
    var curr := new nat[|a| + 1];
    for i := 0 to |a| + 1
      invariant forall k :: 0 <= k < i ==> prev[k] == k
    {
      prev[i] := i;
    }
    FirstRow(a, prev[..]);
    assert b[..0] == [];
    for j := 1 to |b| + 1
      invariant prev != curr && prev.Length == curr.Length == |a| + 1 && fresh(prev) && fresh(curr)
      invariant prev[..] == Row(a, b[..j - 1])
    {
      NextRow(a, b[j - 1], j, prev, curr);
      assert b[..j] == b[..j - 1] + [b[j - 1]];
      RowStep(a, b[..j - 1], b[j - 1]);
      prev, curr := curr, prev;
    }
    assert a[..|a|] == a && b[..|b|] == b;
    d := prev[|a|];
  }

  // ----- suggestions -----

  const MAX_SUGGEST_INPUT_CHARS: nat := 256

  function Threshold(name: string): nat {
    var t := 2 * |name| / 5;
    if t > 2 then t else 2
  }

  /** The distance of every candidate. */
  ghost function Scores(name: string, candidates: seq<string>, lower: string -> string): (r: seq<nat>)
    ensures |r| == |candidates|
  {
    seq(|candidates|, k requires 0 <= k < |candidates| => Dist(lower(name), lower(candidates[k])))
  }

  /** `i` is the first of the least scores among the first `n`, and within the threshold. */
  ghost predicate IsBest(scores: seq<nat>, threshold: nat, n: nat, i: nat) {
    && i < n <= |scores| && scores[i] <= threshold
    && (forall k :: 0 <= k < i ==> scores[i] < scores[k])
    && (forall k :: i <= k < n ==> scores[i] <= scores[k])
  }

  ghost predicate NoneWithin(scores: seq<nat>, threshold: nat, n: nat) {
    n <= |scores| && forall k :: 0 <= k < n ==> scores[k] > threshold
  }

  ghost predicate BestUpTo(scores: seq<nat>, threshold: nat, n: nat, best: Option<nat>) {
    if best.None? then NoneWithin(scores, threshold, n) else IsBest(scores, threshold, n, best.value)
  }

  lemma ScoreAt(name: string, candidates: seq<string>, lower: string -> string, i: nat)
    requires i < |candidates|
    ensures var a, b := lower(name), lower(candidates[i]); var score := Scores(name, candidates, lower)[i];
            score == Dist(a, b) && score >= |a| - |b| && score >= |b| - |a|
  {
    LengthBound(lower(name), lower(candidates[i]));
  }

  lemma KeepBest(scores: seq<nat>, threshold: nat, n: nat, best: Option<nat>)
    requires n < |scores| && BestUpTo(scores, threshold, n, best)
    requires scores[n] > threshold || (best.Some? && scores[best.value] <= scores[n])
    ensures BestUpTo(scores, threshold, n + 1, best)
  {
  }

  lemma NewBest(scores: seq<nat>, threshold: nat, n: nat, best: Option<nat>)
    requires n < |scores| && BestUpTo(scores, threshold, n, best)
    requires scores[n] <= threshold && (best.Some? ==> scores[n] < scores[best.value])
    ensures BestUpTo(scores, threshold, n + 1, Some(n))
    ensures scores[n] == 0 ==> BestUpTo(scores, threshold, |scores|, Some(n))
  {
  }

  /**
   The suggestion is the first candidate of minimal distance within the threshold. Neither the
   length filter nor the early exit changes it. `lower` stands for lower-casing, which is taken
   to keep lengths.
   */
  method SuggestClosestMethod(name: string, candidates: seq<string>, lower: string -> string) returns (best: Option<nat>)
    requires forall s :: |lower(s)| == |s|
    ensures name == [] || |name| > MAX_SUGGEST_INPUT_CHARS ==> best.None?
    ensures best.Some? ==> IsBest(Scores(name, candidates, lower), Threshold(name), |candidates|, best.value)
    ensures best.None? && name != [] && |name| <= MAX_SUGGEST_INPUT_CHARS ==>
              NoneWithin(Scores(name, candidates, lower), Threshold(name), |candidates|)
  {
    best := None;
    if candidates == [] || name == [] || |name| > MAX_SUGGEST_INPUT_CHARS { return; }
    var normalized := lower(name);
    var threshold := Threshold(name);
    var bestScore := 0;
    ghost var scores := Scores(name, candidates, lower);
    for i := 0 to |candidates|
      invariant BestUpTo(scores, threshold, i, best)
      invariant best.Some? ==> bestScore == scores[best.value]
    {
      var candidate := candidates[i];
      ScoreAt(name, candidates, lower, i);
      if |candidate| - |normalized| > threshold || |normalized| - |candidate| > threshold {
        KeepBest(scores, threshold, i, best);
        continue;
      }
      var score := LevenshteinDistance(normalized, lower(candidate));
      if score <= threshold && (best.None? || score < bestScore) {
        NewBest(scores, threshold, i, best);
        best, bestScore := Some(i), score;
        if score == 0 { return; }
      } else {
        KeepBest(scores, threshold, i, best);
      }
    }
  }
}
