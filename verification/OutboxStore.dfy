/**
 The in-memory outbox store. Records are kept in the order in which they were enqueued, which
 is the iteration order of the store's map; a pruned record stays in the sequence, marked
 `gone`, so that a record's position is its identity for good.
 */
module OutboxStore {
  import opened Wrappers

  datatype Status = Pending | Published | Failed

  datatype Record = Record(
    id: nat, partitionKey: Option<string>, createdAt: int,
    attempts: nat, status: Status, publishedAt: Option<int>, gone: bool)

  datatype Limits = Limits(retentionMs: nat, maxPublished: nat)

  /** Positions are identities. */
  ghost predicate Numbered(rs: seq<Record>) {
    forall i :: 0 <= i < |rs| ==> rs[i].id == i
  }

  // ----- stable sorting -----

  /** `x` goes after every record whose stamp is not larger. */
  function Insert(x: Record, s: seq<Record>, stamp: Record -> int): seq<Record> {
    if s == [] || stamp(s[|s| - 1]) <= stamp(x) then s + [x] else Insert(x, s[..|s| - 1], stamp) + [s[|s| - 1]]
  }

  /** A stable sort: `Array.prototype.sort` by a numeric stamp. */
  function StableSort(rs: seq<Record>, stamp: Record -> int): seq<Record> {
    if rs == [] then [] else Insert(rs[|rs| - 1], StableSort(rs[..|rs| - 1], stamp), stamp)
  }

  predicate Before(a: Record, b: Record, stamp: Record -> int) {
    stamp(a) < stamp(b) || (stamp(a) == stamp(b) && a.id < b.id)
  }

  /** Sorted by stamp, and by identity among equals. */
  ghost predicate InOrder(s: seq<Record>, stamp: Record -> int) {
    forall i, j :: 0 <= i < j < |s| ==> Before(s[i], s[j], stamp)
  }

  lemma AppendKeepsOrder(s: seq<Record>, x: Record, stamp: Record -> int)
    requires InOrder(s, stamp) && forall r :: r in s ==> Before(r, x, stamp)
    ensures InOrder(s + [x], stamp)
  {
    forall i, j | 0 <= i < j < |s + [x]| ensures Before((s + [x])[i], (s + [x])[j], stamp) {
      assert j == |s| ==> s[i] in s;
    }
  }

  lemma LastIsGreatest(s: seq<Record>, init: seq<Record>, last: Record, stamp: Record -> int)
    requires s == init + [last] && InOrder(s, stamp)
    ensures InOrder(init, stamp)
    ensures forall r :: r in init ==> Before(r, last, stamp)
  {
    assert s[|init|] == last;
    forall r | r in init ensures Before(r, last, stamp) {
      var k :| 0 <= k < |init| && init[k] == r;
      assert s[k] == r;
    }
    assert forall k :: 0 <= k < |init| ==> s[k] == init[k];
  }

  lemma {:induction false} InsertKeepsOrder(x: Record, s: seq<Record>, stamp: Record -> int)
    requires InOrder(s, stamp) && forall r :: r in s ==> r.id < x.id
    ensures InOrder(Insert(x, s, stamp), stamp)
    ensures forall r :: r in Insert(x, s, stamp) <==> r == x || r in s
  {
    if s != [] {
      var init, last := s[..|s| - 1], s[|s| - 1];
      assert s == init + [last];
      LastIsGreatest(s, init, last, stamp);
      if stamp(last) > stamp(x) {
        InsertKeepsOrder(x, init, stamp);
        AppendKeepsOrder(Insert(x, init, stamp), last, stamp);
      } else {
        AppendKeepsOrder(s, x, stamp);
      }
    }
  }

  ghost predicate AscendingIds(rs: seq<Record>) {
    forall i, j :: 0 <= i < j < |rs| ==> rs[i].id < rs[j].id
  }

  /** Stability: records that arrive in id order come out by stamp, then by id. */
  lemma {:induction false} StableSortOrders(rs: seq<Record>, stamp: Record -> int)
    requires AscendingIds(rs)
    ensures InOrder(StableSort(rs, stamp), stamp)
    ensures forall r :: r in StableSort(rs, stamp) <==> r in rs
  {
    if rs != [] {
      var init := rs[..|rs| - 1];
      StableSortOrders(init, stamp);
      forall r | r in StableSort(init, stamp) ensures r.id < rs[|rs| - 1].id {
        assert r in init;
      }
      InsertKeepsOrder(rs[|rs| - 1], StableSort(init, stamp), stamp);
      assert rs == init + [rs[|rs| - 1]];
    }
  }

  // ----- pruning -----

  function Live(rs: seq<Record>): seq<Record> {
    if rs == [] then []
    else Live(rs[..|rs| - 1]) + if rs[|rs| - 1].gone then [] else [rs[|rs| - 1]]
  }

  lemma {:induction false} LiveFacts(rs: seq<Record>)
    requires Numbered(rs)
    ensures AscendingIds(Live(rs))
    ensures forall r :: r in Live(rs) <==> r in rs && !r.gone
    ensures forall r :: r in Live(rs) ==> r.id < |rs| && rs[r.id] == r
  {
    if rs != [] {
      var init := rs[..|rs| - 1];
      LiveFacts(init);
      assert rs == init + [rs[|rs| - 1]];
      forall i | 0 <= i < |Live(init)| ensures Live(init)[i].id < |init| {
        assert Live(init)[i] in Live(init);
      }
    }
  }

  function PublishedStamp(r: Record): int {
    if r.publishedAt.Some? then r.publishedAt.value else r.createdAt
  }

  predicate Expired(r: Record, now: int, limits: Limits) {
    now - PublishedStamp(r) > limits.retentionMs
  }

  function Kept(rs: seq<Record>, now: int, limits: Limits): seq<Record> {
    if rs == [] then []
    else
      var r := rs[|rs| - 1];
      Kept(rs[..|rs| - 1], now, limits) + if !r.gone && r.status.Published? && !Expired(r, now, limits) then [r] else []
  }

  function KeptInOrder(rs: seq<Record>, now: int, limits: Limits): seq<Record> {
    StableSort(Kept(rs, now, limits), PublishedStamp)
  }

  /** How many published records are beyond the cap. */
  function Excess(rs: seq<Record>, now: int, limits: Limits): (n: nat)
    ensures n <= |KeptInOrder(rs, now, limits)|
  {
    var kept := |KeptInOrder(rs, now, limits)|;
    if kept > limits.maxPublished then kept - limits.maxPublished else 0
  }

  /** The published records beyond the cap, oldest first. */
  function Surplus(rs: seq<Record>, now: int, limits: Limits): set<nat> {
    IdSet(KeptInOrder(rs, now, limits)[..Excess(rs, now, limits)])
  }

  function IdSet(s: seq<Record>): set<nat> {
    set i | 0 <= i < |s| :: s[i].id
  }

  /** Positions `ids` taken out of the store. */
  function Dropped(rs: seq<Record>, ids: set<nat>): (r: seq<Record>)
    ensures |r| == |rs|
  {
    seq(|rs|, i requires 0 <= i < |rs| => if i in ids then rs[i].(gone := true) else rs[i])
  }

  function Doomed(rs: seq<Record>, now: int, limits: Limits): set<nat> {
    var surplus := Surplus(rs, now, limits);
    set i | 0 <= i < |rs| && rs[i].status.Published? && (Expired(rs[i], now, limits) || i in surplus)
  }

  /** Expired and surplus published records go; nothing else does. */
  function Prune(rs: seq<Record>, now: int, limits: Limits): (r: seq<Record>)
    ensures |r| == |rs|
    ensures forall i :: 0 <= i < |rs| ==> r[i] == rs[i] || (rs[i].status.Published? && r[i] == rs[i].(gone := true))
  {
    Dropped(rs, Doomed(rs, now, limits))
  }

  lemma {:induction false} InsertLength(x: Record, s: seq<Record>, stamp: Record -> int)
    ensures |Insert(x, s, stamp)| == |s| + 1
  {
    if s != [] { InsertLength(x, s[..|s| - 1], stamp); }
  }

  lemma {:induction false} StableSortLength(rs: seq<Record>, stamp: Record -> int)
    ensures |StableSort(rs, stamp)| == |rs|
  {
    if rs != [] {
      StableSortLength(rs[..|rs| - 1], stamp);
      InsertLength(rs[|rs| - 1], StableSort(rs[..|rs| - 1], stamp), stamp);
    }
  }

  lemma {:induction false} KeptFacts(rs: seq<Record>, now: int, limits: Limits)
    requires Numbered(rs)
    ensures AscendingIds(Kept(rs, now, limits))
    ensures forall r :: r in Kept(rs, now, limits) <==> r in rs && !r.gone && r.status.Published? && !Expired(r, now, limits)
    ensures forall r :: r in Kept(rs, now, limits) ==> r.id < |rs| && rs[r.id] == r
  {
    if rs != [] {
      var init := rs[..|rs| - 1];
      KeptFacts(init, now, limits);
      assert rs == init + [rs[|rs| - 1]];
      forall i | 0 <= i < |Kept(init, now, limits)| ensures Kept(init, now, limits)[i].id < |init| {
        assert Kept(init, now, limits)[i] in Kept(init, now, limits);
      }
    }
  }

  lemma KeptInOrderFacts(rs: seq<Record>, now: int, limits: Limits)
    requires Numbered(rs)
    ensures |KeptInOrder(rs, now, limits)| == |Kept(rs, now, limits)|
    ensures forall i :: 0 <= i < |KeptInOrder(rs, now, limits)| ==>
              var r := KeptInOrder(rs, now, limits)[i]; r.id < |rs| && rs[r.id] == r && r.status.Published?
    ensures forall r :: r in KeptInOrder(rs, now, limits) <==> r in rs && !r.gone && r.status.Published? && !Expired(r, now, limits)
  {
    KeptFacts(rs, now, limits);
    StableSortLength(Kept(rs, now, limits), PublishedStamp);
    StableSortOrders(Kept(rs, now, limits), PublishedStamp);
    forall i | 0 <= i < |KeptInOrder(rs, now, limits)|
      ensures var r := KeptInOrder(rs, now, limits)[i]; r.id < |rs| && rs[r.id] == r && r.status.Published?
    {
      assert KeptInOrder(rs, now, limits)[i] in KeptInOrder(rs, now, limits);
    }
  }

  /** The published records still in the store. */
  function Retained(rs: seq<Record>): set<nat> {
    set i | 0 <= i < |rs| && rs[i].status.Published? && !rs[i].gone
  }

  lemma {:induction false} IdSetSize(s: seq<Record>)
    ensures |IdSet(s)| <= |s|
  {
    if s != [] {
      var init := s[..|s| - 1];
      IdSetSize(init);
      assert IdSet(s) == IdSet(init) + {s[|s| - 1].id};
    }
  }

  lemma SubsetSize(a: set<nat>, b: set<nat>)
    requires a <= b
    ensures |a| <= |b|
  {
    assert b == a + (b - a);
  }

  lemma IdSetSplit(s: seq<Record>, n: nat)
    requires n <= |s|
    ensures IdSet(s) == IdSet(s[..n]) + IdSet(s[n..])
  {
    forall k | 0 <= k < |s| ensures s[k].id in IdSet(s[..n]) + IdSet(s[n..]) {
      assert s[k] == if k < n then s[..n][k] else s[n..][k - n];
    }
  }

  lemma RestSize(s: seq<Record>, n: nat, ids: set<nat>)
    requires n <= |s| && ids <= IdSet(s) && ids !! IdSet(s[..n])
    ensures |ids| <= |s| - n
  {
    IdSetSplit(s, n);
    SubsetSize(ids, IdSet(s[n..]));
    IdSetSize(s[n..]);
  }

  lemma RetainedIsKept(rs: seq<Record>, now: int, limits: Limits, i: nat)
    requires Numbered(rs) && i in Retained(Prune(rs, now, limits))
    ensures i in IdSet(KeptInOrder(rs, now, limits)) && i !in Surplus(rs, now, limits)
  {
    KeptInOrderFacts(rs, now, limits);
    assert i !in Doomed(rs, now, limits);
    var kept := KeptInOrder(rs, now, limits);
    assert rs[i] in kept;
    var k :| 0 <= k < |kept| && kept[k] == rs[i];
    assert kept[k].id == i;
  }

  /** Pruning leaves no more published records than the cap allows. */
  lemma PruneCaps(rs: seq<Record>, now: int, limits: Limits)
    requires Numbered(rs)
    ensures |Retained(Prune(rs, now, limits))| <= limits.maxPublished
  {
    var left := Retained(Prune(rs, now, limits));
    forall i | i in left ensures i in IdSet(KeptInOrder(rs, now, limits)) && i !in Surplus(rs, now, limits) {
      RetainedIsKept(rs, now, limits, i);
    }
    RestSize(KeptInOrder(rs, now, limits), Excess(rs, now, limits), left);
  }

  function ExpiredBelow(rs: seq<Record>, n: nat, now: int, limits: Limits): set<nat>
    requires n <= |rs|
  {
    set i | 0 <= i < n && rs[i].status.Published? && Expired(rs[i], now, limits)
  }

  lemma DropOne(rs: seq<Record>, ids: set<nat>, k: nat)
    requires k < |rs|
    ensures Dropped(rs, ids)[k := Dropped(rs, ids)[k].(gone := true)] == Dropped(rs, ids + {k})
  {
  }

  lemma ExpiredStep(rs: seq<Record>, i: nat, now: int, limits: Limits)
    requires i < |rs|
    ensures Dropped(rs, ExpiredBelow(rs, i, now, limits))[i] == rs[i]
    ensures Dropped(rs, ExpiredBelow(rs, i + 1, now, limits)) ==
              if rs[i].status.Published? && Expired(rs[i], now, limits)
              then Dropped(rs, ExpiredBelow(rs, i, now, limits))[i := rs[i].(gone := true)]
              else Dropped(rs, ExpiredBelow(rs, i, now, limits))
    ensures rs[i].gone ==> Dropped(rs, ExpiredBelow(rs, i + 1, now, limits)) == Dropped(rs, ExpiredBelow(rs, i, now, limits))
  {
    var ids, ids' := ExpiredBelow(rs, i, now, limits), ExpiredBelow(rs, i + 1, now, limits);
    if rs[i].status.Published? && Expired(rs[i], now, limits) {
      assert ids' == ids + {i};
      DropOne(rs, ids, i);
      assert rs[i].gone ==> rs[i].(gone := true) == rs[i];
    } else {
      assert ids' == ids;
    }
  }

  lemma IdSetStep(s: seq<Record>, i: nat)
    requires i < |s|
    ensures IdSet(s[..i + 1]) == IdSet(s[..i]) + {s[i].id}
  {
  }

  lemma SurplusIsPublished(rs: seq<Record>, now: int, limits: Limits, i: nat)
    requires Numbered(rs) && i in Surplus(rs, now, limits)
    ensures i < |rs| && rs[i].status.Published?
  {
    KeptInOrderFacts(rs, now, limits);
    var kept, n := KeptInOrder(rs, now, limits), Excess(rs, now, limits);
    var k :| 0 <= k < n && kept[..n][k].id == i;
    assert kept[k].id == i;
  }

  lemma DoomedParts(rs: seq<Record>, now: int, limits: Limits)
    requires Numbered(rs)
    ensures Doomed(rs, now, limits) == ExpiredBelow(rs, |rs|, now, limits) + Surplus(rs, now, limits)
  {
    forall i | i in Surplus(rs, now, limits) ensures i < |rs| && rs[i].status.Published? {
      SurplusIsPublished(rs, now, limits, i);
    }
  }

  lemma NoSurplus(ids: set<nat>, s: seq<Record>)
    ensures ids + IdSet(s[..0]) == ids
  {
  }

  lemma InOrderFits(rs: seq<Record>, now: int, limits: Limits)
    requires Numbered(rs)
    ensures |KeptInOrder(rs, now, limits)| == |Kept(rs, now, limits)|
    ensures forall i :: 0 <= i < |KeptInOrder(rs, now, limits)| ==> KeptInOrder(rs, now, limits)[i].id < |rs|
  {
    KeptInOrderFacts(rs, now, limits);
  }

  /** Pruning in two phases, as the code takes them: the expired go, then the oldest down to the cap. */
  ghost predicate Phases(rs: seq<Record>, expired: set<nat>, pruned: seq<Record>, kept: seq<Record>, inOrder: seq<Record>, limits: Limits) {
    && |inOrder| == |kept|
    && (forall i :: 0 <= i < |inOrder| ==> inOrder[i].id < |rs|)
    && pruned == if |inOrder| <= limits.maxPublished then Dropped(rs, expired)
                 else Dropped(rs, expired + IdSet(inOrder[..|inOrder| - limits.maxPublished]))
  }

  lemma PrunePhases(rs: seq<Record>, now: int, limits: Limits)
    requires Numbered(rs)
    ensures Phases(rs, ExpiredBelow(rs, |rs|, now, limits), Prune(rs, now, limits), Kept(rs, now, limits),
                   KeptInOrder(rs, now, limits), limits)
  {
    InOrderFits(rs, now, limits);
    DoomedParts(rs, now, limits);
    NoSurplus(ExpiredBelow(rs, |rs|, now, limits), KeptInOrder(rs, now, limits));
  }

  // ----- listing -----

  function CreatedStamp(r: Record): int { r.createdAt }

  /** `r` is pending and its partition is not blocked. */
  predicate Takes(r: Record, blocked: set<string>) {
    r.status.Pending? && !(r.partitionKey.Some? && r.partitionKey.value in blocked)
  }

  /** A parked record blocks its partition. */
  function Blocking(r: Record, blocked: set<string>): set<string> {
    if r.partitionKey.Some? && r.status.Failed? then blocked + {r.partitionKey.value} else blocked
  }

  /** The scan of `listPending`: a parked record blocks what follows it in its partition. */
  function Scan(s: seq<Record>, blocked: set<string>, limit: int): seq<Record> {
    if s == [] then []
    else if !Takes(s[0], blocked) then Scan(s[1..], Blocking(s[0], blocked), limit)
    else if limit <= 1 then [s[0]]
    else [s[0]] + Scan(s[1..], blocked, limit - 1)
  }

  function Listing(rs: seq<Record>, limit: int): seq<Record> {
    Scan(StableSort(Live(rs), CreatedStamp), {}, limit)
  }

  // ----- the store -----

  /** Whether the caller's mark took effect, and how the record stands. */
  datatype MarkResult = MarkResult(owned: bool, status: Status, attempts: nat)

  /** A record that is not pending keeps its status; one that is not there is reported as `missing`. */
  function NotOwned(rs: seq<Record>, id: nat, missing: Status): MarkResult {
    if id < |rs| && !rs[id].gone then MarkResult(false, rs[id].status, rs[id].attempts) else MarkResult(false, missing, 0)
  }

  class InMemoryOutboxStore {
    var records: seq<Record>
    const limits: Limits

    constructor (limits: Limits)
      ensures records == [] && this.limits == limits
    {
      records := [];
      this.limits := limits;
    }

    method Save(partitionKey: Option<string>, createdAt: int) returns (id: nat)
      modifies this
      ensures id == |old(records)|
      ensures records == old(records) + [Record(id, partitionKey, createdAt, 0, Pending, None, false)]
    {
      id := |records|;
      records := records + [Record(id, partitionKey, createdAt, 0, Pending, None, false)];
    }

    method MarkPublished(id: nat, now: int) returns (result: MarkResult)
      modifies this
      ensures result.owned <==> id < |old(records)| && old(records)[id].status.Pending?
      ensures records == if result.owned then MarkedPublished(old(records), id, now) else old(records)
      ensures result == if result.owned then MarkResult(true, Published, records[id].attempts) else NotOwned(old(records), id, Published)
    {
      if id >= |records| || !records[id].status.Pending? { return NotOwned(records, id, Published); }
      records := records[id := records[id].(status := Published, publishedAt := Some(now))];
      result := MarkResult(true, Published, records[id].attempts);
    }

    method MarkFailed(id: nat, maxAttempts: int) returns (result: MarkResult)
      modifies this
      ensures result.owned <==> id < |old(records)| && old(records)[id].status.Pending?
      ensures records == if result.owned then MarkedFailed(old(records), id, maxAttempts) else old(records)
      ensures result == if result.owned then MarkResult(true, records[id].status, old(records)[id].attempts + 1)
                        else NotOwned(old(records), id, Failed)
    {
      if id >= |records| || !records[id].status.Pending? { return NotOwned(records, id, Failed); }
      var r := records[id].(attempts := records[id].attempts + 1);
      records := records[id := r.(status := if r.attempts >= maxAttempts then Failed else Pending)];
      result := MarkResult(true, records[id].status, r.attempts);
    }

    /** One pass drops the expired published records and collects the others. */
    method DropExpired(now: int) returns (published: seq<Record>)
      modifies this
      ensures records == Dropped(old(records), ExpiredBelow(old(records), |old(records)|, now, limits))
      ensures published == Kept(old(records), now, limits)
    {
      published := [];
      ghost var was := records;
      assert records == Dropped(was, ExpiredBelow(was, 0, now, limits));
      for i := 0 to |records|
        invariant published == Kept(was[..i], now, limits)
        invariant |records| == |was| && records == Dropped(was, ExpiredBelow(was, i, now, limits))
      {
        var r := records[i];
        assert was[..i + 1][..i] == was[..i];
        ExpiredStep(was, i, now, limits);
        if r.gone || !r.status.Published? { continue; }
        if Expired(r, now, limits) { records := records[i := r.(gone := true)]; } else { published := published + [r]; }
      }
      assert was[..|was|] == was;
    }

    /** `prunePublished`: the expired go, then the oldest go down to the cap. */
    method PrunePublished(now: int)
      requires Numbered(records)
      modifies this
      ensures records == Prune(old(records), now, limits)
    {
      ghost var was, expired := records, ExpiredBelow(records, |records|, now, limits);
      var published := DropExpired(now);
      PrunePhases(was, now, limits);
      CapPublished(was, expired, Prune(was, now, limits), published);
    }

    /** The second phase: the oldest of the collected records go, down to the cap. */
    method CapPublished(ghost was: seq<Record>, ghost expired: set<nat>, ghost pruned: seq<Record>, published: seq<Record>)
      requires Phases(was, expired, pruned, published, StableSort(published, PublishedStamp), limits)
      requires records == Dropped(was, expired)
      modifies this
      ensures records == pruned
    {
      if |published| <= limits.maxPublished { return; }
      var inOrder := StableSort(published, PublishedStamp);
      DropOldest(was, expired, inOrder, |inOrder| - limits.maxPublished);
    }

    /** Drops the first `n` of `published`. */
    method DropOldest(ghost was: seq<Record>, ghost ids: set<nat>, published: seq<Record>, n: nat)
      requires n <= |published| && records == Dropped(was, ids)
      requires forall i :: 0 <= i < |published| ==> published[i].id < |was|
      modifies this
      ensures records == Dropped(was, ids + IdSet(published[..n]))
    {
      assert ids + IdSet(published[..0]) == ids;
      for i := 0 to n
        invariant |records| == |was| && records == Dropped(was, ids + IdSet(published[..i]))
      {
        var id := published[i].id;
        IdSetStep(published, i);
        DropOne(was, ids + IdSet(published[..i]), id);
        assert ids + IdSet(published[..i]) + {id} == ids + IdSet(published[..i + 1]);
        records := records[id := records[id].(gone := true)];
      }
    }

    method ListPending(limit: int, now: int) returns (out: seq<Record>)
      requires Numbered(records)
      modifies this
      ensures records == Prune(old(records), now, limits)
      ensures out == Listing(records, limit)
    {
      PrunePublished(now);
      var all := StableSort(Live(records), CreatedStamp);
      out := ScanLoop(all, limit);
    }

    method ScanLoop(all: seq<Record>, limit: int) returns (out: seq<Record>)
      ensures out == Scan(all, {}, limit)
    {
      var blocked: set<string> := {};
      out := [];
      var i := 0;
      while i < |all|
        invariant 0 <= i <= |all|
        invariant out != [] ==> |out| < limit
        invariant out + Scan(all[i..], blocked, limit - |out|) == Scan(all, {}, limit)
      {
        var r := all[i];
        assert all[i..][0] == r && all[i..][1..] == all[i + 1..];
        i := i + 1;
        if r.partitionKey.Some? {
          if r.partitionKey.value in blocked {
            assert Blocking(r, blocked) == blocked;
            continue;
          }
          if r.status.Failed? {
            blocked := blocked + {r.partitionKey.value};
            continue;
          }
        }
        if !r.status.Pending? { continue; }
        ghost var rest := Scan(all[i..], blocked, limit - |out| - 1);
        assert out + ([r] + rest) == (out + [r]) + rest;
        out := out + [r];
        if |out| >= limit { break; }
      }
    }
  }

  function MarkedPublished(rs: seq<Record>, id: nat, now: int): seq<Record>
    requires id < |rs|
  {
    rs[id := rs[id].(status := Published, publishedAt := Some(now))]
  }

  function MarkedFailed(rs: seq<Record>, id: nat, maxAttempts: int): seq<Record>
    requires id < |rs|
  {
    var r := rs[id].(attempts := rs[id].attempts + 1);
    rs[id := r.(status := if r.attempts >= maxAttempts then Failed else Pending)]
  }
}
