/**
 The outbox relay: flushes list pending records, split them into partitions, and emit each
 partition in order, halting it at the first failure.

 Enqueues may land at any time, partitions of one flush may interleave in any way, a flush may
 stop anywhere, and every publisher outcome is possible. Flushes do not overlap.
 */
module Outbox {
  import opened OutboxStore
  import opened Wrappers

  // ----- splitting a batch -----

  function Lane(rs: seq<Record>, key: string): seq<Record> {
    if rs == [] then []
    else Lane(rs[..|rs| - 1], key) + if rs[|rs| - 1].partitionKey == Some(key) then [rs[|rs| - 1]] else []
  }

  function Unkeyed(rs: seq<Record>): seq<Record> {
    if rs == [] then []
    else Unkeyed(rs[..|rs| - 1]) + if rs[|rs| - 1].partitionKey.None? then [rs[|rs| - 1]] else []
  }

  /** Keyed records by partition, each partition in batch order; the others apart. */
  method PartitionRecords(records: seq<Record>) returns (byKey: map<string, seq<Record>>, independent: seq<Record>)
    ensures independent == Unkeyed(records)
    ensures forall k :: k in byKey <==> Lane(records, k) != []
    ensures forall k :: k in byKey ==> byKey[k] == Lane(records, k)
  {
    byKey, independent := map[], [];
    for i := 0 to |records|
      invariant independent == Unkeyed(records[..i])
      invariant forall k :: k in byKey <==> Lane(records[..i], k) != []
      invariant forall k :: k in byKey ==> byKey[k] == Lane(records[..i], k)
    {
      var r := records[i];
      assert records[..i + 1][..i] == records[..i];
      if r.partitionKey.None? {
        independent := independent + [r];
      } else {
        var key := r.partitionKey.value;
        var arr := if key in byKey then byKey[key] else [];
        byKey := byKey[key := arr + [r]];
      }
    }
    assert records[..|records|] == records;
  }

  lemma {:induction false} LaneMembers(rs: seq<Record>, key: string)
    ensures forall r :: r in Lane(rs, key) <==> r in rs && r.partitionKey == Some(key)
  {
    if rs != [] {
      LaneMembers(rs[..|rs| - 1], key);
      assert rs == rs[..|rs| - 1] + [rs[|rs| - 1]];
    }
  }

  lemma {:induction false} LaneAscends(rs: seq<Record>, key: string)
    requires ByKeyAscending(rs)
    ensures AscendingIds(Lane(rs, key))
  {
    if rs != [] {
      var init, last := rs[..|rs| - 1], rs[|rs| - 1];
      LaneAscends(init, key);
      LaneMembers(init, key);
      if last.partitionKey == Some(key) {
        var lane := Lane(init, key);
        forall i | 0 <= i < |lane| ensures lane[i].id < last.id {
          assert lane[i] in lane;
          var k :| 0 <= k < |init| && init[k] == lane[i];
          assert rs[k] == lane[i];
        }
      }
    }
  }

  // ----- what a listing contains -----

  /** Within a partition, positions follow enqueue order. */
  ghost predicate ByKeyAscending(s: seq<Record>) {
    forall i, j :: 0 <= i < j < |s| && s[i].partitionKey.Some? && s[i].partitionKey == s[j].partitionKey ==> s[i].id < s[j].id
  }

  /** Whatever precedes a listed record in its partition is listed too, or neither parked nor pending. */
  ghost predicate NothingSkipped(s: seq<Record>, out: seq<Record>) {
    forall r, x :: r in out && x in s && r.partitionKey.Some? && x.partitionKey == r.partitionKey && x.id < r.id ==>
                     !x.status.Failed? && (x.status.Pending? ==> x in out)
  }

  lemma {:induction false} ScanFacts(s: seq<Record>, blocked: set<string>, limit: int)
    requires ByKeyAscending(s)
    ensures var out := Scan(s, blocked, limit);
            && (forall r :: r in out ==> r in s && r.status.Pending?)
            && (forall r :: r in out && r.partitionKey.Some? ==> r.partitionKey.value !in blocked)
            && ByKeyAscending(out)
    decreases |s|
  {
    if s != [] {
      var h, rest := s[0], s[1..];
      assert s == [h] + rest;
      if !Takes(h, blocked) {
        ScanFacts(rest, Blocking(h, blocked), limit);
      } else if limit > 1 {
        ScanFacts(rest, blocked, limit - 1);
        HeadIsAscending(s, Scan(rest, blocked, limit - 1));
      }
    }
  }

  lemma HeadIsAscending(s: seq<Record>, tail: seq<Record>)
    requires s != [] && ByKeyAscending(s) && ByKeyAscending(tail) && forall r :: r in tail ==> r in s[1..]
    ensures ByKeyAscending([s[0]] + tail)
  {
    forall j | 0 <= j < |tail| && s[0].partitionKey.Some? && tail[j].partitionKey == s[0].partitionKey
      ensures s[0].id < tail[j].id
    {
      assert tail[j] in tail;
      var k :| 0 <= k < |s[1..]| && s[1..][k] == tail[j];
      assert s[k + 1] == tail[j];
    }
  }

  lemma {:induction false} ScanSkipsNothing(s: seq<Record>, blocked: set<string>, limit: int)
    requires ByKeyAscending(s)
    ensures NothingSkipped(s, Scan(s, blocked, limit))
    decreases |s|
  {
    if s != [] {
      var h, rest := s[0], s[1..];
      assert s == [h] + rest;
      assert forall k :: 1 <= k < |s| && h.partitionKey.Some? && s[k].partitionKey == h.partitionKey ==> h.id < s[k].id;
      var blocked' := Blocking(h, blocked);
      var limit' := if Takes(h, blocked) then limit - 1 else limit;
      ScanSkipsNothing(rest, blocked', limit');
      ScanFacts(rest, blocked', limit');
    }
  }

  // ----- the relay as a state machine -----

  /** One call of the publisher. `marked` says that the store was told of its outcome. */
  datatype Emission = Emission(id: nat, ok: bool, marked: bool)

  /** `lanes` are the records still to be emitted in the current flush, by partition. */
  datatype State = State(records: seq<Record>, flush: Option<map<string, seq<nat>>>, log: seq<Emission>)

  datatype Action =
    | Enqueue(partitionKey: Option<string>, createdAt: int)
    | StartFlush(limit: int, now: int)
    | EmitNext(key: string, ok: bool, now: int)    // relayOrdered: emit, then mark
    | EmitThenDie(key: string, ok: bool)           // the process dies between the two
    | EmitFree(id: nat, ok: bool, now: int)        // relayIndependent
    | FreeThenDie(id: nat, ok: bool)
    | EndFlush

  datatype Config = Config(maxAttempts: int, limits: Limits)

  function IdsOf(rs: seq<Record>): (ids: seq<nat>)
    ensures |ids| == |rs| && forall i :: 0 <= i < |rs| ==> ids[i] == rs[i].id
  {
    seq(|rs|, i requires 0 <= i < |rs| => rs[i].id)
  }

  function KeysOf(rs: seq<Record>): set<string> {
    set r | r in rs && r.partitionKey.Some? :: r.partitionKey.value
  }

  function LanesOf(batch: seq<Record>): map<string, seq<nat>> {
    map k | k in KeysOf(batch) :: IdsOf(Lane(batch, k))
  }

  /** A pending record without a partition. */
  predicate IsFree(s: State, id: nat) {
    id < |s.records| && s.records[id].partitionKey.None? && s.records[id].status.Pending?
  }

  ghost predicate Enabled(s: State, a: Action) {
    match a
    case Enqueue(key, createdAt) =>
      // one clock per partition
      key.Some? ==> forall r :: r in s.records && r.partitionKey == key ==> r.createdAt <= createdAt
    case StartFlush(_, _) => s.flush.None?
    case EmitNext(key, _, _) => s.flush.Some? && key in s.flush.value && s.flush.value[key] != [] && s.flush.value[key][0] < |s.records|
    case EmitThenDie(key, _) => s.flush.Some? && key in s.flush.value && s.flush.value[key] != [] && s.flush.value[key][0] < |s.records|
    case EmitFree(id, _, _) => s.flush.Some? && IsFree(s, id)
    case FreeThenDie(id, _) => s.flush.Some? && IsFree(s, id)
    case EndFlush => true
  }

  function Marked(rs: seq<Record>, id: nat, ok: bool, now: int, c: Config): seq<Record>
    requires id < |rs|
  {
    if !rs[id].status.Pending? then rs
    else if ok then MarkedPublished(rs, id, now) else MarkedFailed(rs, id, c.maxAttempts)
  }

  ghost function Do(c: Config, s: State, a: Action): State {
    if !Enabled(s, a) then s
    else
      match a
      case Enqueue(key, createdAt) =>
        s.(records := s.records + [Record(|s.records|, key, createdAt, 0, Pending, None, false)])
      case StartFlush(limit, now) =>
        var pruned := Prune(s.records, now, c.limits);
        s.(records := pruned, flush := Some(LanesOf(Listing(pruned, limit))))
      case EmitNext(key, ok, now) =>
        var lane := s.flush.value[key];
        var lanes := if ok then s.flush.value[key := lane[1..]] else s.flush.value - {key};
        State(Marked(s.records, lane[0], ok, now, c), Some(lanes), s.log + [Emission(lane[0], ok, true)])
      case EmitThenDie(key, ok) => State(s.records, None, s.log + [Emission(s.flush.value[key][0], ok, false)])
      case EmitFree(id, ok, now) =>
        s.(records := Marked(s.records, id, ok, now, c), log := s.log + [Emission(id, ok, true)])
      case FreeThenDie(id, ok) => State(s.records, None, s.log + [Emission(id, ok, false)])
      case EndFlush => s.(flush := None)
  }

  ghost function After(c: Config, acts: seq<Action>): State {
    if acts == [] then State([], None, []) else Do(c, After(c, acts[..|acts| - 1]), acts[|acts| - 1])
  }

  // ----- the relay loop of one partition -----

  /** The store after relaying `lane`: everything up to and including the first failure is marked. */
  function Relayed(c: Config, rs: seq<Record>, lane: seq<nat>, ok: nat -> bool, now: int): (r: seq<Record>)
    requires forall t :: 0 <= t < |lane| ==> lane[t] < |rs|
    ensures |r| == |rs|
    decreases |lane|
  {
    if lane == [] then rs
    else
      var rs' := Marked(rs, lane[0], ok(lane[0]), now, c);
      if ok(lane[0]) then Relayed(c, rs', lane[1..], ok, now) else rs'
  }

  /** The records that have come to have status `st` since `was`. */
  function Newly(was: seq<Record>, rs: seq<Record>, st: Status): set<nat>
    requires |was| == |rs|
  {
    set id | 0 <= id < |rs| && rs[id].status == st && was[id].status != st
  }

  lemma NewlyMarked(was: seq<Record>, rs: seq<Record>, rs': seq<Record>, id: nat, st: Status)
    requires |was| == |rs| == |rs'| && id < |rs|
    requires forall k :: 0 <= k < |rs| && k != id ==> rs'[k] == rs[k]
    requires rs[id].status != st && was[id].status != st
    ensures |Newly(was, rs', st)| == |Newly(was, rs, st)| + if rs'[id].status == st then 1 else 0
  {
    var before, after := Newly(was, rs, st), Newly(was, rs', st);
    assert id !in before;
    if rs'[id].status == st {
      assert after == before + {id};
    } else {
      assert after == before;
    }
  }

  /** Only pending records change their status. */
  predicate OnlyPendingMoved(was: seq<Record>, rs: seq<Record>) {
    |was| == |rs| && forall k :: 0 <= k < |rs| && !was[k].status.Pending? ==> rs[k].status == was[k].status
  }

  /**
   `relayOrdered`, with the publisher's outcome for each record given by `ok`. The counts are the
   records that became published and the record, if any, that was parked.
   */
  method RelayOrdered(store: InMemoryOutboxStore, lane: seq<nat>, ok: nat -> bool, now: int, maxAttempts: int)
    returns (published: nat, failed: nat)
    requires forall t :: 0 <= t < |lane| ==> lane[t] < |store.records|
    modifies store
    ensures store.records == Relayed(Config(maxAttempts, store.limits), old(store.records), lane, ok, now)
    ensures published == |Newly(old(store.records), store.records, Published)|
    ensures failed == |Newly(old(store.records), store.records, Failed)|
  {
    published, failed := 0, 0;
    ghost var c, was := Config(maxAttempts, store.limits), store.records;
    var i := 0;
    assert Newly(was, was, Published) == {} && Newly(was, was, Failed) == {};
    while i < |lane|
      invariant 0 <= i <= |lane| && OnlyPendingMoved(was, store.records)
      invariant published == |Newly(was, store.records, Published)| && failed == |Newly(was, store.records, Failed)| == 0
      invariant Relayed(c, store.records, lane[i..], ok, now) == Relayed(c, was, lane, ok, now)
    {
      var id := lane[i];
      ghost var rs := store.records;
      assert lane[i..][0] == id && lane[i..][1..] == lane[i + 1..];
      if ok(id) {
        var mark := store.MarkPublished(id, now);
        if mark.owned {
          NewlyMarked(was, rs, store.records, id, Published);
          NewlyMarked(was, rs, store.records, id, Failed);
          published := published + 1;
        }
      } else {
        var mark := store.MarkFailed(id, maxAttempts);
        if mark.owned {
          NewlyMarked(was, rs, store.records, id, Published);
          NewlyMarked(was, rs, store.records, id, Failed);
        }
        if mark.owned && mark.status.Failed? { failed := failed + 1; }
        return;
      }
      i := i + 1;
    }
  }

  /** What relaying `lane` emits: its records in order, up to and including the first failure. */
  function EmissionsOf(lane: seq<nat>, ok: nat -> bool): seq<Emission>
    decreases |lane|
  {
    if lane == [] then []
    else [Emission(lane[0], ok(lane[0]), true)] + if ok(lane[0]) then EmissionsOf(lane[1..], ok) else []
  }

  /** The actions behind the loop. */
  function RelayActs(key: string, lane: seq<nat>, ok: nat -> bool, now: int): seq<Action>
    decreases |lane|
  {
    if lane == [] then []
    else [EmitNext(key, ok(lane[0]), now)] + if ok(lane[0]) then RelayActs(key, lane[1..], ok, now) else []
  }

  /** The loop is a run of the state machine: it makes the partition's emissions, in order, and no others. */
  lemma {:induction false} RelayIsARun(c: Config, s: State, key: string, lane: seq<nat>, ok: nat -> bool, now: int)
    requires s.flush.Some? && key in s.flush.value && s.flush.value[key] == lane
    requires forall t :: 0 <= t < |lane| ==> lane[t] < |s.records|
    ensures Runs(c, s, RelayActs(key, lane, ok, now)).records == Relayed(c, s.records, lane, ok, now)
    ensures Runs(c, s, RelayActs(key, lane, ok, now)).log == s.log + EmissionsOf(lane, ok)
    ensures var acts := RelayActs(key, lane, ok, now); forall i :: 0 <= i < |acts| ==> acts[i].EmitNext? && acts[i].key == key
    decreases |lane|
  {
    if lane != [] {
      var a := EmitNext(key, ok(lane[0]), now);
      EmitNextEffect(c, s, key, ok(lane[0]), now);
      if ok(lane[0]) {
        RunsFirst(c, s, a, RelayActs(key, lane[1..], ok, now));
        RelayIsARun(c, Do(c, s, a), key, lane[1..], ok, now);
        LogRegroups(s.log, Emission(lane[0], true, true), EmissionsOf(lane[1..], ok));
      } else {
        RunsFirst(c, s, a, []);
      }
    }
  }

  lemma LogRegroups(log: seq<Emission>, e: Emission, rest: seq<Emission>)
    ensures log + [e] + rest == log + ([e] + rest)
  {
  }

  lemma EmitNextEffect(c: Config, s: State, key: string, ok: bool, now: int)
    requires s.flush.Some? && key in s.flush.value && s.flush.value[key] != [] && s.flush.value[key][0] < |s.records|
    ensures var s', lane := Do(c, s, EmitNext(key, ok, now)), s.flush.value[key];
            && s'.records == Marked(s.records, lane[0], ok, now, c) && s'.log == s.log + [Emission(lane[0], ok, true)]
            && s'.flush.Some? && (ok ==> key in s'.flush.value && s'.flush.value[key] == lane[1..])
  {
  }

  lemma RunsFirst(c: Config, s: State, a: Action, rest: seq<Action>)
    ensures Runs(c, s, [a] + rest) == Runs(c, Do(c, s, a), rest)
  {
    assert ([a] + rest)[1..] == rest;
  }

  ghost function Runs(c: Config, s: State, acts: seq<Action>): State
    decreases |acts|
  {
    if acts == [] then s else Runs(c, Do(c, s, acts[0]), acts[1..])
  }

  // ----- the invariant -----

  ghost predicate RecordsOk(rs: seq<Record>) {
    && Numbered(rs)
    && (forall i, j :: 0 <= i < j < |rs| && rs[i].partitionKey.Some? && rs[i].partitionKey == rs[j].partitionKey ==>
          rs[i].createdAt <= rs[j].createdAt)
    && (forall i :: 0 <= i < |rs| ==> rs[i].gone ==> rs[i].status.Published?)
  }

  /** A lane holds pending records of its partition, ascending, and skips only published ones. */
  ghost predicate LaneOk(rs: seq<Record>, key: string, lane: seq<nat>) {
    && (forall t :: 0 <= t < |lane| ==> lane[t] < |rs| && rs[lane[t]].partitionKey == Some(key) && rs[lane[t]].status.Pending?)
    && (forall t, u :: 0 <= t < u < |lane| ==> lane[t] < lane[u])
    && (forall t, q :: 0 <= t < |lane| && 0 <= q < lane[t] && q < |rs| && rs[q].partitionKey == Some(key) ==>
          rs[q].status.Published? || q in lane)
  }

  /** An emission of a keyed record comes after a successful, marked emission of every earlier record of its partition. */
  ghost predicate LogOk(rs: seq<Record>, log: seq<Emission>) {
    && (forall b :: 0 <= b < |log| ==> log[b].id < |rs|)
    && (forall q :: 0 <= q < |rs| && rs[q].status.Published? ==> Emission(q, true, true) in log)
    && (forall b, q :: 0 <= b < |log| && Earlier(rs, q, log[b].id) ==> Emission(q, true, true) in log[..b])
  }

  /** Record `q` comes before record `p` in the same partition. */
  ghost predicate Earlier(rs: seq<Record>, q: int, p: int) {
    0 <= q < p < |rs| && rs[q].partitionKey.Some? && rs[q].partitionKey == rs[p].partitionKey
  }

  ghost predicate Inv(s: State) {
    && RecordsOk(s.records)
    && (s.flush.Some? ==> forall k :: k in s.flush.value ==> LaneOk(s.records, k, s.flush.value[k]))
    && LogOk(s.records, s.log)
  }

  /** The head of a lane has every earlier record of its partition published. */
  lemma HeadIsNext(rs: seq<Record>, key: string, lane: seq<nat>, q: nat)
    requires LaneOk(rs, key, lane) && lane != []
    requires q < lane[0] && q < |rs| && rs[q].partitionKey == Some(key)
    ensures rs[q].status.Published?
  {
    assert q !in lane by {
      forall t | 0 <= t < |lane| ensures lane[t] != q {}
    }
  }

  /** A listing holds current pending records and, before each of them, every unpublished one of its partition. */
  lemma ListingFacts(rs: seq<Record>, limit: int)
    requires RecordsOk(rs)
    ensures var out := Listing(rs, limit);
            && ByKeyAscending(out)
            && (forall r :: r in out ==> r.id < |rs| && rs[r.id] == r && r.status.Pending?)
            && (forall r, q :: r in out && Earlier(rs, q, r.id) ==> rs[q].status.Published? || rs[q] in out)
  {
    LiveFacts(rs);
    StableSortOrders(Live(rs), CreatedStamp);
    var s := StableSort(Live(rs), CreatedStamp);
    SortedByKey(rs, s);
    ScanFacts(s, {}, limit);
    ScanSkipsNothing(s, {}, limit);
    var out := Listing(rs, limit);
    forall r, q | r in out && Earlier(rs, q, r.id) && !rs[q].status.Published? ensures rs[q] in out {
      assert rs[q] in s;
    }
  }

  lemma ListingIsOk(rs: seq<Record>, limit: int, key: string)
    requires RecordsOk(rs)
    ensures LaneOk(rs, key, IdsOf(Lane(Listing(rs, limit), key)))
  {
    ListingFacts(rs, limit);
    var out := Listing(rs, limit);
    LaneMembers(out, key);
    LaneAscends(out, key);
    var lane := Lane(out, key);
    var ids := IdsOf(lane);
    forall t | 0 <= t < |ids| ensures ids[t] < |rs| && rs[ids[t]] == lane[t] && lane[t] in out {
      assert lane[t] in lane;
    }
    forall t, q | 0 <= t < |ids| && 0 <= q < ids[t] && q < |rs| && rs[q].partitionKey == Some(key) && !rs[q].status.Published?
      ensures q in ids
    {
      assert Earlier(rs, q, ids[t]);
      assert rs[q] in lane;
      var u :| 0 <= u < |lane| && lane[u] == rs[q];
      assert ids[u] == q;
    }
  }

  /** The stable sort by creation time keeps every partition in enqueue order. */
  lemma SortedByKey(rs: seq<Record>, s: seq<Record>)
    requires RecordsOk(rs) && InOrder(s, CreatedStamp)
    requires forall r :: r in s ==> r.id < |rs| && rs[r.id] == r
    ensures ByKeyAscending(s)
  {
    forall i, j | 0 <= i < j < |s| && s[i].partitionKey.Some? && s[i].partitionKey == s[j].partitionKey ensures s[i].id < s[j].id {
      assert s[i] in s && s[j] in s;
      assert Before(s[i], s[j], CreatedStamp);
    }
  }

  // ----- every action keeps the invariant -----

  /** Statuses and `gone` flags change; identities, keys and times do not, and published stays published. */
  ghost predicate SameRecords(rs: seq<Record>, rs': seq<Record>) {
    |rs'| == |rs| && forall i :: 0 <= i < |rs| ==>
      && rs'[i].id == rs[i].id && rs'[i].partitionKey == rs[i].partitionKey && rs'[i].createdAt == rs[i].createdAt
      && (rs[i].status.Published? ==> rs'[i].status.Published?)
      && (rs'[i].gone ==> rs[i].gone || rs[i].status.Published?)
  }

  lemma SameRecordsKeep(rs: seq<Record>, rs': seq<Record>)
    requires RecordsOk(rs) && SameRecords(rs, rs')
    ensures RecordsOk(rs')
  {
  }

  /** A lane survives changes to records outside it. */
  lemma LaneSurvives(rs: seq<Record>, rs': seq<Record>, key: string, lane: seq<nat>)
    requires LaneOk(rs, key, lane) && SameRecords(rs, rs')
    requires forall t :: 0 <= t < |lane| ==> rs'[lane[t]].status.Pending?
    ensures LaneOk(rs', key, lane)
  {
  }

  lemma HeadLeaves(rs: seq<Record>, rs': seq<Record>, key: string, lane: seq<nat>)
    requires LaneOk(rs, key, lane) && lane != [] && SameRecords(rs, rs')
    requires rs'[lane[0]].status.Published?
    requires forall i :: 0 <= i < |rs| && i != lane[0] ==> rs'[i] == rs[i]
    ensures LaneOk(rs', key, lane[1..])
  {
    var rest := lane[1..];
    forall t, q | 0 <= t < |rest| && 0 <= q < rest[t] && q < |rs'| && rs'[q].partitionKey == Some(key) && !rs'[q].status.Published?
      ensures q in rest
    {
      assert rest[t] == lane[t + 1];
      var u :| 0 <= u < |lane| && lane[u] == q;
      assert rest[u - 1] == q;
    }
  }

  /** One more emission, of a record whose predecessors are all published. */
  lemma LogGrows(rs: seq<Record>, log: seq<Emission>, rs': seq<Record>, e: Emission)
    requires LogOk(rs, log) && SameRecords(rs, rs') && e.id < |rs|
    requires forall q :: Earlier(rs, q, e.id) ==> rs[q].status.Published?
    requires forall q :: 0 <= q < |rs| && rs'[q].status.Published? && !rs[q].status.Published? ==> e == Emission(q, true, true)
    ensures LogOk(rs', log + [e])
  {
    var log' := log + [e];
    assert log'[|log|] == e;
    forall q | 0 <= q < |rs'| && rs'[q].status.Published? ensures Emission(q, true, true) in log' {
      if rs[q].status.Published? { assert Emission(q, true, true) in log; }
    }
    forall b, q | 0 <= b < |log'| && Earlier(rs', q, log'[b].id) ensures Emission(q, true, true) in log'[..b] {
      assert Earlier(rs, q, log'[b].id);
      if b < |log| {
        assert log'[..b] == log[..b] && log'[b] == log[b];
      } else {
        assert log'[..b] == log;
      }
    }
  }

  lemma MarkedIsSame(rs: seq<Record>, id: nat, ok: bool, now: int, c: Config)
    requires id < |rs|
    ensures var rs' := Marked(rs, id, ok, now, c);
            SameRecords(rs, rs') && forall i :: 0 <= i < |rs| && i != id ==> rs'[i] == rs[i]
  {
  }

  lemma EmitNextKeepsInv(c: Config, s: State, key: string, ok: bool, now: int)
    requires Inv(s) && Enabled(s, EmitNext(key, ok, now))
    ensures Inv(Do(c, s, EmitNext(key, ok, now)))
  {
    var s' := Do(c, s, EmitNext(key, ok, now));
    var lane := s.flush.value[key];
    var id := lane[0];
    assert LaneOk(s.records, key, lane);
    MarkedIsSame(s.records, id, ok, now, c);
    SameRecordsKeep(s.records, s'.records);
    forall q | Earlier(s.records, q, id) ensures s.records[q].status.Published? {
      HeadIsNext(s.records, key, lane, q);
    }
    LogGrows(s.records, s.log, s'.records, Emission(id, ok, true));
    forall k | k in s'.flush.value ensures LaneOk(s'.records, k, s'.flush.value[k]) {
      assert LaneOk(s.records, k, s.flush.value[k]);
      if k == key {
        HeadLeaves(s.records, s'.records, key, lane);
      } else {
        LaneSurvives(s.records, s'.records, k, s.flush.value[k]);
      }
    }
  }

  lemma EmitFreeKeepsInv(c: Config, s: State, id: nat, ok: bool, now: int)
    requires Inv(s) && Enabled(s, EmitFree(id, ok, now))
    ensures Inv(Do(c, s, EmitFree(id, ok, now)))
  {
    var s' := Do(c, s, EmitFree(id, ok, now));
    MarkedIsSame(s.records, id, ok, now, c);
    SameRecordsKeep(s.records, s'.records);
    LogGrows(s.records, s.log, s'.records, Emission(id, ok, true));
    forall k | k in s'.flush.value ensures LaneOk(s'.records, k, s'.flush.value[k]) {
      assert LaneOk(s.records, k, s.flush.value[k]);
      LaneSurvives(s.records, s'.records, k, s.flush.value[k]);
    }
  }

  lemma EnqueueKeepsInv(c: Config, s: State, key: Option<string>, createdAt: int)
    requires Inv(s) && Enabled(s, Enqueue(key, createdAt))
    ensures Inv(Do(c, s, Enqueue(key, createdAt)))
  {
    var s' := Do(c, s, Enqueue(key, createdAt));
    forall i | 0 <= i < |s.records| ensures s'.records[i] == s.records[i] && s.records[i] in s.records {}
    if s.flush.Some? {
      forall k | k in s'.flush.value ensures LaneOk(s'.records, k, s'.flush.value[k]) {
        assert LaneOk(s.records, k, s.flush.value[k]);
      }
    }
    forall b, q | 0 <= b < |s.log| && Earlier(s'.records, q, s.log[b].id) ensures Emission(q, true, true) in s.log[..b] {
      assert Earlier(s.records, q, s.log[b].id);
    }
  }

  lemma StartFlushKeepsInv(c: Config, s: State, limit: int, now: int)
    requires Inv(s) && s.flush.None?
    ensures Inv(Do(c, s, StartFlush(limit, now)))
  {
    var s' := Do(c, s, StartFlush(limit, now));
    SameRecordsKeep(s.records, s'.records);
    forall k | k in s'.flush.value ensures LaneOk(s'.records, k, s'.flush.value[k]) {
      ListingIsOk(s'.records, limit, k);
    }
    forall b, q | 0 <= b < |s.log| && Earlier(s'.records, q, s.log[b].id) ensures Emission(q, true, true) in s.log[..b] {
      assert Earlier(s.records, q, s.log[b].id);
    }
  }

  lemma EmitThenDieKeepsInv(c: Config, s: State, key: string, ok: bool)
    requires Inv(s) && Enabled(s, EmitThenDie(key, ok))
    ensures Inv(Do(c, s, EmitThenDie(key, ok)))
  {
    var lane := s.flush.value[key];
    assert LaneOk(s.records, key, lane);
    forall q | Earlier(s.records, q, lane[0]) ensures s.records[q].status.Published? {
      HeadIsNext(s.records, key, lane, q);
    }
    LogGrows(s.records, s.log, s.records, Emission(lane[0], ok, false));
  }

  lemma StepKeepsInv(c: Config, s: State, a: Action)
    requires Inv(s)
    ensures Inv(Do(c, s, a))
  {
    if Enabled(s, a) {
      match a
      case Enqueue(key, createdAt) => EnqueueKeepsInv(c, s, key, createdAt);
      case StartFlush(limit, now) => StartFlushKeepsInv(c, s, limit, now);
      case EmitNext(key, ok, now) => EmitNextKeepsInv(c, s, key, ok, now);
      case EmitThenDie(key, ok) => EmitThenDieKeepsInv(c, s, key, ok);
      case EmitFree(id, ok, now) => EmitFreeKeepsInv(c, s, id, ok, now);
      case FreeThenDie(id, ok) => LogGrows(s.records, s.log, s.records, Emission(id, ok, false));
      case EndFlush =>
    }
  }

  lemma {:induction false} AlwaysInv(c: Config, acts: seq<Action>)
    ensures Inv(After(c, acts))
  {
    if acts != [] {
      AlwaysInv(c, acts[..|acts| - 1]);
      StepKeepsInv(c, After(c, acts[..|acts| - 1]), acts[|acts| - 1]);
    }
  }

  // ----- what it guarantees -----

  /** A keyed record is emitted only when every earlier record of its partition is published. */
  lemma EmittedInTurn(c: Config, acts: seq<Action>, a: Action, q: nat)
    requires (a.EmitNext? || a.EmitThenDie?) && Enabled(After(c, acts), a)
    requires var s := After(c, acts); Earlier(s.records, q, s.flush.value[a.key][0])
    ensures After(c, acts).records[q].status.Published?
  {
    AlwaysInv(c, acts);
    var s := After(c, acts);
    assert LaneOk(s.records, a.key, s.flush.value[a.key]);
    HeadIsNext(s.records, a.key, s.flush.value[a.key], q);
  }

  /** First successful emissions follow enqueue order: before `p` is emitted at all, every earlier `q` was, with success, and the store knew. */
  lemma EmissionsFollowEnqueueOrder(c: Config, acts: seq<Action>, b: nat, q: nat)
    requires var s := After(c, acts); b < |s.log| && Earlier(s.records, q, s.log[b].id)
    ensures exists a :: 0 <= a < b && After(c, acts).log[a] == Emission(q, true, true)
  {
    AlwaysInv(c, acts);
    var s := After(c, acts);
    assert Emission(q, true, true) in s.log[..b];
    var a :| 0 <= a < b && s.log[..b][a] == Emission(q, true, true);
    assert s.log[a] == Emission(q, true, true);
  }

  /** A parked record stays parked. */
  lemma {:induction false} ParkedStaysParked(c: Config, acts: seq<Action>, i: nat, j: nat, x: nat)
    requires i <= j <= |acts|
    requires x < |After(c, acts[..i]).records| && After(c, acts[..i]).records[x].status.Failed?
    ensures var rs, rs' := After(c, acts[..i]).records, After(c, acts[..j]).records;
            x < |rs'| && rs'[x].status.Failed? && rs'[x].partitionKey == rs[x].partitionKey
    decreases j - i
  {
    if i < j {
      ParkedStaysParked(c, acts, i, j - 1, x);
      assert acts[..j][..j - 1] == acts[..j - 1];
      AlwaysInv(c, acts[..j - 1]);
      ParkedStep(c, After(c, acts[..j - 1]), acts[j - 1], x);
    }
  }

  lemma ParkedStep(c: Config, s: State, a: Action, x: nat)
    requires Inv(s) && x < |s.records| && s.records[x].status.Failed?
    ensures x < |Do(c, s, a).records| && Do(c, s, a).records[x] == s.records[x]
  {
    if Enabled(s, a) && a.EmitNext? {
      assert LaneOk(s.records, a.key, s.flush.value[a.key]);
    }
  }

  /** A parked failure blocks its partition: no later record of it is emitted from then on. */
  lemma ParkedBlocksPartition(c: Config, acts: seq<Action>, i: nat, j: nat, x: nat, a: Action)
    requires i <= j <= |acts|
    requires x < |After(c, acts[..i]).records| && After(c, acts[..i]).records[x].status.Failed?
    requires (a.EmitNext? || a.EmitThenDie?) && Enabled(After(c, acts[..j]), a)
    ensures var s := After(c, acts[..j]); !Earlier(s.records, x, s.flush.value[a.key][0])
  {
    ParkedStaysParked(c, acts, i, j, x);
    if Earlier(After(c, acts[..j]).records, x, After(c, acts[..j]).flush.value[a.key][0]) {
      EmittedInTurn(c, acts[..j], a, x);
    }
  }
}
