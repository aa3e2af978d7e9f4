/** What the counters of a record mean: its attempts are its failures, and they decide when it is parked. */
module OutboxAttempts {
  import opened Outbox
  import opened OutboxStore
  import opened Wrappers

  /** How often the store was told that record `id` failed, or was published. */
  ghost function Told(log: seq<Emission>, id: nat, ok: bool): nat {
    multiset(log)[Emission(id, ok, true)]
  }

  /** The counters of record `r` agree with the log. */
  ghost predicate CountsOk(c: Config, r: Record, log: seq<Emission>, id: nat) {
    && r.attempts == Told(log, id, false)
    && Told(log, id, true) == (if r.status.Published? then 1 else 0)
    && (r.status.Failed? <==> r.attempts > 0 && r.attempts >= c.maxAttempts)
    && (r.attempts <= 1 || r.attempts <= c.maxAttempts)
  }

  ghost predicate AllCounted(c: Config, s: State) {
    forall id :: 0 <= id < |s.records| ==> CountsOk(c, s.records[id], s.log, id)
  }

  lemma ToldMore(log: seq<Emission>, e: Emission, id: nat, ok: bool)
    ensures Told(log + [e], id, ok) == Told(log, id, ok) + if e == Emission(id, ok, true) then 1 else 0
  {
    assert multiset(log + [e]) == multiset(log) + multiset{e};
  }

  /** Marking a pending record counts its emission. */
  lemma MarkCounts(c: Config, rs: seq<Record>, log: seq<Emission>, id: nat, ok: bool, now: int)
    requires id < |rs| && rs[id].status.Pending? && CountsOk(c, rs[id], log, id)
    ensures CountsOk(c, Marked(rs, id, ok, now, c)[id], log + [Emission(id, ok, true)], id)
  {
    ToldMore(log, Emission(id, ok, true), id, true);
    ToldMore(log, Emission(id, ok, true), id, false);
  }

  /** An emission of another record, or one the store is not told of, counts for nothing. */
  lemma OthersKeepCounts(c: Config, r: Record, log: seq<Emission>, id: nat, e: Emission)
    requires CountsOk(c, r, log, id) && (e.id != id || !e.marked)
    ensures CountsOk(c, r, log + [e], id)
  {
    ToldMore(log, e, id, true);
    ToldMore(log, e, id, false);
  }

  lemma EmissionKeepsCounts(c: Config, s: State, s': State, id: nat, ok: bool, now: int)
    requires AllCounted(c, s) && id < |s.records| && s.records[id].status.Pending?
    requires s'.records == Marked(s.records, id, ok, now, c) && s'.log == s.log + [Emission(id, ok, true)]
    ensures AllCounted(c, s')
  {
    MarkedIsSame(s.records, id, ok, now, c);
    forall k | 0 <= k < |s'.records| ensures CountsOk(c, s'.records[k], s'.log, k) {
      assert CountsOk(c, s.records[k], s.log, k);
      if k == id {
        MarkCounts(c, s.records, s.log, id, ok, now);
      } else {
        OthersKeepCounts(c, s.records[k], s.log, k, Emission(id, ok, true));
      }
    }
  }

  lemma DeathKeepsCounts(c: Config, s: State, s': State, e: Emission)
    requires AllCounted(c, s) && !e.marked && s'.records == s.records && s'.log == s.log + [e]
    ensures AllCounted(c, s')
  {
    forall k | 0 <= k < |s'.records| ensures CountsOk(c, s'.records[k], s'.log, k) {
      assert CountsOk(c, s.records[k], s.log, k);
      OthersKeepCounts(c, s.records[k], s.log, k, e);
    }
  }

  lemma EnqueueKeepsCounts(c: Config, s: State, s': State, r: Record)
    requires Inv(s) && AllCounted(c, s) && r.attempts == 0 && r.status.Pending?
    requires s'.records == s.records + [r] && s'.log == s.log
    ensures AllCounted(c, s')
  {
    forall k | 0 <= k < |s'.records| ensures CountsOk(c, s'.records[k], s'.log, k) {
      if k < |s.records| {
        assert CountsOk(c, s.records[k], s.log, k);
      } else {
        assert Emission(k, true, true) !in s.log && Emission(k, false, true) !in s.log;
      }
    }
  }

  /** Pruning marks published records as gone, which no counter sees. */
  lemma PruneKeepsCounts(c: Config, s: State, s': State, now: int)
    requires AllCounted(c, s) && s'.records == Prune(s.records, now, c.limits) && s'.log == s.log
    ensures AllCounted(c, s')
  {
    forall k | 0 <= k < |s'.records| ensures CountsOk(c, s'.records[k], s'.log, k) {
      assert CountsOk(c, s.records[k], s.log, k);
    }
  }

  lemma StepKeepsCounts(c: Config, s: State, a: Action)
    requires Inv(s) && AllCounted(c, s)
    ensures AllCounted(c, Do(c, s, a))
  {
    var s' := Do(c, s, a);
    if Enabled(s, a) {
      match a
      case Enqueue(key, createdAt) => EnqueueKeepsCounts(c, s, s', Record(|s.records|, key, createdAt, 0, Pending, None, false));
      case StartFlush(_, now) => PruneKeepsCounts(c, s, s', now);
      case EmitNext(key, ok, now) =>
        assert LaneOk(s.records, key, s.flush.value[key]);
        EmissionKeepsCounts(c, s, s', s.flush.value[key][0], ok, now);
      case EmitThenDie(key, ok) => DeathKeepsCounts(c, s, s', Emission(s.flush.value[key][0], ok, false));
      case EmitFree(id, ok, now) => EmissionKeepsCounts(c, s, s', id, ok, now);
      case FreeThenDie(id, ok) => DeathKeepsCounts(c, s, s', Emission(id, ok, false));
      case EndFlush =>
    }
  }

  lemma {:induction false} AlwaysCounted(c: Config, acts: seq<Action>)
    ensures AllCounted(c, After(c, acts))
  {
    if acts != [] {
      AlwaysCounted(c, acts[..|acts| - 1]);
      AlwaysInv(c, acts[..|acts| - 1]);
      StepKeepsCounts(c, After(c, acts[..|acts| - 1]), acts[|acts| - 1]);
    }
  }

  // ----- what it guarantees -----

  /**
   Over every run a record's attempts are the failures the store was told of, and it is parked
   exactly when those have reached `maxAttempts`, at the first failure at the earliest; no record
   fails more often than that.
   */
  lemma AttemptsAreFailures(c: Config, acts: seq<Action>, id: nat)
    requires id < |After(c, acts).records|
    ensures var s := After(c, acts); var limit := if c.maxAttempts >= 1 then c.maxAttempts else 1;
            && s.records[id].attempts == Told(s.log, id, false) <= limit
            && (s.records[id].status.Failed? <==> Told(s.log, id, false) == limit)
  {
    AlwaysCounted(c, acts);
    assert CountsOk(c, After(c, acts).records[id], After(c, acts).log, id);
  }

  /** The store is told of one success at most, exactly when the record is published, and never of one when it is parked. */
  lemma PublishedOnce(c: Config, acts: seq<Action>, id: nat)
    requires id < |After(c, acts).records|
    ensures var s := After(c, acts);
            && Told(s.log, id, true) <= 1
            && (s.records[id].status.Published? <==> Told(s.log, id, true) == 1)
            && (s.records[id].status.Failed? ==> Told(s.log, id, true) == 0)
  {
    AlwaysCounted(c, acts);
    assert CountsOk(c, After(c, acts).records[id], After(c, acts).log, id);
  }

  /** How many times the publisher was called with record `id`, with any outcome. */
  ghost function Calls(log: seq<Emission>, id: nat): nat {
    if log == [] then 0 else Calls(log[..|log| - 1], id) + if log[|log| - 1].id == id then 1 else 0
  }

  /** Calls that ended with the death of the process. */
  ghost function CutShort(log: seq<Emission>, id: nat): nat {
    if log == [] then 0
    else CutShort(log[..|log| - 1], id) + if log[|log| - 1].id == id && !log[|log| - 1].marked then 1 else 0
  }

  lemma {:induction false} CallsSplit(log: seq<Emission>, id: nat)
    ensures Calls(log, id) == Told(log, id, true) + Told(log, id, false) + CutShort(log, id)
  {
    if log != [] {
      var init, e := log[..|log| - 1], log[|log| - 1];
      assert log == init + [e];
      CallsSplit(init, id);
      ToldMore(init, e, id, true);
      ToldMore(init, e, id, false);
    }
  }

  /**
   At least once, and how often at most: the publisher is called with a record once if it is
   published, once for each attempt, and once more for every call that the process did not survive.
   */
  lemma EveryCallIsAccountedFor(c: Config, acts: seq<Action>, id: nat)
    requires id < |After(c, acts).records|
    ensures var s := After(c, acts); var r := s.records[id];
            Calls(s.log, id) == (if r.status.Published? then 1 else 0) + r.attempts + CutShort(s.log, id)
  {
    AlwaysCounted(c, acts);
    assert CountsOk(c, After(c, acts).records[id], After(c, acts).log, id);
    CallsSplit(After(c, acts).log, id);
  }
}
