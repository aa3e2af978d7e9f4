/**
 The in-process half of the idempotency runtime: a local cache and one lease per key. A
 request that opens the lease executes; the others wait for it.

 Everything between two awaits is one action. Cache entries may vanish at any time, which
 covers expiry, eviction and deletion. A broken lease wakes its waiters before the next leader
 of that key can commit, as promise reactions do; `Commit` is enabled only then.
 */
module IdempotencyRuntime {
  import opened Wrappers

  type Value(==, !new)

  /** A committed response with the fingerprint of the payload that produced it. */
  datatype Envelope = Envelope(v: Value, f: Option<string>)

  datatype Answer = Hit(value: Value) | Conflict | Executed

  datatype Outcome = Open | Settled(entry: Envelope) | Broken

  /** One lease: the promise in `inflight`, its resolvers in `leaders`, and who holds it. */
  datatype Lease = Lease(key: string, leader: nat, outcome: Outcome)

  datatype Phase = Waiting(lease: nat) | Executing(lease: nat) | Done(answer: Answer)

  datatype Request = Request(key: string, fingerprint: Option<string>, phase: Phase)

  datatype Committed = Committed(key: string, entry: Envelope, author: nat)

  datatype State = State(
    l1: map<string, Envelope>,
    inflight: map<string, nat>,
    leaders: map<string, nat>,
    leases: seq<Lease>,
    requests: map<nat, Request>,
    history: set<Committed>)

  const Idle := State(map[], map[], map[], [], map[], {})

  predicate Conflicts(stored: Option<string>, incoming: Option<string>) {
    stored.Some? && incoming.Some? && stored != incoming
  }

  function Settle(entry: Envelope, fingerprint: Option<string>): Answer {
    if Conflicts(entry.f, fingerprint) then Conflict else Hit(entry.v)
  }

  datatype Action =
    | Begin(r: nat, key: string, fingerprint: Option<string>)
    | Wake(r: nat)
    | Commit(r: nat, value: Value)
    | Release(r: nat)
    | Vanish(key: string)

  /** Open a lease, or wait for the one that is open. */
  function LeadOrWait(s: State, r: nat, q: Request): State {
    if q.key in s.inflight then
      s.(requests := s.requests[r := q.(phase := Waiting(s.inflight[q.key]))])
    else
      var l := |s.leases|;
      s.(inflight := s.inflight[q.key := l], leaders := s.leaders[q.key := l],
         leases := s.leases + [Lease(q.key, r, Open)],
         requests := s.requests[r := q.(phase := Executing(l))])
  }

  /** Resolve or reject the lease of `key` and forget it. */
  function CloseLease(s: State, key: string, outcome: Outcome): State {
    var leases := if key in s.leaders && s.leaders[key] < |s.leases|
                  then s.leases[s.leaders[key] := s.leases[s.leaders[key]].(outcome := outcome)] else s.leases;
    s.(leases := leases, leaders := s.leaders - {key}, inflight := s.inflight - {key})
  }

  /** Someone still has to wake up from a broken lease of `key`. */
  ghost predicate StaleWaiter(s: State, key: string) {
    exists r :: r in s.requests && s.requests[r].key == key && s.requests[r].phase.Waiting?
                && s.requests[r].phase.lease < |s.leases| && s.leases[s.requests[r].phase.lease].outcome.Broken?
  }

  ghost predicate Enabled(s: State, a: Action) {
    match a
    case Begin(r, key, _) => r !in s.requests && key != ""
    case Wake(r) => r in s.requests && s.requests[r].phase.Waiting? && s.requests[r].phase.lease < |s.leases|
                    && !s.leases[s.requests[r].phase.lease].outcome.Open?
    case Commit(r, _) => r in s.requests && s.requests[r].phase.Executing? && !StaleWaiter(s, s.requests[r].key)
    case Release(r) => r in s.requests && s.requests[r].phase.Executing?
    case Vanish(key) => key in s.l1
  }

  function DoBegin(s: State, r: nat, key: string, fingerprint: Option<string>): State {
    if key in s.l1 then
      s.(requests := s.requests[r := Request(key, fingerprint, Done(Settle(s.l1[key], fingerprint)))])
    else LeadOrWait(s, r, Request(key, fingerprint, Done(Executed)))
  }

  /** The continuation after `await pending`. A waiter of a broken lease does not look at the cache again. */
  function DoWake(s: State, r: nat): State
    requires r in s.requests && s.requests[r].phase.Waiting? && s.requests[r].phase.lease < |s.leases|
  {
    var q := s.requests[r];
    match s.leases[q.phase.lease].outcome
    case Settled(entry) => s.(requests := s.requests[r := q.(phase := Done(Settle(entry, q.fingerprint)))])
    case Broken => LeadOrWait(s, r, q)
    case Open => s
  }

  function DoCommit(s: State, r: nat, value: Value): State
    requires r in s.requests
  {
    var q := s.requests[r];
    var entry := Envelope(value, q.fingerprint);
    CloseLease(s.(l1 := s.l1[q.key := entry], history := s.history + {Committed(q.key, entry, r)},
                  requests := s.requests[r := q.(phase := Done(Executed))]), q.key, Settled(entry))
  }

  function DoRelease(s: State, r: nat): State
    requires r in s.requests
  {
    var q := s.requests[r];
    CloseLease(s.(requests := s.requests[r := q.(phase := Done(Executed))]), q.key, Broken)
  }

  ghost function Do(s: State, a: Action): State {
    if !Enabled(s, a) then s
    else
      match a
      case Begin(r, key, f) => DoBegin(s, r, key, f)
      case Wake(r) => DoWake(s, r)
      case Commit(r, v) => DoCommit(s, r, v)
      case Release(r) => DoRelease(s, r)
      case Vanish(key) => s.(l1 := s.l1 - {key})
  }

  ghost function After(acts: seq<Action>): State {
    if acts == [] then Idle else Do(After(acts[..|acts| - 1]), acts[|acts| - 1])
  }

  // ----- the invariant -----

  /** Both maps agree, and each open lease is held by a request that executes. */
  ghost predicate LeasesOk(s: State) {
    && s.leaders == s.inflight
    && forall k :: k in s.inflight ==>
         var l := s.inflight[k];
         && l < |s.leases| && s.leases[l].key == k && s.leases[l].outcome.Open?
         && s.leases[l].leader in s.requests
         && s.requests[s.leases[l].leader].key == k && s.requests[s.leases[l].leader].phase == Executing(l)
  }

  ghost predicate RequestOk(s: State, r: nat)
    requires r in s.requests
  {
    var q := s.requests[r];
    match q.phase
    case Executing(l) => l < |s.leases| && s.leases[l] == Lease(q.key, r, Open) && q.key in s.inflight && s.inflight[q.key] == l
    case Waiting(l) =>
      && l < |s.leases| && s.leases[l].key == q.key
      && (s.leases[l].outcome.Open? ==> q.key in s.inflight && s.inflight[q.key] == l)
      && (s.leases[l].outcome.Broken? ==> q.key !in s.l1)
    case Done(answer) => AnswerOk(s, q.key, q.fingerprint, answer)
  }

  /** An answer that is not an execution is the settlement of something committed under that key. */
  ghost predicate AnswerOk(s: State, key: string, fingerprint: Option<string>, answer: Answer) {
    answer.Executed? || exists entry, author :: Committed(key, entry, author) in s.history && answer == Settle(entry, fingerprint)
  }

  /** Whatever is cached or settled was committed, by the leader of the lease if it was settled. */
  ghost predicate HistoryOk(s: State) {
    && (forall k :: k in s.l1 ==> k !in s.inflight && exists author :: Committed(k, s.l1[k], author) in s.history)
    && (forall l :: 0 <= l < |s.leases| && s.leases[l].outcome.Settled? ==>
          Committed(s.leases[l].key, s.leases[l].outcome.entry, s.leases[l].leader) in s.history)
  }

  ghost predicate Inv(s: State) {
    LeasesOk(s) && HistoryOk(s) && forall r :: r in s.requests ==> RequestOk(s, r)
  }

  /** A request's standing depends only on leases, cache entries of its key, and history. */
  lemma OthersKeepStanding(s: State, s': State, p: nat)
    requires p in s.requests && RequestOk(s, p) && p in s'.requests && s'.requests[p] == s.requests[p]
    requires |s.leases| <= |s'.leases| && forall l :: 0 <= l < |s.leases| ==> s'.leases[l] == s.leases[l]
    requires forall k :: k in s.inflight ==> k in s'.inflight && s'.inflight[k] == s.inflight[k]
    requires s'.l1 == s.l1 && s'.history == s.history
    ensures RequestOk(s', p)
  {
  }

  lemma LeadKeepsInv(s: State, r: nat, q: Request)
    requires LeasesOk(s) && HistoryOk(s) && forall p :: p in s.requests && p != r ==> RequestOk(s, p)
    requires r in s.requests ==> !s.requests[r].phase.Executing?
    requires q.key !in s.l1 && q.key !in s.inflight
    ensures Inv(LeadOrWait(s, r, q))
  {
    var s' := LeadOrWait(s, r, q);
    forall p | p in s'.requests ensures RequestOk(s', p) {
      if p != r { OthersKeepStanding(s, s', p); }
    }
  }

  lemma WaitKeepsInv(s: State, r: nat, q: Request)
    requires LeasesOk(s) && HistoryOk(s) && forall p :: p in s.requests && p != r ==> RequestOk(s, p)
    requires r in s.requests ==> !s.requests[r].phase.Executing?
    requires q.key in s.inflight
    ensures Inv(LeadOrWait(s, r, q))
  {
    var s' := LeadOrWait(s, r, q);
    forall p | p in s'.requests ensures RequestOk(s', p) {
      if p != r { OthersKeepStanding(s, s', p); }
    }
  }

  lemma LeadOrWaitKeepsInv(s: State, r: nat, q: Request)
    requires LeasesOk(s) && HistoryOk(s) && forall p :: p in s.requests && p != r ==> RequestOk(s, p)
    requires r in s.requests ==> !s.requests[r].phase.Executing?
    requires q.key !in s.l1
    ensures Inv(LeadOrWait(s, r, q))
  {
    if q.key in s.inflight { WaitKeepsInv(s, r, q); } else { LeadKeepsInv(s, r, q); }
  }

  lemma CloseKeepsInv(s: State, r: nat, outcome: Outcome, s': State)
    requires Inv(s) && r in s.requests && s.requests[r].phase.Executing? && !outcome.Open?
    requires var q := s.requests[r];
             && (outcome.Settled? ==> !StaleWaiter(s, q.key))
             && s' == CloseLease(s.(l1 := if outcome.Settled? then s.l1[q.key := outcome.entry] else s.l1,
                                    history := if outcome.Settled? then s.history + {Committed(q.key, outcome.entry, r)} else s.history,
                                    requests := s.requests[r := q.(phase := Done(Executed))]), q.key, outcome)
    ensures Inv(s')
  {
    var q := s.requests[r];
    assert RequestOk(s, r);
    forall p | p in s'.requests ensures RequestOk(s', p) {
      if p != r {
        assert RequestOk(s, p);
        if s.requests[p].phase.Done? && !s.requests[p].phase.answer.Executed? {
          var entry, author :| Committed(s.requests[p].key, entry, author) in s.history
                           && s.requests[p].phase.answer == Settle(entry, s.requests[p].fingerprint);
          assert Committed(s.requests[p].key, entry, author) in s'.history;
        }
      }
    }
    forall k | k in s'.l1 ensures k !in s'.inflight && exists author :: Committed(k, s'.l1[k], author) in s'.history {
      if k == q.key && outcome.Settled? {
        assert Committed(k, s'.l1[k], r) in s'.history;
      } else {
        var author :| Committed(k, s.l1[k], author) in s.history;
        assert Committed(k, s'.l1[k], author) in s'.history;
      }
    }
  }

  lemma StepKeepsInv(s: State, a: Action)
    requires Inv(s)
    ensures Inv(Do(s, a))
  {
    if Enabled(s, a) {
      var s' := Do(s, a);
      match a
      case Begin(r, key, f) =>
        if key in s.l1 {
          forall p | p in s'.requests ensures RequestOk(s', p) {
            if p != r { assert RequestOk(s, p); }
          }
        } else {
          LeadOrWaitKeepsInv(s, r, Request(key, f, Done(Executed)));
        }
      case Wake(r) =>
        assert RequestOk(s, r);
        if s.leases[s.requests[r].phase.lease].outcome.Broken? {
          LeadOrWaitKeepsInv(s, r, s.requests[r]);
        } else {
          forall p | p in s'.requests ensures RequestOk(s', p) {
            if p != r { assert RequestOk(s, p); }
          }
        }
      case Commit(r, v) => CloseKeepsInv(s, r, Settled(Envelope(v, s.requests[r].fingerprint)), s');
      case Release(r) => CloseKeepsInv(s, r, Broken, s');
      case Vanish(key) =>
        forall p | p in s'.requests ensures RequestOk(s', p) {
          assert RequestOk(s, p);
        }
    }
  }

  lemma {:induction false} AlwaysInv(acts: seq<Action>)
    ensures Inv(After(acts))
  {
    if acts != [] {
      AlwaysInv(acts[..|acts| - 1]);
      StepKeepsInv(After(acts[..|acts| - 1]), acts[|acts| - 1]);
    }
  }

  // ----- what it guarantees -----

  /** Per key, at most one request is between `execute` and commit or release. */
  lemma SingleExecution(acts: seq<Action>, r: nat, p: nat)
    requires var s := After(acts);
             && r in s.requests && p in s.requests && s.requests[r].key == s.requests[p].key
             && s.requests[r].phase.Executing? && s.requests[p].phase.Executing?
    ensures r == p
  {
    AlwaysInv(acts);
    var s := After(acts);
    assert RequestOk(s, r) && RequestOk(s, p);
  }

  /** While a committed entry is cached, no request for its key is told to execute. */
  lemma NoExecutionWhileCached(acts: seq<Action>, a: Action, r: nat)
    requires var s, s' := After(acts), Do(After(acts), a);
             && r in s'.requests && s'.requests[r].key in s.l1 && s'.requests[r].key in s'.l1
    ensures !Do(After(acts), a).requests[r].phase.Executing?
  {
    AlwaysInv(acts);
    StepKeepsInv(After(acts), a);
    assert RequestOk(Do(After(acts), a), r);
  }

  /** A waiter that is answered gets exactly what the leader it waited for committed. */
  lemma WaiterGetsLeadersCommit(acts: seq<Action>, r: nat)
    requires var s := After(acts); r in s.requests && s.requests[r].phase.Waiting? && Enabled(s, Wake(r))
    requires Do(After(acts), Wake(r)).requests[r].phase.Done?
    ensures var s := After(acts); var q := s.requests[r]; var lease := s.leases[q.phase.lease];
            && lease.key == q.key && lease.outcome.Settled?
            && Committed(q.key, lease.outcome.entry, lease.leader) in s.history
            && Do(s, Wake(r)).requests[r].phase.answer == Settle(lease.outcome.entry, q.fingerprint)
  {
    AlwaysInv(acts);
    assert RequestOk(After(acts), r);
  }

  /** Every answer that is not an execution settles an entry committed under the request's key. */
  lemma AnswersAreCommitted(acts: seq<Action>, r: nat)
    requires var s := After(acts); r in s.requests && s.requests[r].phase.Done? && !s.requests[r].phase.answer.Executed?
    ensures var s := After(acts); var q := s.requests[r];
            exists entry, author :: Committed(q.key, entry, author) in s.history && q.phase.answer == Settle(entry, q.fingerprint)
  {
    AlwaysInv(acts);
    assert RequestOk(After(acts), r);
  }

  /** No lease leaks: when every request has finished, both maps are empty. */
  lemma NoLeaseLeaks(acts: seq<Action>)
    requires forall r :: r in After(acts).requests ==> After(acts).requests[r].phase.Done?
    ensures After(acts).inflight == map[] && After(acts).leaders == map[]
  {
    AlwaysInv(acts);
    var s := After(acts);
    assert s.inflight.Keys == {};
  }

  /** No request waits for nobody: its lease is over, or a live leader holds it. */
  lemma WaitersAreNeverStranded(acts: seq<Action>, r: nat)
    requires var s := After(acts); r in s.requests && s.requests[r].phase.Waiting?
    ensures var s := After(acts);
            Enabled(s, Wake(r))
            || exists p :: Enabled(s, Release(p)) && s.requests[p].key == s.requests[r].key
                           && s.requests[p].phase.lease == s.requests[r].phase.lease
  {
    AlwaysInv(acts);
    var s := After(acts);
    assert RequestOk(s, r);
    if !Enabled(s, Wake(r)) {
      assert Enabled(s, Release(s.leases[s.inflight[s.requests[r].key]].leader));
    }
  }

  // ----- the runtime's own form -----

  /** The runtime with its mutable maps; each method is one await-free segment. */
  class TwoTierIdempotency {
    var l1: map<string, Envelope>
    var inflight: map<string, nat>
    var leaders: map<string, nat>
    var leases: seq<Lease>
    var requests: map<nat, Request>
    ghost var history: set<Committed>

    ghost function View(): State
      reads this
    {
      State(l1, inflight, leaders, leases, requests, history)
    }

    constructor ()
      ensures View() == Idle
    {
      l1, inflight, leaders, leases, requests, history := map[], map[], map[], [], map[], {};
    }

    /** Claims leadership of `key` for `r`, unless somebody leads already. */
    method OpenLease(r: nat, key: string) returns (won: bool)
      modifies this`inflight, this`leaders, this`leases
      ensures won <==> key !in old(inflight)
      ensures !won ==> View() == old(View())
      ensures won ==> inflight == old(inflight)[key := |old(leases)|] && leaders == old(leaders)[key := |old(leases)|]
                         && leases == old(leases) + [Lease(key, r, Open)]
    {
      if key in inflight { return false; }
      inflight, leaders := inflight[key := |leases|], leaders[key := |leases|];
      leases := leases + [Lease(key, r, Open)];
      won := true;
    }

    /** `settleLease` and `failLease`. */
    method EndLease(key: string, outcome: Outcome)
      modifies this`inflight, this`leaders, this`leases
      ensures View() == CloseLease(old(View()), key, outcome)
    {
      if key in leaders && leaders[key] < |leases| {
        leases := leases[leaders[key] := leases[leaders[key]].(outcome := outcome)];
      }
      leaders := leaders - {key};
      inflight := inflight - {key};
    }

    /** The election loop of `begin`, up to its next await. */
    method Elect(r: nat, q: Request)
      modifies this
      ensures View() == LeadOrWait(old(View()), r, q)
    {
      var won := OpenLease(r, q.key);
      requests := requests[r := q.(phase := if won then Executing(inflight[q.key]) else Waiting(inflight[q.key]))];
    }

    method BeginRequest(r: nat, key: string, fingerprint: Option<string>)
      requires Enabled(View(), Begin(r, key, fingerprint))
      modifies this
      ensures View() == Do(old(View()), Begin(r, key, fingerprint))
    {
      if key in l1 {
        requests := requests[r := Request(key, fingerprint, Done(Settle(l1[key], fingerprint)))];
      } else {
        Elect(r, Request(key, fingerprint, Done(Executed)));
      }
    }

    method WakeRequest(r: nat)
      requires Enabled(View(), Wake(r))
      modifies this
      ensures View() == Do(old(View()), Wake(r))
    {
      var q := requests[r];
      match leases[q.phase.lease].outcome
      case Settled(entry) => requests := requests[r := q.(phase := Done(Settle(entry, q.fingerprint)))];
      case Broken => Elect(r, q);
      case Open =>
    }

    method CommitRequest(r: nat, value: Value)
      requires Enabled(View(), Commit(r, value))
      modifies this
      ensures View() == Do(old(View()), Commit(r, value))
    {
      var q := requests[r];
      var entry := Envelope(value, q.fingerprint);
      l1 := l1[q.key := entry];
      history := history + {Committed(q.key, entry, r)};
      requests := requests[r := q.(phase := Done(Executed))];
      EndLease(q.key, Settled(entry));
    }

    method ReleaseRequest(r: nat)
      requires Enabled(View(), Release(r))
      modifies this
      ensures View() == Do(old(View()), Release(r))
    {
      var q := requests[r];
      requests := requests[r := q.(phase := Done(Executed))];
      EndLease(q.key, Broken);
    }
  }
}
