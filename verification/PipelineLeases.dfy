/**
 The dispatch pipeline and the lease runtime together: many requests, each with its own script of
 what its collaborators do, over one runtime whose answers decide who executes.
 */
module PipelineLeases {
  import opened IdempotencyRuntime
  import opened DispatchPipeline
  import opened Wrappers

  datatype System = System(runtime: State, scripts: map<nat, Script>, finished: set<nat>)

  const Quiet := System(Idle, map[], {})

  datatype Move =
    | Arrive(r: nat, script: Script, key: string, fingerprint: Option<string>)   // runs up to the claim
    | Resume(r: nat)                                                            // wakes from a settled or broken lease
    | Finish(r: nat)                                                            // runs to its end
    | Forget(key: string)                                                       // the cache loses an entry

  /** What the runtime told the request. */
  function Told(rt: State, r: nat): Began {
    if r !in rt.requests then BeginThrows
    else match rt.requests[r].phase
         case Executing(_) => BeganExecute
         case Waiting(_) => BeginThrows
         case Done(Hit(v)) => BeganHit(Response(false, v))
         case Done(_) => BeganConflict
  }

  /** The runtime's step behind one call, and behind several. */
  ghost function Perform(rt: State, r: nat, c: Call): State {
    match c
    case Commits(response) => Do(rt, Commit(r, response.body))
    case Releases => Do(rt, Release(r))
    case CommitThrows(_) => rt
  }

  ghost function PerformAll(rt: State, r: nat, calls: seq<Call>): State {
    if calls == [] then rt else Perform(PerformAll(rt, r, calls[..|calls| - 1]), r, calls[|calls| - 1])
  }

  /** The request has its answer; a commit waits until everybody has woken from a broken lease of the key. */
  ghost predicate CanFinish(s: System, r: nat) {
    && r in s.scripts && r !in s.finished
    && (r in s.runtime.requests ==>
          && !s.runtime.requests[r].phase.Waiting?
          && (Leads(s.scripts[r], Told(s.runtime, r)) && Stores(s.scripts[r]) ==> !StaleWaiter(s.runtime, s.runtime.requests[r].key)))
  }

  ghost function Go(s: System, m: Move): System {
    match m
    case Arrive(r, script, key, fingerprint) =>
      if r in s.scripts || key == "" then s
      else s.(scripts := s.scripts[r := script],
              runtime := if Claims(script) then Do(s.runtime, Begin(r, key, fingerprint)) else s.runtime)
    case Resume(r) => s.(runtime := Do(s.runtime, Wake(r)))
    case Finish(r) =>
      if !CanFinish(s, r) then s
      else s.(finished := s.finished + {r},
              runtime := PerformAll(s.runtime, r, Calls(s.scripts[r], Told(s.runtime, r))))
    case Forget(key) => s.(runtime := Do(s.runtime, Vanish(key)))
  }

  ghost function Reached(moves: seq<Move>): System {
    if moves == [] then Quiet else Go(Reached(moves[..|moves| - 1]), moves[|moves| - 1])
  }

  /** The request was told to execute, now or before. */
  predicate Led(s: System, r: nat) {
    r in s.runtime.requests && (s.runtime.requests[r].phase.Executing? || s.runtime.requests[r].phase == Done(Executed))
  }

  /** The script ends the lease on no path: nothing is stored and the bookkeeping throws. */
  predicate Leaks(script: Script) {
    !Stores(script) && script.bookkeeping.Throws?
  }

  // ----- the invariant -----

  /** How a request stands with the runtime, by its script and whether it has finished. */
  ghost predicate StandsOk(s: System, r: nat)
    requires r in s.runtime.requests
  {
    var phase := s.runtime.requests[r].phase;
    && r in s.scripts && Claims(s.scripts[r])
    && (r in s.finished ==> !phase.Waiting? && (phase.Executing? ==> Leaks(s.scripts[r])))
    && (phase == Done(Executed) ==> r in s.finished && !Leaks(s.scripts[r]))
  }

  ghost predicate SystemOk(s: System) {
    && Inv(s.runtime) && s.finished <= s.scripts.Keys
    && forall r :: r in s.runtime.requests ==> StandsOk(s, r)
  }

  /** What the calls of a leading request do to the runtime: its one effective call, or nothing. */
  lemma CallsDoOneThing(rt: State, r: nat, script: Script)
    requires Leads(script, Told(rt, r))
    ensures PerformAll(rt, r, Calls(script, Told(rt, r))) ==
            if Stores(script) then Do(rt, Commit(r, FinalResponse(script).value.body))
            else if script.bookkeeping.Passes? then Do(rt, Release(r)) else rt
  {
    var calls := Calls(script, Told(rt, r));
    if |calls| == 2 {
      assert calls[..1] == [calls[0]] && calls[..1][..0] == [];
      assert PerformAll(rt, r, calls[..1]) == rt;
    } else if |calls| == 1 {
      assert calls[..0] == [];
    }
  }

  /** A runtime step of `r` leaves the other requests where they are. */
  lemma OthersStay(rt: State, a: Action, r: nat)
    requires a == Wake(r) || (a.Begin? && a.r == r) || (a.Commit? && a.r == r) || a == Release(r) || a.Vanish?
    ensures forall p :: p in rt.requests && (p != r || a.Vanish?) ==> p in Do(rt, a).requests && Do(rt, a).requests[p] == rt.requests[p]
    ensures forall p :: p in Do(rt, a).requests ==> p in rt.requests || (a.Begin? && p == r)
  {
  }

  lemma ArriveKeepsOk(s: System, m: Move)
    requires SystemOk(s) && m.Arrive?
    ensures SystemOk(Go(s, m))
  {
    if m.r !in s.scripts && m.key != "" {
      StepKeepsInv(s.runtime, Begin(m.r, m.key, m.fingerprint));
      var s' := Go(s, m);
      forall p | p in s'.runtime.requests ensures StandsOk(s', p) { ArrivedStands(s, m, s', p); }
    }
  }

  /** A request that has just arrived has not executed to its end, and the others stand as they did. */
  lemma ArrivedStands(s: System, m: Move, s': System, p: nat)
    requires SystemOk(s) && m.Arrive? && m.r !in s.scripts && m.key != "" && s' == Go(s, m) && p in s'.runtime.requests
    ensures StandsOk(s', p)
  {
    assert m.r !in s.runtime.requests && m.r !in s.finished;
    OthersStay(s.runtime, Begin(m.r, m.key, m.fingerprint), m.r);
    if p != m.r { assert StandsOk(s, p); }
  }

  lemma ResumeKeepsOk(s: System, r: nat)
    requires SystemOk(s)
    ensures SystemOk(Go(s, Resume(r)))
  {
    StepKeepsInv(s.runtime, Wake(r));
    OthersStay(s.runtime, Wake(r), r);
    var s' := Go(s, Resume(r));
    forall p | p in s'.runtime.requests ensures StandsOk(s', p) {
      assert StandsOk(s, p);
      if p == r { WokenIsNotExecuted(s.runtime, r); }
    }
  }

  lemma WokenIsNotExecuted(rt: State, r: nat)
    requires r in rt.requests
    ensures r in Do(rt, Wake(r)).requests
    ensures Do(rt, Wake(r)).requests[r].phase == Done(Executed) ==> rt.requests[r].phase == Done(Executed)
    ensures Do(rt, Wake(r)) == rt || rt.requests[r].phase.Waiting?
  {
  }

  lemma ForgetKeepsOk(s: System, key: string)
    requires SystemOk(s)
    ensures SystemOk(Go(s, Forget(key)))
  {
    StepKeepsInv(s.runtime, Vanish(key));
    var s' := Go(s, Forget(key));
    forall p | p in s'.runtime.requests ensures StandsOk(s', p) { assert StandsOk(s, p); }
  }

  /** A leading request finishes: its lease ends, unless the script leaks it. */
  lemma LeaderFinishes(s: System, r: nat)
    requires SystemOk(s) && CanFinish(s, r) && r in s.runtime.requests && s.runtime.requests[r].phase.Executing?
    ensures var rt := Go(s, Finish(r)).runtime;
            && Inv(rt) && r in rt.requests
            && rt.requests[r].phase == (if Leaks(s.scripts[r]) then s.runtime.requests[r].phase else Done(Executed))
            && (forall p :: p in rt.requests ==> p in s.runtime.requests)
            && (forall p :: p in s.runtime.requests && p != r ==> p in rt.requests && rt.requests[p] == s.runtime.requests[p])
  {
    var script := s.scripts[r];
    assert StandsOk(s, r);
    CallsDoOneThing(s.runtime, r, script);
    if Stores(script) {
      var a := Commit(r, FinalResponse(script).value.body);
      StepKeepsInv(s.runtime, a);
      OthersStay(s.runtime, a, r);
    } else if script.bookkeeping.Passes? {
      StepKeepsInv(s.runtime, Release(r));
      OthersStay(s.runtime, Release(r), r);
    }
  }

  /** Any other request finishes without a call. */
  lemma OtherFinishes(s: System, r: nat)
    requires CanFinish(s, r) && !(r in s.runtime.requests && s.runtime.requests[r].phase.Executing?)
    ensures Go(s, Finish(r)).runtime == s.runtime
  {
    assert Calls(s.scripts[r], Told(s.runtime, r)) == [];
  }

  lemma FinishedStands(s: System, s': System, r: nat, p: nat)
    requires SystemOk(s) && CanFinish(s, r) && s' == Go(s, Finish(r)) && p in s'.runtime.requests
    ensures StandsOk(s', p)
  {
    if r in s.runtime.requests && s.runtime.requests[r].phase.Executing? {
      LeaderFinishes(s, r);
    } else {
      OtherFinishes(s, r);
    }
    assert StandsOk(s, p);
  }

  lemma FinishKeepsOk(s: System, r: nat)
    requires SystemOk(s)
    ensures SystemOk(Go(s, Finish(r)))
  {
    if CanFinish(s, r) {
      var s' := Go(s, Finish(r));
      if r in s.runtime.requests && s.runtime.requests[r].phase.Executing? {
        LeaderFinishes(s, r);
      } else {
        OtherFinishes(s, r);
      }
      forall p | p in s'.runtime.requests ensures StandsOk(s', p) { FinishedStands(s, s', r, p); }
    }
  }

  lemma {:induction false} AlwaysSystemOk(moves: seq<Move>)
    ensures SystemOk(Reached(moves))
  {
    if moves != [] {
      var s := Reached(moves[..|moves| - 1]);
      AlwaysSystemOk(moves[..|moves| - 1]);
      match moves[|moves| - 1]
      case Arrive(_, _, _, _) => ArriveKeepsOk(s, moves[|moves| - 1]);
      case Resume(r) => ResumeKeepsOk(s, r);
      case Finish(r) => FinishKeepsOk(s, r);
      case Forget(key) => ForgetKeepsOk(s, key);
    }
  }

  // ----- what it guarantees -----

  /** The keys of requests that were told to execute and whose scripts leak. */
  function LeakedKeys(s: System): set<string> {
    set r | r in s.runtime.requests && Led(s, r) && r in s.scripts && Leaks(s.scripts[r]) :: s.runtime.requests[r].key
  }

  /**
   Over every run of pipelines and runtime: when all pipelines have finished, the leases left
   behind are exactly those of the requests that were told to execute, stored nothing and whose
   bookkeeping threw.
   */
  lemma LeftoversAreLeaks(moves: seq<Move>)
    requires Reached(moves).finished == Reached(moves).scripts.Keys
    ensures var s := Reached(moves);
            s.runtime.inflight.Keys == s.runtime.leaders.Keys == LeakedKeys(s)
  {
    AlwaysSystemOk(moves);
    var s := Reached(moves);
    forall k | k in s.runtime.inflight ensures k in LeakedKeys(s) {
      var r := s.runtime.leases[s.runtime.inflight[k]].leader;
      assert StandsOk(s, r);
    }
    forall k | k in LeakedKeys(s) ensures k in s.runtime.inflight {
      var r :| r in s.runtime.requests && Led(s, r) && r in s.scripts && Leaks(s.scripts[r]) && s.runtime.requests[r].key == k;
      assert StandsOk(s, r) && RequestOk(s.runtime, r);
    }
  }

  /** So both maps are empty if and only if no request leaked. */
  lemma NothingLeftIff(moves: seq<Move>)
    requires Reached(moves).finished == Reached(moves).scripts.Keys
    ensures var s := Reached(moves);
            (s.runtime.inflight == map[] && s.runtime.leaders == map[])
            <==> forall r :: r in s.runtime.requests && Led(s, r) && r in s.scripts ==> !Leaks(s.scripts[r])
  {
    var s := Reached(moves);
    LeftoversAreLeaks(moves);
    if forall r :: r in s.runtime.requests && Led(s, r) && r in s.scripts ==> !Leaks(s.scripts[r]) {
      assert LeakedKeys(s) == {};
      assert s.runtime.inflight.Keys == {} && s.runtime.leaders.Keys == {};
    } else {
      var r :| r in s.runtime.requests && Led(s, r) && r in s.scripts && Leaks(s.scripts[r]);
      assert s.runtime.requests[r].key in LeakedKeys(s);
    }
  }

  /** A handler that throws, and metrics that throw too. */
  const LeakyScript := Script(true, ReplayPasses, Passes, RateOff, Passes, true, NoBuiltin, true, Passes,
                              DispatchThrows, NoAfterHook, Passes, Passes, Passes, Throws, Passes)

  /** One such request, run to its end, leaves its lease behind. */
  lemma LeakyRequest()
    ensures var s := Reached([Arrive(0, LeakyScript, "k", None), Finish(0)]);
            s.finished == s.scripts.Keys && s.runtime.inflight.Keys == {"k"} && s.runtime.leaders.Keys == {"k"}
  {
    var moves := [Arrive(0, LeakyScript, "k", None), Finish(0)];
    assert moves[..1] == [Arrive(0, LeakyScript, "k", None)] && moves[..1][..0] == [];
    ReachedStep(moves, 0);
    ReachedStep(moves, 1);
    assert moves[..2] == moves;
    var s := Reached(moves[..1]);
    assert s.runtime.requests == map[0 := Request("k", None, Executing(0))];
    assert Calls(LeakyScript, BeganExecute) == [];
  }

  lemma ReachedStep(moves: seq<Move>, j: nat)
    requires j < |moves|
    ensures Reached(moves[..j + 1]) == Go(Reached(moves[..j]), moves[j])
  {
    assert moves[..j + 1][..j] == moves[..j];
  }

  /** Finished request `r` still holds its lease, and `p`, if it wants the same key, waits for it. */
  ghost predicate Blocks(s: System, r: nat, q: Request, p: nat) {
    && r in s.finished && q.phase.Executing? && r in s.runtime.requests && s.runtime.requests[r] == q
    && (p in s.runtime.requests && s.runtime.requests[p].key == q.key ==> s.runtime.requests[p].phase == Waiting(q.phase.lease))
  }

  /** Only its holder ends a lease. */
  lemma HolderStays(rt: State, a: Action, r: nat)
    requires r in rt.requests && rt.requests[r].phase.Executing?
    requires !(a.Commit? && a.r == r) && !(a.Release? && a.r == r)
    ensures r in Do(rt, a).requests && Do(rt, a).requests[r] == rt.requests[r]
  {
  }

  /** Whoever wants the key of a held lease waits for it. */
  lemma WaiterStays(rt: State, a: Action, r: nat, p: nat)
    requires Inv(rt) && r in rt.requests && rt.requests[r].phase.Executing? && p != r
    requires p in rt.requests && rt.requests[p].key == rt.requests[r].key ==> rt.requests[p].phase == Waiting(rt.requests[r].phase.lease)
    ensures var rt', q := Do(rt, a), rt.requests[r];
            p in rt'.requests && rt'.requests[p].key == q.key ==> rt'.requests[p].phase == Waiting(q.phase.lease)
  {
    assert RequestOk(rt, r);
  }

  lemma LeaseHolds(rt: State, a: Action, r: nat, q: Request, p: nat)
    requires Inv(rt) && q.phase.Executing? && r in rt.requests && rt.requests[r] == q && p != r
    requires p in rt.requests && rt.requests[p].key == q.key ==> rt.requests[p].phase == Waiting(q.phase.lease)
    requires !(a.Commit? && a.r == r) && !(a.Release? && a.r == r)
    ensures var rt' := Do(rt, a);
            && r in rt'.requests && rt'.requests[r] == q
            && (p in rt'.requests && rt'.requests[p].key == q.key ==> rt'.requests[p].phase == Waiting(q.phase.lease))
  {
    HolderStays(rt, a, r);
    WaiterStays(rt, a, r, p);
  }

  lemma BlocksPersists(s: System, m: Move, r: nat, q: Request, p: nat)
    requires SystemOk(s) && Blocks(s, r, q, p) && p != r
    ensures Blocks(Go(s, m), r, q, p)
  {
    match m
    case Arrive(f, _, key, fingerprint) => LeaseHolds(s.runtime, Begin(f, key, fingerprint), r, q, p);
    case Resume(f) => LeaseHolds(s.runtime, Wake(f), r, q, p);
    case Forget(key) => LeaseHolds(s.runtime, Vanish(key), r, q, p);
    case Finish(f) =>
      if CanFinish(s, f) {
        if f in s.runtime.requests && s.runtime.requests[f].phase.Executing? {
          assert StandsOk(s, f);
          CallsDoOneThing(s.runtime, f, s.scripts[f]);
          LeaseHolds(s.runtime, Release(f), r, q, p);
          if Stores(s.scripts[f]) { LeaseHolds(s.runtime, Commit(f, FinalResponse(s.scripts[f]).value.body), r, q, p); }
        } else {
          OtherFinishes(s, f);
        }
      }
  }

  lemma BlocksNext(moves: seq<Move>, j: nat, r: nat, q: Request, p: nat)
    requires j < |moves| && p != r && Blocks(Reached(moves[..j]), r, q, p)
    ensures Blocks(Reached(moves[..j + 1]), r, q, p)
  {
    AlwaysSystemOk(moves[..j]);
    ReachedStep(moves, j);
    BlocksPersists(Reached(moves[..j]), moves[j], r, q, p);
  }

  /** The price of a leak: a later request `p` for the key waits, whatever happens. */
  lemma {:induction false} LeakBlocksKey(moves: seq<Move>, i: nat, j: nat, r: nat, q: Request, p: nat)
    requires i <= j <= |moves| && p != r && Blocks(Reached(moves[..i]), r, q, p)
    ensures Blocks(Reached(moves[..j]), r, q, p)
    decreases j - i
  {
    if i < j {
      LeakBlocksKey(moves, i, j - 1, r, q, p);
      BlocksNext(moves, j - 1, r, q, p);
    }
  }
}
