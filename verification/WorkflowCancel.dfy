/**
 When a cancellation is final: always between runs, and during a run unless that run suspends.
 */
module WorkflowCancel {
  import opened Workflow
  import opened WorkflowPlans
  import opened WorkflowRepeats
  import opened WorkflowTheorems
  import opened Wrappers

  /** A queued run would start. */
  predicate CanStart(w: Program, s: State) {
    Do(w, s, Begin).run.Some?
  }

  predicate Closed(s: State) {
    s.run.None? && IsTerminal(Fold(s.log).status)
  }

  lemma ClosedStep(w: Program, s: State, a: Action)
    requires Closed(s)
    ensures Closed(Do(w, s, a))
  {
    if a.Outside? { FoldAppend(s.log, a.event); }
  }

  /** A workflow that is completed, failed or cancelled while no run is active never runs again. */
  lemma {:induction false} ClosedIsFinal(w: Program, acts: seq<Action>, i: nat, j: nat)
    requires i <= j <= |acts| && Closed(After(w, acts[..i]))
    ensures Closed(After(w, acts[..j]))
    decreases j - i
  {
    if i < j {
      PrefixStep(acts, i, w);
      ClosedStep(w, After(w, acts[..i]), acts[i]);
      ClosedIsFinal(w, acts, i + 1, j);
    }
  }

  // ----- during a run -----

  /** An event that says how a run ended, or that the workflow is cancelled. */
  predicate SetsStatus(e: Event) {
    e.Completed? || e.Failed? || e.Cancelled? || e.Suspended?
  }

  lemma AbsorbedStatus(l: Replay, e: Event)
    ensures !SetsStatus(e) ==> Absorb(l, e).status == l.status
    ensures SetsStatus(e) ==> (IsTerminal(Absorb(l, e).status) <==> !e.Suspended?)
  {
  }

  lemma StatusAfter(log: seq<Event>, e: Event)
    ensures !SetsStatus(e) ==> Fold(log + [e]).status == Fold(log).status
    ensures SetsStatus(e) ==> (IsTerminal(Fold(log + [e]).status) <==> !e.Suspended?)
  {
    FoldAppend(log, e);
    AbsorbedStatus(Fold(log), e);
  }

  lemma CancelLands(w: Program, s: State)
    ensures IsTerminal(Fold(Do(w, s, Outside(Cancelled)).log).status)
  {
    StatusAfter(s.log, Cancelled);
  }

  /** While the run goes on, nothing but another cancellation touches the status. */
  lemma CancelledWhileRunning(w: Program, s: State, a: Action)
    requires PlansOk(w, s) && s.run.Some? && Do(w, s, a).run.Some? && IsTerminal(Fold(s.log).status)
    ensures IsTerminal(Fold(Do(w, s, a).log).status)
  {
    var s' := Do(w, s, a);
    if s'.log != s.log { StatusAfter(s.log, s'.log[|s.log|]); }
  }

  /** The run ended by appending the event that says it suspended. */
  predicate EndsSuspended(s: State, a: Action, s': State) {
    a.Append? && s'.log == s.log + [Suspended]
  }

  /** How the run ends decides: only a suspension reopens a cancelled workflow. */
  lemma CancelledRunEnds(w: Program, s: State, a: Action)
    requires PlansOk(w, s) && s.run.Some? && Do(w, s, a).run.None? && IsTerminal(Fold(s.log).status)
    ensures IsTerminal(Fold(Do(w, s, a).log).status) <==> !EndsSuspended(s, a, Do(w, s, a))
  {
    var s' := Do(w, s, a);
    if s'.log != s.log { StatusAfter(s.log, s'.log[|s.log|]); }
  }

  /** A cancellation landed at `c`, while a run was active, and that run ended at `e`. */
  ghost predicate CancelledDuring(w: Program, acts: seq<Action>, c: nat, e: nat) {
    && c + 1 < e <= |acts| && acts[c] == Outside(Cancelled)
    && (forall k :: c <= k < e ==> After(w, acts[..k]).run.Some?)
    && After(w, acts[..e]).run.None?
  }

  lemma StillCancelled(w: Program, acts: seq<Action>, k: nat)
    requires k < |acts| && After(w, acts[..k]).run.Some? && After(w, acts[..k + 1]).run.Some?
    requires IsTerminal(Fold(After(w, acts[..k]).log).status) || acts[k] == Outside(Cancelled)
    ensures IsTerminal(Fold(After(w, acts[..k + 1]).log).status)
  {
    PrefixStep(acts, k, w);
    if acts[k] == Outside(Cancelled) {
      CancelLands(w, After(w, acts[..k]));
    } else {
      AlwaysPlansOk(w, acts[..k]);
      CancelledWhileRunning(w, After(w, acts[..k]), acts[k]);
    }
  }

  lemma {:induction false} StaysCancelled(w: Program, acts: seq<Action>, c: nat, e: nat, k: nat)
    requires CancelledDuring(w, acts, c, e) && c < k < e
    ensures IsTerminal(Fold(After(w, acts[..k]).log).status)
  {
    if k > c + 1 { StaysCancelled(w, acts, c, e, k - 1); }
    StillCancelled(w, acts, k - 1);
  }

  /**
   The exact fate of a cancellation that lands during a run: at the next idle moment the workflow
   can run again if and only if that run ended by suspending, not by a crash, a result or a
   failure; and if it cannot, it never will.
   */
  lemma CancelIsLostIffSuspended(w: Program, acts: seq<Action>, c: nat, e: nat)
    requires CancelledDuring(w, acts, c, e)
    ensures CanStart(w, After(w, acts[..e])) <==> EndsSuspended(After(w, acts[..e - 1]), acts[e - 1], After(w, acts[..e]))
    ensures !CanStart(w, After(w, acts[..e])) ==> forall j :: e <= j <= |acts| ==> After(w, acts[..j]).run.None?
  {
    var s, s' := After(w, acts[..e - 1]), After(w, acts[..e]);
    PrefixStep(acts, e - 1, w);
    StaysCancelled(w, acts, c, e, e - 1);
    AlwaysPlansOk(w, acts[..e - 1]);
    CancelledRunEnds(w, s, acts[e - 1]);
    RunHasStarted(w, acts[..e - 1]);
    LogOnlyGrows(w, s, acts[e - 1]);
    if !CanStart(w, s') {
      forall j | e <= j <= |acts| ensures After(w, acts[..j]).run.None? { ClosedIsFinal(w, acts, e, j); }
    }
  }

  // ----- an instance -----

  function Sleeper(h: seq<Obs>): Op { CallSleep }

  function CancelledSleep(v: Value): seq<Action> {
    [Outside(Started(v)), Begin, Continue, Outside(Cancelled), Append, Append]
  }

  function Falling(v: Value): Run { Await(NewRun([Started(v)]), SleepStarted(1), Suspend) }

  /** The run is about to record its sleep. */
  lemma SleeperFalls(v: Value)
    ensures var acts := CancelledSleep(v);
            && After(Sleeper, acts[..3]) == State([Started(v)], Some(Falling(v)))
            && HasStarted([Started(v)])
  {
    var acts, log := CancelledSleep(v), [Started(v)];
    assert Fold(log) == EmptyReplay && HasStarted(log) by {
      FoldAppend([], Started(v));
      assert [] + [Started(v)] == log && log[0].Started?;
    }
    assert After(Sleeper, acts[..1]) == State(log, None) by {
      assert acts[..0] == [];
      PrefixStep(acts, 0, Sleeper);
    }
    assert After(Sleeper, acts[..2]) == State(log, Some(NewRun(log))) by { PrefixStep(acts, 1, Sleeper); }
    PrefixStep(acts, 2, Sleeper);
  }

  lemma SleeperSuspends(v: Value)
    ensures var acts, log := CancelledSleep(v), [Started(v)];
            && After(Sleeper, acts[..4]) == State(log + [Cancelled], Some(Falling(v)))
            && After(Sleeper, acts[..5]) == State(log + [Cancelled] + [SleepStarted(1)], Some(Await(Falling(v), Suspended, Finish)))
            && After(Sleeper, acts[..6]) == State(log + [Cancelled] + [SleepStarted(1)] + [Suspended], None)
  {
    var acts := CancelledSleep(v);
    var log := [Started(v)];
    SleeperFalls(v);
    assert After(Sleeper, acts[..4]) == State(log + [Cancelled], Some(Falling(v))) by { PrefixStep(acts, 3, Sleeper); }
    assert After(Sleeper, acts[..5]) == State(log + [Cancelled] + [SleepStarted(1)], Some(Await(Falling(v), Suspended, Finish))) by {
      PrefixStep(acts, 4, Sleeper);
    }
    PrefixStep(acts, 5, Sleeper);
  }

  /** A sleeping workflow, cancelled just before its sleep is recorded, starts again. */
  lemma CancelledSleeperStartsAgain(v: Value)
    ensures CancelledDuring(Sleeper, CancelledSleep(v), 3, 6)
    ensures CanStart(Sleeper, After(Sleeper, CancelledSleep(v)))
  {
    SleeperFalls(v);
    SleeperSuspends(v);
    assert CancelledSleep(v)[..6] == CancelledSleep(v);
    CancelIsLostIffSuspended(Sleeper, CancelledSleep(v), 3, 6);
  }
}
