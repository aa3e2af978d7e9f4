/**
 The saga orchestrator: forward steps, reverse compensation and persisted progress.

 A process may die at any await, a save may be rejected, and a saga may be resumed any number
 of times. Every method is proved to extend the trace only as `SagaTrace` allows.
 */
module Saga {
  import opened SagaTrace
  import opened Wrappers

  // ----- the orchestrator -----

  datatype IO = Done | Threw | Died

  /** What happens at one await: its outcome, and whether the effect took place although it did not succeed. */
  datatype Fate = Fate(io: IO, applied: bool, ok: bool)

  datatype Result =
    | Succeeded(executed: seq<string>)
    | Failed(executed: seq<string>, compensated: seq<string>, compensationFailed: seq<string>)
    | Rejected          // the returned promise rejects
    | Crashed           // the process died

  /** Everything saved so far is covered by the progress held in memory. */
  ghost predicate Remembers(t: seq<Event>, executed: seq<string>, compensated: seq<string>) {
    forall s :: Saved(s) in t ==> s.executed <= executed && forall a :: a in s.compensated ==> a in compensated
  }

  ghost predicate OnlyPending(t: seq<Event>) {
    forall s :: Saved(s) in t ==> s.status.Pending?
  }

  /** No save settled the saga, and any save that began compensation was about `executed`. */
  ghost predicate Unsettled(t: seq<Event>, executed: seq<string>) {
    forall s :: Saved(s) in t ==> s.status.Pending? || (s.status.Compensating? && s.executed == executed)
  }

  /** The progress a process holds in memory is backed by the trace. */
  ghost predicate Backed(steps: seq<Step>, t: seq<Event>, executed: seq<string>, compensated: seq<string>) {
    && executed <= Names(steps)
    && (forall a :: a in executed ==> Ran(a, true) in t)
    && (forall a :: a in compensated ==> a in executed && Undid(a, true) in t)
    && Remembers(t, executed, compensated)
    && NothingOmitted(t, executed, compensated)
  }

  predicate IsAttempt(e: Event, undo: bool, name: string) {
    e == AttemptOf(undo, name, true) || e == AttemptOf(undo, name, false)
  }

  /** `t'` adds attempts of one action to `t` and nothing else. */
  ghost predicate OnlyAdds(t: seq<Event>, t': seq<Event>, undo: bool, name: string) {
    && t <= t'
    && (forall e :: e in t' ==> e in t || IsAttempt(e, undo, name))
    && (forall e :: e in Pass(t') ==> e in Pass(t) || IsAttempt(e, undo, name))
  }

  /** None of the attempts that `t'` adds succeeded. */
  ghost predicate OnlyFailures(t: seq<Event>, t': seq<Event>, undo: bool, name: string) {
    AttemptOf(undo, name, true) in Pass(t') ==> AttemptOf(undo, name, true) in Pass(t)
  }

  lemma RecordedStays(t: seq<Event>, t': seq<Event>)
    requires forall s :: Saved(s) in t ==> Saved(s) in t'
    ensures forall a :: Recorded(t, a) ==> Recorded(t', a)
  {
    forall a | Recorded(t, a) ensures Recorded(t', a) {
      var s :| Saved(s) in t && a in s.executed;
      assert Saved(s) in t';
    }
  }

  /** A failed attempt may be repeated. */
  lemma AgainMayFollow(steps: seq<Step>, t: seq<Event>, t': seq<Event>, undo: bool, name: string, again: bool)
    requires MayFollow(steps, t, AttemptOf(undo, name, again))
    requires t' == t + [AttemptOf(undo, name, false)] && Pass(t') == Pass(t) + [AttemptOf(undo, name, false)]
    ensures MayFollow(steps, t', AttemptOf(undo, name, again))
  {
    assert forall s :: Saved(s) in t' <==> Saved(s) in t;
    assert forall e :: e in t ==> e in t';
    RecordedStays(t, t');
  }

  lemma AddedAttempt(steps: seq<Step>, t0: seq<Event>, t: seq<Event>, undo: bool, name: string, ok: bool)
    requires Legal(steps, t) && OnlyAdds(t0, t, undo, name)
    requires MayAttempt(steps, t, undo, name)
    ensures var t' := t + [AttemptOf(undo, name, ok)];
            && Legal(steps, t') && OnlyAdds(t0, t', undo, name)
            && (!ok && OnlyFailures(t0, t, undo, name) ==> OnlyFailures(t0, t', undo, name))
            && (!ok ==> MayAttempt(steps, t', undo, name))
  {
    var t' := t + [AttemptOf(undo, name, ok)];
    LegalAppend(steps, t, AttemptOf(undo, name, ok));
    if !ok {
      forall again ensures MayFollow(steps, t', AttemptOf(undo, name, again)) {
        AgainMayFollow(steps, t, t', undo, name, again);
      }
    }
  }

  ghost predicate NoUndosYet(t: seq<Event>) {
    forall b, ok :: Undid(b, ok) !in Pass(t)
  }

  ghost predicate DecisionSaved(t: seq<Event>, executed: seq<string>) {
    exists s :: Saved(s) in t && s.status.Compensating? && s.executed == executed
  }

  /** This pass has undone only steps at or above position `i`. */
  ghost predicate UndoneDownTo(steps: seq<Step>, t: seq<Event>, i: nat) {
    forall b, ok :: Undid(b, ok) in Pass(t) ==> exists k :: i <= k < |steps| && steps[k].name == b
  }

  /** What holds while the steps from position `i` up have been dealt with. */
  ghost predicate Undoing(steps: seq<Step>, t: seq<Event>, executed: seq<string>, compensated: seq<string>, i: nat) {
    Backed(steps, t, executed, compensated) && Unsettled(t, executed) && DecisionSaved(t, executed) && UndoneDownTo(steps, t, i)
  }

  lemma NameAt(steps: seq<Step>, executed: seq<string>, i: nat)
    requires DistinctNames(steps) && executed <= Names(steps) && i < |executed|
    ensures i < |steps| && executed[i] == steps[i].name
    ensures HasUndo(steps, executed[i]) <==> steps[i].hasUndo
  {
    assert executed[i] == Names(steps)[i];
  }

  /** A save of the progress in memory is always allowed while the saga is unsettled. */
  lemma SaveKeepsGoing(steps: seq<Step>, t: seq<Event>, executed: seq<string>, compensated: seq<string>, status: Status)
    requires Backed(steps, t, executed, compensated) && Unsettled(t, executed)
    requires status.Compensating? || status.CompensationFailed? || status.Compensated?
    requires status.Compensated? ==> AllUndone(steps, Snapshot(executed, compensated, status))
    ensures MayFollow(steps, t, Saved(Snapshot(executed, compensated, status)))
  {
  }

  lemma UndoMayFollow(steps: seq<Step>, t: seq<Event>, executed: seq<string>, compensated: seq<string>, i: nat)
    requires DistinctNames(steps) && Backed(steps, t, executed, compensated)
    requires DecisionSaved(t, executed) && UndoneDownTo(steps, t, i + 1)
    requires i < |executed| && executed[i] !in compensated && HasUndo(steps, executed[i])
    ensures MayAttempt(steps, t, true, executed[i])
  {
    NameAt(steps, executed, i);
    forall b, ok | Undid(b, ok) in Pass(t) ensures Precedes(steps, executed[i], b) {
      var k :| i + 1 <= k < |steps| && steps[k].name == b;
    }
  }

  lemma AttemptsKeepBacked(steps: seq<Step>, t: seq<Event>, t': seq<Event>, executed: seq<string>,
                           compensated: seq<string>, name: string, compensated': seq<string>)
    requires Backed(steps, t, executed, compensated) && Unsettled(t, executed) && DecisionSaved(t, executed)
    requires OnlyAdds(t, t', true, name) && name in executed
    requires || (compensated' == compensated && OnlyFailures(t, t', true, name))
             || (compensated' == compensated + [name] && Undid(name, true) in t')
    ensures Backed(steps, t', executed, compensated') && Unsettled(t', executed) && DecisionSaved(t', executed)
  {
    assert forall e :: e in t ==> e in t';
    assert forall s :: Saved(s) in t' <==> Saved(s) in t;
  }

  lemma UndosDownTo(steps: seq<Step>, t: seq<Event>, t': seq<Event>, i: nat)
    requires i < |steps| && UndoneDownTo(steps, t, i + 1) && OnlyAdds(t, t', true, steps[i].name)
    ensures UndoneDownTo(steps, t', i)
  {
  }

  lemma SavedKeepsUndoing(steps: seq<Step>, t: seq<Event>, t': seq<Event>, executed: seq<string>, compensated: seq<string>, i: nat)
    requires Undoing(steps, t, executed, compensated, i)
    requires var e := Saved(Snapshot(executed, compensated, Compensating)); t' == t + [e] && Pass(t') == Pass(t) + [e]
    ensures Undoing(steps, t', executed, compensated, i)
  {
    assert forall e :: e in t ==> e in t';
  }

  /** This pass has run only steps below position `i`. */
  ghost predicate RanUpTo(steps: seq<Step>, t: seq<Event>, i: nat) {
    forall b, ok :: Ran(b, ok) in Pass(t) ==> exists k :: 0 <= k < i && k < |steps| && steps[k].name == b
  }

  /** What holds while the steps below position `i` have been dealt with. */
  ghost predicate Going(steps: seq<Step>, t: seq<Event>, executed: seq<string>, i: nat) {
    Backed(steps, t, executed, []) && OnlyPending(t) && NoUndosYet(t) && RanUpTo(steps, t, i)
  }

  lemma NameMember(steps: seq<Step>, executed: seq<string>, i: nat)
    requires DistinctNames(steps) && executed <= Names(steps) && i < |steps|
    ensures steps[i].name in executed <==> i < |executed|
  {
    if i < |executed| { assert executed[i] == Names(steps)[i]; }
    assert forall k :: 0 <= k < |executed| ==> executed[k] == Names(steps)[k];
  }

  lemma RunMayFollow(steps: seq<Step>, t: seq<Event>, executed: seq<string>, i: nat)
    requires DistinctNames(steps) && Backed(steps, t, executed, []) && OnlyPending(t)
    requires NoUndosYet(t) && RanUpTo(steps, t, i) && ProgressSaved(t)
    requires i < |steps| && steps[i].name !in executed
    ensures MayAttempt(steps, t, false, steps[i].name)
  {
    forall b, ok | Ran(b, ok) in Pass(t) ensures Precedes(steps, b, steps[i].name) {
      var k :| 0 <= k < i && steps[k].name == b;
    }
  }

  lemma RunsKeepGoing(steps: seq<Step>, t: seq<Event>, t': seq<Event>, executed: seq<string>, i: nat, executed': seq<string>)
    requires Going(steps, t, executed, i) && |executed| == i < |steps|
    requires OnlyAdds(t, t', false, steps[i].name)
    requires || (executed' == executed && OnlyFailures(t, t', false, steps[i].name))
             || (executed' == executed + [steps[i].name] && Ran(steps[i].name, true) in t')
    ensures Going(steps, t', executed', i + 1)
  {
    assert forall e :: e in t ==> e in t';
    assert forall s :: Saved(s) in t' <==> Saved(s) in t;
    assert Names(steps)[i] == steps[i].name;
    assert executed + [steps[i].name] == Names(steps)[..i + 1];
    assert executed' <= Names(steps);
  }

  lemma PendingSaveMayFollow(steps: seq<Step>, t: seq<Event>, executed: seq<string>, i: nat)
    requires Going(steps, t, executed, i)
    ensures MayFollow(steps, t, Saved(Snapshot(executed, [], Pending)))
  {
  }

  lemma PendingSaveKeepsGoing(steps: seq<Step>, t: seq<Event>, t': seq<Event>, executed: seq<string>, i: nat)
    requires Going(steps, t, executed, i)
    requires var e := Saved(Snapshot(executed, [], Pending)); t' == t || (t' == t + [e] && Pass(t') == Pass(t) + [e])
    ensures Going(steps, t', executed, i)
  {
    assert forall e :: e in t ==> e in t';
  }

  lemma FreshIsGoing(steps: seq<Step>, t: seq<Event>)
    requires t == [PassBegan] && Pass(t) == []
    ensures Going(steps, t, [], 0)
  {
  }

  lemma NothingRanYet(steps: seq<Step>, t: seq<Event>)
    requires RanUpTo(steps, t, 0)
    ensures ProgressSaved(t)
  {
  }

  /** Saving the step just run leaves nothing unsaved. */
  lemma SaveKeepsProgress(t: seq<Event>, mid: seq<Event>, t': seq<Event>, name: string, snap: Snapshot)
    requires ProgressSaved(t) && OnlyAdds(t, mid, false, name)
    requires t' == mid + [Saved(snap)] && Pass(t') == Pass(mid) + [Saved(snap)] && name in snap.executed
    ensures ProgressSaved(t')
  {
    assert forall e :: e in t ==> e in t';
    RecordedStays(t, t');
    assert Saved(snap) in t';
    assert Recorded(t', name);
    forall a | Ran(a, true) in Pass(t') ensures Recorded(t', a) {
      assert Ran(a, true) in Pass(mid);
    }
  }

  lemma NamesWhole(steps: seq<Step>, executed: seq<string>)
    requires executed <= Names(steps) && |executed| == |steps|
    ensures executed == Names(steps)
  {
  }

  lemma {:induction false} SavedIsBacked(steps: seq<Step>, t: seq<Event>, snap: Snapshot)
    requires Legal(steps, t) && Saved(snap) in t
    ensures snap.executed <= Names(steps)
    ensures forall a :: a in snap.executed ==> Ran(a, true) in t
    ensures forall a :: a in snap.compensated ==> a in snap.executed && Undid(a, true) in t
    ensures snap.status.Pending? ==> snap.compensated == []
  {
    var j :| 0 <= j < |t| && t[j] == Saved(snap);
    LegalAt(steps, t, j);
    assert forall e :: e in t[..j] ==> e in t;
  }

  /** What the store holds is a sound starting point for a new process. */
  lemma StoreBacks(steps: seq<Step>, t: seq<Event>, snap: Snapshot)
    requires Legal(steps, t) && IsLatest(t, snap)
    requires Pass(t) == []
    ensures Backed(steps, t, snap.executed, snap.compensated)
    ensures snap.status.Pending? ==> OnlyPending(t) && snap.compensated == []
    ensures snap.status.Compensating? ==> Unsettled(t, snap.executed)
  {
    SavedIsBacked(steps, t, snap);
  }

  /** `last` was saved, and every other save led up to it. */
  ghost predicate IsLatest(t: seq<Event>, last: Snapshot) {
    Saved(last) in t && forall s :: Saved(s) in t ==> s == last || Progress(s, last)
  }

  lemma AttemptsKeepLatest(t: seq<Event>, t': seq<Event>, undo: bool, name: string, last: Snapshot)
    requires OnlyAdds(t, t', undo, name) && IsLatest(t, last)
    ensures IsLatest(t', last)
  {
    assert forall e :: e in t ==> e in t';
  }

  class Orchestrator {
    const steps: seq<Step>
    var store: Option<Snapshot>
    var trace: seq<Event>
    const fates: nat -> Fate   // what the n-th await of this saga's life will meet
    var awaits: nat

    /** Some await since number `from` met `io`. */
    ghost predicate Met(io: IO, from: nat)
      reads this`awaits
    {
      exists n :: from <= n < awaits && fates(n).io == io
    }

    /** The trace is legal and the store holds the latest save. */
    ghost predicate Valid()
      reads this
    {
      && DistinctNames(steps)
      && Legal(steps, trace)
      && (store.Some? ==> IsLatest(trace, store.value))
    }

    constructor (steps: seq<Step>, fates: nat -> Fate)
      requires DistinctNames(steps)
      ensures Valid() && this.steps == steps && this.fates == fates && store.None? && trace == []
    {
      this.steps, this.fates := steps, fates;
      store, trace, awaits := None, [], 0;
    }

    /** A save that succeeds, is rejected or is cut short by the death of the process; the last two may have landed. */
    method Persist(executed: seq<string>, compensated: seq<string>, status: Status) returns (io: IO)
      requires Valid() && MayFollow(steps, trace, Saved(Snapshot(executed, compensated, status)))
      modifies this
      ensures Valid()
      ensures if trace == old(trace) then store == old(store)
              else trace == old(trace) + [Saved(Snapshot(executed, compensated, status))]
                   && store == Some(Snapshot(executed, compensated, status))
                   && Pass(trace) == Pass(old(trace)) + [Saved(Snapshot(executed, compensated, status))]
      ensures trace != old(trace) <==> io.Done? || fates(old(awaits)).applied
      ensures awaits == old(awaits) + 1 && io == fates(old(awaits)).io
    {
      var fate := fates(awaits);
      awaits := awaits + 1;
      io := fate.io;
      if io.Done? || fate.applied {
        var snap := Snapshot(executed, compensated, status);
        LegalAppend(steps, trace, Saved(snap));
        store := Some(snap);
        trace := trace + [Saved(snap)];
      }
    }

    /** All attempts of one forward action or one undo. */
    method Attempt(name: string, undo: bool, attempts: nat) returns (io: IO)
      requires Valid() && attempts > 0
      requires MayAttempt(steps, trace, undo, name)
      modifies this`trace, this`awaits
      ensures Valid() && OnlyAdds(old(trace), trace, undo, name)
      ensures awaits > old(awaits) && Met(io, old(awaits))
      ensures io.Done? ==> AttemptOf(undo, name, true) in trace
      ensures io.Threw? ==> OnlyFailures(old(trace), trace, undo, name)
    {
      var attempt := 1;
      io := Threw;
      while attempt <= attempts && io.Threw?
        invariant Legal(steps, trace) && OnlyAdds(old(trace), trace, undo, name)
        invariant io.Threw? ==> OnlyFailures(old(trace), trace, undo, name)
        invariant io.Threw? ==> MayAttempt(steps, trace, undo, name)
        invariant io.Done? ==> AttemptOf(undo, name, true) in trace
        invariant attempt >= 1 && awaits >= old(awaits)
        invariant if attempt == 1 then io.Threw? else awaits > old(awaits) && fates(awaits - 1).io == io
        decreases attempts - attempt, io.Threw?
      {
        io := AttemptOnce(name, undo, old(trace));
        attempt := attempt + 1;
      }
      if store.Some? {
        AttemptsKeepLatest(old(trace), trace, undo, name, store.value);
      }
    }

    /** One attempt: it succeeds, it fails, or the process dies before, during or after it. */
    method AttemptOnce(name: string, undo: bool, ghost start: seq<Event>) returns (io: IO)
      requires Legal(steps, trace) && OnlyAdds(start, trace, undo, name) && OnlyFailures(start, trace, undo, name)
      requires MayAttempt(steps, trace, undo, name)
      modifies this`trace, this`awaits
      ensures Legal(steps, trace) && OnlyAdds(start, trace, undo, name)
      ensures io.Threw? ==> OnlyFailures(start, trace, undo, name)
      ensures io.Threw? ==> MayAttempt(steps, trace, undo, name)
      ensures io.Done? ==> AttemptOf(undo, name, true) in trace
      ensures awaits == old(awaits) + 1 && fates(old(awaits)).io == io
    {
      var fate := fates(awaits);
      awaits := awaits + 1;
      io := fate.io;
      if !io.Died? || fate.applied {
        var ok := if io.Died? then fate.ok else io.Done?;
        AddedAttempt(steps, start, trace, undo, name, ok);
        trace := trace + [AttemptOf(undo, name, ok)];
      }
    }

    /** `fail`: record the decision, undo in reverse, settle. */
    method Fail(executed: seq<string>, already: seq<string>) returns (r: Result)
      requires Valid() && Backed(steps, trace, executed, already) && Unsettled(trace, executed)
      requires NoUndosYet(trace)
      modifies this
      ensures Valid()
      ensures r.Failed? ==> r.executed == executed && store == Some(Snapshot(executed, r.compensated,
                                                   if r.compensationFailed == [] then Compensated else CompensationFailed))
      ensures awaits >= old(awaits) && !r.Succeeded?
      ensures r.Crashed? ==> Met(Died, old(awaits))
      ensures r.Rejected? || (r.Failed? && r.compensationFailed != []) ==> Met(Threw, old(awaits))
    {
      SaveKeepsGoing(steps, trace, executed, already, Compensating);
      var io := Persist(executed, already, Compensating);
      if !io.Done? { return if io.Died? then Crashed else Rejected; }
      var compensated, failed;
      io, compensated, failed := Compensate(executed, already);
      if io.Died? { return Crashed; }
      var status := if |failed| > 0 then CompensationFailed else Compensated;
      SaveKeepsGoing(steps, trace, executed, compensated, status);
      io := Persist(executed, compensated, status);
      if !io.Done? { return if io.Died? then Crashed else Rejected; }
      r := Failed(executed, compensated, failed);
    }

    /** `compensate`: the loop over `executed` from its end. A rejected progress save is ignored. */
    method Compensate(executed: seq<string>, already: seq<string>)
      returns (io: IO, compensated: seq<string>, failed: seq<string>)
      requires Valid() && Backed(steps, trace, executed, already) && Unsettled(trace, executed)
      requires NoUndosYet(trace) && DecisionSaved(trace, executed)
      modifies this
      ensures Valid() && !io.Threw? && awaits >= old(awaits)
      ensures io.Died? ==> Met(Died, old(awaits))
      ensures io.Done? && failed != [] ==> Met(Threw, old(awaits))
      ensures io.Done? && compensated != already ==>
                Met(Threw, old(awaits)) || store == Some(Snapshot(executed, compensated, Compensating))
      ensures io.Done? ==> Backed(steps, trace, executed, compensated) && Unsettled(trace, executed)
      ensures io.Done? ==> forall a :: a in executed && HasUndo(steps, a) ==> a in compensated || a in failed
    {
      compensated, failed := already, [];
      var i := |executed|;
      while i > 0
        invariant 0 <= i <= |executed|
        invariant Valid() && Undoing(steps, trace, executed, compensated, i)
        invariant awaits >= old(awaits) && (failed != [] ==> Met(Threw, old(awaits)))
        invariant compensated != already ==>
                    Met(Threw, old(awaits)) || store == Some(Snapshot(executed, compensated, Compensating))
        invariant forall k :: i <= k < |executed| && HasUndo(steps, executed[k]) ==> executed[k] in compensated || executed[k] in failed
      {
        i := i - 1;
        var name := executed[i];
        NameAt(steps, executed, i);
        if name in compensated || !steps[i].hasUndo { continue; }
        var undone: bool;
        io, undone := UndoOne(executed, compensated, i);
        if io.Died? { return; }
        if undone {
          compensated := compensated + [name];
        } else {
          failed := failed + [name];
        }
      }
      io := Done;
    }

    /** One turn of the compensation loop: undo a step and save that it was undone. */
    method UndoOne(executed: seq<string>, compensated: seq<string>, i: nat) returns (io: IO, undone: bool)
      requires Valid() && Undoing(steps, trace, executed, compensated, i + 1)
      requires i < |executed| && executed[i] !in compensated && HasUndo(steps, executed[i])
      modifies this
      ensures Valid()
      ensures awaits > old(awaits)
      ensures io.Died? ==> Met(Died, old(awaits))
      ensures !io.Died? && !undone ==> Met(Threw, old(awaits))
      ensures !io.Died? && undone ==> Met(Threw, old(awaits)) || store == Some(Snapshot(executed, compensated + [executed[i]], Compensating))
      ensures !io.Died? ==> Undoing(steps, trace, executed, if undone then compensated + [executed[i]] else compensated, i)
    {
      var name := executed[i];
      NameAt(steps, executed, i);
      UndoMayFollow(steps, trace, executed, compensated, i);
      ghost var t := trace;
      io := Attempt(name, true, steps[i].undoRetries + 1);
      undone := io.Done?;
      if io.Died? { return; }
      AttemptsKeepBacked(steps, t, trace, executed, compensated, name, if undone then compensated + [name] else compensated);
      UndosDownTo(steps, t, trace, i);
      if undone {
        SaveKeepsGoing(steps, trace, executed, compensated + [name], Compensating);
        t := trace;
        io := Persist(executed, compensated + [name], Compensating);
        if trace != t {
          SavedKeepsUndoing(steps, t, trace, executed, compensated + [name], i);
        }
      }
    }

    /** `forward`: run the steps that are not yet executed, in order. */
    method Forward(already: seq<string>) returns (r: Result)
      requires Valid() && Going(steps, trace, already, 0)
      modifies this
      ensures Valid()
      ensures r.Succeeded? ==> r.executed == Names(steps) && store.None? && forall a :: a in r.executed ==> Ran(a, true) in trace
      ensures awaits >= old(awaits) && (r.Crashed? ==> Met(Died, old(awaits)))
      ensures r.Failed? || r.Rejected? ==> Met(Threw, old(awaits))
      ensures r.Failed? ==> store == Some(Snapshot(r.executed, r.compensated,
                                                   if r.compensationFailed == [] then Compensated else CompensationFailed))
    {
      var executed := already;
      NothingRanYet(steps, trace);
      for i := 0 to |steps|
        invariant Valid() && Going(steps, trace, executed, i) && ProgressSaved(trace)
        invariant executed == already || store == Some(Snapshot(executed, [], Pending))
        invariant |executed| == if i < |already| then |already| else i
        invariant awaits >= old(awaits)
      {
        var name := steps[i].name;
        NameMember(steps, executed, i);
        if name in executed { continue; }
        var io;
        io, executed := RunOne(executed, i);
        if io.Died? { return Crashed; }
        if io.Threw? { r := Fail(executed, []); return; }
      }
      NamesWhole(steps, executed);
      var io := Persist(executed, [], Success);
      if !io.Done? { return if io.Died? then Crashed else Rejected; }
      r := Delete(executed);
    }

    /** One turn of the forward loop: run a step and save that it ran. */
    method RunOne(executed: seq<string>, i: nat) returns (io: IO, executed': seq<string>)
      requires Valid() && Going(steps, trace, executed, i) && ProgressSaved(trace)
      requires |executed| == i < |steps| && steps[i].name !in executed
      modifies this
      ensures Valid() && awaits > old(awaits) && (!io.Done? ==> Met(io, old(awaits)))
      ensures !io.Died? ==> Going(steps, trace, executed', i + 1)
      ensures io.Done? ==> executed' == executed + [steps[i].name] && ProgressSaved(trace)
                           && store == Some(Snapshot(executed', [], Pending))
    {
      RunMayFollow(steps, trace, executed, i);
      ghost var t := trace;
      io := Attempt(steps[i].name, false, steps[i].retries + 1);
      executed' := if io.Done? then executed + [steps[i].name] else executed;
      if io.Died? { return; }
      RunsKeepGoing(steps, t, trace, executed, i, executed');
      if io.Threw? { return; }
      ghost var mid := trace;
      PendingSaveMayFollow(steps, trace, executed', i + 1);
      io := Persist(executed', [], Pending);
      PendingSaveKeepsGoing(steps, mid, trace, executed', i + 1);
      if io.Done? { SaveKeepsProgress(t, mid, trace, steps[i].name, Snapshot(executed', [], Pending)); }
    }

    method Delete(executed: seq<string>) returns (r: Result)
      requires Valid() && Saved(Snapshot(executed, [], Success)) in trace
      modifies this
      ensures Valid() && (trace == old(trace) || trace == old(trace) + [Deleted])
      ensures r.Succeeded? ==> r.executed == executed && store.None?
      ensures awaits >= old(awaits) && !r.Failed?
      ensures (r.Crashed? ==> Met(Died, old(awaits))) && (r.Rejected? ==> Met(Threw, old(awaits)))
    {
      var fate := fates(awaits);
      awaits := awaits + 1;
      var io := fate.io;
      assert Met(io, old(awaits));
      if io.Done? || fate.applied {
        LegalAppend(steps, trace, Deleted);
        store, trace := None, trace + [Deleted];
      }
      r := match io case Done => Succeeded(executed) case Threw => Rejected case Died => Crashed;
    }

    method Begin()
      requires Valid()
      modifies this`trace
      ensures Valid() && trace == old(trace) + [PassBegan] && Pass(trace) == []
      ensures forall s :: Saved(s) in trace <==> Saved(s) in old(trace)
    {
      LegalAppend(steps, trace, PassBegan);
      trace := trace + [PassBegan];
    }

    /** `run`, called once for a saga id. */
    method Run() returns (r: Result)
      requires Valid() && trace == [] && store.None?
      modifies this
      ensures Valid()
      ensures r.Succeeded? ==> r.executed == Names(steps) && store.None? && forall a :: a in r.executed ==> Ran(a, true) in trace
      ensures awaits >= old(awaits) && (r.Crashed? ==> Met(Died, old(awaits)))
      ensures r.Failed? || r.Rejected? ==> Met(Threw, old(awaits))
      ensures r.Failed? ==> store == Some(Snapshot(r.executed, r.compensated,
                                                   if r.compensationFailed == [] then Compensated else CompensationFailed))
    {
      Begin();
      ghost var t := trace;
      FreshIsGoing(steps, t);
      PendingSaveMayFollow(steps, t, [], 0);
      var io := Persist([], [], Pending);
      if !io.Done? { return if io.Died? then Crashed else Rejected; }
      PendingSaveKeepsGoing(steps, t, trace, [], 0);
      r := Forward([]);
    }

    /** `Saga.resume`: continue from whatever the store holds; a settled or missing saga is refused. */
    method Resume() returns (r: Result)
      requires Valid()
      modifies this
      ensures Valid()
      ensures old(store).None? || !(old(store).value.status.Pending? || old(store).value.status.Compensating?) ==>
                r.Rejected? && store == old(store) && trace == old(trace) + [PassBegan]
      ensures old(store).Some? && old(store).value.status.Pending? ==>
                (r.Crashed? ==> Met(Died, old(awaits))) && (r.Failed? || r.Rejected? ==> Met(Threw, old(awaits)))
                && (r.Succeeded? ==> r.executed == Names(steps) && store.None?)
      ensures old(store).Some? && old(store).value.status.Compensating? ==>
                (r.Crashed? ==> Met(Died, old(awaits))) && (r.Rejected? ==> Met(Threw, old(awaits))) && !r.Succeeded?
      ensures r.Failed? ==> store == Some(Snapshot(r.executed, r.compensated,
                                                   if r.compensationFailed == [] then Compensated else CompensationFailed))
    {
      Begin();
      if store.None? { return Rejected; }
      var snap := store.value;
      StoreBacks(steps, trace, snap);
      if snap.status.Compensating? {
        r := Fail(snap.executed, snap.compensated);
        return;
      }
      if !snap.status.Pending? { return Rejected; }
      r := Forward(snap.executed);
    }
  }

  /** Any number of resumes after a run, each of which may die anywhere, leaves a legal trace. */
  method AnyHistory(steps: seq<Step>, fates: nat -> Fate, resumes: nat) returns (saga: Orchestrator)
    requires DistinctNames(steps)
    ensures saga.steps == steps && Legal(steps, saga.trace)
  {
    saga := new Orchestrator(steps, fates);
    var r := saga.Run();
    for i := 0 to resumes
      invariant saga.Valid() && saga.steps == steps
    {
      r := saga.Resume();
    }
  }
}
