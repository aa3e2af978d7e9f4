/**
 What the outside world sees of a saga: one trace of step executions, undo executions and saves,
 over all processes that worked on it. `MayFollow` says which event may come after which history.
 */
module SagaTrace {

  datatype Step = Step(name: string, hasUndo: bool, retries: nat, undoRetries: nat)

  datatype Status = Pending | Compensating | Success | Compensated | CompensationFailed

  datatype Snapshot = Snapshot(executed: seq<string>, compensated: seq<string>, status: Status)

  datatype Event =
    | PassBegan                        // a process starts or resumes the saga
    | Ran(name: string, ok: bool)      // one attempt of a forward action
    | Undid(name: string, ok: bool)    // one attempt of an undo action
    | Saved(snap: Snapshot)
    | Deleted

  function Names(steps: seq<Step>): seq<string> {
    seq(|steps|, i requires 0 <= i < |steps| => steps[i].name)
  }

  ghost predicate DistinctNames(steps: seq<Step>) {
    forall i, j :: 0 <= i < j < |steps| ==> steps[i].name != steps[j].name
  }

  predicate HasUndo(steps: seq<Step>, name: string) {
    exists i :: 0 <= i < |steps| && steps[i].name == name && steps[i].hasUndo
  }

  /** `a` is an earlier step than `b`. */
  ghost predicate Precedes(steps: seq<Step>, a: string, b: string) {
    exists i, j :: 0 <= i < j < |steps| && steps[i].name == a && steps[j].name == b
  }

  /** The events since the current process took over. */
  function Pass(t: seq<Event>): seq<Event> {
    if t == [] || t[|t| - 1].PassBegan? then [] else Pass(t[..|t| - 1]) + [t[|t| - 1]]
  }

  /** Later saves never forget progress, and never go back from undoing to doing. */
  ghost predicate Progress(s: Snapshot, s': Snapshot) {
    && s.executed <= s'.executed
    && (forall a :: a in s.compensated ==> a in s'.compensated)
    && (s.status.Pending? || (s.status.Compensating? && !s'.status.Pending? && !s'.status.Success? && s'.executed == s.executed))
  }

  /** Every executed step that can be undone is recorded as undone. */
  ghost predicate AllUndone(steps: seq<Step>, s: Snapshot) {
    forall a :: a in s.executed && HasUndo(steps, a) ==> a in s.compensated
  }

  /** Whatever this process ran or undid with success is among its recorded progress. */
  ghost predicate NothingOmitted(t: seq<Event>, executed: seq<string>, compensated: seq<string>) {
    && (forall a :: Ran(a, true) in Pass(t) ==> a in executed)
    && (forall a :: Undid(a, true) in Pass(t) ==> a in compensated)
  }

  /** A save records that the step ran. */
  ghost predicate Recorded(t: seq<Event>, a: string) {
    exists s :: Saved(s) in t && a in s.executed
  }

  /** Every step that this process ran with success has been saved. */
  ghost predicate ProgressSaved(t: seq<Event>) {
    forall a :: Ran(a, true) in Pass(t) ==> Recorded(t, a)
  }

  /** Which event may come next. */
  ghost predicate MayFollow(steps: seq<Step>, t: seq<Event>, e: Event) {
    match e
    case PassBegan => true
    case Ran(a, _) =>
      // not a recorded step, not after compensation was recorded, in step order, and with all progress saved
      && (forall s :: Saved(s) in t ==> a !in s.executed && s.status.Pending?)
      && (forall b, ok :: Ran(b, ok) in Pass(t) ==> Precedes(steps, b, a) || (b == a && !ok))
      && (forall b, ok :: Undid(b, ok) !in Pass(t))
      && ProgressSaved(t)
    case Undid(a, _) =>
      // an executed step, not recorded as undone, in strictly reverse order, after the decision was recorded
      && Ran(a, true) in t && HasUndo(steps, a)
      && (forall s :: Saved(s) in t ==> a !in s.compensated)
      && (forall b, ok :: Undid(b, ok) in Pass(t) ==> Precedes(steps, a, b) || (b == a && !ok))
      && (exists s :: Saved(s) in t && s.status.Compensating? && a in s.executed)
    case Saved(s) =>
      && s.executed <= Names(steps)
      && (forall a :: a in s.executed ==> Ran(a, true) in t)
      && (forall a :: a in s.compensated ==> a in s.executed && Undid(a, true) in t)
      && (forall p :: Saved(p) in t ==> Progress(p, s))
      && NothingOmitted(t, s.executed, s.compensated)
      && (s.status.Pending? ==> s.compensated == [])
      && (s.status.Success? ==> s.executed == Names(steps) && s.compensated == [])
      && (s.status.Compensated? ==> AllUndone(steps, s))
    case Deleted => exists s :: Saved(s) in t && s.status.Success?
  }

  function AttemptOf(undo: bool, name: string, ok: bool): Event {
    if undo then Undid(name, ok) else Ran(name, ok)
  }

  /** An attempt may come next, whichever way it ends. */
  ghost predicate MayAttempt(steps: seq<Step>, t: seq<Event>, undo: bool, name: string) {
    forall ok :: MayFollow(steps, t, AttemptOf(undo, name, ok))
  }

  ghost predicate Legal(steps: seq<Step>, t: seq<Event>) {
    t == [] || (Legal(steps, t[..|t| - 1]) && MayFollow(steps, t[..|t| - 1], t[|t| - 1]))
  }

  lemma LegalAppend(steps: seq<Step>, t: seq<Event>, e: Event)
    requires Legal(steps, t) && MayFollow(steps, t, e)
    ensures Legal(steps, t + [e])
    ensures Pass(t + [e]) == if e.PassBegan? then [] else Pass(t) + [e]
  {
    LegalMore(steps, t, t + [e]);
    PassMore(t, e);
  }

  lemma LegalMore(steps: seq<Step>, t: seq<Event>, t': seq<Event>)
    requires |t'| == |t| + 1 && t'[..|t|] == t && Legal(steps, t) && MayFollow(steps, t, t'[|t|])
    ensures Legal(steps, t')
  {
  }

  lemma PassMore(t: seq<Event>, e: Event)
    ensures Pass(t + [e]) == if e.PassBegan? then [] else Pass(t) + [e]
  {
    assert (t + [e])[..|t|] == t;
  }

  // ----- what a legal trace means -----

  lemma {:induction false} LegalAt(steps: seq<Step>, t: seq<Event>, j: nat)
    requires Legal(steps, t) && j < |t|
    ensures MayFollow(steps, t[..j], t[j])
  {
    if j < |t| - 1 {
      LegalAt(steps, t[..|t| - 1], j);
      assert t[..|t| - 1][..j] == t[..j];
    }
  }

  /**
   Crash safety. Once a save records a step as executed, that step never runs forward again;
   once a save records that compensation began, no step runs forward at all; once a save
   records an undo, that undo never runs again. This spans all processes and resumes.
   */
  lemma RecordedWorkNeverReruns(steps: seq<Step>, t: seq<Event>, i: nat, j: nat)
    requires Legal(steps, t) && i < j < |t| && t[i].Saved?
    ensures t[j].Ran? ==> t[j].name !in t[i].snap.executed && t[i].snap.status.Pending?
    ensures t[j].Undid? ==> t[j].name !in t[i].snap.compensated
    ensures t[j].Saved? ==> Progress(t[i].snap, t[j].snap)
  {
    LegalAt(steps, t, j);
    assert t[..j][i] == t[i];
    assert Saved(t[i].snap) in t[..j];
  }

  lemma {:induction false} PassIsSuffix(t: seq<Event>, i: nat)
    requires i < |t| && forall k :: i <= k < |t| ==> !t[k].PassBegan?
    ensures t[i] in Pass(t)
    decreases |t|
  {
    if i < |t| - 1 {
      PassIsSuffix(t[..|t| - 1], i);
    }
  }

  /** Within one pass, undos run in strictly reverse step order; only a failed attempt is repeated. */
  lemma UndosRunInReverse(steps: seq<Step>, t: seq<Event>, i: nat, j: nat)
    requires Legal(steps, t) && i < j < |t| && t[i].Undid? && t[j].Undid?
    requires forall k :: i < k < j ==> !t[k].PassBegan?
    ensures Precedes(steps, t[j].name, t[i].name) || (t[i].name == t[j].name && !t[i].ok)
  {
    LegalAt(steps, t, j);
    PassIsSuffix(t[..j], i);
    assert Undid(t[i].name, t[i].ok) in Pass(t[..j]);
  }

  /** A crash can repeat at most one step: before another step runs, the one before it was saved as executed. */
  lemma ProgressIsSavedBeforeTheNextStep(steps: seq<Step>, t: seq<Event>, i: nat, j: nat)
    requires Legal(steps, t) && i < j < |t| && t[i].Ran? && t[i].ok && t[j].Ran?
    requires forall k :: i < k < j ==> !t[k].PassBegan?
    ensures Recorded(t[..j], t[i].name) && t[j].name != t[i].name
  {
    LegalAt(steps, t, j);
    PassIsSuffix(t[..j], i);
    assert Ran(t[i].name, true) in Pass(t[..j]);
  }

  /** Status `compensated` is only saved when every executed step with an undo really was undone. */
  lemma CompensatedMeansUndone(steps: seq<Step>, t: seq<Event>, j: nat, name: string)
    requires Legal(steps, t) && j < |t| && t[j].Saved? && t[j].snap.status.Compensated?
    requires name in t[j].snap.executed && HasUndo(steps, name)
    ensures Undid(name, true) in t[..j]
  {
    LegalAt(steps, t, j);
    assert name in t[j].snap.compensated;
  }
}
