/**
 How runs end: a run suspends only where it has to, after its wake-up was scheduled and recorded,
 each wake-up is scheduled once, and a run that ends otherwise ends as the workflow function says.
 */
module WorkflowPlans {
  import opened Workflow
  import opened Wrappers

  /** The wait that comes next has no answer yet, and no signal that the run knows of is free. */
  predicate Starved(r: Run, name: string) {
    var o := Waits(r.trace) + 1;
    o !in r.replay.consumed && o !in r.replay.timeouts && Unclaimed(Queue(r.replay, name), name, r.claimed, 0).None?
  }

  /** The log holds the wake-up that the suspended call waits for. */
  predicate Armed(w: Program, l: Replay, r: Run) {
    match w(r.trace)
    case CallSleep => Sleeps(r.trace) + 1 in l.sleepStarted && Sleeps(r.trace) + 1 !in r.replay.sleepDone
    case CallWait(name, hasTimeout) => (hasTimeout ==> Waits(r.trace) + 1 in l.scheduled) && Starved(r, name)
    case _ => false
  }

  predicate SamePlans(l: Replay, r: Replay) {
    r.sleepStarted == l.sleepStarted && r.scheduled == l.scheduled
  }

  /** What a run is about to append, against the workflow function and the log. */
  predicate PlanOk(w: Program, l: Replay, r: Run) {
    match r.phase
    case Ready => SamePlans(l, r.replay)
    case Recording(StepCompleted(n, _), next) => SamePlans(l, r.replay) && next.Observe? && w(r.trace) == CallStep(n)
    case Recording(SignalConsumed(n, _, o), next) =>
      SamePlans(l, r.replay) && next.Observe? && w(r.trace).CallWait? && w(r.trace).signalName == n && o == Waits(r.trace) + 1
    case Recording(SleepStarted(o), next) =>
      next.Suspend? && w(r.trace).CallSleep? && o == Sleeps(r.trace) + 1 && o !in l.sleepStarted && o !in r.replay.sleepDone
    case Recording(TimeoutScheduled(o), next) =>
      next.Suspend? && w(r.trace).CallWait? && w(r.trace).hasTimeout && o == Waits(r.trace) + 1 && o !in l.scheduled
      && Starved(r, w(r.trace).signalName)
    case Recording(Suspended, next) => next.Finish? && Armed(w, l, r)
    case Recording(Completed(v), next) => next.Finish? && w(r.trace) == Return(v)
    case Recording(Failed(e), next) => next.Finish? && w(r.trace) == Throw(e)
    case _ => false
  }

  predicate PlansOk(w: Program, s: State) {
    s.run.Some? ==> PlanOk(w, Fold(s.log), s.run.value)
  }

  lemma ContinueKeepsPlan(w: Program, l: Replay, r: Run)
    requires PlanOk(w, l, r) && r.phase.Ready?
    ensures PlanOk(w, l, DoContinue(w, r))
  {
  }

  /** Once its wake-up is recorded the run may suspend. */
  lemma ScheduledIsArmed(w: Program, l: Replay, r: Run)
    requires PlanOk(w, l, r) && r.phase.Recording? && r.phase.next.Suspend?
    ensures PlanOk(w, Absorb(l, r.phase.event), Await(r, Suspended, Finish))
  {
    assert r.phase.event.SleepStarted? || r.phase.event.TimeoutScheduled?;
  }

  lemma RecordedKeepsPlans(w: Program, l: Replay, r: Run, steps: map<string, Value>)
    requires PlanOk(w, l, r) && r.phase.Recording? && r.phase.next.Observe?
    ensures PlanOk(w, Absorb(l, r.phase.event), Saw(r.(replay := r.replay.(steps := steps)), r.phase.next.obs))
  {
    assert r.phase.event.StepCompleted? || r.phase.event.SignalConsumed?;
  }

  lemma AppendKeepsPlan(w: Program, s: State)
    requires PlansOk(w, s) && s.run.Some? && s.run.value.phase.Recording? && s.run.value.pending == []
    ensures PlansOk(w, Do(w, s, Append))
  {
    var r := s.run.value;
    var e := r.phase.event;
    FoldAppend(s.log, e);
    match r.phase.next
    case Observe(obs) =>
      var steps := if e.StepCompleted? then r.replay.steps[e.name := e.result] else r.replay.steps;
      RecordedKeepsPlans(w, Fold(s.log), r, steps);
      assert r.replay.(steps := r.replay.steps) == r.replay;
    case Suspend => ScheduledIsArmed(w, Fold(s.log), r);
    case Finish =>
  }

  lemma StepKeepsPlan(w: Program, s: State, a: Action)
    requires PlansOk(w, s)
    ensures PlansOk(w, Do(w, s, a))
  {
    if Do(w, s, a) != s {
      match a
      case Continue => ContinueKeepsPlan(w, Fold(s.log), s.run.value);
      case Append => AppendKeepsPlan(w, s);
      case Outside(e) => FoldAppend(s.log, e);
      case FlushTick => FoldAppend(s.log, NowRecorded(s.run.value.pending[0].ordinal, s.run.value.pending[0].time));
      case _ =>
    }
  }

  lemma {:induction false} AlwaysPlansOk(w: Program, acts: seq<Action>)
    ensures PlansOk(w, After(w, acts))
  {
    if acts != [] {
      AlwaysPlansOk(w, acts[..|acts| - 1]);
      StepKeepsPlan(w, After(w, acts[..|acts| - 1]), acts[|acts| - 1]);
    }
  }

  /**
   However a run ends, it ends at the call the function is at: it suspends only at a sleep whose
   start is recorded or at a starved wait whose time-out, if any, is recorded, and it completes or
   fails only with what the function returned or threw.
   */
  lemma RunsEndAsWritten(w: Program, acts: seq<Action>)
    requires var s := After(w, acts); s.run.Some? && s.run.value.phase.Recording? && s.run.value.phase.next.Finish?
    ensures var s := After(w, acts); var r := s.run.value;
            match r.phase.event
            case Suspended => Armed(w, Fold(s.log), r)
            case Completed(v) => w(r.trace) == Return(v)
            case Failed(e) => w(r.trace) == Throw(e)
            case _ => false
  {
    AlwaysPlansOk(w, acts);
  }

  // ----- each wake-up is scheduled once -----

  ghost predicate ScheduledOnce(log: seq<Event>) {
    forall p, q :: 0 <= p < q < |log| && log[p] == log[q] ==> !log[p].SleepStarted? && !log[p].TimeoutScheduled?
  }

  lemma {:induction false} ScheduledInFold(log: seq<Event>, p: nat)
    requires p < |log|
    ensures log[p].SleepStarted? ==> log[p].ordinal in Fold(log).sleepStarted
    ensures log[p].TimeoutScheduled? ==> log[p].ordinal in Fold(log).scheduled
  {
    if p < |log| - 1 { ScheduledInFold(log[..|log| - 1], p); }
  }

  lemma ScheduledMore(log: seq<Event>, e: Event)
    requires ScheduledOnce(log)
    requires e.SleepStarted? ==> e.ordinal !in Fold(log).sleepStarted
    requires e.TimeoutScheduled? ==> e.ordinal !in Fold(log).scheduled
    ensures ScheduledOnce(log + [e])
  {
    forall p | 0 <= p < |log| && (e.SleepStarted? || e.TimeoutScheduled?) ensures log[p] != e {
      ScheduledInFold(log, p);
    }
  }

  lemma StepSchedulesOnce(w: Program, s: State, a: Action)
    requires PlansOk(w, s) && ScheduledOnce(s.log)
    ensures ScheduledOnce(Do(w, s, a).log)
  {
    var log' := Do(w, s, a).log;
    if log' != s.log { ScheduledMore(s.log, log'[|s.log|]); }
  }

  /** No log of any run holds the start of one sleep, or the time-out of one wait, twice. */
  lemma {:induction false} WakeupsAreScheduledOnce(w: Program, acts: seq<Action>)
    ensures ScheduledOnce(After(w, acts).log)
  {
    if acts != [] {
      var before := acts[..|acts| - 1];
      AlwaysPlansOk(w, before);
      WakeupsAreScheduledOnce(w, before);
      StepSchedulesOnce(w, After(w, before), acts[|acts| - 1]);
    }
  }
}
