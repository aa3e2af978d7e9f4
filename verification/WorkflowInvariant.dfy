/**
 What holds of the log, and of a run against the log, in every reachable state of the engine.
 */
module WorkflowInvariant {
  import opened Workflow
  import opened Wrappers

  /** Every consumption points at a received signal, and waits were settled in order. */
  ghost predicate LogOk(l: Replay) {
    && (forall o :: o in l.consumed ==> SignalAt(l, l.consumed[o]).Some?)
    && (forall o, p :: o in l.consumed && 1 <= p < o ==> p in l.consumed || p in l.timeouts)
  }

  /** The run's private copy of the replay state against the log as it is now. */
  ghost predicate CopyOk(l: Replay, r: Run) {
    && r.replay.steps == l.steps
    && r.replay.timeouts <= l.timeouts
    && r.replay.sleepDone <= l.sleepDone
    && (forall n :: n in r.replay.signals ==> n in l.signals && r.replay.signals[n] <= l.signals[n])
    && (forall o :: o in r.replay.consumed ==> o in l.consumed && l.consumed[o] == r.replay.consumed[o]
                                               && SignalAt(r.replay, l.consumed[o]).Some?)
    && (forall o :: o in l.consumed && o !in r.replay.consumed ==> o <= Waits(r.trace))
    && (forall o, p :: o in r.replay.consumed && 1 <= p < o ==> p in r.replay.consumed || p in r.replay.timeouts)
    && (forall o :: 1 <= o <= Waits(r.trace) ==> o in l.consumed || o in r.replay.timeouts)
  }

  /** Clock reads: the run knows the recorded ones and the pending ones, which are disjoint. */
  ghost predicate TicksOk(l: Replay, r: Run) {
    && (forall o :: o in l.nows ==> o in r.replay.nows && r.replay.nows[o] == l.nows[o])
    && (forall o :: o in r.replay.nows ==> o in l.nows || Tick(o, r.replay.nows[o]) in r.pending)
    && (forall i :: 0 <= i < |r.pending| ==>
          var t := r.pending[i]; t.ordinal !in l.nows && t.ordinal in r.replay.nows && r.replay.nows[t.ordinal] == t.time)
    && (forall i, j :: 0 <= i < j < |r.pending| ==> r.pending[i].ordinal != r.pending[j].ordinal)
  }

  /** A run that awaits an append awaits the right one. */
  ghost predicate PhaseOk(w: Program, l: Replay, r: Run) {
    match r.phase
    case Ready => r.claimed == l.claimed
    case Recording(SignalConsumed(n, i, o), next) =>
      && r.claimed == l.claimed + {Consumption(n, i)}
      && Consumption(n, i) !in l.claimed
      && (forall k :: 0 <= k < i ==> Consumption(n, k) in l.claimed)
      && o == Waits(r.trace) + 1
      && o !in l.consumed && o !in r.replay.timeouts
      && w(r.trace).CallWait?
      && i < |Queue(l, n)|
      && next == Observe(Got(Some(Queue(l, n)[i])))
    case Recording(StepCompleted(n, v), next) =>
      && r.claimed == l.claimed
      && n !in l.steps
      && w(r.trace) == CallStep(n)
      && next == Observe(StepDone(n, v))
    case Recording(e, next) =>
      && r.claimed == l.claimed
      && !next.Observe?
      && (e.SleepStarted? || e.TimeoutScheduled? || e.Completed? || e.Failed? || e.Suspended?)
  }

  /** The outcome of call `m` of the trace is what the log, or the run itself, says it is. */
  ghost predicate ObsOk(w: Program, l: Replay, r: Run, m: nat)
    requires m < |r.trace|
  {
    match KeyAt(w, r.trace, m)
    case None => false
    case Some(StepKey(n)) => r.trace[m].StepThrew? || (n in l.steps && r.trace[m] == StepDone(n, l.steps[n]))
    case Some(NowKey(o)) => o in r.replay.nows && r.trace[m] == Clock(r.replay.nows[o])
    case Some(SleepKey(o)) => o in l.sleepDone && r.trace[m] == Woke
    case Some(WaitKey(o)) =>
      if o in l.consumed then r.trace[m] == Got(SignalAt(l, l.consumed[o]))
      else o in r.replay.timeouts && r.trace[m] == TimedOut
  }

  ghost predicate TraceOk(w: Program, l: Replay, r: Run) {
    forall m :: 0 <= m < |r.trace| ==> ObsOk(w, l, r, m)
  }

  ghost predicate RunOk(w: Program, l: Replay, r: Run) {
    CopyOk(l, r) && TicksOk(l, r) && PhaseOk(w, l, r) && TraceOk(w, l, r)
  }

  ghost predicate Inv(w: Program, s: State) {
    var l := Fold(s.log);
    LogOk(l) && (s.run.Some? ==> RunOk(w, l, s.run.value))
  }
}
