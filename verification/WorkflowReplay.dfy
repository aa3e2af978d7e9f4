/**
 Every action of the workflow engine keeps the invariant, so it holds in every state that any
 interleaving of runs, crashes and outside appends can reach.
 */
module WorkflowReplay {
  import opened Workflow
  import opened WorkflowInvariant
  import opened Wrappers

  // ----- ordinals -----

  lemma CountAppend(h: seq<Obs>, o: Obs)
    ensures Nows(h + [o]) == Nows(h) + (if o.Clock? then 1 else 0)
    ensures Sleeps(h + [o]) == Sleeps(h) + (if o.Woke? then 1 else 0)
    ensures Waits(h + [o]) == Waits(h) + (if o.Got? || o.TimedOut? then 1 else 0)
  {
    assert (h + [o])[..|h|] == h;
  }

  // ----- every action keeps the invariant -----

  /** An outside event adds to the log's facts and takes nothing back. */
  ghost predicate Widens(l: Replay, l': Replay) {
    && l'.steps == l.steps && l'.nows == l.nows && l'.consumed == l.consumed && l'.claimed == l.claimed
    && l.timeouts <= l'.timeouts && l.sleepDone <= l'.sleepDone
    && (forall n :: n in l.signals ==> n in l'.signals && l.signals[n] <= l'.signals[n])
  }

  lemma OutsideWidens(l: Replay, e: Event)
    requires IsOutside(e)
    ensures Widens(l, Absorb(l, e))
  {
  }

  lemma WidensSignal(l: Replay, l': Replay, c: Consumption)
    requires Widens(l, l') && SignalAt(l, c).Some?
    ensures SignalAt(l', c) == SignalAt(l, c)
  {
    assert Queue(l, c.name) <= Queue(l', c.name);
  }

  lemma WidensLog(l: Replay, l': Replay)
    requires Widens(l, l') && LogOk(l)
    ensures LogOk(l')
    ensures forall o :: o in l.consumed ==> SignalAt(l', l'.consumed[o]) == SignalAt(l, l.consumed[o])
  {
    forall o | o in l.consumed ensures SignalAt(l', l'.consumed[o]) == SignalAt(l, l.consumed[o]) {
      WidensSignal(l, l', l.consumed[o]);
    }
  }

  lemma WidensPhase(w: Program, l: Replay, l': Replay, r: Run)
    requires Widens(l, l') && PhaseOk(w, l, r)
    ensures PhaseOk(w, l', r)
  {
    assert forall n :: Queue(l, n) <= Queue(l', n);
  }

  lemma WidensRun(w: Program, l: Replay, l': Replay, r: Run)
    requires Widens(l, l') && CopyOk(l, r) && TicksOk(l, r)
    ensures CopyOk(l', r) && TicksOk(l', r)
  {
  }

  lemma OutsideKeepsInv(w: Program, s: State, e: Event)
    requires Inv(w, s) && IsOutside(e)
    ensures Inv(w, s.(log := s.log + [e]))
  {
    FoldAppend(s.log, e);
    var l, l' := Fold(s.log), Absorb(Fold(s.log), e);
    OutsideWidens(l, e);
    WidensLog(l, l');
    if s.run.Some? {
      var r := s.run.value;
      WidensRun(w, l, l', r);
      WidensPhase(w, l, l', r);
      TraceFrame(w, l, r, l', r);
    }
  }

  /** Observations stay explained while the facts that explain them only grow. */
  lemma TraceFrame(w: Program, l: Replay, r: Run, l': Replay, r': Run)
    requires TraceOk(w, l, r) && r'.trace == r.trace
    requires forall n :: n in l.steps ==> n in l'.steps && l'.steps[n] == l.steps[n]
    requires forall o :: o in r.replay.nows ==> o in r'.replay.nows && r'.replay.nows[o] == r.replay.nows[o]
    requires l.sleepDone <= l'.sleepDone && r.replay.timeouts <= r'.replay.timeouts
    requires forall o :: o in l.consumed ==> o in l'.consumed && SignalAt(l', l'.consumed[o]) == SignalAt(l, l.consumed[o])
    requires forall o :: o in l'.consumed && o !in l.consumed ==> o > Waits(r.trace)
    ensures TraceOk(w, l', r')
  {
    forall m | 0 <= m < |r.trace| ensures ObsOk(w, l', r', m) {
      assert ObsOk(w, l, r, m);
      WaitsMonotone(r.trace, m);
    }
  }

  /** Nothing that concerns signals, sleeps or time-outs differs. */
  ghost predicate SameWaits(l: Replay, l': Replay) {
    && l'.consumed == l.consumed && l'.signals == l.signals && l'.timeouts == l.timeouts
    && l'.sleepDone == l.sleepDone && l'.claimed == l.claimed
  }

  lemma CopyFrame(l: Replay, r: Run, l': Replay, r': Run)
    requires LogOk(l) && CopyOk(l, r)
    requires SameWaits(l, l') && SameWaits(r.replay, r'.replay)
    requires r'.trace == r.trace && r'.replay.steps == l'.steps
    ensures LogOk(l') && CopyOk(l', r')
  {
    assert forall c: Consumption :: SignalAt(l', c) == SignalAt(l, c);
    assert forall c: Consumption :: SignalAt(r'.replay, c) == SignalAt(r.replay, c);
  }

  /** A run that turns to an append keeps its trace explained. */
  lemma AwaitKeepsTrace(w: Program, l: Replay, r: Run, r': Run)
    requires TraceOk(w, l, r)
    requires r'.trace == r.trace && r'.replay == r.replay
    ensures TraceOk(w, l, r')
  {
    forall m | 0 <= m < |r.trace| ensures ObsOk(w, l, r', m) {
      assert ObsOk(w, l, r, m);
    }
  }

  /** One more observation that is already settled by the log or known to the run. */
  lemma SawKeepsTrace(w: Program, l: Replay, r: Run, obs: Obs)
    requires TraceOk(w, l, r)
    requires ObsOk(w, l, Saw(r, obs), |r.trace|)
    ensures TraceOk(w, l, Saw(r, obs))
  {
    var r' := Saw(r, obs);
    forall m | 0 <= m < |r'.trace| ensures ObsOk(w, l, r', m) {
      if m < |r.trace| {
        assert r'.trace[..m] == r.trace[..m];
        assert ObsOk(w, l, r, m);
      }
    }
  }

  lemma SawKeepsCopy(l: Replay, r: Run, obs: Obs)
    requires CopyOk(l, r)
    requires var o := Waits(r.trace) + 1; obs.Got? || obs.TimedOut? ==> o in l.consumed || o in r.replay.timeouts
    ensures CopyOk(l, Saw(r, obs))
  {
    CountAppend(r.trace, obs);
    WaitsKeepCopy(l, r, Saw(r, obs));
  }

  /** The copy depends on the trace by the number of its waits alone. */
  lemma WaitsKeepCopy(l: Replay, r: Run, r': Run)
    requires CopyOk(l, r) && r'.replay == r.replay
    requires Waits(r'.trace) == Waits(r.trace)
             || (Waits(r'.trace) == Waits(r.trace) + 1 && (Waits(r'.trace) in l.consumed || Waits(r'.trace) in r.replay.timeouts))
    ensures CopyOk(l, r')
  {
  }

  /** A call answered from the log. */
  lemma SawKeepsRun(w: Program, l: Replay, r: Run, obs: Obs)
    requires RunOk(w, l, r) && r.phase.Ready?
    requires var o := Waits(r.trace) + 1; obs.Got? || obs.TimedOut? ==> o in l.consumed || o in r.replay.timeouts
    requires ObsOk(w, l, Saw(r, obs), |r.trace|)
    ensures RunOk(w, l, Saw(r, obs))
  {
    SawKeepsCopy(l, r, obs);
    SawKeepsTrace(w, l, r, obs);
  }

  /** A consumption that the run knows of names the same signal in the log. */
  lemma CopiedSignal(l: Replay, r: Run, o: nat)
    requires CopyOk(l, r) && o in r.replay.consumed
    ensures o in l.consumed && SignalAt(l, l.consumed[o]) == SignalAt(r.replay, r.replay.consumed[o])
  {
    assert Queue(r.replay, l.consumed[o].name) <= Queue(l, l.consumed[o].name);
  }

  lemma NextKey(w: Program, r: Run, obs: Obs)
    ensures KeyAt(w, Saw(r, obs).trace, |r.trace|) == KeyAfter(w, r.trace)
  {
    assert Saw(r, obs).trace[..|r.trace|] == r.trace;
  }

  lemma AnsweredObs(w: Program, l: Replay, r: Run, o: nat, obs: Obs)
    requires CopyOk(l, r) && w(r.trace).CallWait? && o == Waits(r.trace) + 1 && o in r.replay.consumed
    requires obs == Got(SignalAt(r.replay, r.replay.consumed[o]))
    ensures ObsOk(w, l, Saw(r, obs), |r.trace|) && o in l.consumed
  {
    CopiedSignal(l, r, o);
    NextKey(w, r, obs);
  }

  lemma TimedOutObs(w: Program, l: Replay, r: Run, o: nat)
    requires CopyOk(l, r) && w(r.trace).CallWait? && o == Waits(r.trace) + 1
    requires o !in r.replay.consumed && o in r.replay.timeouts
    ensures ObsOk(w, l, Saw(r, TimedOut), |r.trace|)
  {
    NextKey(w, r, TimedOut);
  }

  /** A wait that the run cannot answer from its copy turns to an append. */
  lemma OpenWaitKeepsRun(w: Program, l: Replay, r: Run, r': Run)
    requires LogOk(l) && RunOk(w, l, r) && r.phase.Ready? && w(r.trace).CallWait? && r' == DoContinue(w, r)
    requires Waits(r.trace) + 1 !in r.replay.consumed && Waits(r.trace) + 1 !in r.replay.timeouts
    ensures RunOk(w, l, r')
  {
    AwaitKeepsTrace(w, l, r, r');
  }

  lemma AnsweredWaitKeepsRun(w: Program, l: Replay, r: Run, o: nat, obs: Obs)
    requires RunOk(w, l, r) && r.phase.Ready? && w(r.trace).CallWait? && o == Waits(r.trace) + 1 && o in r.replay.consumed
    requires obs == Got(SignalAt(r.replay, r.replay.consumed[o]))
    ensures RunOk(w, l, Saw(r, obs))
  {
    AnsweredObs(w, l, r, o, obs);
    SawKeepsRun(w, l, r, obs);
  }

  lemma TimedOutWaitKeepsRun(w: Program, l: Replay, r: Run, o: nat)
    requires RunOk(w, l, r) && r.phase.Ready? && w(r.trace).CallWait? && o == Waits(r.trace) + 1
    requires o !in r.replay.consumed && o in r.replay.timeouts
    ensures RunOk(w, l, Saw(r, TimedOut))
  {
    TimedOutObs(w, l, r, o);
    SawKeepsRun(w, l, r, TimedOut);
  }

  /** The three ways in which a wait goes on. */
  lemma WaitCases(w: Program, r: Run, o: nat)
    requires w(r.trace).CallWait? && o == Waits(r.trace) + 1
    ensures o in r.replay.consumed ==> DoContinue(w, r) == Saw(r, Got(SignalAt(r.replay, r.replay.consumed[o])))
    ensures o !in r.replay.consumed && o in r.replay.timeouts ==> DoContinue(w, r) == Saw(r, TimedOut)
  {
  }

  lemma WaitKeepsRun(w: Program, l: Replay, r: Run)
    requires LogOk(l) && RunOk(w, l, r) && r.phase.Ready? && w(r.trace).CallWait?
    ensures RunOk(w, l, DoContinue(w, r))
  {
    var o := Waits(r.trace) + 1;
    WaitCases(w, r, o);
    if o in r.replay.consumed {
      AnsweredWaitKeepsRun(w, l, r, o, Got(SignalAt(r.replay, r.replay.consumed[o])));
    } else if o in r.replay.timeouts {
      TimedOutWaitKeepsRun(w, l, r, o);
    } else {
      OpenWaitKeepsRun(w, l, r, DoContinue(w, r));
    }
  }

  lemma AwaitKeepsRun(w: Program, l: Replay, r: Run, e: Event, next: Then)
    requires RunOk(w, l, r) && r.phase.Ready? && !next.Observe?
    requires e.SleepStarted? || e.TimeoutScheduled? || e.Completed? || e.Failed? || e.Suspended?
    ensures RunOk(w, l, Await(r, e, next))
  {
    AwaitKeepsTrace(w, l, r, Await(r, e, next));
  }

  lemma WokenSleepKeepsRun(w: Program, l: Replay, r: Run)
    requires RunOk(w, l, r) && r.phase.Ready? && w(r.trace).CallSleep? && Sleeps(r.trace) + 1 in r.replay.sleepDone
    ensures RunOk(w, l, Saw(r, Woke))
  {
    NextKey(w, r, Woke);
    SawKeepsRun(w, l, r, Woke);
  }

  lemma SleepKeepsRun(w: Program, l: Replay, r: Run)
    requires RunOk(w, l, r) && r.phase.Ready? && w(r.trace).CallSleep?
    ensures RunOk(w, l, DoSleep(r))
  {
    var o := Sleeps(r.trace) + 1;
    if o in r.replay.sleepDone {
      WokenSleepKeepsRun(w, l, r);
    } else if o !in r.replay.sleepStarted {
      AwaitKeepsRun(w, l, r, SleepStarted(o), Suspend);
    } else {
      AwaitKeepsRun(w, l, r, Suspended, Finish);
    }
  }

  lemma ReplayedStepKeepsRun(w: Program, l: Replay, r: Run, name: string)
    requires RunOk(w, l, r) && r.phase.Ready? && w(r.trace) == CallStep(name) && name in r.replay.steps
    ensures RunOk(w, l, Saw(r, StepDone(name, r.replay.steps[name])))
  {
    var obs := StepDone(name, r.replay.steps[name]);
    assert Saw(r, obs).trace[..|r.trace|] == r.trace;
    SawKeepsRun(w, l, r, obs);
  }

  lemma ReplayedClockKeepsRun(w: Program, l: Replay, r: Run, o: nat)
    requires RunOk(w, l, r) && r.phase.Ready? && w(r.trace) == CallNow && o == Nows(r.trace) + 1 && o in r.replay.nows
    ensures RunOk(w, l, Saw(r, Clock(r.replay.nows[o])))
  {
    var obs := Clock(r.replay.nows[o]);
    assert Saw(r, obs).trace[..|r.trace|] == r.trace;
    SawKeepsRun(w, l, r, obs);
  }

  lemma ContinueKeepsRun(w: Program, l: Replay, r: Run)
    requires LogOk(l) && RunOk(w, l, r) && r.phase.Ready?
    ensures RunOk(w, l, DoContinue(w, r))
  {
    match w(r.trace)
    case CallStep(name) => if name in r.replay.steps { ReplayedStepKeepsRun(w, l, r, name); }
    case CallNow =>
      var o := Nows(r.trace) + 1;
      if o in r.replay.nows { ReplayedClockKeepsRun(w, l, r, o); }
    case CallSleep => SleepKeepsRun(w, l, r);
    case CallWait(_, _) => WaitKeepsRun(w, l, r);
    case Return(v) => AwaitKeepsRun(w, l, r, Completed(v), Finish);
    case Throw(e) => AwaitKeepsRun(w, l, r, Failed(e), Finish);
  }

  lemma NewTickKeepsRun(w: Program, l: Replay, r: Run, o: nat, time: int, mid: Run)
    requires RunOk(w, l, r) && r.phase.Ready? && o !in r.replay.nows
    requires mid == r.(replay := r.replay.(nows := r.replay.nows[o := time]), pending := r.pending + [Tick(o, time)])
    ensures RunOk(w, l, mid)
  {
    NewTickOk(l, r, o, time, mid);
    TraceFrame(w, l, r, l, mid);
    NewTickKeepsCopy(l, r, mid);
  }

  lemma NewTickKeepsCopy(l: Replay, r: Run, mid: Run)
    requires CopyOk(l, r) && mid.replay == r.replay.(nows := mid.replay.nows) && mid.trace == r.trace
    ensures CopyOk(l, mid)
  {
    assert forall c: Consumption :: SignalAt(mid.replay, c) == SignalAt(r.replay, c);
  }

  lemma ReadClockKeepsRun(w: Program, l: Replay, r: Run, time: int)
    requires RunOk(w, l, r) && r.phase.Ready?
    ensures RunOk(w, l, DoReadClock(w, r, time))
  {
    var r' := DoReadClock(w, r, time);
    if r' != r {
      var o := Nows(r.trace) + 1;
      var mid := r.(replay := r.replay.(nows := r.replay.nows[o := time]), pending := r.pending + [Tick(o, time)]);
      NewTickKeepsRun(w, l, r, o, time, mid);
      TickIsSeen(w, l, mid, o, time);
      SawKeepsRun(w, l, mid, Clock(time));
    }
  }

  lemma TickIsSeen(w: Program, l: Replay, r: Run, o: nat, time: int)
    requires w(r.trace).CallNow? && o == Nows(r.trace) + 1 && o in r.replay.nows && r.replay.nows[o] == time
    ensures ObsOk(w, l, Saw(r, Clock(time)), |r.trace|)
  {
    NextKey(w, r, Clock(time));
  }

  lemma NewTickOk(l: Replay, r: Run, o: nat, time: int, r': Run)
    requires TicksOk(l, r) && o !in r.replay.nows
    requires r'.replay.nows == r.replay.nows[o := time] && r'.pending == r.pending + [Tick(o, time)]
    ensures TicksOk(l, r')
  {
    forall p | p in r'.replay.nows ensures p in l.nows || Tick(p, r'.replay.nows[p]) in r'.pending {
      if p == o { assert r'.pending[|r.pending|] == Tick(o, time); }
    }
  }

  lemma RunBodyKeepsRun(w: Program, l: Replay, r: Run, outcome: Outcome)
    requires RunOk(w, l, r) && r.phase.Ready?
    ensures RunOk(w, l, DoRunBody(w, r, outcome))
  {
    var r' := DoRunBody(w, r, outcome);
    if r'.trace != r.trace {
      assert r'.trace[..|r.trace|] == r.trace;
      SawKeepsRun(w, l, r, StepThrew(w(r.trace).stepName, outcome.error));
    } else {
      AwaitKeepsTrace(w, l, r, r');
    }
  }

  lemma FlushOk(l: Replay, r: Run, l': Replay, r': Run)
    requires TicksOk(l, r) && r.pending != []
    requires l'.nows == l.nows[r.pending[0].ordinal := r.pending[0].time]
    requires r'.replay.nows == r.replay.nows && r'.pending == r.pending[1..]
    ensures TicksOk(l', r')
  {
    forall o | o in r'.replay.nows ensures o in l'.nows || Tick(o, r'.replay.nows[o]) in r'.pending {
      if o !in l'.nows {
        var i :| 0 <= i < |r.pending| && r.pending[i] == Tick(o, r.replay.nows[o]);
        assert r'.pending[i - 1] == r.pending[i];
      }
    }
  }

  /** A clock append changes nothing but the recorded clock values. */
  lemma FlushKeepsRun(w: Program, l: Replay, r: Run, l': Replay, r': Run)
    requires LogOk(l) && RunOk(w, l, r) && r.pending != []
    requires l' == Absorb(l, NowRecorded(r.pending[0].ordinal, r.pending[0].time))
    requires r' == r.(pending := r.pending[1..])
    ensures LogOk(l') && RunOk(w, l', r')
  {
    CopyFrame(l, r, l', r');
    FlushOk(l, r, l', r');
    FlushKeepsPhase(w, l, r, l', r');
    FlushKeepsTrace(w, l, r, l', r');
  }

  lemma FlushKeepsPhase(w: Program, l: Replay, r: Run, l': Replay, r': Run)
    requires PhaseOk(w, l, r) && l' == l.(nows := l'.nows) && r' == r.(pending := r'.pending)
    ensures PhaseOk(w, l', r')
  {
  }

  lemma FlushKeepsTrace(w: Program, l: Replay, r: Run, l': Replay, r': Run)
    requires TraceOk(w, l, r) && l' == l.(nows := l'.nows) && r' == r.(pending := r'.pending)
    ensures TraceOk(w, l', r')
  {
    forall m | 0 <= m < |r'.trace| ensures ObsOk(w, l', r', m) {
      assert ObsOk(w, l, r, m);
    }
  }

  lemma FlushTickKeepsInv(w: Program, s: State)
    requires Inv(w, s) && s.run.Some? && s.run.value.pending != []
    ensures Inv(w, Do(w, s, FlushTick))
  {
    var r := s.run.value;
    var e := NowRecorded(r.pending[0].ordinal, r.pending[0].time);
    FoldAppend(s.log, e);
    FlushKeepsRun(w, Fold(s.log), r, Absorb(Fold(s.log), e), r.(pending := r.pending[1..]));
  }

  /** A call inside the trace has a smaller wait ordinal than the call after it. */
  lemma {:induction false} WaitsMonotone(h: seq<Obs>, m: nat)
    requires m <= |h|
    ensures Waits(h[..m]) <= Waits(h)
    ensures m < |h| && (h[m].Got? || h[m].TimedOut?) ==> Waits(h[..m]) < Waits(h)
    decreases |h|
  {
    if m < |h| {
      var t := h[..|h| - 1];
      assert h == t + [h[|h| - 1]];
      assert t[..m] == h[..m];
      WaitsMonotone(t, m);
    } else {
      assert h[..m] == h;
    }
  }

  lemma ConsumeKeepsLog(w: Program, l: Replay, r: Run, l': Replay)
    requires LogOk(l) && CopyOk(l, r) && PhaseOk(w, l, r)
    requires r.phase.Recording? && r.phase.event.SignalConsumed? && l' == Absorb(l, r.phase.event)
    ensures LogOk(l') && forall c: Consumption :: SignalAt(l', c) == SignalAt(l, c)
  {
    assert forall c: Consumption :: SignalAt(l', c) == SignalAt(l, c);
  }

  lemma ConsumeKeepsCopy(w: Program, l: Replay, r: Run, l': Replay)
    requires CopyOk(l, r) && PhaseOk(w, l, r)
    requires r.phase.Recording? && r.phase.event.SignalConsumed? && l' == Absorb(l, r.phase.event)
    ensures CopyOk(l', Saw(r, r.phase.next.obs))
  {
    CountAppend(r.trace, r.phase.next.obs);
  }

  lemma ConsumeKeepsTrace(w: Program, l: Replay, r: Run, l': Replay)
    requires TraceOk(w, l, r) && PhaseOk(w, l, r) && forall c: Consumption :: SignalAt(l', c) == SignalAt(l, c)
    requires r.phase.Recording? && r.phase.event.SignalConsumed? && l' == Absorb(l, r.phase.event)
    ensures TraceOk(w, l', Saw(r, r.phase.next.obs))
  {
    TraceFrame(w, l, r, l', r);
    assert Saw(r, r.phase.next.obs).trace[..|r.trace|] == r.trace;
    SawKeepsTrace(w, l', r, r.phase.next.obs);
  }

  /** The append of a consumption: the waiting call sees the signal that the log now names. */
  lemma ConsumeKeepsInv(w: Program, s: State)
    requires Inv(w, s) && s.run.Some? && s.run.value.pending == []
    requires s.run.value.phase.Recording? && s.run.value.phase.event.SignalConsumed?
    ensures Inv(w, Do(w, s, Append))
  {
    var r := s.run.value;
    FoldAppend(s.log, r.phase.event);
    var l, l' := Fold(s.log), Absorb(Fold(s.log), r.phase.event);
    ConsumeKeepsLog(w, l, r, l');
    ConsumeKeepsCopy(w, l, r, l');
    ConsumeKeepsTrace(w, l, r, l');
  }

  lemma StepDoneKeepsRun(w: Program, l: Replay, r: Run, l': Replay, mid: Run)
    requires LogOk(l) && RunOk(w, l, r)
    requires r.phase.Recording? && r.phase.event.StepCompleted? && l' == Absorb(l, r.phase.event)
    requires mid == r.(replay := r.replay.(steps := r.replay.steps[r.phase.event.name := r.phase.event.result]))
    ensures LogOk(l') && RunOk(w, l', Saw(mid, r.phase.next.obs))
  {
    var obs := r.phase.next.obs;
    CopyFrame(l, r, l', mid);
    TraceFrame(w, l, r, l', mid);
    SawKeepsCopy(l', mid, obs);
    assert Saw(mid, obs).trace[..|r.trace|] == r.trace;
    SawKeepsTrace(w, l', mid, obs);
  }

  /** The append of a step result. */
  lemma StepDoneKeepsInv(w: Program, s: State)
    requires Inv(w, s) && s.run.Some? && s.run.value.pending == []
    requires s.run.value.phase.Recording? && s.run.value.phase.event.StepCompleted?
    ensures Inv(w, Do(w, s, Append))
  {
    var r := s.run.value;
    var e := r.phase.event;
    FoldAppend(s.log, e);
    StepDoneKeepsRun(w, Fold(s.log), r, Absorb(Fold(s.log), e), r.(replay := r.replay.(steps := r.replay.steps[e.name := e.result])));
  }

  /** The append of a bookkeeping event, after which the run suspends. */
  lemma QuietKeepsRun(w: Program, l: Replay, r: Run, l': Replay)
    requires LogOk(l) && RunOk(w, l, r)
    requires r.claimed == l.claimed
    requires SameWaits(l, l') && l'.steps == l.steps && l'.nows == l.nows
    ensures LogOk(l') && RunOk(w, l', Await(r, Suspended, Finish))
  {
    var r' := Await(r, Suspended, Finish);
    CopyFrame(l, r, l', r');
    forall m | 0 <= m < |r.trace| ensures ObsOk(w, l', r', m) {
      assert ObsOk(w, l, r, m);
    }
  }

  lemma AppendKeepsInv(w: Program, s: State)
    requires Inv(w, s) && s.run.Some? && s.run.value.pending == [] && s.run.value.phase.Recording?
    ensures Inv(w, Do(w, s, Append))
  {
    var r := s.run.value;
    if r.phase.event.SignalConsumed? {
      ConsumeKeepsInv(w, s);
    } else if r.phase.event.StepCompleted? {
      StepDoneKeepsInv(w, s);
    } else {
      FoldAppend(s.log, r.phase.event);
      QuietKeepsRun(w, Fold(s.log), r, Fold(s.log + [r.phase.event]));
    }
  }

  lemma StepKeepsInv(w: Program, s: State, a: Action)
    requires Inv(w, s)
    ensures Inv(w, Do(w, s, a))
  {
    if Do(w, s, a) != s {
      match a
      case Begin =>
      case Continue => ContinueKeepsRun(w, Fold(s.log), s.run.value);
      case ReadClock(t) => ReadClockKeepsRun(w, Fold(s.log), s.run.value, t);
      case RunBody(outcome) => RunBodyKeepsRun(w, Fold(s.log), s.run.value, outcome);
      case FlushTick => FlushTickKeepsInv(w, s);
      case Append => AppendKeepsInv(w, s);
      case Crash =>
      case Outside(e) => OutsideKeepsInv(w, s, e);
    }
  }

  lemma {:induction false} AlwaysInv(w: Program, acts: seq<Action>)
    ensures Inv(w, After(w, acts))
  {
    if acts != [] {
      AlwaysInv(w, acts[..|acts| - 1]);
      StepKeepsInv(w, After(w, acts[..|acts| - 1]), acts[|acts| - 1]);
    }
  }
}
