/**
 The durable workflow engine: a workflow function is re-run against a log that is folded
 into a replay state, and every operation either answers from the log or appends to it.

 One workflow instance is modelled. Runs are serialized by the engine's queue, so a state
 holds at most one run; everything that can happen between two awaits is one action, and
 signals, wake-ups, time-outs and cancellations may be appended between any two actions.
 */
module Workflow {
  import opened Wrappers

  /** Payloads are opaque: the engine only stores them and hands them back. */
  type Value(==, !new)

  datatype Event =
    | Started(input: Value)
    | StepCompleted(name: string, result: Value)
    | SleepStarted(ordinal: nat)
    | SleepCompleted(ordinal: nat)
    | SignalReceived(name: string, value: Value)
    | SignalConsumed(name: string, index: nat, ordinal: nat)
    | SignalTimeout(ordinal: nat)
    | TimeoutScheduled(ordinal: nat)
    | NowRecorded(ordinal: nat, time: int)
    | Completed(result: Value)
    | Failed(error: string)
    | Cancelled
    | Suspended

  datatype Status = Running | IsCompleted | IsFailed | IsCancelled | IsSuspended

  datatype Consumption = Consumption(name: string, index: nat)

  datatype Replay = Replay(
    steps: map<string, Value>,
    sleepStarted: set<nat>,
    sleepDone: set<nat>,
    signals: map<string, seq<Value>>,
    consumed: map<nat, Consumption>,
    claimed: set<Consumption>,
    timeouts: set<nat>,
    scheduled: set<nat>,
    nows: map<nat, int>,
    status: Status)

  const EmptyReplay := Replay(map[], {}, {}, map[], map[], {}, {}, {}, map[], Running)

  // ----- folding the log -----

  function Queue(r: Replay, name: string): seq<Value> {
    if name in r.signals then r.signals[name] else []
  }

  /** What one event does to the replay state. */
  function Absorb(r: Replay, e: Event): Replay {
    match e
    case StepCompleted(name, result) => r.(steps := r.steps[name := result])
    case SleepStarted(o) => r.(sleepStarted := r.sleepStarted + {o})
    case SleepCompleted(o) => r.(sleepDone := r.sleepDone + {o})
    case SignalReceived(name, v) => r.(signals := r.signals[name := Queue(r, name) + [v]])
    case SignalConsumed(name, i, o) =>
      r.(consumed := r.consumed[o := Consumption(name, i)], claimed := r.claimed + {Consumption(name, i)})
    case SignalTimeout(o) => r.(timeouts := r.timeouts + {o})
    case TimeoutScheduled(o) => r.(scheduled := r.scheduled + {o})
    case NowRecorded(o, t) => r.(nows := r.nows[o := t])
    case Completed(_) => r.(status := IsCompleted)
    case Failed(_) => r.(status := IsFailed)
    case Cancelled => r.(status := IsCancelled)
    case Suspended => r.(status := IsSuspended)
    case Started(_) => r
  }

  function Fold(log: seq<Event>): Replay {
    if log == [] then EmptyReplay else Absorb(Fold(log[..|log| - 1]), log[|log| - 1])
  }

  lemma FoldAppend(log: seq<Event>, e: Event)
    ensures Fold(log + [e]) == Absorb(Fold(log), e)
  {
    assert (log + [e])[..|log|] == log;
  }

  predicate HasStarted(log: seq<Event>) {
    exists e :: e in log && e.Started?
  }

  lemma FoldNext(log: seq<Event>, i: nat)
    requires i < |log|
    ensures Fold(log[..i + 1]) == Absorb(Fold(log[..i]), log[i])
    ensures HasStarted(log[..i + 1]) <==> HasStarted(log[..i]) || log[i].Started?
  {
    assert log[..i + 1] == log[..i] + [log[i]];
    FoldAppend(log[..i], log[i]);
  }

  /** The loop that rebuilds the replay state; `None` when the workflow was never started. */
  method BuildReplayState(events: seq<Event>) returns (state: Option<Replay>)
    ensures state == if HasStarted(events) then Some(Fold(events)) else None
  {
    var started := false;
    var steps: map<string, Value>, nows: map<nat, int> := map[], map[];
    var sleepStarted: set<nat>, sleepDone: set<nat>, timeouts: set<nat>, scheduled: set<nat> := {}, {}, {}, {};
    var signals: map<string, seq<Value>>, consumed: map<nat, Consumption>, claimed: set<Consumption> := map[], map[], {};
    var status := Running;
    for i := 0 to |events|
      invariant Replay(steps, sleepStarted, sleepDone, signals, consumed, claimed, timeouts, scheduled, nows, status) == Fold(events[..i])
      invariant started <==> HasStarted(events[..i])
    {
      FoldNext(events, i);
      match events[i]
      case Started(_) => started := true;
      case StepCompleted(name, result) => steps := steps[name := result];
      case SleepStarted(o) => sleepStarted := sleepStarted + {o};
      case SleepCompleted(o) => sleepDone := sleepDone + {o};
      case SignalReceived(name, v) =>
        var list := if name in signals then signals[name] else [];
        signals := signals[name := list + [v]];
      case SignalConsumed(name, index, o) =>
        consumed := consumed[o := Consumption(name, index)];
        claimed := claimed + {Consumption(name, index)};
      case SignalTimeout(o) => timeouts := timeouts + {o};
      case TimeoutScheduled(o) => scheduled := scheduled + {o};
      case NowRecorded(o, time) => nows := nows[o := time];
      case Completed(_) => status := IsCompleted;
      case Failed(_) => status := IsFailed;
      case Cancelled => status := IsCancelled;
      case Suspended => status := IsSuspended;
    }
    assert events[..|events|] == events;
    if !started { return None; }
    state := Some(Replay(steps, sleepStarted, sleepDone, signals, consumed, claimed, timeouts, scheduled, nows, status));
  }

  // ----- workflow functions -----

  /** What a workflow function sees as the outcome of one `ctx` call. */
  datatype Obs =
    | StepDone(name: string, result: Value)
    | StepThrew(name: string, error: string)   // the step body failed; nothing is recorded
    | Clock(time: int)
    | Woke
    | Got(signal: Option<Value>)               // `None` would be JavaScript's undefined
    | TimedOut

  /** The next thing a workflow function does. */
  datatype Op =
    | CallStep(stepName: string)
    | CallNow
    | CallSleep
    | CallWait(signalName: string, hasTimeout: bool)
    | Return(result: Value)
    | Throw(error: string)

  /**
   A sequential workflow function: what it does next depends on what its calls returned so
   far and on nothing else. It may handle time-outs and step failures in any way.
   */
  type Program = seq<Obs> -> Op

  function Nows(h: seq<Obs>): nat {
    if h == [] then 0 else Nows(h[..|h| - 1]) + if h[|h| - 1].Clock? then 1 else 0
  }

  function Sleeps(h: seq<Obs>): nat {
    if h == [] then 0 else Sleeps(h[..|h| - 1]) + if h[|h| - 1].Woke? then 1 else 0
  }

  function Waits(h: seq<Obs>): nat {
    if h == [] then 0 else Waits(h[..|h| - 1]) + if h[|h| - 1].Got? || h[|h| - 1].TimedOut? then 1 else 0
  }

  // ----- the engine -----

  datatype Then = Observe(obs: Obs) | Suspend | Finish

  /** `Recording` is a run that awaits the append of `event`. */
  datatype Phase = Ready | Recording(event: Event, next: Then)

  datatype Tick = Tick(ordinal: nat, time: int)

  /**
   One run of the workflow function. `pending` are clock reads whose appends are still under
   way. The engine's three ordinals are the numbers of completed calls in `trace`, plus one.
   */
  datatype Run = Run(
    replay: Replay,
    claimed: set<Consumption>,
    pending: seq<Tick>,
    trace: seq<Obs>,
    phase: Phase)

  datatype State = State(log: seq<Event>, run: Option<Run>)

  datatype Outcome = Ok(value: Value) | Err(error: string)

  datatype Action =
    | Begin                       // a queued run reads the log and starts
    | Continue                    // the run makes its next call, answered without outside input
    | ReadClock(time: int)        // the run makes a clock call that is not in the log
    | RunBody(outcome: Outcome)   // the run executes a step body that is not in the log
    | FlushTick                   // the oldest pending clock append lands
    | Append                      // the awaited append lands
    | Crash
    | Outside(event: Event)       // an append from outside the run

  predicate IsOutside(e: Event) {
    e.Started? || e.SignalReceived? || e.SleepCompleted? || e.SignalTimeout? || e.Cancelled?
  }

  predicate IsTerminal(s: Status) {
    s.IsCompleted? || s.IsFailed? || s.IsCancelled?
  }

  /** The smallest index at or after `from` of an unclaimed signal, or `None`. */
  function Unclaimed(queue: seq<Value>, name: string, claimed: set<Consumption>, from: nat): (r: Option<nat>)
    ensures r.Some? ==> from <= r.value < |queue| && Consumption(name, r.value) !in claimed
    ensures forall i :: from <= i < (if r.Some? then r.value else |queue|) ==> Consumption(name, i) in claimed
    decreases |queue| - from
  {
    if from >= |queue| then None
    else if Consumption(name, from) !in claimed then Some(from)
    else Unclaimed(queue, name, claimed, from + 1)
  }

  /** The scan in `waitForSignal`. */
  method FindUnclaimed(queue: seq<Value>, name: string, claimed: set<Consumption>) returns (index: int)
    ensures index == -1 ==> forall i :: 0 <= i < |queue| ==> Consumption(name, i) in claimed
    ensures index != -1 ==> 0 <= index < |queue| && Consumption(name, index) !in claimed
    ensures index != -1 ==> forall i :: 0 <= i < index ==> Consumption(name, i) in claimed
  {
    index := -1;
    for i := 0 to |queue|
      invariant index == -1
      invariant forall j :: 0 <= j < i ==> Consumption(name, j) in claimed
    {
      if Consumption(name, i) !in claimed {
        index := i;
        break;
      }
    }
  }

  function SignalAt(r: Replay, c: Consumption): Option<Value> {
    if c.index < |Queue(r, c.name)| then Some(Queue(r, c.name)[c.index]) else None
  }

  function Saw(r: Run, obs: Obs): Run {
    r.(trace := r.trace + [obs], phase := Ready)
  }

  function Await(r: Run, e: Event, next: Then): Run {
    r.(phase := Recording(e, next))
  }

  /** `ctx.sleep`. */
  function DoSleep(r: Run): Run {
    var o := Sleeps(r.trace) + 1;
    if o in r.replay.sleepDone then Saw(r, Woke)
    else if o !in r.replay.sleepStarted then Await(r, SleepStarted(o), Suspend)
    else Await(r, Suspended, Finish)
  }

  /** `ctx.waitForSignal`. */
  function DoWait(r: Run, name: string, hasTimeout: bool): Run {
    var o := Waits(r.trace) + 1;
    if o in r.replay.consumed then Saw(r, Got(SignalAt(r.replay, r.replay.consumed[o])))
    else if o in r.replay.timeouts then Saw(r, TimedOut)
    else
      var queue := Queue(r.replay, name);
      var index := Unclaimed(queue, name, r.claimed, 0);
      if index.Some? then
        Await(r.(claimed := r.claimed + {Consumption(name, index.value)}),
              SignalConsumed(name, index.value, o), Observe(Got(Some(queue[index.value]))))
      else if hasTimeout && o !in r.replay.scheduled then Await(r, TimeoutScheduled(o), Suspend)
      else Await(r, Suspended, Finish)
  }

  /** The next call of a run when no outside input is needed. */
  function DoContinue(w: Program, r: Run): Run {
    match w(r.trace)
    case CallStep(name) =>
      if name in r.replay.steps then Saw(r, StepDone(name, r.replay.steps[name])) else r
    case CallNow =>
      var o := Nows(r.trace) + 1;
      if o in r.replay.nows then Saw(r, Clock(r.replay.nows[o])) else r
    case CallSleep => DoSleep(r)
    case CallWait(name, hasTimeout) => DoWait(r, name, hasTimeout)
    case Return(v) => Await(r, Completed(v), Finish)
    case Throw(e) => Await(r, Failed(e), Finish)
  }

  /** `ctx.now` on a clock read that is not recorded: the value is used before its append lands. */
  function DoReadClock(w: Program, r: Run, time: int): Run {
    var o := Nows(r.trace) + 1;
    if w(r.trace).CallNow? && o !in r.replay.nows then
      Saw(r.(replay := r.replay.(nows := r.replay.nows[o := time]), pending := r.pending + [Tick(o, time)]), Clock(time))
    else r
  }

  /** `ctx.step` on a step that is not recorded. */
  function DoRunBody(w: Program, r: Run, outcome: Outcome): Run {
    match w(r.trace)
    case CallStep(name) =>
      if name in r.replay.steps then r
      else (match outcome
            case Ok(v) => Await(r, StepCompleted(name, v), Observe(StepDone(name, v)))
            case Err(e) => Saw(r, StepThrew(name, e)))
    case _ => r
  }

  /** The awaited append lands; every one of them drains the pending clock appends first. */
  function DoAppend(s: State, r: Run): State
    requires r.phase.Recording?
  {
    var e := r.phase.event;
    var log := s.log + [e];
    match r.phase.next
    case Observe(obs) =>
      var replay := if e.StepCompleted? then r.replay.(steps := r.replay.steps[e.name := e.result]) else r.replay;
      State(log, Some(Saw(r.(replay := replay), obs)))
    case Suspend => State(log, Some(Await(r, Suspended, Finish)))
    case Finish => State(log, None)
  }

  function NewRun(log: seq<Event>): Run {
    Run(Fold(log), Fold(log).claimed, [], [], Ready)
  }

  /** One action; an action that is not enabled changes nothing. */
  function Do(w: Program, s: State, a: Action): State {
    match a
    case Begin =>
      if s.run.None? && HasStarted(s.log) && !IsTerminal(Fold(s.log).status)
      then s.(run := Some(NewRun(s.log))) else s
    case Continue =>
      if s.run.Some? && s.run.value.phase.Ready? then s.(run := Some(DoContinue(w, s.run.value))) else s
    case ReadClock(t) =>
      if s.run.Some? && s.run.value.phase.Ready? then s.(run := Some(DoReadClock(w, s.run.value, t))) else s
    case RunBody(outcome) =>
      if s.run.Some? && s.run.value.phase.Ready? then s.(run := Some(DoRunBody(w, s.run.value, outcome))) else s
    case FlushTick =>
      if s.run.Some? && s.run.value.pending != [] then
        var tick := s.run.value.pending[0];
        State(s.log + [NowRecorded(tick.ordinal, tick.time)], Some(s.run.value.(pending := s.run.value.pending[1..])))
      else s
    case Append =>
      if s.run.Some? && s.run.value.phase.Recording? && s.run.value.pending == []
      then DoAppend(s, s.run.value) else s
    case Crash => s.(run := None)
    case Outside(e) => if IsOutside(e) then s.(log := s.log + [e]) else s
  }

  const Fresh := State([], None)

  /** The state after a history of actions. Every interleaving is some `acts`. */
  function After(w: Program, acts: seq<Action>): State {
    if acts == [] then Fresh else Do(w, After(w, acts[..|acts| - 1]), acts[|acts| - 1])
  }

  // ----- what an observation is keyed by -----

  datatype Key = StepKey(name: string) | NowKey(ordinal: nat) | SleepKey(ordinal: nat) | WaitKey(ordinal: nat)

  /** The key under which the engine records the call that a workflow makes after `h`. */
  function KeyAfter(w: Program, h: seq<Obs>): Option<Key> {
    match w(h)
    case CallStep(name) => Some(StepKey(name))
    case CallNow => Some(NowKey(Nows(h) + 1))
    case CallSleep => Some(SleepKey(Sleeps(h) + 1))
    case CallWait(_, _) => Some(WaitKey(Waits(h) + 1))
    case _ => None
  }

  function KeyAt(w: Program, h: seq<Obs>, m: nat): Option<Key>
    requires m < |h|
  {
    KeyAfter(w, h[..m])
  }

  /**
   The log of `s` settles key `k` as `obs`. A consumed signal wins over a time-out for the
   same wait; a time-out settles a wait only once the running run, if any, knows of it.
   */
  predicate Settles(s: State, k: Key, obs: Obs) {
    var l := Fold(s.log);
    match k
    case StepKey(name) => name in l.steps && obs == StepDone(name, l.steps[name])
    case NowKey(o) => o in l.nows && obs == Clock(l.nows[o])
    case SleepKey(o) => o in l.sleepDone && obs == Woke
    case WaitKey(o) =>
      if o in l.consumed then SignalAt(l, l.consumed[o]).Some? && obs == Got(SignalAt(l, l.consumed[o]))
      else o in l.timeouts && (s.run.Some? ==> o in s.run.value.replay.timeouts) && obs == TimedOut
  }
}
