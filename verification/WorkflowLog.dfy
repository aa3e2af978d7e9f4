/**
 What the folded log means, in terms of the events it holds.
 */
module WorkflowLog {
  import opened Workflow

  /** The values received under a name, in order. */
  function Received(log: seq<Event>, name: string): seq<Value> {
    if log == [] then []
    else
      var e := log[|log| - 1];
      Received(log[..|log| - 1], name) + if e.SignalReceived? && e.name == name then [e.value] else []
  }

  /** The status that the last status event set. */
  function LastStatus(log: seq<Event>): Status {
    if log == [] then Running
    else
      match log[|log| - 1]
      case Completed(_) => IsCompleted
      case Failed(_) => IsFailed
      case Cancelled => IsCancelled
      case Suspended => IsSuspended
      case _ => LastStatus(log[..|log| - 1])
  }

  /** The sets hold exactly the ordinals that the log mentions. */
  ghost predicate SetsMean(log: seq<Event>, r: Replay) {
    && (forall o :: o in r.sleepStarted <==> SleepStarted(o) in log)
    && (forall o :: o in r.sleepDone <==> SleepCompleted(o) in log)
    && (forall o :: o in r.timeouts <==> SignalTimeout(o) in log)
    && (forall o :: o in r.scheduled <==> TimeoutScheduled(o) in log)
  }

  /** Step results and clock values are recorded ones, and none is missing. */
  ghost predicate ResultsMean(log: seq<Event>, r: Replay) {
    && (forall n :: n in r.steps ==> StepCompleted(n, r.steps[n]) in log)
    && (forall n, v :: StepCompleted(n, v) in log ==> n in r.steps)
    && (forall o :: o in r.nows ==> NowRecorded(o, r.nows[o]) in log)
    && (forall o, t :: NowRecorded(o, t) in log ==> o in r.nows)
  }

  /** Queues hold what was received, in order. */
  ghost predicate QueuesMean(log: seq<Event>, r: Replay) {
    forall n :: Queue(r, n) == Received(log, n)
  }

  ghost predicate ClaimedIn(log: seq<Event>, c: Consumption) {
    exists e :: e in log && e.SignalConsumed? && e.name == c.name && e.index == c.index
  }

  ghost predicate ConsumedIn(log: seq<Event>, o: nat) {
    exists e :: e in log && e.SignalConsumed? && e.ordinal == o
  }

  /** Claims are the recorded consumptions. */
  ghost predicate ClaimsMean(log: seq<Event>, r: Replay) {
    && (forall c :: c in r.claimed <==> ClaimedIn(log, c))
    && (forall o :: o in r.consumed <==> ConsumedIn(log, o))
    && (forall o :: o in r.consumed ==> SignalConsumed(r.consumed[o].name, r.consumed[o].index, o) in log)
  }

  lemma SetsStep(log: seq<Event>, r: Replay, e: Event)
    requires SetsMean(log, r)
    ensures SetsMean(log + [e], Absorb(r, e))
  {
    assert forall x :: x in log + [e] <==> x in log || x == e;
  }

  lemma ResultsStep(log: seq<Event>, r: Replay, e: Event)
    requires ResultsMean(log, r)
    ensures ResultsMean(log + [e], Absorb(r, e))
  {
    assert forall x :: x in log + [e] <==> x in log || x == e;
  }

  lemma ReceivedMore(log: seq<Event>, e: Event, n: string)
    ensures Received(log + [e], n) == Received(log, n) + if e.SignalReceived? && e.name == n then [e.value] else []
  {
    assert (log + [e])[..|log|] == log;
  }

  lemma QueueMore(r: Replay, e: Event, n: string)
    ensures Queue(Absorb(r, e), n) == Queue(r, n) + if e.SignalReceived? && e.name == n then [e.value] else []
  {
  }

  lemma QueuesStep(log: seq<Event>, r: Replay, e: Event)
    requires QueuesMean(log, r)
    ensures QueuesMean(log + [e], Absorb(r, e))
  {
    forall n ensures Queue(Absorb(r, e), n) == Received(log + [e], n) {
      ReceivedMore(log, e, n);
      QueueMore(r, e, n);
    }
  }

  lemma ClaimedInMore(log: seq<Event>, e: Event, c: Consumption)
    ensures ClaimedIn(log + [e], c) <==> ClaimedIn(log, c) || (e.SignalConsumed? && e.name == c.name && e.index == c.index)
  {
    assert forall x :: x in log + [e] <==> x in log || x == e;
  }

  lemma ConsumedInMore(log: seq<Event>, e: Event, o: nat)
    ensures ConsumedIn(log + [e], o) <==> ConsumedIn(log, o) || (e.SignalConsumed? && e.ordinal == o)
  {
    assert forall x :: x in log + [e] <==> x in log || x == e;
  }

  lemma ClaimsStep(log: seq<Event>, r: Replay, e: Event)
    requires ClaimsMean(log, r)
    ensures ClaimsMean(log + [e], Absorb(r, e))
  {
    var r' := Absorb(r, e);
    forall c ensures c in r'.claimed <==> ClaimedIn(log + [e], c) { ClaimedInMore(log, e, c); }
    forall o ensures o in r'.consumed <==> ConsumedIn(log + [e], o) { ConsumedInMore(log, e, o); }
    assert forall x :: x in log ==> x in log + [e];
  }

  /** The replay state says of the log exactly what the log says. */
  ghost predicate Means(log: seq<Event>, r: Replay) {
    SetsMean(log, r) && ResultsMean(log, r) && QueuesMean(log, r) && ClaimsMean(log, r)
  }
}

/** The fold of every log means what the log says. */
module WorkflowFold {
  import opened Workflow
  import opened WorkflowLog

  lemma MeansStep(log: seq<Event>, r: Replay, e: Event, log': seq<Event>, r': Replay)
    requires Means(log, r) && log' == log + [e] && r' == Absorb(r, e)
    ensures Means(log', r')
  {
    SetsStep(log, r, e);
    ResultsStep(log, r, e);
    QueuesStep(log, r, e);
    ClaimsStep(log, r, e);
  }

  lemma EmptyMeans()
    ensures Means([], EmptyReplay)
  {
  }

  lemma {:induction false} FoldMeans(log: seq<Event>)
    ensures Means(log, Fold(log)) && Fold(log).status == LastStatus(log)
  {
    if log == [] {
      EmptyMeans();
    } else {
      var init, e := log[..|log| - 1], log[|log| - 1];
      FoldMeans(init);
      MeansStep(init, Fold(init), e, log, Fold(log));
    }
    StatusIsLast(log);
  }

  lemma {:induction false} StatusIsLast(log: seq<Event>)
    ensures Fold(log).status == LastStatus(log)
  {
    if log != [] { StatusIsLast(log[..|log| - 1]); }
  }
}
