/** What the workflow engine promises, stated over every history of actions. */
module WorkflowTheorems {
  import opened Workflow
  import opened WorkflowInvariant
  import opened WorkflowReplay
  import opened Wrappers

  // ----- what can be appended -----

  /** `e` repeats nothing that the log holds, and a consumption takes the next signal in line. */
  ghost predicate IsNew(l: Replay, e: Event) {
    match e
    case StepCompleted(n, _) => n !in l.steps
    case NowRecorded(o, _) => o !in l.nows
    case SignalConsumed(n, i, o) =>
      && (forall p :: p in l.consumed ==> p < o)
      && Consumption(n, i) !in l.claimed
      && (forall k :: 0 <= k < i ==> Consumption(n, k) in l.claimed)
    case _ => true
  }

  lemma ConsumptionIsNew(w: Program, l: Replay, r: Run)
    requires RunOk(w, l, r) && r.phase.Recording? && r.phase.event.SignalConsumed?
    ensures IsNew(l, r.phase.event)
  {
    var o := r.phase.event.ordinal;
    assert forall p :: p in r.replay.consumed && o < p ==> o in r.replay.consumed || o in r.replay.timeouts;
  }

  /** An action appends at most one event, and that event is new. */
  ghost predicate Appends(s: State, log': seq<Event>, e: Event) {
    && log' == s.log + [e]
    && IsNew(Fold(s.log), e)
    && (e.SignalConsumed? ==> s.run.Some? && e.ordinal !in s.run.value.replay.timeouts)
  }

  lemma AppendsAreNew(w: Program, s: State, a: Action)
    requires Inv(w, s)
    ensures var log' := Do(w, s, a).log; log' == s.log || exists e :: Appends(s, log', e)
  {
    var s' := Do(w, s, a);
    if s'.log != s.log {
      var e := s'.log[|s.log|];
      assert s'.log == s.log + [e];
      if a.Append? {
        assert PhaseOk(w, Fold(s.log), s.run.value);
        if e.SignalConsumed? {
          ConsumptionIsNew(w, Fold(s.log), s.run.value);
        }
      } else if a.FlushTick? {
        assert TicksOk(Fold(s.log), s.run.value);
      }
      assert Appends(s, s'.log, e);
    }
  }

  // ----- replay determinism -----

  /** Nothing in the log is overwritten. */
  ghost predicate Grows(l: Replay, l': Replay) {
    && (forall n :: n in l.steps ==> n in l'.steps && l'.steps[n] == l.steps[n])
    && (forall o :: o in l.nows ==> o in l'.nows && l'.nows[o] == l.nows[o])
    && (forall o :: o in l.consumed ==> o in l'.consumed && l'.consumed[o] == l.consumed[o])
    && (forall n :: n in l.signals ==> n in l'.signals && l.signals[n] <= l'.signals[n])
    && l.sleepDone <= l'.sleepDone && l.timeouts <= l'.timeouts
  }

  lemma AbsorbGrows(l: Replay, e: Event)
    requires IsNew(l, e)
    ensures Grows(l, Absorb(l, e))
  {
  }

  lemma LogGrows(s: State, log': seq<Event>)
    requires log' == s.log || exists e :: Appends(s, log', e)
    ensures Grows(Fold(s.log), Fold(log'))
  {
    if log' != s.log {
      var e :| Appends(s, log', e);
      FoldAppend(s.log, e);
      AbsorbGrows(Fold(s.log), e);
    }
  }

  lemma RunKeepsTimeouts(w: Program, s: State, a: Action)
    ensures var s' := Do(w, s, a);
            s'.run.Some? ==> s'.run.value.replay.timeouts ==
                               if s.run.Some? then s.run.value.replay.timeouts else Fold(s.log).timeouts
  {
  }

  /** A time-out that the running run knows of can no longer be turned into a consumption. */
  lemma TimeoutStays(s: State, log': seq<Event>, o: nat)
    requires log' == s.log || exists e :: Appends(s, log', e)
    requires o !in Fold(s.log).consumed
    requires s.run.Some? ==> o in s.run.value.replay.timeouts
    ensures o !in Fold(log').consumed
  {
    if log' != s.log {
      var e :| Appends(s, log', e);
      FoldAppend(s.log, e);
      ConsumedAfter(Fold(s.log), e, o);
    }
  }

  lemma ConsumedAfter(l: Replay, e: Event, o: nat)
    ensures o in Absorb(l, e).consumed <==> o in l.consumed || (e.SignalConsumed? && e.ordinal == o)
  {
  }

  lemma SettlesTransfers(s: State, s': State, k: Key, obs: Obs)
    requires Settles(s, k, obs) && Grows(Fold(s.log), Fold(s'.log))
    requires s'.log == s.log || exists e :: Appends(s, s'.log, e)
    requires s'.run.Some? ==> s'.run.value.replay.timeouts ==
                                if s.run.Some? then s.run.value.replay.timeouts else Fold(s.log).timeouts
    ensures Settles(s', k, obs)
  {
    if k.WaitKey? {
      if k.ordinal in Fold(s.log).consumed {
        var c := Fold(s.log).consumed[k.ordinal];
        assert SignalAt(Fold(s'.log), c) == SignalAt(Fold(s.log), c);
      } else {
        TimeoutStays(s, s'.log, k.ordinal);
      }
    }
  }

  /** What the log has settled stays settled, whatever happens next. */
  lemma SettlesPersists(w: Program, s: State, a: Action, k: Key, obs: Obs)
    requires Inv(w, s) && Settles(s, k, obs)
    ensures Settles(Do(w, s, a), k, obs)
  {
    var s' := Do(w, s, a);
    AppendsAreNew(w, s, a);
    LogGrows(s, s'.log);
    RunKeepsTimeouts(w, s, a);
    SettlesTransfers(s, s', k, obs);
  }

  /** Every call of the current run that is keyed by `k` has returned `obs`. */
  ghost predicate Agrees(w: Program, s: State, k: Key, obs: Obs) {
    s.run.Some? ==>
      var t := s.run.value.trace;
      forall m :: 0 <= m < |t| && KeyAt(w, t, m) == Some(k) ==> t[m] == obs
  }

  lemma TraceGrowsByOne(w: Program, s: State, a: Action)
    requires s.run.Some? && Do(w, s, a).run.Some?
    ensures var t, t' := s.run.value.trace, Do(w, s, a).run.value.trace;
            t' == t || (|t'| == |t| + 1 && t'[..|t|] == t)
  {
  }

  /** A call made after its key was settled returns the settled outcome. */
  lemma NewCallAgrees(w: Program, s: State, a: Action, k: Key, obs: Obs)
    requires Inv(w, s) && Settles(s, k, obs)
    requires s.run.Some? && Do(w, s, a).run.Some?
    requires KeyAfter(w, s.run.value.trace) == Some(k)
    requires |Do(w, s, a).run.value.trace| == |s.run.value.trace| + 1
    ensures Do(w, s, a).run.value.trace[|s.run.value.trace|] == obs
  {
    var s' := Do(w, s, a);
    var n := |s.run.value.trace|;
    TraceGrowsByOne(w, s, a);
    StepKeepsInv(w, s, a);
    SettlesPersists(w, s, a, k, obs);
    assert ObsOk(w, Fold(s'.log), s'.run.value, n);
    assert KeyAt(w, s'.run.value.trace, n) == Some(k);
  }

  lemma AgreesPersists(w: Program, s: State, a: Action, k: Key, obs: Obs)
    requires Inv(w, s) && Settles(s, k, obs) && Agrees(w, s, k, obs)
    ensures Agrees(w, Do(w, s, a), k, obs)
  {
    var s' := Do(w, s, a);
    if s.run.Some? && s'.run.Some? {
      var t, t' := s.run.value.trace, s'.run.value.trace;
      TraceGrowsByOne(w, s, a);
      forall m | 0 <= m < |t'| && KeyAt(w, t', m) == Some(k) ensures t'[m] == obs {
        if m < |t| {
          assert t'[..m] == t[..m];
        } else {
          NewCallAgrees(w, s, a, k, obs);
        }
      }
    }
  }

  lemma PrefixStep(acts: seq<Action>, j: nat, w: Program)
    requires j < |acts|
    ensures After(w, acts[..j + 1]) == Do(w, After(w, acts[..j]), acts[j])
  {
    assert acts[..j + 1][..j] == acts[..j];
  }

  /** Once settled, settled in every later state. */
  lemma {:induction false} SettledForever(w: Program, acts: seq<Action>, i: nat, j: nat, k: Key, obs: Obs)
    requires i <= j <= |acts|
    requires Settles(After(w, acts[..i]), k, obs)
    ensures Settles(After(w, acts[..j]), k, obs)
    decreases j - i
  {
    if i < j {
      PrefixStep(acts, i, w);
      AlwaysInv(w, acts[..i]);
      SettlesPersists(w, After(w, acts[..i]), acts[i], k, obs);
      SettledForever(w, acts, i + 1, j, k, obs);
    }
  }

  /**
   Replay determinism, call by call. If the log settled key `k` as `obs` at time `i`, then a
   call keyed by `k` at any later time returns `obs`: the same step result, clock value,
   signal or time-out, in this run and in every run after any number of crashes.
   */
  lemma LaterCallReplays(w: Program, acts: seq<Action>, i: nat, j: nat, k: Key, obs: Obs)
    requires i <= j < |acts|
    requires Settles(After(w, acts[..i]), k, obs)
    requires var s, s' := After(w, acts[..j]), After(w, acts[..j + 1]);
             s.run.Some? && s'.run.Some? && |s'.run.value.trace| == |s.run.value.trace| + 1
             && KeyAfter(w, s.run.value.trace) == Some(k)
    ensures var s, s' := After(w, acts[..j]), After(w, acts[..j + 1]);
            s'.run.value.trace == s.run.value.trace + [obs]
  {
    var s := After(w, acts[..j]);
    AlwaysInv(w, acts[..j]);
    SettledForever(w, acts, i, j, k, obs);
    PrefixStep(acts, j, w);
    TraceGrowsByOne(w, s, acts[j]);
    NewCallAgrees(w, s, acts[j], k, obs);
  }

  lemma {:induction false} AgreesForever(w: Program, acts: seq<Action>, i: nat, j: nat, k: Key, obs: Obs)
    requires i <= j <= |acts|
    requires Settles(After(w, acts[..i]), k, obs) && Agrees(w, After(w, acts[..i]), k, obs)
    ensures Agrees(w, After(w, acts[..j]), k, obs)
    decreases j - i
  {
    if i < j {
      PrefixStep(acts, i, w);
      AlwaysInv(w, acts[..i]);
      SettlesPersists(w, After(w, acts[..i]), acts[i], k, obs);
      AgreesPersists(w, After(w, acts[..i]), acts[i], k, obs);
      AgreesForever(w, acts, i + 1, j, k, obs);
    }
  }

  /** The first `n` calls of the run in `s` all had their outcomes settled by the log of `s`. */
  ghost predicate RecordedUpTo(w: Program, s: State, n: nat) {
    && s.run.Some? && n <= |s.run.value.trace|
    && forall m :: 0 <= m < n ==>
         var t := s.run.value.trace;
         KeyAt(w, t, m).Some? && Settles(s, KeyAt(w, t, m).value, t[m])
  }

  /**
   Replay determinism, run by run: a run that starts after time `i` repeats the recorded calls
   of the run seen at time `i`, in the same order and with the same outcomes, for as far as
   both go. `idle` is any moment between the two at which no run is active.
   */
  lemma {:induction false} LaterRunRepeats(w: Program, acts: seq<Action>, i: nat, idle: nat, j: nat, n: nat)
    requires i <= idle <= j <= |acts|
    requires RecordedUpTo(w, After(w, acts[..i]), n)
    requires After(w, acts[..idle]).run.None? && After(w, acts[..j]).run.Some?
    requires n <= |After(w, acts[..j]).run.value.trace|
    ensures After(w, acts[..j]).run.value.trace[..n] == After(w, acts[..i]).run.value.trace[..n]
    decreases n
  {
    if n > 0 {
      var t, u := After(w, acts[..i]).run.value.trace, After(w, acts[..j]).run.value.trace;
      LaterRunRepeats(w, acts, i, idle, j, n - 1);
      assert t[..n] == t[..n - 1] + [t[n - 1]] && u[..n] == u[..n - 1] + [u[n - 1]];
      CommonCallAgrees(w, acts, i, idle, j, n - 1);
    }
  }

  /**
   How much of a run is recorded at any moment: everything except the clock reads whose
   appends have not landed and the steps whose bodies threw.
   */
  lemma EverythingElseIsRecorded(w: Program, acts: seq<Action>, m: nat)
    requires var s := After(w, acts); s.run.Some? && m < |s.run.value.trace|
    ensures var s := After(w, acts); var r := s.run.value; var k := KeyAt(w, r.trace, m);
            && k.Some?
            && (Settles(s, k.value, r.trace[m]) || Unrecorded(w, s, m))
            && (r.trace[m].Got? ==> r.trace[m].signal.Some?)
  {
    AlwaysInv(w, acts);
    var s := After(w, acts);
    assert ObsOk(w, Fold(s.log), s.run.value, m);
    if s.run.value.trace[m].Got? {
      var o := KeyAt(w, s.run.value.trace, m).value.ordinal;
      assert o in Fold(s.log).consumed;
    }
  }

  /** Two runs that agree so far agree on a call that the earlier one had recorded. */
  lemma CommonCallAgrees(w: Program, acts: seq<Action>, i: nat, idle: nat, j: nat, m: nat)
    requires i <= idle <= j <= |acts|
    requires After(w, acts[..i]).run.Some? && After(w, acts[..idle]).run.None? && After(w, acts[..j]).run.Some?
    requires var t, u := After(w, acts[..i]).run.value.trace, After(w, acts[..j]).run.value.trace;
             && m < |t| && m < |u| && t[..m] == u[..m]
             && KeyAt(w, t, m).Some? && Settles(After(w, acts[..i]), KeyAt(w, t, m).value, t[m])
    ensures After(w, acts[..j]).run.value.trace[m] == After(w, acts[..i]).run.value.trace[m]
  {
    var t, u := After(w, acts[..i]).run.value.trace, After(w, acts[..j]).run.value.trace;
    var k := KeyAt(w, t, m).value;
    SettledForever(w, acts, i, idle, k, t[m]);
    AgreesForever(w, acts, idle, j, k, t[m]);
    assert KeyAt(w, u, m) == Some(k);
  }

  /** The log does not hold the outcome of call `m`: a step body threw, or a clock append is under way. */
  ghost predicate Unrecorded(w: Program, s: State, m: nat)
    requires s.run.Some? && m < |s.run.value.trace|
  {
    var r := s.run.value;
    var k := KeyAt(w, r.trace, m);
    r.trace[m].StepThrew?
    || (k.Some? && k.value.NowKey? && r.trace[m].Clock? && Tick(k.value.ordinal, r.trace[m].time) in r.pending)
  }

  /**
   Take any run and any later run. If they differ at all within their common length, then at
   the first difference the earlier run saw one of the two outcomes that the log does not hold.
   */
  lemma FirstDifferenceIsUnrecorded(w: Program, acts: seq<Action>, i: nat, idle: nat, j: nat, m: nat)
    requires i <= idle <= j <= |acts|
    requires After(w, acts[..i]).run.Some? && After(w, acts[..idle]).run.None? && After(w, acts[..j]).run.Some?
    requires var t, u := After(w, acts[..i]).run.value.trace, After(w, acts[..j]).run.value.trace;
             m < |t| && m < |u| && t[..m] == u[..m] && t[m] != u[m]
    ensures Unrecorded(w, After(w, acts[..i]), m)
  {
    var early := After(w, acts[..i]);
    var t, u := early.run.value.trace, After(w, acts[..j]).run.value.trace;
    EverythingElseIsRecorded(w, acts[..i], m);
    if Settles(early, KeyAt(w, t, m).value, t[m]) {
      CommonCallAgrees(w, acts, i, idle, j, m);
    }
  }

  /** A workflow that handles the failure of its first step by taking another branch. */
  function Catcher(h: seq<Obs>): Op {
    if h == [] then CallStep("a")
    else if h[0].StepThrew? && |h| == 1 then CallStep("b")
    else CallSleep
  }

  lemma AfterOneMore(w: Program, acts: seq<Action>, a: Action)
    ensures After(w, acts + [a]) == Do(w, After(w, acts), a)
  {
    assert (acts + [a])[..|acts|] == acts;
  }

  function StartOf(v: Value): seq<Action> { [Outside(Started(v))] + [Begin] }

  function FirstRun(v: Value): seq<Action> { StartOf(v) + [RunBody(Err("e"))] + [RunBody(Ok(v))] + [Append] }

  function SecondRun(v: Value): seq<Action> { FirstRun(v) + [Crash] + [Begin] + [RunBody(Ok(v))] + [Append] }

  lemma StartOfCatcher(v: Value)
    ensures After(Catcher, StartOf(v)) == State([Started(v)], Some(NewRun([Started(v)])))
    ensures NewRun([Started(v)]) == Run(EmptyReplay, {}, [], [], Ready)
  {
    var acts := [Outside(Started(v))];
    AfterOneMore(Catcher, [], Outside(Started(v)));
    assert [] + [Outside(Started(v))] == acts;
    assert After(Catcher, acts) == State([Started(v)], None);
    AfterOneMore(Catcher, acts, Begin);
    FoldAppend([], Started(v));
    assert [Started(v)] == [] + [Started(v)];
    assert [Started(v)][0].Started?;
  }

  lemma FirstRunOfCatcher(v: Value)
    ensures var s := After(Catcher, FirstRun(v));
            && s.log == [Started(v), StepCompleted("b", v)] && s.run.Some? && s.run.value.pending == []
            && s.run.value.trace == [StepThrew("a", "e"), StepDone("b", v)]
  {
    StartOfCatcher(v);
    var acts := StartOf(v);
    var r := NewRun([Started(v)]);
    AfterOneMore(Catcher, acts, RunBody(Err("e")));
    var r1 := Saw(r, StepThrew("a", "e"));
    acts := acts + [RunBody(Err("e"))];
    assert After(Catcher, acts) == State([Started(v)], Some(r1));
    AfterOneMore(Catcher, acts, RunBody(Ok(v)));
    acts := acts + [RunBody(Ok(v))];
    assert After(Catcher, acts) == State([Started(v)], Some(Await(r1, StepCompleted("b", v), Observe(StepDone("b", v)))));
    AfterOneMore(Catcher, acts, Append);
  }

  /**
   The exception is real: the first run records step "b" after step "a" threw, and the run
   after a crash executes "a" again, succeeds, and takes the other branch.
   */
  lemma HandledFailureBreaksReplay(v: Value)
    ensures var early, late := After(Catcher, FirstRun(v)), After(Catcher, SecondRun(v));
            && early.run.Some? && late.run.Some? && early.run.value.pending == []
            && early.run.value.trace == [StepThrew("a", "e"), StepDone("b", v)]
            && Settles(early, StepKey("b"), StepDone("b", v))
            && late.run.value.trace == [StepDone("a", v)]
    ensures After(Catcher, FirstRun(v) + [Crash]).run.None?
  {
    FirstRunOfCatcher(v);
    var log := [Started(v), StepCompleted("b", v)];
    var acts := FirstRun(v) + [Crash];
    AfterOneMore(Catcher, FirstRun(v), Crash);
    assert After(Catcher, acts) == State(log, None);
    AfterOneMore(Catcher, acts, Begin);
    StartOfCatcher(v);
    FoldAppend([Started(v)], StepCompleted("b", v));
    assert log == [Started(v)] + [StepCompleted("b", v)] && log[0].Started?;
    acts := acts + [Begin];
    assert After(Catcher, acts) == State(log, Some(NewRun(log)));
    AfterOneMore(Catcher, acts, RunBody(Ok(v)));
    acts := acts + [RunBody(Ok(v))];
    assert After(Catcher, acts) == State(log, Some(Await(NewRun(log), StepCompleted("a", v), Observe(StepDone("a", v)))));
    AfterOneMore(Catcher, acts, Append);
  }

  // ----- steps run once, signals are FIFO -----

  /** Every event was new when it was appended. */
  ghost predicate EachNew(log: seq<Event>) {
    forall p :: 0 <= p < |log| ==> IsNew(Fold(log[..p]), log[p])
  }

  lemma {:induction false} AlwaysEachNew(w: Program, acts: seq<Action>)
    ensures EachNew(After(w, acts).log)
  {
    if acts != [] {
      var s := After(w, acts[..|acts| - 1]);
      AlwaysEachNew(w, acts[..|acts| - 1]);
      AlwaysInv(w, acts[..|acts| - 1]);
      AppendsAreNew(w, s, acts[|acts| - 1]);
      EachNewExtends(s, After(w, acts).log);
    }
  }

  lemma EachNewExtends(s: State, log': seq<Event>)
    requires EachNew(s.log)
    requires log' == s.log || exists e :: Appends(s, log', e)
    ensures EachNew(log')
  {
    forall p | 0 <= p < |log'| ensures IsNew(Fold(log'[..p]), log'[p]) {
      if p < |s.log| {
        assert log'[..p] == s.log[..p];
      } else {
        assert log'[..p] == s.log;
      }
    }
  }

  lemma {:induction false} StepsInFold(log: seq<Event>, p: nat)
    requires p < |log| && log[p].StepCompleted?
    ensures log[p].name in Fold(log).steps
  {
    if p < |log| - 1 {
      StepsInFold(log[..|log| - 1], p);
    }
  }

  /** The log never holds two completions of one step name. */
  lemma StepsAreRecordedOnce(w: Program, acts: seq<Action>, p: nat, q: nat)
    requires var log := After(w, acts).log;
             p < q < |log| && log[p].StepCompleted? && log[q].StepCompleted?
    ensures var log := After(w, acts).log; log[p].name != log[q].name
  {
    var log := After(w, acts).log;
    AlwaysEachNew(w, acts);
    assert IsNew(Fold(log[..q]), log[q]);
    StepsInFold(log[..q], p);
  }

  /** The body of a recorded step never runs again: running it is not an option of any later state. */
  lemma RecordedStepNeverReruns(w: Program, acts: seq<Action>, i: nat, j: nat, name: string, outcome: Outcome)
    requires i <= j <= |acts|
    requires exists e :: e in After(w, acts[..i]).log && e.StepCompleted? && e.name == name
    requires var s := After(w, acts[..j]); s.run.Some? && w(s.run.value.trace) == CallStep(name)
    ensures var s := After(w, acts[..j]); Do(w, s, RunBody(outcome)) == s
  {
    var log := After(w, acts[..i]).log;
    var p :| 0 <= p < |log| && log[p].StepCompleted? && log[p].name == name;
    StepsInFold(log, p);
    SettledForever(w, acts, i, j, StepKey(name), StepDone(name, Fold(log).steps[name]));
    AlwaysInv(w, acts[..j]);
  }

  function CountConsumed(log: seq<Event>, name: string): nat {
    if log == [] then 0
    else
      var e := log[|log| - 1];
      CountConsumed(log[..|log| - 1], name) + if e.SignalConsumed? && e.name == name then 1 else 0
  }

  /** The claimed signals of `name` are the first `count`. */
  ghost predicate ClaimsFirst(l: Replay, name: string, count: nat) {
    forall i: nat :: Consumption(name, i) in l.claimed <==> i < count
  }

  lemma NextInLine(l: Replay, e: Event, count: nat)
    requires e.SignalConsumed? && IsNew(l, e) && ClaimsFirst(l, e.name, count)
    ensures e.index == count
  {
    assert Consumption(e.name, count) !in l.claimed && Consumption(e.name, e.index) !in l.claimed;
  }

  lemma ClaimStep(l: Replay, e: Event, name: string, count: nat)
    requires ClaimsFirst(l, name, count) && IsNew(l, e)
    ensures ClaimsFirst(Absorb(l, e), name, count + if e.SignalConsumed? && e.name == name then 1 else 0)
  {
    if e.SignalConsumed? && e.name == name { NextInLine(l, e, count); }
  }

  lemma EachNewBefore(log: seq<Event>)
    requires EachNew(log) && log != []
    ensures EachNew(log[..|log| - 1]) && IsNew(Fold(log[..|log| - 1]), log[|log| - 1])
  {
    var init := log[..|log| - 1];
    forall p | 0 <= p < |init| ensures IsNew(Fold(init[..p]), init[p]) {
      assert init[..p] == log[..p];
    }
  }

  /** The claimed signals of a name are exactly the first ones, as many as were consumed. */
  lemma {:induction false} ClaimedIsAPrefix(log: seq<Event>, name: string)
    requires EachNew(log)
    ensures ClaimsFirst(Fold(log), name, CountConsumed(log, name))
  {
    if log != [] {
      var init := log[..|log| - 1];
      EachNewBefore(log);
      ClaimedIsAPrefix(init, name);
      ClaimStep(Fold(init), log[|log| - 1], name, CountConsumed(init, name));
    }
  }

  lemma {:induction false} ConsumedInFold(log: seq<Event>, p: nat)
    requires p < |log| && log[p].SignalConsumed?
    ensures log[p].ordinal in Fold(log).consumed
  {
    if p < |log| - 1 {
      ConsumedInFold(log[..|log| - 1], p);
    }
  }

  /**
   Signals are FIFO and used once: a consumption takes the signal whose index is the number of
   earlier consumptions of that name, and later consumptions belong to later waits. So per
   name the consumed indices in wait order are 0, 1, 2, ...
   */
  lemma SignalsAreFifo(w: Program, acts: seq<Action>, q: nat)
    requires q < |After(w, acts).log| && After(w, acts).log[q].SignalConsumed?
    ensures var log := After(w, acts).log;
            && log[q].index == CountConsumed(log[..q], log[q].name)
            && forall p :: 0 <= p < q && log[p].SignalConsumed? ==> log[p].ordinal < log[q].ordinal
  {
    var log := After(w, acts).log;
    AlwaysEachNew(w, acts);
    var e := log[q];
    assert IsNew(Fold(log[..q]), e);
    assert EachNew(log[..q]) by {
      forall p | 0 <= p < q ensures IsNew(Fold(log[..q][..p]), log[..q][p]) {
        assert log[..q][..p] == log[..p];
      }
    }
    ClaimedIsAPrefix(log[..q], e.name);
    NextInLine(Fold(log[..q]), e, CountConsumed(log[..q], e.name));
    forall p | 0 <= p < q && log[p].SignalConsumed? ensures log[p].ordinal < e.ordinal {
      ConsumedInFold(log[..q], p);
    }
  }
}
