/**
 Exactly when a run is repeated by every later run: when the log holds the outcome of every call
 it has made.
 */
module WorkflowRepeats {
  import opened Workflow
  import opened WorkflowInvariant
  import opened WorkflowReplay
  import opened WorkflowTheorems
  import opened Wrappers

  /** `later` continues `acts`, no run is active at `idle`, and one is at `j`. */
  ghost predicate LaterRun(w: Program, acts: seq<Action>, later: seq<Action>, idle: nat, j: nat) {
    && |acts| <= idle <= j <= |later| && later[..|acts|] == acts
    && After(w, later[..idle]).run.None? && After(w, later[..j]).run.Some?
  }

  predicate Agree(t: seq<Obs>, u: seq<Obs>) {
    forall m :: 0 <= m < |t| && m < |u| ==> t[m] == u[m]
  }

  /** Whatever happens next, every later run agrees with this one as far as both go. */
  ghost predicate AlwaysRepeated(w: Program, acts: seq<Action>)
    requires After(w, acts).run.Some?
  {
    forall later: seq<Action>, idle: nat, j: nat {:trigger LaterRun(w, acts, later, idle, j)} ::
      LaterRun(w, acts, later, idle, j) ==>
        Agree(After(w, acts).run.value.trace, After(w, later[..j]).run.value.trace)
  }

  ghost predicate AllRecorded(w: Program, s: State)
    requires s.run.Some?
  {
    forall m :: 0 <= m < |s.run.value.trace| ==> !Unrecorded(w, s, m)
  }

  // ----- recorded runs are repeated -----

  lemma {:induction false} FirstDifference(t: seq<Obs>, u: seq<Obs>, m: nat) returns (k: nat)
    requires m < |t| && m < |u| && t[m] != u[m]
    ensures k < |t| && k < |u| && t[..k] == u[..k] && t[k] != u[k]
  {
    if t[..m] == u[..m] {
      k := m;
    } else {
      var p :| 0 <= p < m && t[..m][p] != u[..m][p];
      k := FirstDifference(t, u, p);
    }
  }

  lemma RecordedIsRepeated(w: Program, acts: seq<Action>, later: seq<Action>, idle: nat, j: nat)
    requires After(w, acts).run.Some? && AllRecorded(w, After(w, acts)) && LaterRun(w, acts, later, idle, j)
    ensures Agree(After(w, acts).run.value.trace, After(w, later[..j]).run.value.trace)
  {
    var t, u := After(w, acts).run.value.trace, After(w, later[..j]).run.value.trace;
    if !Agree(t, u) {
      var m :| 0 <= m < |t| && m < |u| && t[m] != u[m];
      var k := FirstDifference(t, u, m);
      FirstDifferenceIsUnrecorded(w, later, |acts|, idle, j, k);
    }
  }

  // ----- an unrecorded outcome can turn out otherwise -----

  lemma {:induction false} RunHasStarted(w: Program, acts: seq<Action>)
    ensures After(w, acts).run.Some? ==> HasStarted(After(w, acts).log)
  {
    if acts != [] {
      var s, a := After(w, acts[..|acts| - 1]), acts[|acts| - 1];
      RunHasStarted(w, acts[..|acts| - 1]);
      LogOnlyGrows(w, s, a);
    }
  }

  lemma LogOnlyGrows(w: Program, s: State, a: Action)
    ensures s.log <= Do(w, s, a).log
    ensures HasStarted(s.log) ==> HasStarted(Do(w, s, a).log)
  {
    if HasStarted(s.log) {
      var e :| e in s.log && e.Started?;
      assert e in Do(w, s, a).log;
    }
  }

  function Replayed(log: seq<Event>, t: seq<Obs>): Run {
    NewRun(log).(trace := t)
  }

  /** A fresh run over the log answers a settled call as the log says. */
  lemma ReplayOne(w: Program, log: seq<Event>, t: seq<Obs>, k: nat)
    requires k < |t| && KeyAt(w, t, k).Some? && Settles(State(log, None), KeyAt(w, t, k).value, t[k])
    ensures DoContinue(w, Replayed(log, t[..k])) == Replayed(log, t[..k + 1])
  {
    assert t[..k + 1] == t[..k] + [t[k]];
  }

  function Continues(n: nat): seq<Action> {
    seq(n, _ => Continue)
  }

  /** The calls whose outcomes the log holds are replayed one by one. */
  lemma {:induction false} ReplayAll(w: Program, acts: seq<Action>, log: seq<Event>, t: seq<Obs>, m: nat)
    requires After(w, acts) == State(log, Some(NewRun(log))) && m <= |t|
    requires forall k :: 0 <= k < m ==> KeyAt(w, t, k).Some? && Settles(State(log, None), KeyAt(w, t, k).value, t[k])
    ensures After(w, acts + Continues(m)) == State(log, Some(Replayed(log, t[..m])))
  {
    if m == 0 {
      assert acts + Continues(0) == acts && t[..0] == [];
    } else {
      ReplayAll(w, acts, log, t, m - 1);
      ReplayOne(w, log, t, m - 1);
      assert acts + Continues(m) == acts + Continues(m - 1) + [Continue];
      AfterOneMore(w, acts + Continues(m - 1), Continue);
    }
  }

  /** A run that crashes is started again, from the log as it is. */
  lemma Restart(w: Program, acts: seq<Action>)
    requires After(w, acts).run.Some? && !IsTerminal(Fold(After(w, acts).log).status)
    ensures var log := After(w, acts).log;
            && After(w, acts + [Crash]) == State(log, None)
            && After(w, acts + [Crash] + [Begin]) == State(log, Some(NewRun(log)))
  {
    RunHasStarted(w, acts);
    AfterOneMore(w, acts, Crash);
    AfterOneMore(w, acts + [Crash], Begin);
  }

  /** The next call of a replaying run, when the earlier run saw its step throw, succeeds. */
  lemma StepSucceeds(w: Program, acts: seq<Action>, log: seq<Event>, t: seq<Obs>, v: Value) returns (acts': seq<Action>, result: Value)
    requires After(w, acts) == State(log, Some(Replayed(log, t))) && w(t).CallStep?
    ensures acts <= acts' && After(w, acts').run.Some?
    ensures After(w, acts').run.value.trace == t + [StepDone(w(t).stepName, result)]
  {
    var name := w(t).stepName;
    if name in Fold(log).steps {
      AfterOneMore(w, acts, Continue);
      acts', result := acts + [Continue], Fold(log).steps[name];
    } else {
      AfterOneMore(w, acts, RunBody(Ok(v)));
      AfterOneMore(w, acts + [RunBody(Ok(v))], Append);
      acts', result := acts + [RunBody(Ok(v))] + [Append], v;
    }
  }

  /** A clock read that the log does not hold may read another time. */
  lemma ClockMovesOn(w: Program, acts: seq<Action>, log: seq<Event>, t: seq<Obs>, time: int) returns (acts': seq<Action>)
    requires After(w, acts) == State(log, Some(Replayed(log, t))) && w(t).CallNow? && Nows(t) + 1 !in Fold(log).nows
    ensures acts <= acts' && After(w, acts').run.Some?
    ensures After(w, acts').run.value.trace == t + [Clock(time)]
  {
    AfterOneMore(w, acts, ReadClock(time));
    acts' := acts + [ReadClock(time)];
  }

  lemma StartValue(w: Program, acts: seq<Action>) returns (v: Value)
    requires After(w, acts).run.Some?
    ensures HasStarted(After(w, acts).log)
    ensures exists e :: e in After(w, acts).log && e.Started? && e.input == v
  {
    RunHasStarted(w, acts);
    var e :| e in After(w, acts).log && e.Started?;
    v := e.input;
  }

  /** Up to its first unrecorded outcome a run is settled, also for a fresh run over the same log. */
  lemma SettledBefore(w: Program, acts: seq<Action>, m: nat)
    requires var s := After(w, acts); s.run.Some? && m <= |s.run.value.trace| && forall k :: 0 <= k < m ==> !Unrecorded(w, s, k)
    ensures var s := After(w, acts); var t := s.run.value.trace;
            forall k :: 0 <= k < m ==> KeyAt(w, t, k).Some? && Settles(State(s.log, None), KeyAt(w, t, k).value, t[k])
  {
    var s := After(w, acts);
    var t := s.run.value.trace;
    forall k | 0 <= k < m ensures KeyAt(w, t, k).Some? && Settles(State(s.log, None), KeyAt(w, t, k).value, t[k]) {
      assert !Unrecorded(w, s, k);
      EverythingElseIsRecorded(w, acts, k);
    }
  }

  /** What the workflow calls where the outcome is not recorded, and what the log says about it. */
  lemma UnrecordedCall(w: Program, acts: seq<Action>, m: nat)
    requires var s := After(w, acts); s.run.Some? && m < |s.run.value.trace| && Unrecorded(w, s, m)
    ensures var s := After(w, acts); var t := s.run.value.trace;
            || (t[m].StepThrew? && w(t[..m]).CallStep?)
            || (t[m].Clock? && w(t[..m]).CallNow? && Nows(t[..m]) + 1 !in Fold(s.log).nows)
  {
    AlwaysInv(w, acts);
    var s := After(w, acts);
    assert ObsOk(w, Fold(s.log), s.run.value, m);
    assert TicksOk(Fold(s.log), s.run.value);
  }

  /** A run that has replayed `t[..m]` may see something else than `t[m]` next. */
  lemma DifferentNext(w: Program, acts: seq<Action>, log: seq<Event>, t: seq<Obs>, m: nat, v: Value) returns (later: seq<Action>)
    requires m < |t| && After(w, acts) == State(log, Some(Replayed(log, t[..m])))
    requires || (t[m].StepThrew? && w(t[..m]).CallStep?)
             || (t[m].Clock? && w(t[..m]).CallNow? && Nows(t[..m]) + 1 !in Fold(log).nows)
    ensures acts <= later && After(w, later).run.Some?
    ensures var u := After(w, later).run.value.trace; |u| == m + 1 && u[..m] == t[..m] && u[m] != t[m]
  {
    if t[m].StepThrew? {
      var result;
      later, result := StepSucceeds(w, acts, log, t[..m], v);
    } else {
      later := ClockMovesOn(w, acts, log, t[..m], t[m].time + 1);
    }
  }

  lemma Cut<T>(acts: seq<T>, a: T, b: T, later: seq<T>)
    requires acts + [a] + [b] <= later
    ensures later[..|acts|] == acts && later[..|acts| + 1] == acts + [a] && later[..|later|] == later
  {
  }

  /** A crash, a restart and a replay up to call `m`. */
  function Rerun(acts: seq<Action>, m: nat): seq<Action> {
    acts + [Crash] + [Begin] + Continues(m)
  }

  lemma RerunReplays(w: Program, acts: seq<Action>, m: nat)
    requires var s := After(w, acts);
             && s.run.Some? && !IsTerminal(Fold(s.log).status) && m <= |s.run.value.trace|
             && forall k :: 0 <= k < m ==> !Unrecorded(w, s, k)
    ensures var s := After(w, acts);
            && After(w, acts + [Crash]).run.None?
            && After(w, Rerun(acts, m)) == State(s.log, Some(Replayed(s.log, s.run.value.trace[..m])))
  {
    Restart(w, acts);
    SettledBefore(w, acts, m);
    ReplayAll(w, acts + [Crash] + [Begin], After(w, acts).log, After(w, acts).run.value.trace, m);
  }

  /** From a run with an unrecorded outcome some continuation leads to a later run that differs there. */
  lemma UnrecordedCanDiffer(w: Program, acts: seq<Action>, m: nat) returns (later: seq<Action>)
    requires var s := After(w, acts);
             && s.run.Some? && !IsTerminal(Fold(s.log).status) && m < |s.run.value.trace|
             && Unrecorded(w, s, m) && forall k :: 0 <= k < m ==> !Unrecorded(w, s, k)
    ensures LaterRun(w, acts, later, |acts| + 1, |later|)
    ensures !Agree(After(w, acts).run.value.trace, After(w, later[..|later|]).run.value.trace)
  {
    RerunReplays(w, acts, m);
    UnrecordedCall(w, acts, m);
    var v := StartValue(w, acts);
    later := DifferentNext(w, Rerun(acts, m), After(w, acts).log, After(w, acts).run.value.trace, m, v);
    Cut(acts, Crash, Begin, later);
    DiffersAt(After(w, acts).run.value.trace, After(w, later).run.value.trace, m);
  }

  lemma DiffersAt(t: seq<Obs>, u: seq<Obs>, m: nat)
    requires m < |t| && m < |u| && t[m] != u[m]
    ensures !Agree(t, u)
  {
  }

  lemma {:induction false} FirstUnrecorded(w: Program, s: State, m: nat) returns (k: nat)
    requires s.run.Some? && m < |s.run.value.trace| && Unrecorded(w, s, m)
    ensures k <= m && Unrecorded(w, s, k) && forall i :: 0 <= i < k ==> !Unrecorded(w, s, i)
  {
    if p :| 0 <= p < m && Unrecorded(w, s, p) {
      k := FirstUnrecorded(w, s, p);
    } else {
      k := m;
    }
  }

  /**
   The exact extent of determinism, for every run of every history whose log is not closed: all
   later runs repeat it, in every continuation, if and only if the log holds the outcome of each
   of its calls, that is, no step body threw and no clock append is under way.
   */
  lemma RepeatedIffRecorded(w: Program, acts: seq<Action>)
    requires After(w, acts).run.Some? && !IsTerminal(Fold(After(w, acts).log).status)
    ensures AlwaysRepeated(w, acts) <==> AllRecorded(w, After(w, acts))
  {
    var s := After(w, acts);
    if AllRecorded(w, s) {
      forall later: seq<Action>, idle: nat, j: nat | LaterRun(w, acts, later, idle, j)
        ensures Agree(s.run.value.trace, After(w, later[..j]).run.value.trace)
      {
        RecordedIsRepeated(w, acts, later, idle, j);
      }
    } else {
      var m :| 0 <= m < |s.run.value.trace| && Unrecorded(w, s, m);
      var k := FirstUnrecorded(w, s, m);
      var later := UnrecordedCanDiffer(w, acts, k);
    }
  }

  /** With no clock append under way, failed step bodies are the one exception. */
  lemma QuietRunRepeatedIff(w: Program, acts: seq<Action>)
    requires var s := After(w, acts); s.run.Some? && s.run.value.pending == [] && !IsTerminal(Fold(s.log).status)
    ensures AlwaysRepeated(w, acts) <==>
            forall m :: 0 <= m < |After(w, acts).run.value.trace| ==> !After(w, acts).run.value.trace[m].StepThrew?
  {
    RepeatedIffRecorded(w, acts);
    var s := After(w, acts);
    assert forall m :: 0 <= m < |s.run.value.trace| ==> (Unrecorded(w, s, m) <==> s.run.value.trace[m].StepThrew?);
  }
}
