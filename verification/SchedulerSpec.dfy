/**
 The scheduled-task store as a plain map of tasks: what each operation does to it, what a
 correct batch of claimed tasks is, and what holds over whole runs of operations.
 */
module SchedulerSpec {
  import opened Wrappers

  datatype Status = Pending | Running | Completed | Failed | Cancelled

  type Payload(==, !new)

  datatype Task = Task(
    id: string,
    name: string,
    payload: Payload,
    runAt: int,
    cron: Option<string>,
    timezone: Option<string>,
    attempts: nat,
    maxAttempts: int,
    status: Status,
    lastError: Option<string>,
    claimedAt: Option<int>,
    claimedBy: Option<string>,
    completedAt: Option<int>,
    createdAt: int)

  type Tasks = map<string, Task>

  /** What a client can observe of the store, and the order in which tasks became terminal. */
  datatype Store = Store(tasks: Tasks, terminal: seq<string>)

  datatype Limits = Limits(retentionMs: nat, maxTerminal: nat)

  predicate IsTerminal(s: Status) {
    s.Completed? || s.Failed? || s.Cancelled?
  }

  predicate IsActive(s: Status) {
    s.Pending? || s.Running?
  }

  /** Tasks are filed under their own id, and every terminal one is on the terminal list. */
  ghost predicate StoreOk(v: Store) {
    forall id :: id in v.tasks ==> v.tasks[id].id == id && (IsTerminal(v.tasks[id].status) ==> id in v.terminal)
  }

  // ----- retention -----

  predicate Expired(t: Task, now: int, limits: Limits) {
    now - (if t.completedAt.Some? then t.completedAt.value else t.createdAt) > limits.retentionMs
  }

  /** `id` names a terminal task that is still to be retained. */
  predicate Retained(tasks: Tasks, id: string, now: int, limits: Limits) {
    id in tasks && IsTerminal(tasks[id].status) && !Expired(tasks[id], now, limits)
  }

  function Survivors(tasks: Tasks, terminal: seq<string>, now: int, limits: Limits): (r: seq<string>)
    ensures forall id :: id in r <==> id in terminal && Retained(tasks, id, now, limits)
    ensures |r| <= |terminal|
  {
    if terminal == [] then []
    else
      var n := |terminal| - 1;
      Survivors(tasks, terminal[..n], now, limits)
        + if Retained(tasks, terminal[n], now, limits) then [terminal[n]] else []
  }

  function Overdue(tasks: Tasks, terminal: seq<string>, now: int, limits: Limits): set<string> {
    set id | id in terminal && id in tasks && IsTerminal(tasks[id].status) && Expired(tasks[id], now, limits)
  }

  function Compacted(v: Store, now: int, limits: Limits): Store {
    Store(v.tasks - Overdue(v.tasks, v.terminal, now, limits), Survivors(v.tasks, v.terminal, now, limits))
  }

  function Capped(v: Store, limits: Limits): Store {
    var overflow := if |v.terminal| > limits.maxTerminal then |v.terminal| - limits.maxTerminal else 0;
    Store(v.tasks - (set id | id in v.terminal[..overflow]), v.terminal[overflow..])
  }

  /** Expired terminal tasks go; then the oldest entries of the terminal list, down to the cap. */
  function Prune(v: Store, now: int, limits: Limits): Store {
    Capped(Compacted(v, now, limits), limits)
  }

  function TerminalIds(tasks: Tasks): set<string> {
    set id | id in tasks && IsTerminal(tasks[id].status)
  }

  lemma {:induction false} DistinctBounded(ids: set<string>, s: seq<string>)
    requires forall id :: id in ids ==> id in s
    ensures |ids| <= |s|
    decreases |s|
  {
    if s == [] {
      assert ids == {};
    } else {
      var last := s[|s| - 1];
      forall id | id in ids - {last} ensures id in s[..|s| - 1] {
        var k :| 0 <= k < |s| && s[k] == id;
        assert s[..|s| - 1][k] == id;
      }
      DistinctBounded(ids - {last}, s[..|s| - 1]);
      assert ids <= (ids - {last}) + {last};
      assert |ids| <= |ids - {last}| + 1;
    }
  }

  /**
   Pruning never deletes or changes a pending or running task, deletes only terminal tasks
   that expired or overflow the cap, and leaves at most `maxTerminal` terminal ones.
   */
  lemma PruneIsSafe(v: Store, now: int, limits: Limits)
    requires StoreOk(v)
    ensures var r := Prune(v, now, limits);
            && StoreOk(r)
            && (forall id :: id in r.tasks ==> id in v.tasks && r.tasks[id] == v.tasks[id])
            && (forall id :: id in v.tasks && IsActive(v.tasks[id].status) ==> id in r.tasks)
            && |TerminalIds(r.tasks)| <= limits.maxTerminal
            && (forall id :: id in v.tasks && id !in r.tasks ==>
                  IsTerminal(v.tasks[id].status)
                  && (Expired(v.tasks[id], now, limits) || |Survivors(v.tasks, v.terminal, now, limits)| > limits.maxTerminal))
  {
    var r := Prune(v, now, limits);
    var live := Survivors(v.tasks, v.terminal, now, limits);
    var overflow := if |live| > limits.maxTerminal then |live| - limits.maxTerminal else 0;
    forall id | id in r.tasks && IsTerminal(r.tasks[id].status) ensures id in r.terminal {
      assert id in live;
      assert forall m :: 0 <= m < overflow ==> live[m] in live[..overflow];
      var k :| 0 <= k < |live| && live[k] == id;
      assert live[overflow..][k - overflow] == id;
    }
    forall id | id in live[..overflow] ensures Retained(v.tasks, id, now, limits) {
      assert id in live;
    }
    DistinctBounded(TerminalIds(r.tasks), r.terminal);
  }

  lemma BothEntriesSurvive(tasks: Tasks, now: int, limits: Limits)
    requires Retained(tasks, "a", now, limits)
    ensures Survivors(tasks, ["a", "a"], now, limits) == ["a", "a"]
  {
    assert ["a", "a"][..1] == ["a"] && ["a"][..0] == [];
    assert Survivors(tasks, ["a"], now, limits) == ["a"];
  }

  /** The terminal tasks that have not expired. */
  function Unexpired(tasks: Tasks, now: int, limits: Limits): set<string> {
    set id | id in tasks && Retained(tasks, id, now, limits)
  }

  /** Pruning keeps every unexpired task exactly when the list has no more live entries than the cap. */
  lemma KeepsAllUnexpiredIff(v: Store, now: int, limits: Limits)
    requires StoreOk(v)
    ensures (forall id :: id in Unexpired(v.tasks, now, limits) ==> id in Prune(v, now, limits).tasks)
            <==> |Survivors(v.tasks, v.terminal, now, limits)| <= limits.maxTerminal
  {
    var live := Survivors(v.tasks, v.terminal, now, limits);
    if |live| > limits.maxTerminal {
      var overflow := |live| - limits.maxTerminal;
      assert live[0] in live && live[..overflow][0] == live[0];
      assert live[0] in Unexpired(v.tasks, now, limits) && live[0] !in Prune(v, now, limits).tasks;
    }
  }

  ghost predicate NoRepeats(s: seq<string>) {
    forall i, j :: 0 <= i < j < |s| ==> s[i] != s[j]
  }

  lemma {:induction false} DistinctCount(s: seq<string>, ids: set<string>)
    requires NoRepeats(s) && forall id :: id in ids <==> id in s
    ensures |ids| == |s|
  {
    if s != [] {
      var init, last := s[..|s| - 1], s[|s| - 1];
      assert s == init + [last];
      DistinctCount(init, ids - {last});
    }
  }

  /** Without repeated entries the live entries are as many as the unexpired tasks, so the cap counts tasks. */
  lemma EntriesCountTasks(v: Store, now: int, limits: Limits)
    requires StoreOk(v) && NoRepeats(Survivors(v.tasks, v.terminal, now, limits))
    ensures |Survivors(v.tasks, v.terminal, now, limits)| == |Unexpired(v.tasks, now, limits)|
  {
    DistinctCount(Survivors(v.tasks, v.terminal, now, limits), Unexpired(v.tasks, now, limits));
  }

  // ----- claiming -----

  predicate Claimable(t: Task, now: int, ttl: int) {
    t.status.Pending? || (t.status.Running? && t.claimedAt.Some? && now - t.claimedAt.value >= ttl)
  }

  predicate DueAndClaimable(t: Task, now: int, ttl: int) {
    t.runAt <= now && Claimable(t, now, ttl)
  }

  function Claim(t: Task, worker: string, now: int): Task {
    t.(claimedAt := Some(now), claimedBy := Some(worker), status := Running)
  }

  function Ids(ts: seq<Task>): set<string> {
    set i | 0 <= i < |ts| :: ts[i].id
  }

  function ClaimAll(tasks: Tasks, ids: set<string>, worker: string, now: int): Tasks {
    map id | id in tasks :: if id in ids then Claim(tasks[id], worker, now) else tasks[id]
  }

  /**
   What a plain scan of the task map would accept as the answer of `claimDue`: due, claimable
   tasks in `runAt` order, stamped with the claim, and distinct unless leases expire the moment
   they are given; none left behind unless the batch is full, and then none left behind that is
   due earlier than a claimed one.
   */
  ghost predicate IsBatch(tasks: Tasks, batch: seq<Task>, worker: string, now: int, limit: int, ttl: int) {
    && (forall i :: 0 <= i < |batch| ==>
          batch[i].id in tasks && DueAndClaimable(tasks[batch[i].id], now, ttl)
          && batch[i] == Claim(tasks[batch[i].id], worker, now))
    && (forall i, j :: 0 <= i < j < |batch| ==> batch[i].runAt <= batch[j].runAt && (ttl > 0 ==> batch[i].id != batch[j].id))
    && (|batch| <= limit || batch == [])
    && (forall id :: id in tasks && id !in Ids(batch) && DueAndClaimable(tasks[id], now, ttl) ==>
          |batch| >= limit && forall i :: 0 <= i < |batch| ==> batch[i].runAt <= tasks[id].runAt)
  }

  // ----- the operations -----

  predicate Owns(tasks: Tasks, id: string, worker: string) {
    id in tasks && tasks[id].status.Running? && tasks[id].claimedBy == Some(worker)
  }

  function Finish(v: Store, t: Task): Store {
    Store(v.tasks[t.id := t], v.terminal + [t.id])
  }

  /** An enqueue replaces an existing task only by a changed recurring definition; any other is ignored. */
  predicate Replaces(task: Task, existing: Task) {
    task.cron.Some? && (existing.cron != task.cron || existing.timezone != task.timezone || existing.name != task.name)
  }

  function Enqueue(v: Store, task: Task): Store {
    if task.id in v.tasks then
      var existing := v.tasks[task.id];
      if Replaces(task, existing)
      then v.(tasks := v.tasks[task.id := task.(createdAt := existing.createdAt)])
      else v
    else v.(tasks := v.tasks[task.id := task])
  }

  function Complete(v: Store, id: string, worker: string, now: int): Store {
    if Owns(v.tasks, id, worker) then Finish(v, v.tasks[id].(status := Completed, completedAt := Some(now))) else v
  }

  function Fail(v: Store, id: string, error: string, worker: string, now: int): Store {
    if !Owns(v.tasks, id, worker) then v
    else
      var t := v.tasks[id].(attempts := v.tasks[id].attempts + 1, lastError := Some(error), claimedAt := None, claimedBy := None);
      if t.attempts >= t.maxAttempts then Finish(v, t.(status := Failed, completedAt := Some(now)))
      else v.(tasks := v.tasks[id := t.(status := Pending)])
  }

  function Reschedule(v: Store, id: string, nextRunAt: int, worker: string, error: Option<string>): Store {
    if !Owns(v.tasks, id, worker) then v
    else
      var t := v.tasks[id];
      v.(tasks := v.tasks[id := t.(runAt := nextRunAt, status := Pending, attempts := 0,
                                   lastError := if error.Some? then error else t.lastError,
                                   claimedAt := None, claimedBy := None, completedAt := None)])
  }

  function Extend(tasks: Tasks, ids: set<string>, worker: string, now: int): Tasks {
    map id | id in tasks :: if id in ids && Owns(tasks, id, worker) then tasks[id].(claimedAt := Some(now)) else tasks[id]
  }

  function Cancel(v: Store, id: string, now: int): Store {
    if id in v.tasks then Finish(v, v.tasks[id].(status := Cancelled, completedAt := Some(now))) else v
  }

  /**
   The cap counts list entries, not tasks: a task that is cancelled twice has two entries and is
   dropped at once although it is the only terminal task and the cap is one.
   */
  lemma DoubleCancelOverPrunes(t: Task, now: int)
    requires t.id == "a"
    ensures var v := Cancel(Cancel(Store(map["a" := t], []), "a", now), "a", now);
            TerminalIds(v.tasks) == {"a"} && Prune(v, now, Limits(1000, 1)).tasks == map[]
  {
    var c := t.(status := Cancelled, completedAt := Some(now));
    var tasks := map["a" := c];
    CancelledTwice(t, now);
    BothEntriesSurvive(tasks, now, Limits(1000, 1));
    assert Overdue(tasks, ["a", "a"], now, Limits(1000, 1)) == {};
    assert Compacted(Store(tasks, ["a", "a"]), now, Limits(1000, 1)) == Store(tasks, ["a", "a"]);
    CappedToOne(tasks);
  }

  lemma CancelledTwice(t: Task, now: int)
    requires t.id == "a"
    ensures Cancel(Cancel(Store(map["a" := t], []), "a", now), "a", now)
            == Store(map["a" := t.(status := Cancelled, completedAt := Some(now))], ["a", "a"])
  {
    var c := t.(status := Cancelled, completedAt := Some(now));
    assert Cancel(Store(map["a" := t], []), "a", now) == Store(map["a" := c], ["a"]);
  }

  lemma CappedToOne(tasks: Tasks)
    requires tasks.Keys == {"a"}
    ensures Capped(Store(tasks, ["a", "a"]), Limits(1000, 1)).tasks == map[]
  {
    assert ["a", "a"][..1] == ["a"];
    assert "a" in ["a", "a"][..1];
  }

  // ----- runs of operations -----

  datatype Op =
    | OpEnqueue(task: Task, now: int)
    | OpClaim(worker: string, now: int, limit: int, ttl: int, batch: seq<Task>)
    | OpComplete(id: string, worker: string, now: int)
    | OpFail(id: string, error: string, worker: string, now: int)
    | OpReschedule(id: string, nextRunAt: int, worker: string, lastError: Option<string>)
    | OpExtend(ids: set<string>, worker: string, now: int)
    | OpCancel(id: string, now: int)
    | OpList(now: int)

  /** `op` takes the store from `v` to `v'`. Ties in `runAt` leave the claimed batch open. */
  ghost predicate Step(v: Store, op: Op, v': Store, limits: Limits) {
    match op
    case OpEnqueue(task, now) => task.status.Pending? && v' == Enqueue(Prune(v, now, limits), task)
    case OpClaim(worker, now, limit, ttl, batch) =>
      var p := Prune(v, now, limits);
      IsBatch(p.tasks, batch, worker, now, limit, ttl)
      && v' == p.(tasks := ClaimAll(p.tasks, Ids(batch), worker, now))
    case OpComplete(id, worker, now) => v' == Complete(v, id, worker, now)
    case OpFail(id, error, worker, now) => v' == Fail(v, id, error, worker, now)
    case OpReschedule(id, next, worker, error) => v' == Reschedule(v, id, next, worker, error)
    case OpExtend(ids, worker, now) => v' == v.(tasks := Extend(v.tasks, ids, worker, now))
    case OpCancel(id, now) => v' == Cancel(v, id, now)
    case OpList(now) => v' == Prune(v, now, limits)
  }

  ghost predicate IsRun(stores: seq<Store>, ops: seq<Op>, limits: Limits) {
    && |stores| == |ops| + 1
    && StoreOk(stores[0])
    && forall k :: 0 <= k < |ops| ==> Step(stores[k], ops[k], stores[k + 1], limits)
  }

  lemma ClaimKeepsStoreOk(v: Store, ids: set<string>, worker: string, now: int)
    requires StoreOk(v)
    ensures StoreOk(v.(tasks := ClaimAll(v.tasks, ids, worker, now)))
  {
  }

  lemma PruneKeepsStoreOk(v: Store, now: int, limits: Limits)
    requires StoreOk(v)
    ensures StoreOk(Prune(v, now, limits))
  {
    PruneIsSafe(v, now, limits);
  }

  lemma StepKeepsStoreOk(v: Store, op: Op, v': Store, limits: Limits)
    requires StoreOk(v) && Step(v, op, v', limits)
    ensures StoreOk(v')
  {
    match op
    case OpEnqueue(_, now) => PruneKeepsStoreOk(v, now, limits);
    case OpClaim(worker, now, _, _, batch) =>
      PruneKeepsStoreOk(v, now, limits);
      ClaimKeepsStoreOk(Prune(v, now, limits), Ids(batch), worker, now);
    case OpList(now) => PruneKeepsStoreOk(v, now, limits);
    case _ =>
  }

  lemma {:induction false} RunKeepsStoreOk(stores: seq<Store>, ops: seq<Op>, limits: Limits, k: nat)
    requires IsRun(stores, ops, limits) && k <= |ops|
    ensures StoreOk(stores[k])
  {
    if k > 0 {
      RunKeepsStoreOk(stores, ops, limits, k - 1);
      StepKeepsStoreOk(stores[k - 1], ops[k - 1], stores[k], limits);
    }
  }

  /** In `v`, the operation finalises, replaces or gives up `worker`'s task `id`. */
  predicate EndsLease(v: Store, op: Op, id: string, worker: string) {
    match op
    case OpEnqueue(task, _) => task.id == id && id in v.tasks && Replaces(task, v.tasks[id])
    case OpComplete(i, w, _) => i == id && w == worker
    case OpFail(i, _, w, _) => i == id && w == worker
    case OpReschedule(i, _, w, _) => i == id && w == worker
    case OpCancel(i, _) => i == id
    case _ => false
  }

  /** `worker` holds `id` under a dated lease. */
  predicate Holds(v: Store, id: string, worker: string) {
    Owns(v.tasks, id, worker) && v.tasks[id].claimedAt.Some?
  }

  /** The lease on `id` has expired by `now`. */
  predicate Lapsed(v: Store, id: string, now: int, ttl: int) {
    id in v.tasks && v.tasks[id].claimedAt.Some? && now - v.tasks[id].claimedAt.value >= ttl
  }

  lemma PruneKeepsActive(v: Store, now: int, limits: Limits, id: string)
    requires StoreOk(v) && id in v.tasks && IsActive(v.tasks[id].status)
    ensures id in Prune(v, now, limits).tasks && Prune(v, now, limits).tasks[id] == v.tasks[id]
  {
    PruneIsSafe(v, now, limits);
  }

  /** A claim before the lease expires leaves the task alone. */
  lemma LeasedIsNotClaimed(p: Store, op: Op, id: string, worker: string)
    requires op.OpClaim? && Holds(p, id, worker) && !Lapsed(p, id, op.now, op.ttl)
    requires IsBatch(p.tasks, op.batch, op.worker, op.now, op.limit, op.ttl)
    ensures id !in Ids(op.batch)
  {
    assert !DueAndClaimable(p.tasks[id], op.now, op.ttl);
  }

  lemma LeaseStep(v: Store, op: Op, v': Store, limits: Limits, id: string, worker: string)
    requires StoreOk(v) && Step(v, op, v', limits) && Holds(v, id, worker)
    requires !EndsLease(v, op, id, worker)
    requires op.OpClaim? ==> !Lapsed(v, id, op.now, op.ttl)
    ensures Holds(v', id, worker)
    ensures op.OpClaim? ==> id !in Ids(op.batch)
  {
    if op.OpEnqueue? || op.OpClaim? || op.OpList? {
      PruneKeepsActive(v, op.now, limits, id);
    }
    if op.OpClaim? {
      LeasedIsNotClaimed(Prune(v, op.now, limits), op, id, worker);
    }
  }

  /**
   Lease exclusion over a run: while nobody finalises or replaces the task and no claim comes
   after the lease, as last renewed, has expired, no worker is handed the task and its holder
   keeps it. Enqueuing the id again, unless it replaces the definition, changes nothing.
   */
  lemma {:induction false} LeaseIsExclusive(stores: seq<Store>, ops: seq<Op>, limits: Limits, i: nat, j: nat,
                                            id: string, worker: string)
    requires IsRun(stores, ops, limits) && i <= j <= |ops|
    requires Holds(stores[i], id, worker)
    requires forall k :: i <= k < j ==>
               && !EndsLease(stores[k], ops[k], id, worker)
               && (ops[k].OpClaim? ==> !Lapsed(stores[k], id, ops[k].now, ops[k].ttl))
    ensures Holds(stores[j], id, worker)
    ensures forall k :: i <= k < j && ops[k].OpClaim? ==> id !in Ids(ops[k].batch)
    decreases j - i
  {
    if i < j {
      RunKeepsStoreOk(stores, ops, limits, i);
      LeaseStep(stores[i], ops[i], stores[i + 1], limits, id, worker);
      LeaseIsExclusive(stores, ops, limits, i + 1, j, id, worker);
    }
  }

  lemma NotOwnedStep(v: Store, op: Op, v': Store, limits: Limits, id: string, worker: string)
    requires StoreOk(v) && Step(v, op, v', limits) && !Owns(v.tasks, id, worker)
    requires op.OpClaim? && op.worker == worker ==> id !in Ids(op.batch)
    ensures !Owns(v'.tasks, id, worker)
  {
    if op.OpEnqueue? || op.OpClaim? || op.OpList? {
      PruneKeepsNotOwned(v, op.now, limits, id, worker);
    }
  }

  lemma PruneKeepsNotOwned(v: Store, now: int, limits: Limits, id: string, worker: string)
    requires StoreOk(v) && !Owns(v.tasks, id, worker)
    ensures !Owns(Prune(v, now, limits).tasks, id, worker)
  {
    PruneIsSafe(v, now, limits);
  }

  /** `worker` completes, fails or reschedules task `id`. */
  predicate ActsOn(op: Op, id: string, worker: string) {
    match op
    case OpComplete(i, w, _) => i == id && w == worker
    case OpFail(i, _, w, _) => i == id && w == worker
    case OpReschedule(i, _, w, _) => i == id && w == worker
    case _ => false
  }

  predicate SameTask(v: Store, v': Store, id: string) {
    if id in v.tasks then id in v'.tasks && v'.tasks[id] == v.tasks[id] else id !in v'.tasks
  }

  lemma FencedStep(v: Store, op: Op, v': Store, limits: Limits, id: string, worker: string)
    requires Step(v, op, v', limits) && !Owns(v.tasks, id, worker)
    ensures ActsOn(op, id, worker) ==> v' == v
    ensures op.OpExtend? && op.worker == worker ==> SameTask(v, v', id)
  {
  }

  /**
   Fencing of a worker that lost its task: until it is handed the task again, completing,
   failing or rescheduling it changes nothing, and a heartbeat over any set of ids does not
   touch it, whatever else happens in between.
   */
  lemma {:induction false} LostWorkerIsFenced(stores: seq<Store>, ops: seq<Op>, limits: Limits, i: nat, j: nat,
                                              id: string, worker: string)
    requires IsRun(stores, ops, limits) && i <= j < |ops|
    requires !Owns(stores[i].tasks, id, worker)
    requires forall k :: i <= k < j && ops[k].OpClaim? && ops[k].worker == worker ==> id !in Ids(ops[k].batch)
    ensures ActsOn(ops[j], id, worker) ==> stores[j + 1] == stores[j]
    ensures ops[j].OpExtend? && ops[j].worker == worker ==> SameTask(stores[j], stores[j + 1], id)
    decreases j - i
  {
    if i < j {
      RunKeepsStoreOk(stores, ops, limits, i);
      NotOwnedStep(stores[i], ops[i], stores[i + 1], limits, id, worker);
      LostWorkerIsFenced(stores, ops, limits, i + 1, j, id, worker);
    } else {
      FencedStep(stores[j], ops[j], stores[j + 1], limits, id, worker);
    }
  }

  /** An operation that may end the life of task `id`. */
  predicate Finalises(op: Op, id: string) {
    (op.OpComplete? || op.OpFail? || op.OpCancel?) && op.id == id
  }

  lemma ActiveStep(v: Store, op: Op, v': Store, limits: Limits, id: string)
    requires StoreOk(v) && Step(v, op, v', limits) && id in v.tasks && IsActive(v.tasks[id].status)
    requires !Finalises(op, id)
    ensures id in v'.tasks && IsActive(v'.tasks[id].status)
  {
    if op.OpEnqueue? || op.OpClaim? || op.OpList? {
      PruneKeepsActive(v, op.now, limits, id);
    }
  }

  /** No task is lost: an active task stays in the map, active, until something finalises it. */
  lemma {:induction false} ActiveTaskStays(stores: seq<Store>, ops: seq<Op>, limits: Limits, i: nat, j: nat, id: string)
    requires IsRun(stores, ops, limits) && i <= j <= |ops|
    requires id in stores[i].tasks && IsActive(stores[i].tasks[id].status)
    requires forall k :: i <= k < j ==> !Finalises(ops[k], id)
    ensures id in stores[j].tasks && IsActive(stores[j].tasks[id].status)
    decreases j - i
  {
    if i < j {
      RunKeepsStoreOk(stores, ops, limits, i);
      ActiveStep(stores[i], ops[i], stores[i + 1], limits, id);
      ActiveTaskStays(stores, ops, limits, i + 1, j, id);
    }
  }
}
