/**
 The in-memory task store as the scheduler implements it: a task map, a heap of due times
 whose entries may be stale or duplicated, and a list of terminal tasks. Each operation is
 proved against its effect on the plain task map.
 */
module Scheduler {
  import opened SchedulerSpec
  import Heap = DueHeap
  import opened Wrappers

  function EntryOf(t: Task): Heap.Entry {
    Heap.Entry(t.runAt, t.id)
  }

  /** Every active task has a heap entry, or one waiting in `extra`, that carries its current due time. */
  ghost predicate Covered(tasks: Tasks, items: seq<Heap.Entry>, extra: seq<Task>) {
    forall id :: id in tasks && IsActive(tasks[id].status) ==>
                   EntryOf(tasks[id]) in items || exists k :: 0 <= k < |extra| && EntryOf(extra[k]) == EntryOf(tasks[id])
  }

  /** What the loop of `claimDue` knows: `tasks` are the tasks it started from. */
  ghost predicate ClaimLoop(tasks: Tasks, items: seq<Heap.Entry>, batch: seq<Task>, requeue: seq<Task>,
                            worker: string, now: int, ttl: int)
  {
    && (forall i :: 0 <= i < |batch| ==>
          batch[i].id in tasks && DueAndClaimable(tasks[batch[i].id], now, ttl)
          && batch[i] == Claim(tasks[batch[i].id], worker, now))
    && (forall i, j :: 0 <= i < j < |batch| ==> batch[i].runAt <= batch[j].runAt && (ttl > 0 ==> batch[i].id != batch[j].id))
    && (forall i, e :: 0 <= i < |batch| && e in items ==> batch[i].runAt <= e.runAt)
    && (forall k :: 0 <= k < |requeue| ==>
          requeue[k].id in tasks && (requeue[k].id in Ids(batch) || !Claimable(tasks[requeue[k].id], now, ttl)))
  }

  /** At the end of the loop the batch is what a scan of the map would accept. */
  lemma LoopEndsInBatch(tasks: Tasks, items: seq<Heap.Entry>, batch: seq<Task>, requeue: seq<Task>,
                        worker: string, now: int, limit: int, ttl: int)
    requires forall id :: id in tasks ==> tasks[id].id == id
    requires Covered(ClaimAll(tasks, Ids(batch), worker, now), items, requeue)
    requires ClaimLoop(tasks, items, batch, requeue, worker, now, ttl)
    requires |batch| >= limit || forall e :: e in items ==> e.runAt > now
    requires |batch| <= limit || batch == []
    ensures IsBatch(tasks, batch, worker, now, limit, ttl)
  {
    forall id | id in tasks && id !in Ids(batch) && DueAndClaimable(tasks[id], now, ttl)
      ensures |batch| >= limit && forall i :: 0 <= i < |batch| ==> batch[i].runAt <= tasks[id].runAt
    {
      var now' := ClaimAll(tasks, Ids(batch), worker, now);
      assert now'[id] == tasks[id];
      assert EntryOf(tasks[id]) in items;
    }
  }

  lemma CoverageMoves(tasks: Tasks, extra: seq<Task>, items: seq<Heap.Entry>)
    requires extra != [] && Covered(tasks, items, extra) && EntryOf(extra[0]) in items
    ensures Covered(tasks, items, extra[1..])
  {
    forall id | id in tasks && IsActive(tasks[id].status) && EntryOf(tasks[id]) !in items
      ensures exists k :: 0 <= k < |extra[1..]| && EntryOf(extra[1..][k]) == EntryOf(tasks[id])
    {
      var k :| 0 <= k < |extra| && EntryOf(extra[k]) == EntryOf(tasks[id]);
      assert extra[1..][k - 1] == extra[k];
    }
  }

  lemma PopLeaves(before: seq<Heap.Entry>, after: seq<Heap.Entry>, popped: Heap.Entry)
    requires multiset(before) == multiset(after) + multiset{popped}
    ensures forall e :: e in before ==> e == popped || e in after
    ensures forall e :: e in after ==> e in before
  {
    forall e | e in before ensures e == popped || e in after {
      assert e in multiset(before);
    }
    forall e | e in after ensures e in before {
      assert e in multiset(before);
    }
  }

  /** Popping a task's entry and requeueing the task loses nothing. */
  lemma RequeueCovers(tasks': Tasks, items: seq<Heap.Entry>, requeue: seq<Task>, task: Task, items0: seq<Heap.Entry>)
    requires forall id :: id in tasks' && IsActive(tasks'[id].status) && id != task.id ==>
               EntryOf(tasks'[id]) in items0 || exists k :: 0 <= k < |requeue| && EntryOf(requeue[k]) == EntryOf(tasks'[id])
    requires forall e :: e in items0 ==> e == EntryOf(task) || e in items
    requires task.id in tasks' && tasks'[task.id] == task
    requires forall id :: id in tasks' ==> tasks'[id].id == id
    ensures Covered(tasks', items, requeue + [task])
  {
    var all := requeue + [task];
    assert all[|requeue|] == task;
    forall id | id in tasks' && IsActive(tasks'[id].status) && EntryOf(tasks'[id]) !in items
      ensures exists k :: 0 <= k < |all| && EntryOf(all[k]) == EntryOf(tasks'[id])
    {
      if id != task.id {
        var k :| 0 <= k < |requeue| && EntryOf(requeue[k]) == EntryOf(tasks'[id]);
        assert all[k] == requeue[k];
      }
    }
  }

  /** A popped entry that is no active task's current one can be dropped. */
  lemma DropCovers(tasks: Tasks, items: seq<Heap.Entry>, requeue: seq<Task>, entry: Heap.Entry, items0: seq<Heap.Entry>)
    requires Covered(tasks, items0, requeue)
    requires forall e :: e in items0 ==> e == entry || e in items
    requires forall id :: id in tasks ==> tasks[id].id == id
    requires entry.id in tasks && IsActive(tasks[entry.id].status) ==> tasks[entry.id].runAt != entry.runAt
    ensures Covered(tasks, items, requeue)
  {
    forall id | id in tasks && IsActive(tasks[id].status) && EntryOf(tasks[id]) !in items
      ensures exists k :: 0 <= k < |requeue| && EntryOf(requeue[k]) == EntryOf(tasks[id])
    {
      assert EntryOf(tasks[id]) != entry;
    }
  }

  lemma IdsAppend(ts: seq<Task>, t: Task)
    ensures Ids(ts + [t]) == Ids(ts) + {t.id}
  {
    var all := ts + [t];
    assert all[|ts|] == t;
    forall id | id in Ids(ts) ensures id in Ids(all) {
      var i :| 0 <= i < |ts| && ts[i].id == id;
      assert all[i].id == id;
    }
  }

  /** Claiming the popped task extends the batch. */
  lemma ClaimExtends(before: Tasks, items0: seq<Heap.Entry>, items: seq<Heap.Entry>, batch: seq<Task>, requeue: seq<Task>,
                     worker: string, now: int, ttl: int, entry: Heap.Entry)
    requires ClaimLoop(before, items0, batch, requeue, worker, now, ttl)
    requires entry in items0 && forall e :: e in items0 ==> entry.runAt <= e.runAt
    requires forall e :: e in items ==> e in items0
    requires entry.id in before && before[entry.id].id == entry.id && before[entry.id].runAt == entry.runAt
    requires DueAndClaimable(before[entry.id], now, ttl) && (ttl > 0 ==> entry.id !in Ids(batch))
    ensures var t := Claim(before[entry.id], worker, now);
            ClaimLoop(before, items, batch + [t], requeue + [t], worker, now, ttl)
  {
    var t := Claim(before[entry.id], worker, now);
    IdsAppend(batch, t);
    assert forall i :: 0 <= i < |batch| ==> batch[i].id in Ids(batch);
  }

  /** A task that is claimable in the course of the loop was so at its start. */
  lemma ClaimableBefore(before: Tasks, claimed: seq<Task>, requeue: seq<Task>, items: seq<Heap.Entry>, worker: string, now: int,
                        ttl: int, id: string)
    requires ClaimLoop(before, items, claimed, requeue, worker, now, ttl)
    requires id in before && DueAndClaimable(ClaimAll(before, Ids(claimed), worker, now)[id], now, ttl)
    ensures DueAndClaimable(before[id], now, ttl)
    ensures Claim(ClaimAll(before, Ids(claimed), worker, now)[id], worker, now) == Claim(before[id], worker, now)
  {
    if id in Ids(claimed) { var i :| 0 <= i < |claimed| && claimed[i].id == id; }
  }

  lemma ClaimedOneMore(before: Tasks, claimed: seq<Task>, worker: string, now: int, task: Task)
    requires task.id in before && task == Claim(before[task.id], worker, now) && Ids(claimed + [task]) == Ids(claimed) + {task.id}
    ensures ClaimAll(before, Ids(claimed + [task]), worker, now) == ClaimAll(before, Ids(claimed), worker, now)[task.id := task]
  {
  }

  lemma ClaimCovers(tasks: Tasks, tasks': Tasks, items: seq<Heap.Entry>, requeue: seq<Task>, task: Task, items0: seq<Heap.Entry>)
    requires Covered(tasks, items0, requeue) && forall id :: id in tasks ==> tasks[id].id == id
    requires forall e :: e in items0 ==> e == EntryOf(task) || e in items
    requires task.id in tasks && tasks' == tasks[task.id := task]
    ensures Covered(tasks', items, requeue + [task])
  {
    RequeueCovers(tasks', items, requeue, task, items0);
  }

  /** A running task whose lease is live goes back to the heap untouched. */
  lemma RequeueExtends(before: Tasks, items0: seq<Heap.Entry>, items: seq<Heap.Entry>, batch: seq<Task>, requeue: seq<Task>,
                       worker: string, now: int, ttl: int, task: Task)
    requires ClaimLoop(before, items0, batch, requeue, worker, now, ttl)
    requires forall e :: e in items ==> e in items0
    requires task.id in before && (task.id in Ids(batch) || !Claimable(before[task.id], now, ttl))
    ensures ClaimLoop(before, items, batch, requeue + [task], worker, now, ttl)
  {
  }

  /** What one more entry of the terminal list does to the survivors and to the task map. */
  lemma CompactStep(before: Tasks, list: seq<string>, id: string, now: int, limits: Limits, tasks: Tasks)
    requires tasks == before - Overdue(before, list, now, limits)
    ensures var expired := id in tasks && IsTerminal(tasks[id].status) && Expired(tasks[id], now, limits);
            var kept := id in tasks && IsTerminal(tasks[id].status) && !Expired(tasks[id], now, limits);
            && before - Overdue(before, list + [id], now, limits) == (if expired then tasks - {id} else tasks)
            && Survivors(before, list + [id], now, limits)
               == Survivors(before, list, now, limits) + (if kept then [id] else [])
  {
    assert (list + [id])[..|list|] == list;
    assert Overdue(before, list + [id], now, limits) ==
             Overdue(before, list, now, limits)
             + (if id in before && IsTerminal(before[id].status) && Expired(before[id], now, limits) then {id} else {});
  }

  /** The compaction past the first `i` entries: `live` of them are kept, at the front of the list. */
  ghost predicate Compacting(before: Tasks, list: seq<string>, i: nat, live: nat, now: int, limits: Limits, v: Store) {
    && live <= i <= |v.terminal| == |list|
    && (forall k :: i <= k < |list| ==> v.terminal[k] == list[k])
    && v.terminal[..live] == Survivors(before, list[..i], now, limits)
    && v.tasks == before - Overdue(before, list[..i], now, limits)
  }

  lemma UpdateAtEnd(s: seq<string>, live: nat, id: string)
    requires live < |s|
    ensures s[live := id][..live + 1] == s[..live] + [id]
    ensures forall k :: live < k < |s| ==> s[live := id][k] == s[k]
  {
  }

  lemma CoveredShrinks(tasks: Tasks, tasks': Tasks, items: seq<Heap.Entry>)
    requires Covered(tasks, items, [])
    requires forall id :: id in tasks' ==> id in tasks && tasks'[id] == tasks[id]
    ensures Covered(tasks', items, [])
  {
  }

  function IdSet(ids: seq<string>): set<string> {
    set id | id in ids
  }

  /** One turn of the renewal loop. */
  lemma ExtendOne(before: Tasks, ids: seq<string>, i: nat, worker: string, now: int)
    requires i < |ids|
    ensures var tasks := Extend(before, IdSet(ids[..i]), worker, now);
            Extend(before, IdSet(ids[..i + 1]), worker, now) ==
              if Owns(tasks, ids[i], worker) then tasks[ids[i] := tasks[ids[i]].(claimedAt := Some(now))] else tasks
  {
    assert ids[..i + 1] == ids[..i] + [ids[i]];
  }

  lemma ExtendKeeps(v: Store, ids: set<string>, worker: string, now: int, items: seq<Heap.Entry>)
    requires StoreOk(v) && Covered(v.tasks, items, [])
    ensures StoreOk(v.(tasks := Extend(v.tasks, ids, worker, now)))
    ensures Covered(Extend(v.tasks, ids, worker, now), items, [])
  {
    var tasks' := Extend(v.tasks, ids, worker, now);
    forall id | id in tasks' && IsActive(tasks'[id].status) ensures EntryOf(tasks'[id]) in items {
      assert EntryOf(tasks'[id]) == EntryOf(v.tasks[id]);
    }
  }

  class TaskStore {
    var tasks: Tasks
    var terminal: seq<string>
    const due: Heap.DueHeap
    const limits: Limits

    function View(): Store
      reads this
    {
      Store(tasks, terminal)
    }

    /** The heap agrees with the map: in order, and no active task without a current entry. */
    ghost predicate Valid()
      reads this, due
    {
      due.Valid() && StoreOk(View()) && Covered(tasks, due.items, [])
    }

    constructor (terminalRetentionMs: int, maxTerminalTasks: int)
      ensures Valid() && fresh(due) && View() == Store(map[], [])
      ensures limits == Limits(if terminalRetentionMs < 0 then 0 else terminalRetentionMs,
                               if maxTerminalTasks < 0 then 0 else maxTerminalTasks)
    {
      tasks, terminal := map[], [];
      limits := Limits(if terminalRetentionMs < 0 then 0 else terminalRetentionMs,
                       if maxTerminalTasks < 0 then 0 else maxTerminalTasks);
      due := new Heap.DueHeap();
    }

    /** Files the task's current due time; whatever was covered stays covered. */
    method MarkClaimable(task: Task)
      requires due.Valid()
      modifies due
      ensures due.Valid()
      ensures EntryOf(task) in due.items
      ensures forall e :: e in old(due.items) ==> e in due.items
    {
      due.Push(task.runAt, task.id);
      assert EntryOf(task) in multiset(due.items);
      forall e | e in old(due.items) ensures e in due.items {
        assert e in multiset(due.items);
      }
    }

    method Enqueue(task: Task, now: int)
      requires Valid() && task.status.Pending?
      modifies this, due
      ensures Valid()
      ensures Step(old(View()), OpEnqueue(task, now), View(), limits)
    {
      PruneTerminal(now);
      if task.id in tasks {
        var existing := tasks[task.id];
        if task.cron.Some? && (existing.cron != task.cron || existing.timezone != task.timezone || existing.name != task.name) {
          Put(task.(createdAt := existing.createdAt));
        }
        return;
      }
      Put(task);
    }

    /** Stores a pending task and files it. */
    method Put(task: Task)
      requires Valid() && task.status.Pending?
      modifies this`tasks, due
      ensures Valid()
      ensures View() == old(View()).(tasks := old(tasks)[task.id := task])
    {
      tasks := tasks[task.id := task];
      MarkClaimable(task);
    }

    method ClaimDue(worker: string, now: int, limit: int, ttl: int) returns (claimed: seq<Task>)
      requires Valid()
      modifies this, due
      ensures Valid()
      ensures Step(old(View()), OpClaim(worker, now, limit, ttl, claimed), View(), limits)
    {
      PruneTerminal(now);
      ghost var before := tasks;
      claimed := [];
      var requeue: seq<Task> := [];
      assert ClaimAll(before, Ids(claimed), worker, now) == before;
      while |claimed| < limit
        invariant due.Valid() && StoreOk(View())
        invariant terminal == Prune(old(View()), now, limits).terminal
        invariant tasks == ClaimAll(before, Ids(claimed), worker, now)
        invariant Covered(tasks, due.items, requeue)
        invariant ClaimLoop(before, due.items, claimed, requeue, worker, now, ttl)
        invariant |claimed| <= limit || claimed == []
        decreases |due.items|
      {
        var nextDue := due.PeekRunAt();
        if nextDue.None? || nextDue.value > now { break; }
        claimed, requeue := ClaimNext(worker, now, ttl, claimed, requeue, before);
      }
      LoopEndsInBatch(before, due.items, claimed, requeue, worker, now, limit, ttl);
      Requeue(requeue);
    }

    /** Files the tasks whose entries the claim loop has popped. */
    method Requeue(requeue: seq<Task>)
      requires due.Valid() && Covered(tasks, due.items, requeue)
      modifies due
      ensures due.Valid() && Covered(tasks, due.items, [])
    {
      for i := 0 to |requeue|
        invariant due.Valid() && Covered(tasks, due.items, requeue[i..])
      {
        MarkClaimable(requeue[i]);
        assert requeue[i..][1..] == requeue[i + 1..];
        CoverageMoves(tasks, requeue[i..], due.items);
      }
      assert requeue[|requeue|..] == [];
    }

    /** One turn of the claim loop: pop an entry, drop it if stale, requeue or claim its task. */
    method ClaimNext(worker: string, now: int, ttl: int, claimed: seq<Task>, requeue: seq<Task>, ghost before: Tasks)
      returns (claimed': seq<Task>, requeue': seq<Task>)
      requires due.Valid() && StoreOk(View())
      requires due.items != [] && due.items[0].runAt <= now
      requires tasks == ClaimAll(before, Ids(claimed), worker, now)
      requires Covered(tasks, due.items, requeue)
      requires ClaimLoop(before, due.items, claimed, requeue, worker, now, ttl)
      modifies this`tasks, due
      ensures due.Valid() && StoreOk(View())
      ensures |due.items| < |old(due.items)|
      ensures tasks == ClaimAll(before, Ids(claimed'), worker, now)
      ensures Covered(tasks, due.items, requeue')
      ensures ClaimLoop(before, due.items, claimed', requeue', worker, now, ttl)
      ensures |claimed| <= |claimed'| <= |claimed| + 1
    {
      claimed', requeue' := claimed, requeue;
      ghost var items0 := due.items;
      var popped := due.Pop();
      var entry := popped.value;
      PopLeaves(items0, due.items, entry);
      if entry.id !in tasks || tasks[entry.id].runAt != entry.runAt {
        DropCovers(tasks, due.items, requeue, entry, items0);
        return;
      }
      var task := tasks[entry.id];
      var leaseExpired := task.status.Running? && task.claimedAt.Some? && now - task.claimedAt.value >= ttl;
      if !task.status.Pending? && !leaseExpired {
        if task.status.Running? {
          requeue' := requeue + [task];
          RequeueCovers(tasks, due.items, requeue, task, items0);
          RequeueExtends(before, items0, due.items, claimed, requeue, worker, now, ttl, task);
        } else {
          DropCovers(tasks, due.items, requeue, entry, items0);
        }
        return;
      }
      claimed', requeue' := ClaimPopped(worker, now, ttl, claimed, requeue, before, entry, items0);
    }

    /** Claims the task of the popped entry. */
    method ClaimPopped(worker: string, now: int, ttl: int, claimed: seq<Task>, requeue: seq<Task>, ghost before: Tasks,
                       entry: Heap.Entry, ghost items0: seq<Heap.Entry>)
      returns (claimed': seq<Task>, requeue': seq<Task>)
      requires StoreOk(View()) && tasks == ClaimAll(before, Ids(claimed), worker, now)
      requires entry.id in tasks && tasks[entry.id].runAt == entry.runAt && DueAndClaimable(tasks[entry.id], now, ttl)
      requires entry in items0 && forall e :: e in items0 ==> entry.runAt <= e.runAt
      requires forall e :: e in items0 ==> e == entry || e in due.items
      requires forall e :: e in due.items ==> e in items0
      requires Covered(tasks, items0, requeue) && ClaimLoop(before, items0, claimed, requeue, worker, now, ttl)
      modifies this`tasks
      ensures StoreOk(View()) && tasks == ClaimAll(before, Ids(claimed'), worker, now)
      ensures Covered(tasks, due.items, requeue')
      ensures ClaimLoop(before, due.items, claimed', requeue', worker, now, ttl)
      ensures |claimed'| == |claimed| + 1
    {
      assert ttl > 0 ==> entry.id !in Ids(claimed);
      ClaimableBefore(before, claimed, requeue, items0, worker, now, ttl, entry.id);
      var task := Claim(tasks[entry.id], worker, now);
      var updated := tasks[entry.id := task];
      claimed', requeue' := claimed + [task], requeue + [task];
      IdsAppend(claimed, task);
      ClaimedOneMore(before, claimed, worker, now, task);
      ClaimExtends(before, items0, due.items, claimed, requeue, worker, now, ttl, entry);
      ClaimCovers(tasks, updated, due.items, requeue, task, items0);
      tasks := updated;
    }

    method MarkCompleted(id: string, worker: string, now: int)
      requires Valid()
      modifies this
      ensures Valid() && Step(old(View()), OpComplete(id, worker, now), View(), limits)
    {
      if !Owns(tasks, id, worker) { return; }
      Close(tasks[id].(status := Completed, completedAt := Some(now)));
    }

    /** Stores a task that has become terminal; its heap entries are left to go stale. */
    method Close(t: Task)
      requires Valid() && IsTerminal(t.status)
      modifies this
      ensures Valid() && View() == Finish(old(View()), t)
    {
      tasks := tasks[t.id := t];
      terminal := terminal + [t.id];
    }

    method MarkFailed(id: string, error: string, worker: string, now: int)
      requires Valid()
      modifies this, due
      ensures Valid() && Step(old(View()), OpFail(id, error, worker, now), View(), limits)
    {
      if !Owns(tasks, id, worker) { return; }
      var t := tasks[id];
      t := t.(attempts := t.attempts + 1, lastError := Some(error), claimedAt := None, claimedBy := None);
      t := t.(status := if t.attempts >= t.maxAttempts then Failed else Pending);
      if t.status.Failed? {
        Close(t.(completedAt := Some(now)));
      } else {
        tasks := tasks[id := t];
        MarkClaimable(t);
      }
    }

    method Reschedule(id: string, nextRunAt: int, worker: string, error: Option<string>)
      requires Valid()
      modifies this, due
      ensures Valid() && Step(old(View()), OpReschedule(id, nextRunAt, worker, error), View(), limits)
    {
      if !Owns(tasks, id, worker) { return; }
      var t := tasks[id].(runAt := nextRunAt, status := Pending, attempts := 0);
      if error.Some? { t := t.(lastError := error); }
      t := t.(claimedAt := None, claimedBy := None, completedAt := None);
      tasks := tasks[id := t];
      MarkClaimable(t);
    }

    method ExtendLease(ids: seq<string>, worker: string, now: int)
      requires Valid()
      modifies this
      ensures Valid() && Step(old(View()), OpExtend(IdSet(ids), worker, now), View(), limits)
    {
      ExtendKeeps(View(), IdSet(ids), worker, now, due.items);
      Renew(ids, worker, now);
    }

    method Renew(ids: seq<string>, worker: string, now: int)
      modifies this`tasks
      ensures tasks == Extend(old(tasks), IdSet(ids), worker, now)
    {
      ghost var before := tasks;
      for i := 0 to |ids|
        invariant tasks == Extend(before, IdSet(ids[..i]), worker, now)
      {
        ExtendOne(before, ids, i, worker, now);
        if Owns(tasks, ids[i], worker) {
          tasks := tasks[ids[i] := tasks[ids[i]].(claimedAt := Some(now))];
        }
      }
      assert ids[..|ids|] == ids;
    }

    method Cancel(id: string, now: int)
      requires Valid()
      modifies this
      ensures Valid() && Step(old(View()), OpCancel(id, now), View(), limits)
    {
      if id !in tasks { return; }
      Close(tasks[id].(status := Cancelled, completedAt := Some(now)));
    }

    method PruneTerminal(now: int)
      requires Valid()
      modifies this
      ensures Valid()
      ensures View() == Prune(old(View()), now, limits)
    {
      ghost var before := View();
      CompactTerminal(now);
      DropOldest();
      PruneIsSafe(before, now, limits);
      CoveredShrinks(before.tasks, tasks, due.items);
    }

    method DropOldest()
      modifies this
      ensures View() == Capped(old(View()), limits)
    {
      var overflow := |terminal| - limits.maxTerminal;
      if overflow > 0 {
        tasks := tasks - set id | id in terminal[..overflow];
        terminal := terminal[overflow..];
      } else {
        assert terminal[..0] == [] && terminal[0..] == terminal;
        assert tasks - {} == tasks;
      }
    }

    /** Drops expired tasks and compacts the terminal list in place. */
    method CompactTerminal(now: int)
      modifies this
      ensures View() == Compacted(old(View()), now, limits)
    {
      var live: nat := 0;
      ghost var list, before := terminal, tasks;
      for i := 0 to |terminal|
        invariant Compacting(before, list, i, live, now, limits, View())
      {
        live := CompactOne(i, live, now, before, list);
      }
      assert list[..|list|] == list;
      terminal := terminal[..live];
    }

    /** One turn of the compaction loop. */
    method CompactOne(i: nat, live: nat, now: int, ghost before: Tasks, ghost list: seq<string>) returns (live': nat)
      requires i < |list| && Compacting(before, list, i, live, now, limits, View())
      modifies this
      ensures Compacting(before, list, i + 1, live', now, limits, View())
    {
      live' := live;
      var id := terminal[i];
      assert list[..i + 1] == list[..i] + [id];
      CompactStep(before, list[..i], id, now, limits, tasks);
      if id !in tasks || !IsTerminal(tasks[id].status) { return; }
      if Expired(tasks[id], now, limits) {
        tasks := tasks - {id};
        return;
      }
      UpdateAtEnd(terminal, live, id);
      terminal := terminal[live := id];
      live' := live + 1;
    }
  }
}
