// `TaskManager` as the source writes it: one object whose methods update its
// fields, each proved to take the step of the state machine it stands for.
module TaskManagers {
  import opened Sequences
  import opened TaskTypes
  import opened TaskState
  import opened TaskInvariants
  import opened TaskRuns
  import opened TaskStatus
  import opened TaskTokens
  import opened TaskTheorems
  import TaskEffects
  import opened TaskQueue
  import opened TaskAdmission
  import opened TaskRestart

  class TaskManager {
    const config: Config

    var store: map<TaskId, Task>
    var held: set<ArtifactId>

    var queue: seq<TaskId>
    var unfinished: int
    var pending: seq<TaskId>
    var activeRuns: map<TaskId, Handle>
    var activeBySource: map<Provider, nat>
    var schedulerWakeup: bool
    var scheduledRuns: map<TaskId, Handle>
    var resumeFromStage: set<TaskId>
    var nextPosition: nat

    // The asyncio tasks of the event loop.
    var runs: map<Handle, Run>
    var confirms: map<Handle, Confirm>
    var calls: map<Handle, Call>
    var sleeping: map<Handle, TaskId>
    var expired: map<Handle, TaskId>
    var nextHandle: Handle

    // History: uuids never repeat, and what the catalog has ever held.
    var known: map<TaskId, Provider>
    var ever: set<ArtifactId>

    ghost function Events(): Loop
      reads this
    {
      Loop(queue, unfinished, pending, activeRuns, activeBySource, schedulerWakeup, scheduledRuns,
           runs, confirms, calls, sleeping, expired, nextHandle)
    }

    ghost function View(): State
      reads this
    {
      State(store, resumeFromStage, nextPosition, held, Events(), known, ever)
    }

    // ---- construction and start ----------------------------------------------

    constructor (config: Config, store: map<TaskId, Task>, listed: seq<TaskId>, held: set<ArtifactId>)
      ensures View() == Booted(store, listed, held) && this.config == config
    {
      this.config := config;
      this.store, this.held := store, held;
      queue, unfinished, pending := [], 0, [];
      activeRuns, activeBySource, schedulerWakeup, scheduledRuns := map[], map[], false, map[];
      resumeFromStage := {};
      runs, confirms, calls, sleeping, expired, nextHandle := map[], map[], map[], map[], map[], 0;
      known, ever := map id | id in store :: store[id].provider, held + Artifacts(store);
      var position, i := 0, 0;
      while i < |listed|
        invariant 0 <= i <= |listed| && position == FreePosition(store, listed[..i])
      {
        var id := listed[i];
        if id in store && store[id].queuePosition.Some? && store[id].queuePosition.value >= position {
          position := store[id].queuePosition.value + 1;
        }
        assert listed[..i+1][..i] == listed[..i];
        i := i + 1;
      }
      assert listed[..|listed|] == listed;
      nextPosition := position;
    }

    method Start(listed: seq<TaskId>)
      requires View() == Booted(store, listed, held)
      modifies this
      ensures View() == TaskRestart.Start(old(store), listed, old(held))
      ensures Lists(old(store), listed) && Credible(old(store)) ==> Safe(config, View()) && Unique(Events())
    {
      if Lists(store, listed) && Credible(store) { StartSafe(config, store, listed, held); }
      hide Arm, Restore, Booted, RestartOrder, Select, TaskRestart.Start, Safe, Unique, Lists, Credible;
      LaunchStart(listed);
    }

    method LaunchStart(listed: seq<TaskId>)
      requires View() == Booted(store, listed, held)
      modifies this
      ensures View() == TaskRestart.Start(old(store), listed, old(held))
    {
      hide Arm, Restore, Booted, RestartOrder, Select;
      var scheduled := Select(store, listed, IsScheduled);
      var tasks := RestartOrder(store, listed);
      ArmScheduledTasks(scheduled);
      RestoreTasks(tasks);
      if nextPosition < |tasks| { nextPosition := |tasks|; }
      schedulerWakeup := true;
    }

    method ArmScheduledTasks(scheduled: seq<TaskId>)
      modifies this`sleeping, this`expired, this`scheduledRuns, this`nextHandle
      ensures View() == old(View()).(loop := ArmAll(old(Events()), scheduled))
    {
      hide Arm;
      var i := 0;
      while i < |scheduled|
        invariant 0 <= i <= |scheduled|
        invariant View() == old(View()).(loop := ArmAll(old(Events()), scheduled[..i]))
      {
        assert scheduled[..i+1][..i] == scheduled[..i];
        ArmScheduledTask(scheduled[i]);
        i := i + 1;
      }
      assert scheduled[..i] == scheduled;
    }

    method RestoreTasks(tasks: seq<TaskId>)
      modifies this
      ensures View() == RestoreAll(old(View()), tasks)
    {
      hide Restore;
      var position := 0;
      while position < |tasks|
        invariant 0 <= position <= |tasks|
        invariant View() == RestoreAll(old(View()), tasks[..position])
      {
        assert tasks[..position+1][..position] == tasks[..position];
        RestoreTask(tasks[position], position);
        position := position + 1;
      }
      assert tasks[..position] == tasks;
    }

    method RestoreTask(id: TaskId, position: nat)
      modifies this`store, this`resumeFromStage, this`queue, this`unfinished
      ensures View() == Restore(old(View()), id, position)
    {
      if id !in store { return; }
      var task := store[id];
      hide RestoredTask;
      SaveTask(id, RestoredTask(task, position));
      if Interrupted(task.status) { resumeFromStage := resumeFromStage + {id}; }
      if task.status.Paused? { return; }
      PutInQueue(id);
    }

    // ---- timers -------------------------------------------------------------------

    method CancelWaiter(waiter: Handle)
      modifies this`sleeping, this`expired
      ensures View() == old(View()).(loop := CancelTimer(old(Events()), waiter))
    {
      if waiter in sleeping {
        expired := expired[waiter := sleeping[waiter]];
      }
      sleeping := sleeping - {waiter};
    }

    method ArmScheduledTask(id: TaskId)
      modifies this`sleeping, this`expired, this`scheduledRuns, this`nextHandle
      ensures View() == old(View()).(loop := Arm(old(Events()), id))
    {
      if id in scheduledRuns { CancelWaiter(scheduledRuns[id]); }
      var waiter := nextHandle;
      nextHandle := nextHandle + 1;
      sleeping := sleeping[waiter := id];
      scheduledRuns := scheduledRuns[id := waiter];
    }

    method ScheduledTimeArrives(waiter: Handle)
      modifies this`store, this`nextPosition, this`queue, this`unfinished, this`schedulerWakeup, this`sleeping, this`expired
      ensures View() == TimerFires(old(View()), waiter)
    {
      hide CancelTimer, Enqueue;
      if waiter !in sleeping { return; }
      var id := sleeping[waiter];
      CancelWaiter(waiter);
      if id !in store || store[id].status != Scheduled { return; }
      var position := ClaimQueuePosition();
      SaveAndEnqueue(id, store[id].(status := Queued, queuePosition := Some(position)));
    }

    method WaiterFinished(waiter: Handle)
      modifies this`expired, this`scheduledRuns
      ensures View() == old(View()).(loop := TimerReaped(old(Events()), waiter))
    {
      if waiter in expired && expired[waiter] in scheduledRuns && scheduledRuns[expired[waiter]] == waiter {
        scheduledRuns := scheduledRuns - {expired[waiter]};
      }
      expired := expired - {waiter};
    }

    // Is there an unfinished asyncio task in `_active_runs`?
    function Operating(id: TaskId): (b: bool)
      reads this
      ensures b <==> Busy(Events(), id)
    {
      id in activeRuns && (activeRuns[id] in confirms || (activeRuns[id] in runs && runs[activeRuns[id]].point != Lost))
    }

    // ---- small steps shared by the calls ---------------------------------------------

    method ClaimQueuePosition() returns (position: nat)
      modifies this`nextPosition
      ensures position == old(nextPosition) && nextPosition == old(nextPosition) + 1
    {
      position := nextPosition;
      nextPosition := nextPosition + 1;
    }

    method PutInQueue(id: TaskId)
      modifies this`queue, this`unfinished
      ensures queue == old(queue) + [id] && unfinished == old(unfinished) + 1
    {
      queue := queue + [id];
      unfinished := unfinished + 1;
    }

    // `await queue.put(id)` on the unbounded queue, then the wakeup.
    method EnqueueTask(id: TaskId)
      modifies this`queue, this`unfinished, this`schedulerWakeup
      ensures View() == old(View()).(loop := Enqueue(old(Events()), id))
    {
      PutInQueue(id);
      schedulerWakeup := true;
    }

    // The position a task keeps, or a fresh one.
    method KeptOrClaimed(id: TaskId) returns (position: nat)
      modifies this`nextPosition
      ensures position == PositionFor(old(View()), id) && nextPosition == ClaimedBy(old(View()), id)
    {
      if id in store && store[id].queuePosition.Some? {
        position := store[id].queuePosition.value;
      } else {
        position := ClaimQueuePosition();
      }
    }

    // The call suspends until its awaited operation has finished.
    method SuspendCall(call: Call)
      modifies this`calls, this`nextHandle
      ensures View() == old(View()).(loop := Suspended(old(Events()), call))
    {
      calls := calls[nextHandle := call];
      nextHandle := nextHandle + 1;
    }

    method CancelOperation(active: Handle)
      modifies this`runs, this`confirms
      ensures View() == old(View()).(loop := CancelHandle(old(Events()), active))
    {
      if active in runs {
        runs := runs[active := runs[active].(point := AfterCancel(runs[active].point))];
      }
      if active in confirms {
        confirms := confirms[active := confirms[active].(working := false)];
      }
    }

    // ---- control calls -------------------------------------------------------------------

    method StartNow(id: TaskId)
      modifies this`store, this`nextPosition, this`queue, this`unfinished, this`schedulerWakeup, this`sleeping, this`expired, this`scheduledRuns, this`calls, this`nextHandle
      ensures View() == TaskState.StartNow(old(View()), id)
    {
      hide CancelTimerOf, Suspended, Enqueue;
      var position := ClaimQueuePosition();
      if id !in store || store[id].status != Scheduled { return; }
      var task := store[id].(status := Queued, queuePosition := Some(position));
      if id in scheduledRuns {
        SaveTask(id, task);
        DisarmTask(id);
        SuspendCall(StartNowTail(id));
      } else {
        SaveAndEnqueue(id, task);
      }
    }

    method DisarmTask(id: TaskId)
      modifies this`sleeping, this`expired, this`scheduledRuns
      ensures View() == old(View()).(loop := CancelTimerOf(old(Events()), id).(scheduledRuns := old(scheduledRuns) - {id}))
    {
      if id in scheduledRuns { CancelWaiter(scheduledRuns[id]); }
      scheduledRuns := scheduledRuns - {id};
    }

    method Reschedule(id: TaskId)
      modifies this
      ensures View() == TaskState.Reschedule(old(View()), id)
    {
      if id !in store || store[id].status != Scheduled { return; }
      SaveAndArm(id, store[id].(queuePosition := None));
    }

    method Pause(id: TaskId)
      modifies this
      ensures View() == TaskState.Pause(old(View()), id)
    {
      var position := KeptOrClaimed(id);
      if id !in store || !Pausable(store[id].status) { return; }
      store := store[id := store[id].(status := Paused, queuePosition := Some(position), resumeFromStage := true)];
      if Operating(id) {
        var active := activeRuns[id];
        CancelOperation(active);
        SuspendCall(PauseTail(id, active));
      } else {
        schedulerWakeup := true;
      }
    }

    method Cancel(id: TaskId)
      modifies this
      ensures View() == TaskState.Cancel(old(View()), id)
    {
      hide CancelHandle, Suspended, Busy, FinishCancel;
      if id !in store || !Cancellable(store[id].status) { return; }
      store := store[id := store[id].(status := Cancelled, queuePosition := None)];
      if Operating(id) {
        var active := activeRuns[id];
        CancelOperation(active);
        SuspendCall(CancelTail(id, active));
      } else {
        CancelFinishes(id);
      }
    }

    // What `cancel` does once nothing works on the task any more.
    method CancelFinishes(id: TaskId)
      modifies this`schedulerWakeup, this`sleeping, this`expired, this`scheduledRuns, this`resumeFromStage
      ensures View() == FinishCancel(old(View()), id)
    {
      schedulerWakeup := true;
      DisarmTask(id);
      resumeFromStage := resumeFromStage - {id};
    }

    // An awaited operation has finished: the suspended call goes on.
    method CallResumes(call: Handle)
      modifies this
      ensures View() == CallReturns(old(View()), call)
    {
      hide FinishCancel, Enqueue;
      if call !in calls || !(calls[call].StartNowTail? || OperationDone(calls[call].awaited)) { return; }
      var tail := calls[call];
      calls := calls - {call};
      match tail
      case PauseTail(_, _) => schedulerWakeup := true;
      case CancelTail(id, _) => CancelFinishes(id);
      case StartNowTail(id) => EnqueueTask(id);
    }

    function OperationDone(active: Handle): (b: bool)
      reads this
      ensures b <==> Finished(Events(), active)
    {
      active !in confirms && (active in runs ==> runs[active].point == Lost)
    }

    method Resume(id: TaskId, delayed: bool)
      modifies this`store, this`resumeFromStage, this`nextPosition, this`queue, this`unfinished, this`schedulerWakeup, this`sleeping, this`expired, this`scheduledRuns, this`nextHandle
      ensures View() == TaskState.Resume(old(View()), id, delayed)
    {
      hide Arm, Enqueue;
      if !delayed { resumeFromStage := resumeFromStage + {id}; }
      var position := KeptOrClaimed(id);
      if id !in store || !(store[id].status == Paused || store[id].status == Failed) {
        resumeFromStage := resumeFromStage - {id};
        return;
      }
      var task := store[id].(resumeFromStage := true);
      if delayed {
        SaveAndArm(id, task.(status := Scheduled, queuePosition := None));
      } else {
        SaveAndEnqueue(id, task.(status := Queued, queuePosition := Some(position)));
      }
    }

    method DeleteTask(id: TaskId, deleteArtifact: bool)
      modifies this`store, this`held
      ensures View() == TaskState.DeleteTask(old(View()), id, deleteArtifact)
    {
      if id !in store || !Terminal(store[id].status) || (deleteArtifact && store[id].status != Completed) { return; }
      if deleteArtifact && store[id].artifact.Some? {
        held := held - {store[id].artifact.value};
      }
      store := store - {id};
    }

    // ---- admission -------------------------------------------------------------------------

    // The scan of `find_duplicate` over the listed tasks.
    method FindTask(listed: seq<TaskId>, match_: Task -> bool) returns (found: Option<TaskId>)
      requires Lists(store, listed)
      ensures found.Some? <==> exists id :: id in store && match_(store[id])
      ensures found.Some? ==> found.value in store && match_(store[found.value])
    {
      found := None;
      var i := 0;
      while i < |listed|
        invariant 0 <= i <= |listed| && found == None
        invariant forall k :: 0 <= k < i ==> !match_(store[listed[k]])
      {
        if match_(store[listed[i]]) { return Some(listed[i]); }
        i := i + 1;
      }
    }

    // An existing COMPLETED or reusable task, as `find_duplicate` looks for it.
    method FindDuplicate(listed: seq<TaskId>, provider: Provider, request: Request, resolved: Option<string>) returns (found: Option<TaskId>)
      requires Lists(store, listed)
      ensures found.Some? <==> HasDuplicate(View(), provider, request, resolved)
      ensures found.Some? ==> found.value in store && Serves(held, store[found.value], provider, request, resolved)
    {
      if resolved.None? || resolved.value == "" { return None; }
      var artifact := Identified(provider, request, resolved.value);
      if artifact in held {
        found := FindTask(listed, (t: Task) => t.status == Completed && t.artifact == Some(artifact));
      } else {
        found := FindTask(listed, (t: Task) => SameIngestion(t, provider, request, resolved.value));
      }
    }

    // The task whose record the caller gets; None for an error.
    method CreateWithResult(listed: seq<TaskId>, id: TaskId, provider: Provider, request: Request, resolved: Option<string>,
                            createdAt: int, delayed: bool, refused: bool) returns (task: Option<TaskId>)
      requires Lists(store, listed) && id !in known
      modifies this
      ensures View() == Create(old(View()), id, provider, request, resolved, createdAt, delayed, refused)
      ensures task.Some? <==> !refused
      ensures task.Some? ==> task.value in store && Serves(old(held), store[task.value], provider, request, resolved)
      ensures task.Some? && task.value != id ==> View() == old(View())
    {
      hide HasTwin, HasCompleted, Admit;
      task := FindDuplicate(listed, provider, request, resolved);
      if task.Some? { return if refused then None else task; }
      if refused { return None; }
      if resolved.Some? && resolved.value != "" && Identified(provider, request, resolved.value) in held {
        store := store[id := AlreadyHeld(provider, request, resolved.value, createdAt)];
        known := known[id := provider];
        return Some(id);
      }
      AdmitTask(id, provider, request, resolved, createdAt, delayed);
      AdmittedServes(old(View()), id, provider, request, resolved, createdAt, delayed);
      task := Some(id);
    }

    method AdmitTask(id: TaskId, provider: Provider, request: Request, resolved: Option<string>, createdAt: int, delayed: bool)
      modifies this`store, this`known, this`nextPosition, this`queue, this`unfinished, this`schedulerWakeup, this`sleeping, this`expired, this`scheduledRuns, this`nextHandle
      ensures View() == Admit(old(View()), id, provider, request, resolved, createdAt, delayed)
    {
      hide Arm, Enqueue, SetTask;
      var position := NewcomerPosition(id, provider);
      if delayed {
        SaveAndArm(id, Task(provider, request, resolved, Scheduled, None, createdAt, false, None));
      } else {
        SaveAndEnqueue(id, Task(provider, request, resolved, Queued, Some(position), createdAt, false, None));
      }
      AdmitIs(old(View()), id, provider, request, resolved, createdAt, delayed);
      hide Admit;
    }

    method NewcomerPosition(id: TaskId, provider: Provider) returns (position: nat)
      modifies this`known, this`nextPosition
      ensures position == old(nextPosition)
      ensures View() == old(View()).(nextPosition := old(nextPosition) + 1, known := old(known)[id := provider])
    {
      position := ClaimQueuePosition();
      known := known[id := provider];
    }

    // ---- writing a record and acting on it ------------------------------------------------------

    method SaveTask(id: TaskId, task: Task)
      modifies this`store
      ensures View() == SetTask(old(View()), id, task)
    {
      store := store[id := task];
    }

    method SaveAndEnqueue(id: TaskId, task: Task)
      modifies this`store, this`queue, this`unfinished, this`schedulerWakeup
      ensures View() == SetTask(old(View()), id, task).(loop := Enqueue(old(Events()), id))
    {
      hide Enqueue;
      SaveTask(id, task);
      EnqueueTask(id);
    }

    method SaveAndArm(id: TaskId, task: Task)
      modifies this`store, this`sleeping, this`expired, this`scheduledRuns, this`nextHandle
      ensures View() == SetTask(old(View()), id, task).(loop := Arm(old(Events()), id))
    {
      hide Arm;
      SaveTask(id, task);
      ArmScheduledTask(id);
    }

    // ---- queue order -------------------------------------------------------------------------

    method ReorderQueued(ids: seq<TaskId>)
      modifies this`store, this`schedulerWakeup
      ensures View() == Reorder(old(View()), ids)
    {
      if !IsWaitingList(store, ids) { return; }
      var position := 0;
      while position < |ids|
        invariant 0 <= position <= |ids| && store == Renumber(old(store), ids[..position])
      {
        assert ids[..position+1][..position] == ids[..position];
        var id := ids[position];
        if id in store { store := store[id := store[id].(queuePosition := Some(position))]; }
        position := position + 1;
      }
      assert ids[..position] == ids;
      schedulerWakeup := true;
    }

    method MoveQueued(listed: seq<TaskId>, id: TaskId, target: TaskId, after: bool)
      requires Lists(store, listed)
      modifies this`store, this`schedulerWakeup
      ensures View() == TaskQueue.MoveQueued(old(View()), listed, id, target, after)
    {
      hide Reorder, QueueOf;
      var waiting := QueueOf(store, listed);
      if id !in waiting || target !in waiting || id == target { return; }
      QueueIsWaitingList(View(), listed);
      var i := Index(waiting, id);
      RemovedIndex(waiting, i, target);
      var rest := Without(waiting, i);
      var at := Index(rest, target);
      ReorderQueued(InsertAt(rest, if after then at + 1 else at, id));
    }

    method Index(q: seq<TaskId>, id: TaskId) returns (i: nat)
      requires Distinct(q) && id in q
      ensures i < |q| && q[i] == id && i == IndexOf(q, id)
    {
      i := 0;
      while q[i] != id
        invariant i < |q| && id !in q[..i]
        decreases |q| - i
      {
        assert id in q[i+1..];
        i := i + 1;
      }
      IndexIs(q, i);
    }

    // ---- scheduler -----------------------------------------------------------------------------

    function SourceLoad(provider: Provider): (n: nat)
      reads this
      ensures n == Active(Events(), provider)
    {
      if provider in activeBySource then activeBySource[provider] else 0
    }

    // The in-place scan: entries that are no longer QUEUED are deleted on the
    // way; the index of the best eligible entry is left in `selected`.
    method ScanPending() returns (selected: Option<nat>)
      modifies this`pending, this`unfinished
      ensures pending == Kept(store, old(pending)) && unfinished == old(unfinished) - (|old(pending)| - |pending|)
      ensures selected == Best(config, store, old(Events()), pending)
    {
      ghost var was, before := pending, Events();
      ghost var seen := 0;
      selected := None;
      var index := 0;
      hide Kept, Best;
      KeptNone(store);
      BestAmongNone(config, store, before);
      while index < |pending|
        invariant 0 <= index <= |pending| && 0 <= seen <= |was|
        invariant pending[..index] == Kept(store, was[..seen]) && pending[index..] == was[seen..]
        invariant unfinished == old(unfinished) - (seen - index)
        invariant selected == Best(config, store, before, pending[..index])
        decreases |pending| - index
      {
        KeptNext(store, was, seen);
        assert pending[index] == pending[index..][0] == was[seen];
        assert pending[index+1..] == pending[index..][1..] == was[seen+1..];
        var id := pending[index];
        if id !in store || store[id].status != Queued {
          ghost var rest := pending[..index];
          pending := Without(pending, index);
          unfinished := unfinished - 1;
          assert pending[..index] == rest;
        } else {
          BestNext(config, store, before, pending, index);
          if SourceLoad(store[id].provider) < config.perSource
             && (selected.None? || Before(store[id], store[pending[selected.value]])) {
            selected := Some(index);
          }
          assert pending[..index+1] == pending[..index] + [id];
          index := index + 1;
        }
        seen := seen + 1;
      }
      assert was[..seen] == was && pending[..index] == pending;
    }

    method NextSchedulable() returns (candidate: Option<(TaskId, Provider)>)
      modifies this`pending, this`unfinished
      ensures var l := Purge(store, old(Events()));
              var best := Best(config, store, l, l.pending);
              && Events() == (if best.Some? then l.(pending := Without(l.pending, best.value)) else l)
              && candidate == if best.Some? then Some((l.pending[best.value], store[l.pending[best.value]].provider)) else None
    {
      var selected := ScanPending();
      BestNeedsCounts(config, store, old(Events()), Purge(store, old(Events())), pending);
      hide Kept;
      if selected.None? { return None; }
      var id := pending[selected.value];
      candidate := Some((id, store[id].provider));
      pending := Without(pending, selected.value);
    }

    method SchedulerTurn()
      modifies this
      ensures View() == Schedule(config, old(View()))
    {
      if !schedulerWakeup { return; }
      schedulerWakeup := false;
      DrainQueue();
      LaunchRuns();
    }

    method DrainQueue()
      modifies this`queue, this`pending
      ensures View() == old(View()).(loop := old(Events()).(queue := [], pending := old(pending) + old(queue)))
    {
      while queue != []
        invariant pending + queue == old(pending) + old(queue)
        decreases |queue|
      {
        pending, queue := pending + [queue[0]], queue[1..];
      }
    }

    method LaunchRuns()
      modifies this`pending, this`unfinished, this`activeBySource, this`activeRuns, this`runs, this`nextHandle
      ensures View() == old(View()).(loop := LaunchAll(config, store, old(Events())))
    {
      hide Best, Kept, LaunchAll;
      ghost var goal := LaunchAll(config, store, Events());
      while |activeRuns| < config.maxRuns
        invariant LaunchAll(config, store, Events()) == goal
        invariant View() == old(View()).(loop := Events())
        decreases |Kept(store, pending)|
      {
        var launched := LaunchOne();
        if !launched { assert Events() == goal; return; }
      }
      LaunchNone(config, store, Events());
    }

    // One round of the launch loop; false when nothing can be scheduled.
    method LaunchOne() returns (launched: bool)
      requires |activeRuns| < config.maxRuns
      modifies this`pending, this`unfinished, this`activeBySource, this`activeRuns, this`runs, this`nextHandle
      ensures !launched ==> Events() == LaunchAll(config, store, old(Events()))
      ensures launched ==> LaunchAll(config, store, Events()) == LaunchAll(config, store, old(Events()))
      ensures launched ==> |Kept(store, pending)| < |Kept(store, old(pending))|
    {
      LaunchNext(config, store, Events());
      ghost var before := Events();
      hide Best, Kept, LaunchAll;
      var candidate := NextSchedulable();
      if candidate.None? { return false; }
      ghost var l := Purge(store, before);
      hide Purge;
      CreateRun(candidate.value.0, candidate.value.1, l, Best(config, store, l, l.pending).value);
      hide Launch;
      launched := true;
    }

    // Entry `i` of the pending entries of `l` has just been taken: start its run.
    method CreateRun(id: TaskId, provider: Provider, ghost l: Loop, ghost i: nat)
      requires i < |l.pending| && l.pending[i] == id && Events() == l.(pending := Without(l.pending, i))
      modifies this`activeBySource, this`activeRuns, this`runs, this`nextHandle
      ensures Events() == Launch(l, i, provider)
    {
      activeBySource := activeBySource[provider := SourceLoad(provider) + 1];
      var active := nextHandle;
      nextHandle := nextHandle + 1;
      runs := runs[active := Run(id, provider, Fresh)];
      activeRuns := activeRuns[id := active];
    }

    // The `finally` of `_execute_queued`.
    method ExecuteQueuedExits(run: Handle)
      requires run in runs
      modifies this`runs, this`activeRuns, this`activeBySource, this`unfinished, this`schedulerWakeup
      ensures Events() == EndRun(old(Events()), run)
    {
      var r := runs[run];
      runs := runs - {run};
      activeRuns := activeRuns - {r.task};
      ReleaseSource(r.provider);
      unfinished := unfinished - 1;
      schedulerWakeup := true;
    }

    method ReleaseSource(provider: Provider)
      modifies this`activeBySource
      ensures var load := if provider in old(activeBySource) then old(activeBySource)[provider] else 1;
              activeBySource == if load > 1 then old(activeBySource)[provider := load - 1] else old(activeBySource) - {provider}
    {
      var load := if provider in activeBySource then activeBySource[provider] else 1;
      if load > 1 {
        activeBySource := activeBySource[provider := load - 1];
      } else {
        activeBySource := activeBySource - {provider};
      }
    }

    // ---- the work of a run and of a confirmation ---------------------------------------------

    // Writes a record and suspends again at `point`.
    method RunSuspends(run: Handle, task: Task, point: Point)
      requires run in runs
      modifies this`store, this`runs
      ensures View() == Suspend(old(View()), run, task, point)
    {
      SaveTask(runs[run].task, task);
      runs := runs[run := runs[run].(point := point)];
    }

    // Writes the last record of a run and leaves.
    method RunSettles(run: Handle, task: Task)
      requires run in runs
      modifies this`store, this`runs, this`activeRuns, this`activeBySource, this`unfinished, this`schedulerWakeup
      ensures View() == Settle(old(View()), run, task)
    {
      hide EndRun;
      SaveTask(runs[run].task, task);
      ExecuteQueuedExits(run);
    }

    // What `_run` does between two suspensions, and the exit if it ends there.
    method RunStep(run: Handle, event: RunEvent)
      modifies this`store, this`runs, this`activeRuns, this`activeBySource, this`unfinished, this`schedulerWakeup, this`held, this`ever, this`resumeFromStage
      ensures View() == RunAdvances(old(View()), run, event)
    {
      hide EndRun, MoveRun, RunWrites;
      if run !in runs || !Live(runs[run].point) { return; }
      var id := runs[run].task;
      if id !in store {
        ExecuteQueuedExits(run);
        return;
      }
      TakeResumeFlag(run);
      RunWorks(run, store[id].(resumeFromStage := true), event);
    }

    method TakeResumeFlag(run: Handle)
      requires run in runs
      modifies this`resumeFromStage
      ensures View() == if runs[run].point.Fresh? then old(View()).(resumeSet := old(resumeFromStage) - {runs[run].task}) else old(View())
    {
      if runs[run].point.Fresh? { resumeFromStage := resumeFromStage - {runs[run].task}; }
    }

    method RunWorks(run: Handle, task: Task, event: RunEvent)
      requires run in runs
      modifies this`store, this`runs, this`activeRuns, this`activeBySource, this`unfinished, this`schedulerWakeup, this`held, this`ever
      ensures View() == RunWrites(old(View()), run, task, event)
    {
      hide EndRun, MoveRun, RunFetched, FailedTask;
      var point := runs[run].point;
      match event
      case CheckPointers =>
        if point.Fresh? && IsModelScope(task.provider) {
          RunSuspends(run, task, Pointers);
        }
      case Fetch =>
        if point.Fresh? || point.Pointers? {
          RunSuspends(run, task.(status := Downloading, queuePosition := None), Fetching);
        }
      case Raise(late, dequeued) =>
        RunSettles(run, FailedTask(task, late, dequeued));
      case _ =>
        if Stopped(task.status) { ExecuteQueuedExits(run); } else { RunHasFetched(run, task, event); }
    }

    method RunHasFetched(run: Handle, task: Task, event: RunEvent)
      requires run in runs
      modifies this`store, this`runs, this`activeRuns, this`activeBySource, this`unfinished, this`schedulerWakeup, this`held, this`ever
      ensures View() == RunFetched(old(View()), run, task, event)
    {
      hide Settle, Suspend, Hold, FailedTask, PublishedTask;
      match event
      case Hash =>
        RunSuspends(run, task.(status := Verifying, queuePosition := None), Hashing);
      case AwaitUser(revision) =>
        if task.provider == Http {
          RunSettles(run, task.(status := AwaitingConfirmation, queuePosition := None, resolved := Some(revision)));
        }
      case RaisePublished(revision) =>
        if task.provider != Http { RunPublishes(run, FailedTask(task, Some(revision), true), Identity(task, revision)); }
      case Publish(revision) =>
        if task.provider != Http { RunPublishes(run, PublishedTask(task, revision), Identity(task, revision)); }
      case _ =>
    }

    // Publishes, then writes the last record.
    method RunPublishes(run: Handle, task: Task, artifact: ArtifactId)
      requires run in runs
      modifies this`store, this`runs, this`activeRuns, this`activeBySource, this`unfinished, this`schedulerWakeup, this`held, this`ever
      ensures View() == Hold(Settle(old(View()), run, task), artifact)
    {
      hide EndRun;
      PublishArtifact(artifact);
      RunSettles(run, task);
    }

    method PublishArtifact(artifact: ArtifactId)
      modifies this`held, this`ever
      ensures View() == Hold(old(View()), artifact)
    {
      held := held + {artifact};
      ever := ever + {artifact};
    }

    // A cancelled run leaves through its `finally`.
    method RunLeaves(run: Handle)
      modifies this
      ensures View() == old(View()).(loop := RunUnwinds(old(Events()), run))
    {
      if run in runs && runs[run].point == Unwinding { ExecuteQueuedExits(run); }
    }

    method ConfirmHttp(id: TaskId, event: ConfirmEvent)
      modifies this`store, this`activeRuns, this`confirms, this`schedulerWakeup, this`held, this`ever, this`nextHandle
      ensures View() == ConfirmBegins(old(View()), id, event)
    {
      hide BeginConfirm, ConfirmSettles;
      if id in activeRuns { return; }
      if id !in store || store[id].status != AwaitingConfirmation || store[id].provider != Http || store[id].resolved in {None, Some("")} {
        schedulerWakeup := true;
        return;
      }
      var operation := OpenConfirm(id);
      ConfirmWorks(operation, id, event);
    }

    method OpenConfirm(id: TaskId) returns (operation: Handle)
      requires id in store
      modifies this`store, this`activeRuns, this`confirms, this`nextHandle
      ensures operation == old(nextHandle)
      ensures View() == SetTask(old(View()), id, old(store)[id].(status := Verifying)).(loop := BeginConfirm(old(Events()), id))
    {
      SaveTask(id, store[id].(status := Verifying));
      operation := nextHandle;
      nextHandle := nextHandle + 1;
      activeRuns := activeRuns[id := operation];
      confirms := confirms[operation := Confirm(id, true)];
    }

    // The `finally` of `confirm_http`.
    method ConfirmExits(operation: Handle, id: TaskId)
      modifies this`activeRuns, this`confirms, this`schedulerWakeup
      ensures Events() == EndConfirm(old(Events()), operation, id)
    {
      confirms := confirms - {operation};
      if id in activeRuns && activeRuns[id] == operation { activeRuns := activeRuns - {id}; }
      schedulerWakeup := true;
    }

    method ConfirmWorks(operation: Handle, id: TaskId, event: ConfirmEvent)
      requires id in store
      modifies this`store, this`activeRuns, this`confirms, this`schedulerWakeup, this`held, this`ever
      ensures View() == ConfirmSettles(old(View()), operation, id, event)
    {
      hide EndConfirm, HttpIdentity;
      var task := store[id];
      match event
      case KeepWorking =>
      case GiveUp => ConfirmExits(operation, id);
      case FailPublishing(false) => ConfirmSaves(operation, id, task.(status := Publishing));
      case FailPublishing(true) =>
        ConfirmPublishes(operation, id, task.(status := Publishing), HttpIdentity(task));
      case PublishHttp =>
        ConfirmPublishes(operation, id, task.(status := Completed, artifact := Some(HttpIdentity(task))), HttpIdentity(task));
    }

    method ConfirmPublishes(operation: Handle, id: TaskId, task: Task, artifact: ArtifactId)
      modifies this`store, this`activeRuns, this`confirms, this`schedulerWakeup, this`held, this`ever
      ensures View() == Hold(SetTask(old(View()), id, task).(loop := EndConfirm(old(Events()), operation, id)), artifact)
    {
      hide EndConfirm;
      PublishArtifact(artifact);
      ConfirmSaves(operation, id, task);
    }

    // Writes the last record of a confirmation and leaves.
    method ConfirmSaves(operation: Handle, id: TaskId, task: Task)
      modifies this`store, this`activeRuns, this`confirms, this`schedulerWakeup
      ensures View() == SetTask(old(View()), id, task).(loop := EndConfirm(old(Events()), operation, id))
    {
      hide EndConfirm;
      SaveTask(id, task);
      ConfirmExits(operation, id);
    }

    method ConfirmStep(operation: Handle, event: ConfirmEvent)
      modifies this`store, this`activeRuns, this`confirms, this`schedulerWakeup, this`held, this`ever
      ensures View() == ConfirmAdvances(old(View()), operation, event)
    {
      hide EndConfirm, ConfirmSettles;
      if operation !in confirms || !confirms[operation].working { return; }
      var id := confirms[operation].task;
      if id in store { ConfirmWorks(operation, id, event); } else { ConfirmExits(operation, id); }
    }

    method ConfirmLeaves(operation: Handle)
      modifies this
      ensures View() == old(View()).(loop := ConfirmUnwinds(old(Events()), operation))
    {
      if operation in confirms && !confirms[operation].working { ConfirmExits(operation, confirms[operation].task); }
    }

    method DeleteArtifact(artifact: ArtifactId)
      modifies this`held
      ensures held == old(held) - {artifact}
    {
      held := held - {artifact};
    }

    // Every step of the state machine is one of the methods above, so what is
    // proved of its steps holds of the object.
    method Perform(step: Step, listed: seq<TaskId>)
      requires Lists(store, listed) && (step.DoCreate? ==> step.id !in known)
      modifies this
      ensures View() == Next(config, old(View()), step)
      ensures old(Core(config, View())) ==> Core(config, View())
      ensures old(Safe(config, View())) ==> forall id :: Moves(old(View()), step, View(), id)
      ensures old(Safe(config, View())) ==> TaskEffects.Effect(old(View()), step, View())
      ensures old(Safe(config, View())) && (config.perSource == 1 || (old(Unique(View().loop)) && !Requeues(old(View()), step))) ==> Safe(config, View())
      ensures old(Core(config, View()) && Unique(View().loop)) ==> (Unique(View().loop) <==> !Requeues(old(View()), step))
      ensures old(Safe(config, View()) && Deduplicated(View())) ==> (Deduplicated(View()) <==> !RevivesTwin(old(View()), step))
    {
      Promises(config, View(), step);
      hide *;
      Take(step, listed);
    }

    method Take(step: Step, listed: seq<TaskId>)
      requires Lists(store, listed) && (step.DoCreate? ==> step.id !in known)
      modifies this
      ensures View() == Next(config, old(View()), step)
    {
      hide Next;
      if IsControl(step) || step.DoDeleteTask? || step.DoDeleteArtifact? || step.DoReorder? {
        Serve(step, listed);
      } else {
        Happen(step);
      }
    }

    // The calls of a user ...
    method Serve(step: Step, listed: seq<TaskId>)
      requires Lists(store, listed) && (step.DoCreate? ==> step.id !in known)
      requires IsControl(step) || step.DoDeleteTask? || step.DoDeleteArtifact? || step.DoReorder?
      modifies this
      ensures View() == Next(config, old(View()), step)
    {
      hide Create, TaskState.StartNow, TaskState.Reschedule, TaskState.Pause, TaskState.Resume, TaskState.Cancel,
        TaskState.DeleteTask, Reorder;
      match step
      case DoCreate(id, p, q, resolved, createdAt, delayed, refused) =>
        var _ := CreateWithResult(listed, id, p, q, resolved, createdAt, delayed, refused);
      case DoStartNow(id) => StartNow(id);
      case DoReschedule(id) => Reschedule(id);
      case DoPause(id) => Pause(id);
      case DoResume(id, delayed) => Resume(id, delayed);
      case DoCancel(id) => Cancel(id);
      case DoDeleteTask(id, withArtifact) => DeleteTask(id, withArtifact);
      case DoDeleteArtifact(artifact) => DeleteArtifact(artifact);
      case DoReorder(ids) => ReorderQueued(ids);
    }

    // ... and what the event loop resumes.
    method Happen(step: Step)
      requires !(IsControl(step) || step.DoDeleteTask? || step.DoDeleteArtifact? || step.DoReorder?)
      modifies this
      ensures View() == Next(config, old(View()), step)
    {
      hide CallReturns, TimerFires, TimerReaped, Schedule, RunAdvances, RunUnwinds, ConfirmBegins, ConfirmAdvances, ConfirmUnwinds;
      match step
      case DoCallReturns(call) => CallResumes(call);
      case DoTimerFires(timer) => ScheduledTimeArrives(timer);
      case DoTimerReaped(timer) => WaiterFinished(timer);
      case DoSchedule => SchedulerTurn();
      case DoRunAdvances(run, event) => RunStep(run, event);
      case DoRunUnwinds(run) => RunLeaves(run);
      case DoConfirmBegins(id, event) => ConfirmHttp(id, event);
      case DoConfirmAdvances(operation, event) => ConfirmStep(operation, event);
      case DoConfirmUnwinds(operation) => ConfirmLeaves(operation);
    }
  }

  function Identified(provider: Provider, request: Request, revision: string): ArtifactId {
    ArtifactId(provider, request.source, revision, request.selection)
  }

  predicate HasDuplicate(s: State, provider: Provider, request: Request, resolved: Option<string>) {
    && resolved.Some? && resolved.value != ""
    && var artifact := Identified(provider, request, resolved.value);
       if artifact in s.held then HasCompleted(s, artifact) else HasTwin(s, provider, request, resolved.value)
  }

  // The record answers the request: the artifact is there, or the task is open
  // for the same ingestion.
  predicate Serves(held: set<ArtifactId>, t: Task, provider: Provider, request: Request, resolved: Option<string>) {
    if resolved.Some? && resolved.value != "" && Identified(provider, request, resolved.value) in held
    then t.status == Completed && t.artifact == Some(Identified(provider, request, resolved.value))
    else !Terminal(t.status) && t.provider == provider && t.request == request && t.resolved == resolved
  }

  lemma AdmitIs(s: State, id: TaskId, p: Provider, q: Request, resolved: Option<string>, createdAt: int, delayed: bool)
    ensures var b := s.(nextPosition := s.nextPosition + 1, known := s.known[id := p]);
            Admit(s, id, p, q, resolved, createdAt, delayed)
            == if delayed
               then SetTask(b, id, Task(p, q, resolved, Scheduled, None, createdAt, false, None)).(loop := Arm(b.loop, id))
               else SetTask(b, id, Task(p, q, resolved, Queued, Some(s.nextPosition), createdAt, false, None)).(loop := Enqueue(b.loop, id))
  {
    hide Arm, Enqueue;
  }

  lemma AdmittedServes(s: State, id: TaskId, p: Provider, q: Request, resolved: Option<string>, createdAt: int, delayed: bool)
    requires !(resolved.Some? && resolved.value != "" && Identified(p, q, resolved.value) in s.held)
    ensures var t := Admit(s, id, p, q, resolved, createdAt, delayed); id in t.store && Serves(s.held, t.store[id], p, q, resolved)
  {
    hide Arm, Enqueue;
  }

  // What holds of every step, gathered for the object.
  lemma Promises(c: Config, s: State, step: Step)
    ensures var t := Next(c, s, step);
            && (Core(c, s) ==> Core(c, t))
            && (Safe(c, s) ==> forall id :: Moves(s, step, t, id))
            && (Safe(c, s) ==> TaskEffects.Effect(s, step, t))
            && (Safe(c, s) && (c.perSource == 1 || (Unique(s.loop) && !Requeues(s, step))) ==> Safe(c, t))
            && (Core(c, s) && Unique(s.loop) ==> (Unique(t.loop) <==> !Requeues(s, step)))
            && (Safe(c, s) && Deduplicated(s) ==> (Deduplicated(t) <==> !RevivesTwin(s, step)))
  {
    assert Core(c, s) ==> Handles(s.loop);
    hide *;
    if Core(c, s) { CoreStep(c, s, step); }
    if Core(c, s) && Unique(s.loop) { UniqueStep(c, s, step); }
    if Safe(c, s) && (c.perSource == 1 || (Unique(s.loop) && !Requeues(s, step))) { SafeNext(c, s, step); }
    if Safe(c, s) && Deduplicated(s) { DedupStep(c, s, step); }
    if Safe(c, s) {
      TaskEffects.StepEffects(c, s, step);
      forall id ensures Moves(s, step, Next(c, s, step), id) { SafeMove(c, s, step, id); }
    }
  }

  lemma SafeMove(c: Config, s: State, step: Step, id: TaskId)
    requires Safe(c, s)
    ensures Moves(s, step, Next(c, s, step), id)
  {
    hide Next, Moves;
    StatusStep(c, s, step, id);
  }

  // The rounds of a turn.
  lemma LaunchNext(c: Config, store: map<TaskId, Task>, l: Loop)
    requires |l.activeRuns| < c.maxRuns
    ensures var l1 := Purge(store, l);
            var b := Best(c, store, l1, l1.pending);
            if b.None? then LaunchAll(c, store, l) == l1
            else
              var m := Launch(l1, b.value, store[l1.pending[b.value]].provider);
              LaunchAll(c, store, l) == LaunchAll(c, store, m) && |Kept(store, m.pending)| < |Kept(store, l.pending)|
  {
    var l1 := Purge(store, l);
    var b := Best(c, store, l1, l1.pending);
    if b.Some? { LaunchShrinks(store, l.pending, b.value); }
  }

  lemma LaunchNone(c: Config, store: map<TaskId, Task>, l: Loop)
    requires |l.activeRuns| >= c.maxRuns
    ensures LaunchAll(c, store, l) == l
  {
  }

  // How the scan extends the purged prefix and its best entry.
  lemma KeptNone(store: map<TaskId, Task>)
    ensures Kept(store, []) == []
  {
  }

  lemma KeptNext(store: map<TaskId, Task>, q: seq<TaskId>, k: nat)
    requires k < |q|
    ensures Kept(store, q[..k+1]) == if q[k] in store && store[q[k]].status == Queued then Kept(store, q[..k]) + [q[k]] else Kept(store, q[..k])
  {
    assert q[..k+1][..k] == q[..k];
  }

  lemma BestAmongNone(c: Config, store: map<TaskId, Task>, l: Loop)
    ensures Best(c, store, l, []) == None
  {
  }

  lemma BestNext(c: Config, store: map<TaskId, Task>, l: Loop, q: seq<TaskId>, k: nat)
    requires k < |q|
    ensures var b := Best(c, store, l, q[..k]);
            Best(c, store, l, q[..k+1])
            == if Eligible(c, store, l, q[k]) && (b.None? || Before(store[q[k]], store[q[b.value]])) then Some(k) else b
  {
    assert q[..k+1][..k] == q[..k];
  }

  // The scan depends on the counters alone.
  lemma {:induction false} BestNeedsCounts(c: Config, store: map<TaskId, Task>, l: Loop, t: Loop, q: seq<TaskId>)
    requires l.activeBySource == t.activeBySource
    ensures Best(c, store, l, q) == Best(c, store, t, q)
  {
    if q != [] { BestNeedsCounts(c, store, l, t, q[..|q|-1]); }
  }
}
