// The status machine: what the exclusion invariant gives on every step of
// every run, although the writes of a run check nothing.
module TaskStatus {
  import opened TaskTypes
  import opened TaskState
  import opened TaskInvariants
  import opened TaskRuns
  import opened TaskExclusion

  // Every SCHEDULED task has a sleeping timer, and no call will disarm it.
  ghost predicate Armed(store: map<TaskId, Task>, l: Loop) {
    Awaited(store, l) && Timetable(l) && Spared(store, l)
  }

  ghost predicate Awaited(store: map<TaskId, Task>, l: Loop) {
    forall id :: Has(store, id, Scheduled) ==> Sleeps(l, id)
  }

  // A sleeping timer is the one `_scheduled_runs` holds for its task.
  ghost predicate Timetable(l: Loop) {
    && (forall h :: h in l.sleeping ==> h !in l.expired && l.sleeping[h] in l.scheduledRuns && l.scheduledRuns[l.sleeping[h]] == h)
    && (forall id :: id in l.scheduledRuns ==> l.scheduledRuns[id] < l.nextHandle)
    && (forall id :: id in l.scheduledRuns && l.scheduledRuns[id] in l.sleeping ==> l.sleeping[l.scheduledRuns[id]] == id)
  }

  ghost predicate Spared(store: map<TaskId, Task>, l: Loop) {
    forall h :: h in l.calls && l.calls[h].CancelTail? ==> Gone(store, l.calls[h].task)
  }

  predicate Sleeps(l: Loop, id: TaskId) {
    id in l.scheduledRuns && l.scheduledRuns[id] in l.sleeping && l.sleeping[l.scheduledRuns[id]] == id
  }

  predicate Gone(store: map<TaskId, Task>, id: TaskId) {
    id in store ==> store[id].status == Cancelled
  }

  ghost predicate Exclusive(c: Config, s: State) {
    Sole(c, s.store, s.loop) && Armed(s.store, s.loop)
  }

  // ---- exclusion on every step ---------------------------------------------------

  // Nobody is writing the record of the task.
  ghost predicate Idle(l: Loop, id: TaskId) {
    RunsIdle(l, id) && ConfirmsIdle(l, id)
  }

  ghost predicate RunsIdle(l: Loop, id: TaskId) {
    forall h :: h in l.runs && l.runs[h].task == id ==> !Live(l.runs[h].point)
  }

  ghost predicate ConfirmsIdle(l: Loop, id: TaskId) {
    forall h :: h in l.confirms && l.confirms[h].task == id ==> !l.confirms[h].working
  }

  lemma SoleSame(c: Config, store: map<TaskId, Task>, l: Loop, t: Loop)
    requires Sole(c, store, l) && t.runs == l.runs && t.confirms == l.confirms && t.activeRuns == l.activeRuns
    ensures Sole(c, store, t)
  {
    assert forall k :: k in l.runs ==> Holds(l, k, l.runs[k].task);
    assert forall k :: k in l.confirms && l.confirms[k].working ==> Holds(l, k, l.confirms[k].task);
  }

  lemma SoleWrite(c: Config, store: map<TaskId, Task>, l: Loop, id: TaskId, t: Task)
    requires Sole(c, store, l) && Idle(l, id)
    ensures Sole(c, store[id := t], l)
  {
  }

  lemma SoleDrop(c: Config, store: map<TaskId, Task>, l: Loop, id: TaskId)
    requires Sole(c, store, l) && Idle(l, id)
    ensures Sole(c, store - {id}, l)
  {
  }

  lemma RestingIsIdle(c: Config, store: map<TaskId, Task>, l: Loop, id: TaskId)
    requires Sole(c, store, l)
    requires id in store ==> !store[id].status.Queued? && !store[id].status.Downloading? && !store[id].status.Verifying?
    ensures Idle(l, id)
  {
  }

  lemma SoleMove(c: Config, store: map<TaskId, Task>, l: Loop, h: Handle, point: Point)
    requires Sole(c, store, l) && h in l.runs && !Live(point)
    ensures Sole(c, store, MoveRun(l, h, point))
  {
    OwnedMove(l, h, point);
    CountKeys(l.runs, MoveRun(l, h, point).runs);
    hide Owned;
    assert forall k :: k in l.confirms && l.confirms[k].working ==> Holds(l, k, l.confirms[k].task);
  }

  lemma CountKeys<K, V>(a: map<K, V>, b: map<K, V>)
    requires a.Keys == b.Keys
    ensures |a| == |b|
  {
    assert |a.Keys| == |b.Keys|;
  }

  lemma SoleStopsConfirm(c: Config, store: map<TaskId, Task>, l: Loop, h: Handle)
    requires Sole(c, store, l) && Handles(l) && h in l.confirms
    ensures Sole(c, store, CancelHandle(l, h))
  {
    OwnedSame(l, CancelHandle(l, h));
    hide Owned;
    assert forall k :: k in l.confirms && l.confirms[k].working ==> Holds(l, k, l.confirms[k].task);
  }

  // Pausing or cancelling leaves nobody writing the task.
  lemma StopRunsIdle(l: Loop, id: TaskId)
    requires Owned(l) && Handles(l) && Registered(l) && Busy(l, id)
    ensures RunsIdle(CancelHandle(l, l.activeRuns[id]), id)
  {
    var t := CancelHandle(l, l.activeRuns[id]);
    assert Operates(l, l.activeRuns[id], id);
    hide Handles, Registered;
    forall k | k in t.runs && t.runs[k].task == id ensures !Live(t.runs[k].point) {
      assert Holds(l, k, l.runs[k].task);
    }
  }

  lemma StopConfirmsIdle(store: map<TaskId, Task>, l: Loop, id: TaskId)
    requires Owned(l) && ConfirmsFit(store, l) && Handles(l) && Registered(l) && Busy(l, id)
    ensures ConfirmsIdle(CancelHandle(l, l.activeRuns[id]), id)
  {
    assert Operates(l, l.activeRuns[id], id);
    assert forall k :: k in l.confirms && l.confirms[k].working ==> Holds(l, k, l.confirms[k].task);
  }

  lemma StopIdles(c: Config, store: map<TaskId, Task>, l: Loop, id: TaskId)
    requires Sole(c, store, l) && Handles(l) && Registered(l) && Busy(l, id)
    ensures Idle(CancelHandle(l, l.activeRuns[id]), id)
  {
    hide RunsIdle, ConfirmsIdle, Handles, Registered, Owned, CancelHandle;
    StopRunsIdle(l, id);
    StopConfirmsIdle(store, l, id);
  }

  lemma StopSole(c: Config, store: map<TaskId, Task>, l: Loop, id: TaskId)
    requires Sole(c, store, l) && Handles(l) && Registered(l) && Busy(l, id)
    ensures Sole(c, store, CancelHandle(l, l.activeRuns[id]))
  {
    var h := l.activeRuns[id];
    assert Operates(l, h, id);
    hide Sole;
    if h in l.runs {
      SoleMove(c, store, l, h, CancelHandle(l, h).runs[h].point);
    } else {
      SoleStopsConfirm(c, store, l, h);
    }
  }

  lemma NotBusyIdles(c: Config, store: map<TaskId, Task>, l: Loop, id: TaskId)
    requires Sole(c, store, l) && !Busy(l, id)
    ensures Idle(l, id)
  {
    assert forall k :: k in l.runs ==> Holds(l, k, l.runs[k].task);
    assert forall k :: k in l.confirms && l.confirms[k].working ==> Holds(l, k, l.confirms[k].task);
  }

  lemma StoppedSole(c: Config, store: map<TaskId, Task>, l: Loop, id: TaskId, t: Task, call: Call)
    requires Sole(c, store, l) && Handles(l) && Registered(l) && Busy(l, id)
    ensures Sole(c, store[id := t], Suspended(CancelHandle(l, l.activeRuns[id]), call))
  {
    hide Sole, Idle, Handles, Registered, CancelHandle;
    var m := CancelHandle(l, l.activeRuns[id]);
    StopSole(c, store, l, id);
    StopIdles(c, store, l, id);
    SoleWrite(c, store, m, id, t);
    SoleSame(c, store[id := t], m, Suspended(m, call));
  }

  lemma UnstoppedSole(c: Config, store: map<TaskId, Task>, l: Loop, id: TaskId, t: Task, m: Loop)
    requires Sole(c, store, l) && !Busy(l, id)
    requires m.runs == l.runs && m.confirms == l.confirms && m.activeRuns == l.activeRuns
    ensures Sole(c, store[id := t], m)
  {
    hide Sole, Idle;
    NotBusyIdles(c, store, l, id);
    SoleWrite(c, store, l, id, t);
    SoleSame(c, store[id := t], l, m);
  }

  // A record nobody is writing is rewritten; the loop changes elsewhere.
  lemma RestingSole(c: Config, store: map<TaskId, Task>, l: Loop, id: TaskId, t: Task, m: Loop)
    requires Sole(c, store, l)
    requires id in store ==> !store[id].status.Queued? && !store[id].status.Downloading? && !store[id].status.Verifying?
    requires m.runs == l.runs && m.confirms == l.confirms && m.activeRuns == l.activeRuns
    ensures Sole(c, store[id := t], m)
  {
    hide Sole, Idle;
    RestingIsIdle(c, store, l, id);
    SoleWrite(c, store, l, id, t);
    SoleSame(c, store[id := t], l, m);
  }

  lemma SoleEnds(c: Config, store: map<TaskId, Task>, l: Loop, h: Handle)
    requires Sole(c, store, l) && Handles(l) && h in l.runs
    ensures Sole(c, store, EndRun(l, h)) && Idle(EndRun(l, h), l.runs[h].task)
  {
    OwnedEnd(l, h);
    OneFewer(l.runs, h);
    assert forall k :: k in l.runs ==> Holds(l, k, l.runs[k].task);
    assert forall k :: k in l.confirms && l.confirms[k].working ==> Holds(l, k, l.confirms[k].task);
  }

  lemma SoleAdvances(c: Config, store: map<TaskId, Task>, l: Loop, h: Handle, point: Point, t: Task)
    requires Sole(c, store, l) && Handles(l) && h in l.runs && Live(l.runs[h].point)
    requires Live(point) && t.status == StatusAt(point)
    ensures Sole(c, store[l.runs[h].task := t], MoveRun(l, h, point))
  {
    OwnedMove(l, h, point);
    CountKeys(l.runs, MoveRun(l, h, point).runs);
    hide Owned;
    assert forall k :: k in l.runs ==> Holds(l, k, l.runs[k].task) by { assert Owned(l); }
    assert forall k :: k in l.confirms && l.confirms[k].working ==> Holds(l, k, l.confirms[k].task);
  }

  // ---- the steps, one by one -------------------------------------------------------

  lemma PauseSole(c: Config, s: State, id: TaskId)
    requires Sole(c, s.store, s.loop) && Handles(s.loop) && Registered(s.loop)
    ensures Sole(c, Pause(s, id).store, Pause(s, id).loop)
  {
    hide Sole, Handles, Registered;
    if id in s.store && Pausable(s.store[id].status) {
      var t := Pause(s, id).store[id];
      if Busy(s.loop, id) {
        StoppedSole(c, s.store, s.loop, id, t, PauseTail(id, s.loop.activeRuns[id]));
      } else {
        UnstoppedSole(c, s.store, s.loop, id, t, s.loop.(wakeup := true));
      }
    }
  }

  lemma CancelSole(c: Config, s: State, id: TaskId)
    requires Sole(c, s.store, s.loop) && Handles(s.loop) && Registered(s.loop)
    ensures Sole(c, Cancel(s, id).store, Cancel(s, id).loop)
  {
    hide Sole, Handles, Registered;
    if id in s.store && Cancellable(s.store[id].status) {
      var t := Cancel(s, id).store[id];
      if Busy(s.loop, id) {
        StoppedSole(c, s.store, s.loop, id, t, CancelTail(id, s.loop.activeRuns[id]));
      } else {
        UnstoppedSole(c, s.store, s.loop, id, t, Cancel(s, id).loop);
      }
    }
  }

  lemma ResumeSole(c: Config, s: State, id: TaskId, delayed: bool)
    requires Sole(c, s.store, s.loop)
    ensures Sole(c, Resume(s, id, delayed).store, Resume(s, id, delayed).loop)
  {
    hide Sole;
    if Is(s, id, Paused) || Is(s, id, Failed) {
      RestingSole(c, s.store, s.loop, id, Resume(s, id, delayed).store[id], Resume(s, id, delayed).loop);
    }
  }

  lemma StartNowSole(c: Config, s: State, id: TaskId)
    requires Sole(c, s.store, s.loop)
    ensures Sole(c, StartNow(s, id).store, StartNow(s, id).loop)
    ensures Sole(c, Reschedule(s, id).store, Reschedule(s, id).loop)
  {
    hide Sole;
    if Is(s, id, Scheduled) {
      RestingSole(c, s.store, s.loop, id, StartNow(s, id).store[id], StartNow(s, id).loop);
      RestingSole(c, s.store, s.loop, id, Reschedule(s, id).store[id], Reschedule(s, id).loop);
    }
  }

  lemma TimerOps(l: Loop, h: Handle, id: TaskId)
    ensures var t := CancelTimer(l, h); t.runs == l.runs && t.confirms == l.confirms && t.activeRuns == l.activeRuns
    ensures var t := Enqueue(l, id); t.runs == l.runs && t.confirms == l.confirms && t.activeRuns == l.activeRuns
  {
  }

  lemma TimerShape(s: State, h: Handle)
    ensures var t := TimerFires(s, h);
            && t.loop.runs == s.loop.runs && t.loop.confirms == s.loop.confirms && t.loop.activeRuns == s.loop.activeRuns
            && (t.store == s.store || (h in s.loop.sleeping && Is(s, s.loop.sleeping[h], Scheduled) && s.loop.sleeping[h] in t.store
                                       && t.store == s.store[s.loop.sleeping[h] := t.store[s.loop.sleeping[h]]]))
  {
    if h in s.loop.sleeping {
      TimerOps(s.loop, h, s.loop.sleeping[h]);
      TimerOps(CancelTimer(s.loop, h), h, s.loop.sleeping[h]);
    }
    hide CancelTimer, Enqueue;
  }

  lemma TimerSole(c: Config, s: State, h: Handle)
    requires Sole(c, s.store, s.loop)
    ensures Sole(c, TimerFires(s, h).store, TimerFires(s, h).loop)
  {
    TimerShape(s, h);
    var t := TimerFires(s, h);
    hide Sole, TimerFires;
    if t.store == s.store {
      SoleSame(c, s.store, s.loop, t.loop);
    } else {
      RestingSole(c, s.store, s.loop, s.loop.sleeping[h], t.store[s.loop.sleeping[h]], t.loop);
    }
  }

  lemma ArmMoves(l: Loop, id: TaskId)
    ensures Arm(l, id) != l && Enqueue(l, id) != l
  {
    assert Arm(l, id).nextHandle != l.nextHandle && Enqueue(l, id).unfinished != l.unfinished;
  }

  // Admission writes one fresh record and queues or arms it.
  ghost predicate Admits(s: State, t: State, id: TaskId, delayed: bool) {
    && id !in s.known && id in t.store && t.store == s.store[id := t.store[id]]
    && (t.loop == s.loop || t.loop == if delayed then Arm(s.loop, id) else Enqueue(s.loop, id))
    && (t.store[id].status.Scheduled? <==> t.loop != s.loop && delayed)
  }

  lemma CreateShape(c: Config, s: State, step: Step)
    requires step.DoCreate?
    ensures Next(c, s, step) == s || Admits(s, Next(c, s, step), step.id, step.delayed)
  {
    ArmMoves(s.loop, step.id);
    hide Arm, Enqueue, HasTwin, HasCompleted, Admit;
    AdmitShape(s, step.id, step.provider, step.request, step.resolved, step.createdAt, step.delayed);
  }

  lemma AdmitShape(s: State, id: TaskId, p: Provider, q: Request, resolved: Option<string>, createdAt: int, delayed: bool)
    ensures id !in s.known ==> Admits(s, Admit(s, id, p, q, resolved, createdAt, delayed), id, delayed)
  {
    ArmMoves(s.loop, id);
    hide Arm, Enqueue;
  }

  lemma AdmitLoop(l: Loop, id: TaskId)
    ensures SameOperations(l, Arm(l, id)) && SameOperations(l, Enqueue(l, id))
  {
  }

  lemma CreateSole(c: Config, s: State, step: Step)
    requires Sole(c, s.store, s.loop) && step.DoCreate? && StoreKnown(s.store, s.known)
    ensures Sole(c, Next(c, s, step).store, Next(c, s, step).loop)
  {
    CreateShape(c, s, step);
    AdmitLoop(s.loop, step.id);
    hide Sole, Next, Arm, Enqueue;
    if Next(c, s, step) != s {
      RestingSole(c, s.store, s.loop, step.id, Next(c, s, step).store[step.id], Next(c, s, step).loop);
    }
  }

  predicate SameOperations(l: Loop, t: Loop) {
    t.runs == l.runs && t.confirms == l.confirms && t.activeRuns == l.activeRuns
  }

  lemma FinishLoop(s: State, id: TaskId)
    ensures SameOperations(s.loop, FinishCancel(s, id).loop) && FinishCancel(s, id).store == s.store
  {
  }

  lemma CancelReturns(s: State, call: Handle)
    requires call in s.loop.calls && s.loop.calls[call].CancelTail?
    ensures SameOperations(s.loop, CallReturns(s, call).loop) && CallReturns(s, call).store == s.store
  {
    hide Finished, FinishCancel;
    FinishLoop(s.(loop := s.loop.(calls := s.loop.calls - {call})), s.loop.calls[call].task);
  }

  lemma PauseReturns(s: State, call: Handle)
    requires call in s.loop.calls && s.loop.calls[call].PauseTail?
    ensures SameOperations(s.loop, CallReturns(s, call).loop) && CallReturns(s, call).store == s.store
  {
    hide Finished;
  }

  lemma StartNowReturns(s: State, call: Handle)
    requires call in s.loop.calls && s.loop.calls[call].StartNowTail?
    ensures SameOperations(s.loop, CallReturns(s, call).loop) && CallReturns(s, call).store == s.store
  {
  }

  lemma ReturnSole(c: Config, s: State, call: Handle)
    requires Sole(c, s.store, s.loop)
    ensures Sole(c, CallReturns(s, call).store, CallReturns(s, call).loop)
  {
    if call in s.loop.calls {
      hide Sole, CallReturns;
      match s.loop.calls[call] {
        case PauseTail(_, _) => PauseReturns(s, call);
        case CancelTail(_, _) => CancelReturns(s, call);
        case StartNowTail(_) => StartNowReturns(s, call);
      }
      SoleSame(c, s.store, s.loop, CallReturns(s, call).loop);
    }
  }

  lemma DeleteSole(c: Config, s: State, id: TaskId, withArtifact: bool)
    requires Sole(c, s.store, s.loop)
    ensures Sole(c, DeleteTask(s, id, withArtifact).store, DeleteTask(s, id, withArtifact).loop)
  {
    hide Sole, Idle;
    if id in s.store && Terminal(s.store[id].status) {
      RestingIsIdle(c, s.store, s.loop, id);
      SoleDrop(c, s.store, s.loop, id);
    }
  }

  lemma ReorderSole(c: Config, s: State, ids: seq<TaskId>)
    requires Sole(c, s.store, s.loop)
    ensures Sole(c, Reorder(s, ids).store, Reorder(s, ids).loop)
  {
    RenumberKeeps(s.store, ids);
    SoleSame(c, s.store, s.loop, Reorder(s, ids).loop);
  }

  lemma RunSole(c: Config, s: State, h: Handle, e: RunEvent)
    requires Sole(c, s.store, s.loop) && Handles(s.loop) && h in s.loop.runs && Live(s.loop.runs[h].point)
    ensures Sole(c, RunAdvances(s, h, e).store, RunAdvances(s, h, e).loop)
  {
    var id := s.loop.runs[h].task;
    var t := RunAdvances(s, h, e);
    assert Has(s.store, id, StatusAt(s.loop.runs[h].point));
    RunRecord(s, h, e);
    RunStore(s, h, e);
    hide Sole, Handles, Idle, RunAdvances, Advances, EndRun;
    if t.loop == EndRun(s.loop, h) {
      SoleEnds(c, s.store, s.loop, h);
      SoleWrite(c, s.store, t.loop, id, t.store[id]);
    } else if t.store != s.store || t.loop != s.loop {
      var p :| p in {Pointers, Fetching, Hashing} && Advances(s, t, h, p);
      AdvancesSole(c, s, t, h, p);
    }
  }

  lemma AdvancesSole(c: Config, s: State, t: State, h: Handle, p: Point)
    requires Sole(c, s.store, s.loop) && Handles(s.loop) && h in s.loop.runs && Live(s.loop.runs[h].point)
    requires s.loop.runs[h].task in s.store && p in {Pointers, Fetching, Hashing} && Advances(s, t, h, p)
    requires t.store == s.store[s.loop.runs[h].task := t.store[s.loop.runs[h].task]]
    ensures Sole(c, t.store, t.loop)
  {
    assert Has(s.store, s.loop.runs[h].task, StatusAt(s.loop.runs[h].point));
    hide Sole, Handles, MoveRun;
    SoleAdvances(c, s.store, s.loop, h, p, t.store[s.loop.runs[h].task]);
  }

  // The run suspends again at point `p`, its record saying so.
  predicate Advances(s: State, t: State, h: Handle, p: Point)
    requires h in s.loop.runs && s.loop.runs[h].task in s.store && Live(p)
  {
    var id := s.loop.runs[h].task;
    && t.loop == MoveRun(s.loop, h, p)
    && Has(t.store, id, if p.Pointers? then s.store[id].status else StatusAt(p))
    && (p.Pointers? ==> s.loop.runs[h].point.Fresh?)
  }

  // What a run can do to its record ...
  lemma RunStore(s: State, h: Handle, e: RunEvent)
    requires h in s.loop.runs && Live(s.loop.runs[h].point) && s.loop.runs[h].task in s.store
    ensures s.loop.runs[h].task in RunAdvances(s, h, e).store
    ensures RunAdvances(s, h, e).store == s.store[s.loop.runs[h].task := RunAdvances(s, h, e).store[s.loop.runs[h].task]]
  {
    hide MoveRun, EndRun, FailedTask, PublishedTask;
  }

  // ... and to itself.
  lemma RunRecord(s: State, h: Handle, e: RunEvent)
    requires h in s.loop.runs && Live(s.loop.runs[h].point) && s.loop.runs[h].task in s.store
    ensures var t := RunAdvances(s, h, e);
            || t.loop == EndRun(s.loop, h)
            || (t.loop == s.loop && t.store == s.store)
            || Advances(s, t, h, Pointers) || Advances(s, t, h, Fetching) || Advances(s, t, h, Hashing)
  {
    hide MoveRun, EndRun;
  }

  lemma ConfirmEndsFit(store: map<TaskId, Task>, l: Loop, h: Handle, id: TaskId)
    requires ConfirmsFit(store, l)
    ensures ConfirmsFit(store, EndConfirm(l, h, id))
  {
    var t := EndConfirm(l, h, id);
    forall k | k in t.confirms && t.confirms[k].working
      ensures Has(store, t.confirms[k].task, Verifying) && Holds(t, k, t.confirms[k].task)
    {
      assert Holds(l, k, l.confirms[k].task);
    }
  }

  lemma ConfirmEndsSole(c: Config, store: map<TaskId, Task>, l: Loop, h: Handle, id: TaskId)
    requires Sole(c, store, l) && Handles(l) && h in l.confirms && l.confirms[h].task == id
    ensures Sole(c, store, EndConfirm(l, h, id))
  {
    OwnedSame(l, EndConfirm(l, h, id));
    ConfirmEndsFit(store, l, h, id);
    hide Owned, ConfirmsFit;
  }

  lemma ConfirmEndsIdle(c: Config, store: map<TaskId, Task>, l: Loop, h: Handle, id: TaskId)
    requires Sole(c, store, l) && Handles(l) && h in l.confirms && l.confirms[h] == Confirm(id, true)
    ensures Idle(EndConfirm(l, h, id), id)
  {
    assert Has(store, id, Verifying) && Holds(l, h, id);
    assert forall k :: k in l.runs ==> Holds(l, k, l.runs[k].task);
    assert forall k :: k in l.confirms && l.confirms[k].working ==> Holds(l, k, l.confirms[k].task);
  }

  lemma ConfirmSettlesSole(c: Config, s: State, h: Handle, id: TaskId, e: ConfirmEvent)
    requires Sole(c, s.store, s.loop) && Handles(s.loop) && id in s.store
    requires h in s.loop.confirms && s.loop.confirms[h] == Confirm(id, true)
    ensures Sole(c, ConfirmSettles(s, h, id, e).store, ConfirmSettles(s, h, id, e).loop)
  {
    var t := ConfirmSettles(s, h, id, e);
    ConfirmLoop(s, h, id, e);
    ConfirmStore(s, h, id, e);
    hide Sole, Handles, Idle, EndConfirm, ConfirmSettles;
    if !e.KeepWorking? {
      ConfirmEndsSole(c, s.store, s.loop, h, id);
      ConfirmEndsIdle(c, s.store, s.loop, h, id);
      SoleWrite(c, s.store, t.loop, id, t.store[id]);
    }
  }

  lemma ConfirmStore(s: State, h: Handle, id: TaskId, e: ConfirmEvent)
    requires id in s.store
    ensures id in ConfirmSettles(s, h, id, e).store
    ensures ConfirmSettles(s, h, id, e).store == s.store[id := ConfirmSettles(s, h, id, e).store[id]]
    ensures e.KeepWorking? ==> ConfirmSettles(s, h, id, e) == s
  {
    hide EndConfirm;
  }

  lemma BeginConfirmFits(store: map<TaskId, Task>, l: Loop, id: TaskId)
    requires Fits(store, l) && id !in l.activeRuns && Has(store, id, Verifying)
    ensures Fits(store, BeginConfirm(l, id))
  {
    assert forall k :: k in l.confirms && l.confirms[k].working ==> Holds(l, k, l.confirms[k].task);
  }

  lemma BeginConfirmSole(c: Config, store: map<TaskId, Task>, l: Loop, id: TaskId)
    requires Sole(c, store, l) && Handles(l) && id !in l.activeRuns && Has(store, id, Verifying)
    ensures Sole(c, store, BeginConfirm(l, id))
  {
    OwnedSame(l, BeginConfirm(l, id));
    BeginConfirmFits(store, l, id);
    hide Owned, Fits, Handles;
  }

  lemma BeginHandles(l: Loop, id: TaskId)
    requires Handles(l)
    ensures Handles(BeginConfirm(l, id))
  {
  }

  lemma ConfirmBeginsSole(c: Config, s: State, id: TaskId, e: ConfirmEvent)
    requires Sole(c, s.store, s.loop) && Handles(s.loop)
    ensures Sole(c, ConfirmBegins(s, id, e).store, ConfirmBegins(s, id, e).loop)
  {
    hide Sole, Handles, ConfirmSettles, Idle;
    SoleSame(c, s.store, s.loop, s.loop.(wakeup := true));
    if id !in s.loop.activeRuns && Is(s, id, AwaitingConfirmation) && s.store[id].provider == Http && s.store[id].resolved.Some? {
      ConfirmOpensSole(c, s, id, e);
    }
    hide BeginConfirm;
  }

  lemma ConfirmOpensSole(c: Config, s: State, id: TaskId, e: ConfirmEvent)
    requires Sole(c, s.store, s.loop) && Handles(s.loop) && id !in s.loop.activeRuns && Is(s, id, AwaitingConfirmation)
    ensures var s1 := SetTask(s, id, s.store[id].(status := Verifying)).(loop := BeginConfirm(s.loop, id));
            var t := ConfirmSettles(s1, s.loop.nextHandle, id, e); Sole(c, t.store, t.loop)
  {
    hide Sole, Handles, ConfirmSettles, Idle;
    var s1 := SetTask(s, id, s.store[id].(status := Verifying));
    RestingIsIdle(c, s.store, s.loop, id);
    SoleWrite(c, s.store, s.loop, id, s1.store[id]);
    BeginConfirmSole(c, s1.store, s.loop, id);
    BeginHandles(s.loop, id);
    ConfirmSettlesSole(c, s1.(loop := BeginConfirm(s.loop, id)), s.loop.nextHandle, id, e);
  }

  lemma ConfirmAdvancesSole(c: Config, s: State, h: Handle, e: ConfirmEvent)
    requires Sole(c, s.store, s.loop) && Handles(s.loop)
    ensures Sole(c, ConfirmAdvances(s, h, e).store, ConfirmAdvances(s, h, e).loop)
  {
    if h in s.loop.confirms && s.loop.confirms[h].working {
      assert Has(s.store, s.loop.confirms[h].task, Verifying);
      hide Sole, Handles, ConfirmSettles;
      ConfirmSettlesSole(c, s, h, s.loop.confirms[h].task, e);
    }
  }

  lemma UnwindsSole(c: Config, s: State, h: Handle)
    requires Sole(c, s.store, s.loop) && Handles(s.loop)
    ensures Sole(c, s.store, RunUnwinds(s.loop, h))
    ensures Sole(c, s.store, ConfirmUnwinds(s.loop, h))
  {
    hide Sole, Handles, Idle;
    if h in s.loop.runs { SoleEnds(c, s.store, s.loop, h); }
    if h in s.loop.confirms { ConfirmEndsSole(c, s.store, s.loop, h, s.loop.confirms[h].task); }
  }

  // Only a scheduler turn can end exclusion, and exactly by a launch that meets
  // a run of its task.
  lemma SoleStep(c: Config, s: State, step: Step)
    requires Sole(c, s.store, s.loop) && StoreKnown(s.store, s.known) && Handles(s.loop) && Registered(s.loop)
    requires step.DoSchedule? && s.loop.wakeup ==> LaunchesAlone(c, s.store, Drained(s.loop))
    ensures Sole(c, Next(c, s, step).store, Next(c, s, step).loop)
  {
    hide Sole, Handles, Registered, Create, StartNow, Reschedule, Pause, Resume, Cancel, CallReturns, DeleteTask,
      Reorder, TimerFires, RunAdvances, RunUnwinds, ConfirmBegins, ConfirmAdvances, ConfirmUnwinds, LaunchAll;
    match step
    case DoCreate(_, _, _, _, _, _, _) => CreateSole(c, s, step);
    case DoStartNow(id) => StartNowSole(c, s, id);
    case DoReschedule(id) => StartNowSole(c, s, id);
    case DoPause(id) => PauseSole(c, s, id);
    case DoResume(id, delayed) => ResumeSole(c, s, id, delayed);
    case DoCancel(id) => CancelSole(c, s, id);
    case DoCallReturns(call) => ReturnSole(c, s, call);
    case DoDeleteTask(id, withArtifact) => DeleteSole(c, s, id, withArtifact);
    case DoDeleteArtifact(_) =>
    case DoReorder(ids) => ReorderSole(c, s, ids);
    case DoTimerFires(h) => TimerSole(c, s, h);
    case DoTimerReaped(h) => SoleSame(c, s.store, s.loop, TimerReaped(s.loop, h));
    case DoSchedule => ScheduleSole(c, s);
    case DoRunAdvances(h, e) => RunsSole(c, s, h, e);
    case DoRunUnwinds(h) => UnwindsSole(c, s, h);
    case DoConfirmBegins(id, e) => ConfirmBeginsSole(c, s, id, e);
    case DoConfirmAdvances(h, e) => ConfirmAdvancesSole(c, s, h, e);
    case DoConfirmUnwinds(h) => UnwindsSole(c, s, h);
  }

  lemma RunsSole(c: Config, s: State, h: Handle, e: RunEvent)
    requires Sole(c, s.store, s.loop) && Handles(s.loop)
    ensures Sole(c, RunAdvances(s, h, e).store, RunAdvances(s, h, e).loop)
  {
    hide Sole, Handles;
    if h in s.loop.runs && Live(s.loop.runs[h].point) {
      hide RunAdvances;
      RunSole(c, s, h, e);
    }
  }

  lemma ScheduleSole(c: Config, s: State)
    requires Sole(c, s.store, s.loop) && Handles(s.loop)
    requires s.loop.wakeup ==> LaunchesAlone(c, s.store, Drained(s.loop))
    ensures Sole(c, Schedule(c, s).store, Schedule(c, s).loop)
  {
    if s.loop.wakeup {
      SoleSame(c, s.store, s.loop, Drained(s.loop));
      assert Handles(Drained(s.loop));
      hide Sole, Handles, Drained;
      TurnSole(c, s.store, Drained(s.loop));
    }
  }

  // ---- armed timers ------------------------------------------------------------------

  // Same timers, and no further call about to disarm one.
  predicate SameTimers(l: Loop, t: Loop) {
    && t.scheduledRuns == l.scheduledRuns && t.sleeping == l.sleeping && t.expired == l.expired
    && l.nextHandle <= t.nextHandle
    && (forall h :: h in t.calls && t.calls[h].CancelTail? ==> h in l.calls && l.calls[h] == t.calls[h])
  }

  lemma ArmedSame(store: map<TaskId, Task>, l: Loop, t: Loop)
    requires Armed(store, l) && SameTimers(l, t)
    ensures Armed(store, t)
  {
    assert forall id :: Sleeps(l, id) ==> Sleeps(t, id);
  }

  // No call is about to disarm the task.
  ghost predicate Uncalled(store: map<TaskId, Task>, l: Loop, id: TaskId) {
    forall h :: h in l.calls && l.calls[h].CancelTail? ==> l.calls[h].task != id
  }

  lemma ArmedWrite(store: map<TaskId, Task>, l: Loop, id: TaskId, t: Task)
    requires Armed(store, l) && (t.status.Scheduled? ==> Sleeps(l, id))
    requires Uncalled(store, l, id) || t.status.Cancelled?
    ensures Armed(store[id := t], l)
  {
  }

  lemma LiveUncalled(store: map<TaskId, Task>, l: Loop, id: TaskId)
    requires Armed(store, l) && id in store && !store[id].status.Cancelled?
    ensures Uncalled(store, l, id)
  {
  }

  lemma TimetableInstall(l: Loop, id: TaskId)
    requires Timetable(l) && Handles(l) && (id in l.scheduledRuns ==> l.scheduledRuns[id] !in l.sleeping)
    ensures Timetable(Install(l, id))
  {
  }

  lemma TimetableCancel(l: Loop, h: Handle)
    requires Timetable(l)
    ensures Timetable(CancelTimer(l, h))
  {
  }

  lemma CancelTimerHandles(l: Loop, h: Handle)
    requires Handles(l)
    ensures Handles(CancelTimer(l, h))
  {
  }

  lemma TimetableArm(l: Loop, id: TaskId)
    requires Timetable(l) && Handles(l)
    ensures Timetable(Arm(l, id))
  {
    if id in l.scheduledRuns {
      TimetableCancel(l, l.scheduledRuns[id]);
      CancelTimerHandles(l, l.scheduledRuns[id]);
    }
    hide Timetable, Handles, Install;
    TimetableInstall(CancelTimerOf(l, id), id);
  }

  lemma AwaitedArm(store: map<TaskId, Task>, l: Loop, id: TaskId, t: Task)
    requires Awaited(store, l) && Timetable(l)
    ensures Awaited(store[id := t], Arm(l, id))
  {
    var m := Arm(l, id);
    forall i | Has(store[id := t], i, Scheduled) ensures Sleeps(m, i) {
      assert i != id ==> Sleeps(l, i);
    }
  }

  lemma ArmedArm(store: map<TaskId, Task>, l: Loop, id: TaskId, t: Task)
    requires Armed(store, l) && Handles(l) && Uncalled(store, l, id) && t.status.Scheduled?
    ensures Armed(store[id := t], Arm(l, id))
  {
    TimetableArm(l, id);
    AwaitedArm(store, l, id, t);
    hide Timetable, Awaited, Handles;
  }

  lemma AwaitedDisarm(store: map<TaskId, Task>, l: Loop, id: TaskId)
    requires Awaited(store, l) && Timetable(l) && (id in store ==> !store[id].status.Scheduled?)
    ensures Awaited(store, CancelTimerOf(l, id).(scheduledRuns := l.scheduledRuns - {id}))
  {
    var m := CancelTimerOf(l, id).(scheduledRuns := l.scheduledRuns - {id});
    forall i | Has(store, i, Scheduled) ensures Sleeps(m, i) {
      assert Sleeps(l, i);
    }
  }

  lemma TimetableDrop(l: Loop, id: TaskId)
    requires Timetable(l) && (id in l.scheduledRuns ==> l.scheduledRuns[id] !in l.sleeping)
    ensures Timetable(l.(scheduledRuns := l.scheduledRuns - {id}))
  {
  }

  lemma ArmedDisarm(store: map<TaskId, Task>, l: Loop, id: TaskId)
    requires Armed(store, l) && (id in store ==> !store[id].status.Scheduled?)
    ensures Armed(store, CancelTimerOf(l, id).(scheduledRuns := l.scheduledRuns - {id}))
  {
    AwaitedDisarm(store, l, id);
    if id in l.scheduledRuns { TimetableCancel(l, l.scheduledRuns[id]); }
    TimetableDrop(CancelTimerOf(l, id), id);
    hide Awaited, Timetable;
  }

  lemma ArmedFires(store: map<TaskId, Task>, l: Loop, h: Handle)
    requires Armed(store, l) && h in l.sleeping && (l.sleeping[h] in store ==> !store[l.sleeping[h]].status.Scheduled?)
    ensures Armed(store, CancelTimer(l, h))
  {
    forall i | Has(store, i, Scheduled) ensures Sleeps(CancelTimer(l, h), i) {
      assert Sleeps(l, i);
    }
  }

  lemma ArmedReaped(store: map<TaskId, Task>, l: Loop, h: Handle)
    requires Armed(store, l)
    ensures Armed(store, TimerReaped(l, h))
  {
    forall i | Has(store, i, Scheduled) ensures Sleeps(TimerReaped(l, h), i) {
      assert Sleeps(l, i);
    }
  }

  // ---- which status may follow which ---------------------------------------------------

  // The one cause of every change of status.
  predicate Caused(s: State, step: Step, id: TaskId, a: Status, b: Status) {
    match step
    case DoStartNow(i) => i == id && a.Scheduled? && b.Queued?
    case DoTimerFires(h) => h in s.loop.sleeping && s.loop.sleeping[h] == id && a.Scheduled? && b.Queued?
    case DoPause(i) => i == id && Pausable(a) && b.Paused?
    case DoResume(i, delayed) => i == id && (a.Paused? || a.Failed?) && (if delayed then b.Scheduled? else b.Queued?)
    case DoCancel(i) => i == id && Cancellable(a) && b.Cancelled?
    case DoRunAdvances(h, e) =>
      && h in s.loop.runs && s.loop.runs[h].task == id && Live(s.loop.runs[h].point) && a == StatusAt(s.loop.runs[h].point)
      && (b.Downloading? || b.Verifying? || b.AwaitingConfirmation? || b.Failed? || b.Completed?)
    case DoConfirmBegins(i, e) => i == id && a.AwaitingConfirmation? && (b.Verifying? || b.Publishing? || b.Completed?)
    case DoConfirmAdvances(h, e) =>
      && h in s.loop.confirms && s.loop.confirms[h] == Confirm(id, true) && a.Verifying? && (b.Publishing? || b.Completed?)
    case _ => false
  }

  // A record changes status only for its cause, and stays put once it is
  // COMPLETED or CANCELLED.
  ghost predicate Moves(s: State, step: Step, t: State, id: TaskId) {
    id in s.store && id in t.store ==>
      && (s.store[id].status == t.store[id].status || Caused(s, step, id, s.store[id].status, t.store[id].status))
      && (s.store[id].status.Completed? || s.store[id].status.Cancelled? ==> t.store[id] == s.store[id])
  }

  lemma RunMoves(c: Config, s: State, h: Handle, e: RunEvent, id: TaskId)
    requires Sole(c, s.store, s.loop)
    ensures Moves(s, DoRunAdvances(h, e), RunAdvances(s, h, e), id)
  {
    if h in s.loop.runs && Live(s.loop.runs[h].point) && s.loop.runs[h].task in s.store {
      assert Has(s.store, s.loop.runs[h].task, StatusAt(s.loop.runs[h].point));
      RunStore(s, h, e);
      hide Sole, RunAdvances;
      if id == s.loop.runs[h].task { RunStatus(s, h, e); } else { hide Caused; }
    } else {
      RunWithoutTask(s, h, e);
      hide Caused, RunAdvances, Sole;
    }
  }

  lemma RunWithoutTask(s: State, h: Handle, e: RunEvent)
    requires !(h in s.loop.runs && Live(s.loop.runs[h].point) && s.loop.runs[h].task in s.store)
    ensures RunAdvances(s, h, e).store == s.store
  {
    hide RunWrites, EndRun, Live;
  }

  lemma RunStatus(s: State, h: Handle, e: RunEvent)
    requires h in s.loop.runs && Live(s.loop.runs[h].point) && s.loop.runs[h].task in s.store
    ensures var t, id := RunAdvances(s, h, e), s.loop.runs[h].task;
            id in t.store &&
            (t.store[id].status == s.store[id].status || t.store[id].status.Downloading? || t.store[id].status.Verifying?
             || t.store[id].status.AwaitingConfirmation? || t.store[id].status.Failed? || t.store[id].status.Completed?)
  {
    hide EndRun, MoveRun, Live;
  }

  lemma ConfirmMoves(c: Config, s: State, h: Handle, e: ConfirmEvent, id: TaskId)
    requires Sole(c, s.store, s.loop)
    ensures Moves(s, DoConfirmAdvances(h, e), ConfirmAdvances(s, h, e), id)
  {
    if h in s.loop.confirms && s.loop.confirms[h].working {
      assert Has(s.store, s.loop.confirms[h].task, Verifying);
      ConfirmStatus(s, h, e);
      hide Sole, ConfirmAdvances, Caused;
      VerifyingCaused(s, h, e);
    } else {
      ConfirmNothing(s, h, e);
      hide Sole, ConfirmAdvances, Caused;
    }
  }

  lemma VerifyingCaused(s: State, h: Handle, e: ConfirmEvent)
    requires h in s.loop.confirms && s.loop.confirms[h].working
    ensures Caused(s, DoConfirmAdvances(h, e), s.loop.confirms[h].task, Verifying, Publishing)
    ensures Caused(s, DoConfirmAdvances(h, e), s.loop.confirms[h].task, Verifying, Completed)
  {
  }

  lemma ConfirmNothing(s: State, h: Handle, e: ConfirmEvent)
    requires !(h in s.loop.confirms && s.loop.confirms[h].working)
    ensures ConfirmAdvances(s, h, e) == s
  {
  }

  lemma ConfirmStatus(s: State, h: Handle, e: ConfirmEvent)
    requires h in s.loop.confirms && s.loop.confirms[h].working && s.loop.confirms[h].task in s.store
    ensures var t, id := ConfirmAdvances(s, h, e), s.loop.confirms[h].task;
            && t.store == s.store[id := t.store[id]]
            && (t.store[id].status == s.store[id].status || t.store[id].status.Publishing? || t.store[id].status.Completed?)
  {
    hide EndConfirm;
  }

  lemma ConfirmBeginMoves(s: State, i: TaskId, e: ConfirmEvent, id: TaskId)
    ensures Moves(s, DoConfirmBegins(i, e), ConfirmBegins(s, i, e), id)
  {
    hide EndConfirm, BeginConfirm;
  }

  lemma ReorderMoves(s: State, ids: seq<TaskId>, id: TaskId)
    ensures Moves(s, DoReorder(ids), Reorder(s, ids), id)
  {
    RenumberKeeps(s.store, ids);
    if id in s.store && id !in ids { RenumberElsewhere(s.store, ids, id); }
  }

  lemma ControlMoves(c: Config, s: State, step: Step, id: TaskId)
    requires IsControl(step) && StoreKnown(s.store, s.known)
    ensures Moves(s, step, Next(c, s, step), id)
  {
    hide CancelHandle, Arm, Enqueue, CancelTimerOf, Suspended, Busy, HasTwin, HasCompleted;
  }

  // The status machine, for one step from an exclusive state.
  lemma StatusStep(c: Config, s: State, step: Step, id: TaskId)
    requires Sole(c, s.store, s.loop) && StoreKnown(s.store, s.known)
    ensures Moves(s, step, Next(c, s, step), id)
  {
    if IsControl(step) {
      ControlMoves(c, s, step, id);
    } else {
      hide Sole, CancelTimerOf, LaunchAll, CancelTimer, RunAdvances, ConfirmBegins, ConfirmAdvances, TimerReaped,
        RunUnwinds, ConfirmUnwinds, Reorder, Finished, StoreKnown;
      match step
      case DoReorder(ids) => ReorderMoves(s, ids, id);
      case DoRunAdvances(h, e) => RunMoves(c, s, h, e, id);
      case DoConfirmBegins(i, e) => ConfirmBeginMoves(s, i, e, id);
      case DoConfirmAdvances(h, e) => ConfirmMoves(c, s, h, e, id);
      case _ =>
    }
  }

  // ---- timers stay armed on every step ----------------------------------------------------

  lemma StartNowArmed(s: State, id: TaskId)
    requires Armed(s.store, s.loop)
    ensures Armed(StartNow(s, id).store, StartNow(s, id).loop)
  {
    hide Armed, Uncalled;
    if Is(s, id, Scheduled) {
      var t := StartNow(s, id);
      LiveUncalled(s.store, s.loop, id);
      ArmedWrite(s.store, s.loop, id, t.store[id]);
      if id in s.loop.scheduledRuns {
        ArmedDisarm(t.store, s.loop, id);
        ArmedSame(t.store, CancelTimerOf(s.loop, id).(scheduledRuns := s.loop.scheduledRuns - {id}), t.loop);
      } else {
        ArmedSame(t.store, s.loop, t.loop);
      }
    }
  }

  lemma RescheduleArmed(s: State, id: TaskId)
    requires Armed(s.store, s.loop) && Handles(s.loop)
    ensures Armed(Reschedule(s, id).store, Reschedule(s, id).loop)
  {
    hide Armed, Uncalled, Handles, Arm;
    if Is(s, id, Scheduled) {
      LiveUncalled(s.store, s.loop, id);
      ArmedArm(s.store, s.loop, id, Reschedule(s, id).store[id]);
    }
  }

  lemma ResumeArmed(s: State, id: TaskId, delayed: bool)
    requires Armed(s.store, s.loop) && Handles(s.loop)
    ensures Armed(Resume(s, id, delayed).store, Resume(s, id, delayed).loop)
  {
    hide Armed, Uncalled, Handles, Arm;
    if Is(s, id, Paused) || Is(s, id, Failed) {
      var t := Resume(s, id, delayed);
      LiveUncalled(s.store, s.loop, id);
      if delayed {
        ArmedArm(s.store, s.loop, id, t.store[id]);
      } else {
        ArmedWrite(s.store, s.loop, id, t.store[id]);
        ArmedSame(t.store, s.loop, t.loop);
      }
    }
  }

  lemma AdmitArmed(s: State, t: State, id: TaskId, delayed: bool)
    requires Armed(s.store, s.loop) && Handles(s.loop) && Uncalled(s.store, s.loop, id)
    requires id in t.store && t.store == s.store[id := t.store[id]] && (t.store[id].status.Scheduled? ==> delayed)
    requires t.loop == s.loop || t.loop == if delayed then Arm(s.loop, id) else Enqueue(s.loop, id)
    requires t.store[id].status.Scheduled? <==> t.loop != s.loop && delayed
    ensures Armed(t.store, t.loop)
  {
    hide Armed, Handles, Uncalled, Arm;
    if t.loop != s.loop && delayed {
      ArmedArm(s.store, s.loop, id, t.store[id]);
    } else {
      ArmedWrite(s.store, s.loop, id, t.store[id]);
      if t.loop != s.loop { ArmedSame(t.store, s.loop, t.loop); }
    }
  }

  lemma CreateArmed(c: Config, s: State, step: Step)
    requires Armed(s.store, s.loop) && Handles(s.loop) && step.DoCreate? && Provenance(s.loop, s.known)
    ensures Armed(Next(c, s, step).store, Next(c, s, step).loop)
  {
    CreateShape(c, s, step);
    assert step.id !in s.known ==> Uncalled(s.store, s.loop, step.id);
    hide Armed, Handles, Provenance, Uncalled, Arm, Enqueue, Next;
    if Next(c, s, step) != s {
      AdmitArmed(s, Next(c, s, step), step.id, step.delayed);
    }
  }

  lemma PauseTimers(s: State, id: TaskId)
    ensures SameTimers(s.loop, Pause(s, id).loop)
  {
    hide Finished;
    if Busy(s.loop, id) {
      CancelHandleTimers(s.loop, s.loop.activeRuns[id]);
      hide CancelHandle;
    }
  }

  lemma CancelHandleTimers(l: Loop, h: Handle)
    ensures SameTimers(l, CancelHandle(l, h)) && CancelHandle(l, h).calls == l.calls && CancelHandle(l, h).nextHandle == l.nextHandle
  {
  }

  lemma PauseArmed(s: State, id: TaskId)
    requires Armed(s.store, s.loop)
    ensures Armed(Pause(s, id).store, Pause(s, id).loop)
  {
    PauseTimers(s, id);
    hide Armed, Uncalled, Busy, SameTimers, CancelHandle;
    if id in s.store && Pausable(s.store[id].status) {
      LiveUncalled(s.store, s.loop, id);
      ArmedWrite(s.store, s.loop, id, Pause(s, id).store[id]);
      ArmedSame(Pause(s, id).store, s.loop, Pause(s, id).loop);
    }
  }

  lemma FinishArmed(s: State, id: TaskId)
    requires Armed(s.store, s.loop) && (id in s.store ==> !s.store[id].status.Scheduled?)
    ensures Armed(s.store, FinishCancel(s, id).loop)
  {
    hide Armed;
    ArmedDisarm(s.store, s.loop, id);
    ArmedSame(s.store, CancelTimerOf(s.loop, id).(scheduledRuns := s.loop.scheduledRuns - {id}), FinishCancel(s, id).loop);
  }

  lemma SparedCall(store: map<TaskId, Task>, l: Loop, call: Call)
    requires Spared(store, l) && Gone(store, call.task)
    ensures Spared(store, Suspended(l, call))
  {
  }

  lemma ArmedCall(store: map<TaskId, Task>, l: Loop, call: Call)
    requires Armed(store, l) && Gone(store, call.task)
    ensures Armed(store, Suspended(l, call))
  {
    SparedCall(store, l, call);
    hide Spared;
    assert forall id :: Sleeps(l, id) ==> Sleeps(Suspended(l, call), id);
  }

  lemma CancelArmed(s: State, id: TaskId)
    requires Armed(s.store, s.loop)
    ensures Armed(Cancel(s, id).store, Cancel(s, id).loop)
  {
    hide Armed, Uncalled, Finished, SameTimers;
    if id in s.store && Cancellable(s.store[id].status) {
      var t := Cancel(s, id);
      var s1 := SetTask(s, id, t.store[id]);
      ArmedWrite(s.store, s.loop, id, t.store[id]);
      if Busy(s.loop, id) {
        var l := CancelHandle(s.loop, s.loop.activeRuns[id]);
        CancelHandleTimers(s.loop, s.loop.activeRuns[id]);
        hide CancelHandle;
        ArmedSame(s1.store, s.loop, l);
        ArmedCall(s1.store, l, CancelTail(id, s.loop.activeRuns[id]));
      } else {
        FinishArmed(s1, id);
      }
    }
  }

  lemma EnqueueArmed(store: map<TaskId, Task>, l: Loop, id: TaskId)
    requires Armed(store, l)
    ensures Armed(store, Enqueue(l, id)) && Armed(store, l.(wakeup := true))
  {
    ArmedSame(store, l, Enqueue(l, id));
    ArmedSame(store, l, l.(wakeup := true));
    hide Armed;
  }

  lemma ReturnArmed(s: State, call: Handle)
    requires Armed(s.store, s.loop)
    ensures Armed(s.store, CallReturns(s, call).loop)
  {
    if call in s.loop.calls {
      assert s.loop.calls[call].CancelTail? ==> Gone(s.store, s.loop.calls[call].task);
      var l, id := s.loop.(calls := s.loop.calls - {call}), s.loop.calls[call].task;
      hide Armed, Ready, FinishCancel, Enqueue;
      ArmedSame(s.store, s.loop, l);
      EnqueueArmed(s.store, l, id);
      if s.loop.calls[call].CancelTail? { FinishArmed(s.(loop := l), id); }
    }
  }

  lemma TimerArmed(s: State, h: Handle)
    requires Armed(s.store, s.loop)
    ensures Armed(TimerFires(s, h).store, TimerFires(s, h).loop)
  {
    if h in s.loop.sleeping {
      var id, t := s.loop.sleeping[h], TimerFires(s, h);
      hide Armed, Uncalled;
      if Is(s, id, Scheduled) {
        LiveUncalled(s.store, s.loop, id);
        ArmedWrite(s.store, s.loop, id, t.store[id]);
        ArmedFires(t.store, s.loop, h);
        ArmedSame(t.store, CancelTimer(s.loop, h), t.loop);
      } else {
        ArmedFires(s.store, s.loop, h);
      }
    }
  }

  lemma ArmedDrop(store: map<TaskId, Task>, l: Loop, id: TaskId)
    requires Armed(store, l)
    ensures Armed(store - {id}, l)
  {
  }

  lemma ReorderArmed(s: State, ids: seq<TaskId>)
    requires Armed(s.store, s.loop)
    ensures Armed(Reorder(s, ids).store, Reorder(s, ids).loop)
  {
    RenumberKeeps(s.store, ids);
    assert forall id :: Sleeps(s.loop, id) ==> Sleeps(Reorder(s, ids).loop, id);
  }

  lemma ArmedMoves(store: map<TaskId, Task>, l: Loop, written: map<TaskId, Task>, t: Loop)
    requires Armed(store, l) && SameTimers(l, t) && written.Keys <= store.Keys
    requires forall id :: id in written ==>
               (written[id].status.Scheduled? ==> store[id].status.Scheduled?) && (store[id].status.Cancelled? ==> written[id].status.Cancelled?)
    ensures Armed(written, t)
  {
    assert forall id :: Sleeps(l, id) ==> Sleeps(t, id);
  }

  lemma WorkSchedulesNone(c: Config, s: State, step: Step, id: TaskId)
    requires Sole(c, s.store, s.loop) && StoreKnown(s.store, s.known)
    requires step.DoRunAdvances? || step.DoConfirmBegins? || step.DoConfirmAdvances?
    requires id in s.store && id in Next(c, s, step).store
    ensures Next(c, s, step).store[id].status.Scheduled? ==> s.store[id].status.Scheduled?
    ensures s.store[id].status.Cancelled? ==> Next(c, s, step).store[id].status.Cancelled?
  {
    StatusStep(c, s, step, id);
    hide Next, Sole, StoreKnown;
  }

  // Runs and confirmations leave the timers alone and write no SCHEDULED record.
  lemma WorkArmed(c: Config, s: State, step: Step)
    requires Armed(s.store, s.loop) && Sole(c, s.store, s.loop) && StoreKnown(s.store, s.known)
    requires step.DoRunAdvances? || step.DoConfirmBegins? || step.DoConfirmAdvances?
    ensures Armed(Next(c, s, step).store, Next(c, s, step).loop)
  {
    var t := Next(c, s, step);
    hide *;
    WorkKeys(c, s, step);
    WorkTimers(c, s, step);
    forall id | id in t.store
      ensures t.store[id].status.Scheduled? ==> s.store[id].status.Scheduled?
      ensures s.store[id].status.Cancelled? ==> t.store[id].status.Cancelled?
    {
      WorkSchedulesNone(c, s, step, id);
    }
    ArmedMoves(s.store, s.loop, t.store, t.loop);
  }

  lemma WorkKeys(c: Config, s: State, step: Step)
    requires step.DoRunAdvances? || step.DoConfirmBegins? || step.DoConfirmAdvances?
    ensures Next(c, s, step).store.Keys == s.store.Keys
  {
    hide EndRun, MoveRun, EndConfirm, BeginConfirm, Live;
    match step
    case DoRunAdvances(h, e) => RunKeys(s, h, e);
    case DoConfirmBegins(id, e) => hide RunAdvances;
    case DoConfirmAdvances(h, e) => hide RunAdvances;
  }

  lemma RunKeys(s: State, h: Handle, e: RunEvent)
    ensures RunAdvances(s, h, e).store.Keys == s.store.Keys
  {
    if h in s.loop.runs && Live(s.loop.runs[h].point) && s.loop.runs[h].task in s.store {
      RunStore(s, h, e);
      hide RunWrites;
    }
  }

  lemma RunTimers(s: State, h: Handle, e: RunEvent)
    ensures SameTimers(s.loop, RunAdvances(s, h, e).loop)
  {
    if h in s.loop.runs && Live(s.loop.runs[h].point) {
      RunLoop(s, h, e);
      hide RunAdvances;
    }
  }

  lemma EndConfirmTimers(l: Loop, h: Handle, id: TaskId)
    ensures SameTimers(l, EndConfirm(l, h, id)) && SameTimers(l, l)
  {
  }

  lemma ConfirmTimers(s: State, h: Handle, e: ConfirmEvent)
    ensures SameTimers(s.loop, ConfirmAdvances(s, h, e).loop)
  {
    EndConfirmTimers(s.loop, h, if h in s.loop.confirms then s.loop.confirms[h].task else 0);
    hide EndConfirm, SameTimers;
    if h in s.loop.confirms && s.loop.confirms[h].working && s.loop.confirms[h].task in s.store {
      ConfirmLoop(s, h, s.loop.confirms[h].task, e);
    }
    hide ConfirmSettles;
  }

  lemma BeginLoop(s: State, id: TaskId, e: ConfirmEvent)
    ensures var l := BeginConfirm(s.loop, id);
            ConfirmBegins(s, id, e).loop in {s.loop, s.loop.(wakeup := true), l, EndConfirm(l, s.loop.nextHandle, id)}
  {
    hide BeginConfirm, EndConfirm;
  }

  lemma BeginTimers(s: State, id: TaskId, e: ConfirmEvent)
    ensures SameTimers(s.loop, ConfirmBegins(s, id, e).loop)
  {
    BeginLoop(s, id, e);
    hide ConfirmBegins;
  }

  lemma WorkTimers(c: Config, s: State, step: Step)
    requires step.DoRunAdvances? || step.DoConfirmBegins? || step.DoConfirmAdvances?
    ensures SameTimers(s.loop, Next(c, s, step).loop)
  {
    hide RunAdvances, ConfirmAdvances, ConfirmBegins, SameTimers;
    match step
    case DoRunAdvances(h, e) => RunTimers(s, h, e);
    case DoConfirmBegins(id, e) => BeginTimers(s, id, e);
    case DoConfirmAdvances(h, e) => ConfirmTimers(s, h, e);
  }

  lemma ScheduleArmed(c: Config, s: State)
    requires Armed(s.store, s.loop)
    ensures Armed(s.store, Schedule(c, s).loop)
  {
    if s.loop.wakeup {
      ArmedSame(s.store, s.loop, Drained(s.loop));
      hide Armed, Drained;
      TurnArmed(c, s.store, Drained(s.loop));
    }
  }

  lemma {:induction false} TurnArmed(c: Config, store: map<TaskId, Task>, l: Loop)
    requires Armed(store, l)
    ensures Armed(store, LaunchAll(c, store, l))
    decreases |Kept(store, l.pending)|
  {
    if |l.activeRuns| < c.maxRuns {
      hide Armed, Before, Eligible;
      var l1 := Purge(store, l);
      ArmedSame(store, l, l1);
      var b := Best(c, store, l1, l1.pending);
      if b.Some? {
        LaunchShrinks(store, l.pending, b.value);
        var p := store[l1.pending[b.value]].provider;
        ArmedSame(store, l1, Launch(l1, b.value, p));
        TurnArmed(c, store, Launch(l1, b.value, p));
      }
    }
  }

  lemma UnwindsArmed(s: State, h: Handle)
    requires Armed(s.store, s.loop)
    ensures Armed(s.store, RunUnwinds(s.loop, h))
    ensures Armed(s.store, ConfirmUnwinds(s.loop, h))
  {
    hide Armed;
    ArmedSame(s.store, s.loop, RunUnwinds(s.loop, h));
    ArmedSame(s.store, s.loop, ConfirmUnwinds(s.loop, h));
  }

  lemma ArmedStep(c: Config, s: State, step: Step)
    requires Armed(s.store, s.loop) && Sole(c, s.store, s.loop) && StoreKnown(s.store, s.known)
    requires Handles(s.loop) && Provenance(s.loop, s.known)
    ensures Armed(Next(c, s, step).store, Next(c, s, step).loop)
  {
    hide Armed, Sole, Handles, Provenance, StoreKnown, Create, StartNow, Reschedule, Pause, Resume, Cancel, CallReturns,
      Reorder, TimerFires, TimerReaped, RunAdvances, RunUnwinds, ConfirmBegins, ConfirmAdvances, ConfirmUnwinds, Schedule;
    match step
    case DoCreate(_, _, _, _, _, _, _) => CreateArmed(c, s, step);
    case DoStartNow(id) => StartNowArmed(s, id);
    case DoReschedule(id) => RescheduleArmed(s, id);
    case DoPause(id) => PauseArmed(s, id);
    case DoResume(id, delayed) => ResumeArmed(s, id, delayed);
    case DoCancel(id) => CancelArmed(s, id);
    case DoCallReturns(call) => ReturnArmed(s, call); ReturnKeepsStore(s, call);
    case DoDeleteTask(id, withArtifact) => ArmedDrop(s.store, s.loop, id);
    case DoDeleteArtifact(_) =>
    case DoReorder(ids) => ReorderArmed(s, ids);
    case DoTimerFires(h) => TimerArmed(s, h);
    case DoTimerReaped(h) => ArmedReaped(s.store, s.loop, h);
    case DoSchedule => ScheduleArmed(c, s); ScheduleKeepsStore(c, s);
    case DoRunAdvances(h, e) => WorkArmed(c, s, step);
    case DoRunUnwinds(h) => UnwindsArmed(s, h);
    case DoConfirmBegins(id, e) => WorkArmed(c, s, step);
    case DoConfirmAdvances(h, e) => WorkArmed(c, s, step);
    case DoConfirmUnwinds(h) => UnwindsArmed(s, h);
  }

  lemma ReturnKeepsStore(s: State, call: Handle)
    ensures CallReturns(s, call).store == s.store
  {
    hide Finished;
  }

  lemma ScheduleKeepsStore(c: Config, s: State)
    ensures Schedule(c, s).store == s.store
  {
  }
}
