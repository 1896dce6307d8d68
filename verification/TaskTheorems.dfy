// The main results about the task manager, over every run of it.
module TaskTheorems {
  import opened TaskCapacity
  import opened TaskTypes
  import opened TaskState
  import opened TaskInvariants
  import opened TaskRuns
  import opened TaskExclusion
  import opened TaskStatus
  import opened TaskTokens

  // ---- for every limit -----------------------------------------------------------

  // No QUEUED task is ever stranded.
  lemma NoStrandedWork(c: Config, s: State, steps: seq<Step>, id: TaskId)
    requires Core(c, s) && Is(Trace(c, s, steps), id, Queued)
    ensures var l := Trace(c, s, steps).loop;
            || id in l.queue
            || id in l.pending
            || (exists h :: h in l.runs && l.runs[h].task == id && Live(l.runs[h].point))
            || (exists h :: h in l.calls && l.calls[h] == StartNowTail(id))
  {
    CoreAlways(c, s, steps);
  }

  // Whenever the scheduler waits with the event clear, it has nothing to do.
  lemma NoLostWakeup(c: Config, s: State, steps: seq<Step>)
    requires Core(c, s) && !Trace(c, s, steps).loop.wakeup
    ensures var t := Trace(c, s, steps);
            && t.loop.queue == []
            && (|| |t.loop.activeRuns| >= c.maxRuns
                || forall id :: id in t.loop.pending ==> !Eligible(c, t.store, t.loop, id))
  {
    CoreAlways(c, s, steps);
    var t := Trace(c, s, steps);
    hide Trace;
    forall id | id in t.loop.pending && Saturated(c, t.loop, t.known, id) ensures !Eligible(c, t.store, t.loop, id) {
    }
  }

  function LiveOrUnwinding(l: Loop, p: Provider): set<Handle> {
    set h | h in l.runs && l.runs[h].provider == p && l.runs[h].point != Lost
  }

  function LostOf(l: Loop, p: Provider): set<Handle> {
    set h | h in l.runs && l.runs[h].provider == p && l.runs[h].point == Lost
  }

  // Counters and tokens: every unit is a run still on its way out or a run
  // lost by a cancellation before its first step.
  lemma Conservation(c: Config, s: State, steps: seq<Step>, p: Provider)
    requires Core(c, s)
    ensures var l := Trace(c, s, steps).loop;
            && Active(l, p) == |LiveOrUnwinding(l, p)| + |LostOf(l, p)| <= c.perSource
            && (p in l.activeBySource ==> l.activeBySource[p] > 0)
            && l.unfinished == |l.queue| + |l.pending| + |l.runs|
  {
    CoreAlways(c, s, steps);
    var t := Trace(c, s, steps);
    hide Trace, Carried, Recorded, StoreKnown, Parked, Linked;
    assert CountedFor(c, t.loop, p);
    RunsSplit(t.loop, p);
  }

  lemma RunsSplit(l: Loop, p: Provider)
    ensures |RunsOf(l.runs, p)| == |LiveOrUnwinding(l, p)| + |LostOf(l, p)|
  {
    assert RunsOf(l.runs, p) == LiveOrUnwinding(l, p) + LostOf(l, p);
  }

  // ---- one run per task ------------------------------------------------------------

  ghost predicate Safe(c: Config, s: State) {
    Core(c, s) && Exclusive(c, s)
  }

  lemma SafeStep(c: Config, s: State, step: Step)
    requires Safe(c, s)
    requires step.DoSchedule? && s.loop.wakeup ==> LaunchesAlone(c, s.store, Drained(s.loop))
    ensures Safe(c, Next(c, s, step))
  {
    CoreStep(c, s, step);
    SoleStep(c, s, step);
    ArmedStep(c, s, step);
    hide Next, Core, Sole, Armed;
  }

  lemma DrainedLinked(l: Loop, known: map<TaskId, Provider>)
    requires Linked(l, known)
    ensures Linked(Drained(l), known)
  {
    assert forall id :: id in l.activeRuns ==> Operates(l, l.activeRuns[id], id);
  }

  lemma DrainedBudgeted(c: Config, l: Loop)
    requires Budgeted(c, l)
    ensures Budgeted(c, Drained(l))
  {
    CountsUnmoved(c, l, Drained(l));
  }

  lemma OnePerSourceTurn(c: Config, s: State)
    requires c.perSource == 1 && Core(c, s) && s.loop.wakeup
    ensures LaunchesAlone(c, s.store, Drained(s.loop))
  {
    hide Linked, Budgeted, Parked, Carried, Recorded, Drained;
    DrainedLinked(s.loop, s.known);
    DrainedBudgeted(c, s.loop);
    OnePerSource(c, s.store, Drained(s.loop), s.known);
  }

  // No step of the run puts back a task that still has a token or a run.
  ghost predicate Careful(c: Config, s: State, steps: seq<Step>) {
    steps == [] || (Careful(c, s, steps[..|steps|-1]) && !Requeues(Trace(c, s, steps[..|steps|-1]), steps[|steps|-1]))
  }

  ghost predicate UniqueThroughout(c: Config, s: State, steps: seq<Step>) {
    Unique(Trace(c, s, steps).loop) && (steps != [] ==> UniqueThroughout(c, s, steps[..|steps|-1]))
  }

  // For every limit: a run keeps one token per task exactly when it is careful.
  lemma {:induction false} CarefulExact(c: Config, s: State, steps: seq<Step>)
    requires Core(c, s) && Unique(s.loop)
    ensures UniqueThroughout(c, s, steps) <==> Careful(c, s, steps)
  {
    if steps != [] {
      var t := Trace(c, s, steps[..|steps|-1]);
      CarefulExact(c, s, steps[..|steps|-1]);
      CoreAlways(c, s, steps[..|steps|-1]);
      assert Handles(t.loop);
      assert steps[..|steps|-1] != [] ==> UniqueThroughout(c, s, steps[..|steps|-1]) ==> Unique(t.loop);
      hide Handles, Next, Unique, Requeues, Core;
      if Unique(t.loop) { UniqueStep(c, t, steps[|steps|-1]); }
    }
  }

  // What rules out a second run of a task: the default limit, or care.
  ghost predicate Excluding(c: Config, s: State, steps: seq<Step>) {
    c.perSource == 1 || (Unique(s.loop) && Careful(c, s, steps))
  }

  lemma {:induction false} SafeByDefault(c: Config, s: State, steps: seq<Step>)
    requires c.perSource == 1 && Safe(c, s)
    ensures Safe(c, Trace(c, s, steps))
  {
    if steps != [] {
      var t := Trace(c, s, steps[..|steps|-1]);
      SafeByDefault(c, s, steps[..|steps|-1]);
      if t.loop.wakeup { OnePerSourceTurn(c, t); }
      hide Next, Core, Exclusive;
      SafeStep(c, t, steps[|steps|-1]);
    }
  }

  lemma {:induction false} SafeWhenCareful(c: Config, s: State, steps: seq<Step>)
    requires Safe(c, s) && Unique(s.loop) && Careful(c, s, steps)
    ensures Safe(c, Trace(c, s, steps)) && Unique(Trace(c, s, steps).loop)
  {
    if steps != [] {
      var t := Trace(c, s, steps[..|steps|-1]);
      SafeWhenCareful(c, s, steps[..|steps|-1]);
      assert Handles(t.loop);
      hide Handles, Next, Unique, Requeues, Safe;
      UniqueStep(c, t, steps[|steps|-1]);
      SafeStep(c, t, steps[|steps|-1]);
    }
  }

  lemma SafeAlways(c: Config, s: State, steps: seq<Step>)
    requires Safe(c, s) && Excluding(c, s, steps)
    ensures Safe(c, Trace(c, s, steps))
  {
    hide Safe, Trace;
    if c.perSource == 1 { SafeByDefault(c, s, steps); } else { SafeWhenCareful(c, s, steps); }
  }

  // One step of an excluding run.
  lemma SafeNext(c: Config, s: State, step: Step)
    requires Safe(c, s) && (c.perSource == 1 || (Unique(s.loop) && !Requeues(s, step)))
    ensures Safe(c, Next(c, s, step))
  {
    assert Handles(s.loop) && Core(c, s);
    hide Handles, Next, Unique, Requeues, Safe, Core;
    if c.perSource == 1 {
      if s.loop.wakeup { OnePerSourceTurn(c, s); }
    } else {
      UniqueStep(c, s, step);
    }
    SafeStep(c, s, step);
  }

  lemma ExcludingPrefix(c: Config, s: State, steps: seq<Step>)
    requires steps != [] && Excluding(c, s, steps)
    ensures Excluding(c, s, steps[..|steps|-1])
  {
  }

  // ... so no task ever has two runs, and runs never exceed the limit.
  lemma SingleRun(c: Config, s: State, steps: seq<Step>)
    requires Safe(c, s) && Excluding(c, s, steps)
    ensures var l := Trace(c, s, steps).loop;
            && (forall h, k :: h in l.runs && k in l.runs && l.runs[h].task == l.runs[k].task ==> h == k)
            && |l.runs| <= c.maxRuns
  {
    SafeAlways(c, s, steps);
    var l := Trace(c, s, steps).loop;
    hide Trace;
    OwnedNotShared(l);
  }

  // For any limit, a scheduler turn keeps one run per task exactly when, as it
  // begins, no waiting entry that has room names a task already running or
  // already named ahead of it.
  lemma SharingExact(c: Config, s: State)
    requires Safe(c, s) && s.loop.wakeup
    ensures !Shared(Schedule(c, s).loop) <==> !DoublesHaveRoom(c, s.store, Drained(s.loop))
  {
    SoleSame(c, s.store, s.loop, Drained(s.loop));
    assert Handles(Drained(s.loop));
    hide *;
    TurnExact(c, s.store, Drained(s.loop));
    AloneExact(c, s.store, Drained(s.loop));
    ScheduleIs(c, s);
  }

  lemma ScheduleIs(c: Config, s: State)
    requires s.loop.wakeup
    ensures Schedule(c, s).loop == LaunchAll(c, s.store, Drained(s.loop))
  {
    hide LaunchAll, Drained;
  }

  // ---- the status machine over whole runs ---------------------------------------------

  lemma SafeMoves(c: Config, s: State, steps: seq<Step>, step: Step, id: TaskId)
    requires Safe(c, s) && Excluding(c, s, steps)
    ensures Moves(Trace(c, s, steps), step, Next(c, Trace(c, s, steps), step), id)
  {
    SafeAlways(c, s, steps);
    var t := Trace(c, s, steps);
    hide Trace, Next, Moves;
    StatusStep(c, t, step, id);
  }

  // A paused or cancelled task is never moved by the run that worked on it, nor
  // is a finished one.
  lemma RunsRespectStops(c: Config, s: State, steps: seq<Step>, step: Step, id: TaskId)
    requires Safe(c, s) && Excluding(c, s, steps)
    requires step.DoRunAdvances? || step.DoRunUnwinds? || step.DoConfirmAdvances? || step.DoConfirmUnwinds?
    requires id in Trace(c, s, steps).store
    requires Stopped(Trace(c, s, steps).store[id].status) || Terminal(Trace(c, s, steps).store[id].status)
    ensures Is(Next(c, Trace(c, s, steps), step), id, Trace(c, s, steps).store[id].status)
  {
    SafeMoves(c, s, steps, step, id);
    var t := Trace(c, s, steps);
    hide Trace;
    RunsKeepRecords(c, t, step, id);
    hide Next;
  }

  lemma RunsKeepRecords(c: Config, s: State, step: Step, id: TaskId)
    requires step.DoRunAdvances? || step.DoRunUnwinds? || step.DoConfirmAdvances? || step.DoConfirmUnwinds?
    requires id in s.store
    ensures id in Next(c, s, step).store
  {
    if step.DoRunAdvances? || step.DoConfirmAdvances? { WorkKeys(c, s, step); }
    hide RunAdvances, ConfirmAdvances, RunUnwinds, ConfirmUnwinds;
  }

  lemma TerminalStep(c: Config, s: State, step: Step, id: TaskId, record: Task)
    requires Safe(c, s) && id in s.known && (record.status.Completed? || record.status.Cancelled?)
    requires id in s.store ==> s.store[id] == record
    ensures id in Next(c, s, step).store ==> Next(c, s, step).store[id] == record
  {
    if id in s.store {
      StatusStep(c, s, step, id);
    } else {
      NoRevival(c, s, step, id);
    }
    hide Next, Safe, Core;
  }

  // COMPLETED and CANCELLED records never change again; they can only be deleted.
  lemma {:induction false} TerminalForever(c: Config, s: State, steps: seq<Step>, id: TaskId)
    requires Safe(c, s) && Excluding(c, s, steps) && (Is(s, id, Completed) || Is(s, id, Cancelled))
    ensures id in Trace(c, s, steps).store ==> Trace(c, s, steps).store[id] == s.store[id]
  {
    if steps != [] {
      var before := steps[..|steps|-1];
      ExcludingPrefix(c, s, steps);
      TerminalForever(c, s, before, id);
      SafeAlways(c, s, before);
      KnownAlways(c, s, before, id);
      hide Next, Safe;
      TerminalStep(c, Trace(c, s, before), steps[|steps|-1], id, s.store[id]);
    }
  }

  lemma {:induction false} KnownAlways(c: Config, s: State, steps: seq<Step>, id: TaskId)
    requires Core(c, s) && id in s.known
    ensures id in Trace(c, s, steps).known
  {
    if steps != [] {
      KnownAlways(c, s, steps[..|steps|-1], id);
      CoreAlways(c, s, steps[..|steps|-1]);
      KnownOnlyGrows(c, Trace(c, s, steps[..|steps|-1]), steps[|steps|-1]);
    }
  }

  // A deleted id never comes back.
  lemma NoRevival(c: Config, s: State, step: Step, id: TaskId)
    requires id in s.known && id !in s.store
    ensures id !in Next(c, s, step).store
  {
    hide CancelHandle, Arm, Enqueue, CancelTimerOf, Suspended, LaunchAll, CancelTimer, Busy, TimerReaped, EndRun, MoveRun,
      EndConfirm, BeginConfirm, HasTwin, HasCompleted, RunUnwinds, ConfirmUnwinds, Finished;
    if step.DoReorder? { RenumberKeeps(s.store, step.ids); }
    if step.DoRunAdvances? || step.DoConfirmBegins? || step.DoConfirmAdvances? { WorkKeys(c, s, step); hide Next; }
  }

  // A COMPLETED task names an artifact the catalog has held.
  lemma CompletedWasPublished(c: Config, s: State, steps: seq<Step>, id: TaskId)
    requires Core(c, s) && Is(Trace(c, s, steps), id, Completed)
    ensures var t := Trace(c, s, steps); t.store[id].artifact.Some? && t.store[id].artifact.value in t.ever
  {
    CoreAlways(c, s, steps);
  }

  lemma SleeperFires(s: State, id: TaskId)
    requires Is(s, id, Scheduled) && Sleeps(s.loop, id)
    ensures Is(TimerFires(s, s.loop.scheduledRuns[id]), id, Queued)
    ensures id in TimerFires(s, s.loop.scheduledRuns[id]).loop.queue
  {
  }

  // Every SCHEDULED task has a sleeping timer that will queue it.
  lemma ScheduledIsArmed(c: Config, s: State, steps: seq<Step>, id: TaskId)
    requires Safe(c, s) && Excluding(c, s, steps) && Is(Trace(c, s, steps), id, Scheduled)
    ensures var t := Trace(c, s, steps);
            && id in t.loop.scheduledRuns && t.loop.scheduledRuns[id] in t.loop.sleeping
            && Is(TimerFires(t, t.loop.scheduledRuns[id]), id, Queued)
            && id in TimerFires(t, t.loop.scheduledRuns[id]).loop.queue
  {
    SafeAlways(c, s, steps);
    var t := Trace(c, s, steps);
    assert Sleeps(t.loop, id) by { hide Trace, Core, Sole, Excluding, TimerFires; }
    hide Trace, Safe, Excluding, TimerFires;
    SleeperFires(t, id);
  }
}
