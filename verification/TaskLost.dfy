// Runs cancelled between their launch and their first step: their `finally`
// never runs, so their source's counter never comes down again.
module TaskLost {
  import opened TaskTypes
  import opened TaskState
  import opened TaskInvariants
  import opened TaskRuns
  import opened TaskExclusion
  import opened TaskStatus
  import opened TaskTheorems
  import opened TaskTokens

  // ---- what one step does to the runs ----------------------------------------------

  predicate IsStop(step: Step) {
    step.DoPause? || step.DoCancel?
  }

  // A run stays where it is, leaves, moves on while live, or is cancelled.
  predicate Follows(step: Step, l: Loop, t: Loop, h: Handle) {
    h in l.runs &&
    if h !in t.runs then l.runs[h].point != Lost
    else
      || t.runs[h] == l.runs[h]
      || (Live(l.runs[h].point) && Live(t.runs[h].point) && t.runs[h] == l.runs[h].(point := t.runs[h].point))
      || (IsStop(step) && t.runs[h] == l.runs[h].(point := AfterCancel(l.runs[h].point)))
  }

  lemma QueueRuns(l: Loop, id: TaskId)
    ensures Arm(l, id).runs == l.runs && Enqueue(l, id).runs == l.runs && CancelTimerOf(l, id).runs == l.runs
  {
  }

  lemma AdmitRuns(c: Config, s: State, step: Step)
    requires step.DoCreate? || step.DoReschedule? || step.DoResume?
    ensures Next(c, s, step).loop.runs == s.loop.runs
  {
    QueueRuns(s.loop, step.id);
    hide HasTwin, HasCompleted, Arm, Enqueue;
  }

  lemma StartNowRuns(s: State, id: TaskId)
    ensures StartNow(s, id).loop.runs == s.loop.runs
  {
    QueueRuns(s.loop, id);
    hide Enqueue, CancelTimerOf;
  }

  lemma StoppedRuns(step: Step, l: Loop, stop: Handle, call: Call, h: Handle)
    requires h in l.runs && IsStop(step)
    ensures Follows(step, l, Suspended(CancelHandle(l, stop), call), h)
  {
  }

  lemma PauseRuns(s: State, id: TaskId, h: Handle)
    requires h in s.loop.runs
    ensures Follows(DoPause(id), s.loop, Pause(s, id).loop, h)
  {
    if id in s.loop.activeRuns { StoppedRuns(DoPause(id), s.loop, s.loop.activeRuns[id], PauseTail(id, s.loop.activeRuns[id]), h); }
    hide Busy, CancelHandle, Suspended;
  }

  lemma CancelRuns(s: State, id: TaskId, h: Handle)
    requires h in s.loop.runs
    ensures Follows(DoCancel(id), s.loop, Cancel(s, id).loop, h)
  {
    if id in s.loop.activeRuns { StoppedRuns(DoCancel(id), s.loop, s.loop.activeRuns[id], CancelTail(id, s.loop.activeRuns[id]), h); }
    QueueRuns(s.loop, id);
    hide Busy, CancelHandle, Suspended, CancelTimerOf;
  }

  lemma ReturnRuns(s: State, call: Handle)
    ensures CallReturns(s, call).loop.runs == s.loop.runs
  {
    if call in s.loop.calls {
      match s.loop.calls[call]
      case PauseTail(_, _) => PauseReturns(s, call);
      case CancelTail(_, _) => CancelReturns(s, call);
      case StartNowTail(_) => StartNowReturns(s, call);
    }
    hide FinishCancel, Enqueue;
  }

  lemma TimerRuns(s: State, h: Handle)
    ensures TimerFires(s, h).loop.runs == s.loop.runs && TimerReaped(s.loop, h).runs == s.loop.runs
  {
  }

  lemma EndFollows(step: Step, l: Loop, run: Handle, h: Handle)
    requires h in l.runs && run in l.runs && l.runs[run].point != Lost
    ensures Follows(step, l, EndRun(l, run), h)
  {
  }

  lemma MoveFollows(step: Step, l: Loop, run: Handle, point: Point, h: Handle)
    requires h in l.runs && run in l.runs && Live(l.runs[run].point) && Live(point)
    ensures Follows(step, l, MoveRun(l, run, point), h)
  {
  }

  lemma WorkRuns(s: State, run: Handle, e: RunEvent, h: Handle)
    requires h in s.loop.runs
    ensures Follows(DoRunAdvances(run, e), s.loop, RunAdvances(s, run, e).loop, h)
  {
    var step := DoRunAdvances(run, e);
    Unmoved(step, s.loop, s.loop, h);
    if run in s.loop.runs && Live(s.loop.runs[run].point) {
      RunLoop(s, run, e);
      EndFollows(step, s.loop, run, h);
      MoveFollows(step, s.loop, run, Pointers, h);
      MoveFollows(step, s.loop, run, Fetching, h);
      MoveFollows(step, s.loop, run, Hashing, h);
      hide RunAdvances, Follows, EndRun, MoveRun;
    }
  }

  lemma UnwindRuns(s: State, run: Handle, h: Handle)
    requires h in s.loop.runs
    ensures Follows(DoRunUnwinds(run), s.loop, RunUnwinds(s.loop, run), h)
  {
    if run in s.loop.runs && s.loop.runs[run].point == Unwinding {
      EndFollows(DoRunUnwinds(run), s.loop, run, h);
      hide EndRun, Follows;
    }
  }

  lemma BeginRuns(s: State, id: TaskId, e: ConfirmEvent)
    ensures ConfirmBegins(s, id, e).loop.runs == s.loop.runs
  {
    BeginLoop(s, id, e);
    hide ConfirmBegins;
  }

  lemma ExitRuns(l: Loop, h: Handle, id: TaskId)
    ensures EndConfirm(l, h, id).runs == l.runs
  {
  }

  lemma ConfirmRuns(s: State, h: Handle, e: ConfirmEvent)
    ensures ConfirmAdvances(s, h, e).loop.runs == s.loop.runs
  {
    if h in s.loop.confirms {
      ExitRuns(s.loop, h, s.loop.confirms[h].task);
      if s.loop.confirms[h].task in s.store { ConfirmLoop(s, h, s.loop.confirms[h].task, e); }
    }
    hide ConfirmSettles, EndConfirm;
  }

  lemma EndConfirmRuns(l: Loop, h: Handle)
    ensures ConfirmUnwinds(l, h).runs == l.runs
  {
  }

  lemma Unmoved(step: Step, l: Loop, t: Loop, h: Handle)
    requires t.runs == l.runs && h in l.runs
    ensures Follows(step, l, t, h)
  {
  }

  lemma OtherRuns(c: Config, s: State, step: Step)
    requires !step.DoSchedule? && !IsStop(step) && !step.DoRunAdvances? && !step.DoRunUnwinds?
    ensures Next(c, s, step).loop.runs == s.loop.runs
  {
    if step.DoCreate? || step.DoReschedule? || step.DoResume? { AdmitRuns(c, s, step); }
    hide Create, StartNow, Reschedule, Resume, CallReturns, DeleteTask,
      TimerFires, TimerReaped, ConfirmBegins, ConfirmAdvances, ConfirmUnwinds;
    match step
    case DoStartNow(id) => StartNowRuns(s, id);
    case DoCallReturns(call) => ReturnRuns(s, call);
    case DoDeleteTask(id, withArtifact) => DeleteTokens(s, id, withArtifact);
    case DoTimerFires(timer) => TimerRuns(s, timer);
    case DoTimerReaped(timer) => TimerRuns(s, timer);
    case DoConfirmBegins(id, e) => BeginRuns(s, id, e);
    case DoConfirmAdvances(confirm, e) => ConfirmRuns(s, confirm, e);
    case DoConfirmUnwinds(confirm) => EndConfirmRuns(s.loop, confirm);
    case _ =>
  }

  lemma StepRuns(c: Config, s: State, step: Step, h: Handle)
    requires !step.DoSchedule? && h in s.loop.runs
    ensures Follows(step, s.loop, Next(c, s, step).loop, h)
  {
    hide Follows, Pause, Cancel, RunAdvances, RunUnwinds;
    match step
    case DoPause(id) => PauseRuns(s, id, h);
    case DoCancel(id) => CancelRuns(s, id, h);
    case DoRunAdvances(run, e) => WorkRuns(s, run, e, h);
    case DoRunUnwinds(run) => UnwindRuns(s, run, h);
    case _ =>
      OtherRuns(c, s, step);
      hide Next;
      Unmoved(step, s.loop, Next(c, s, step).loop, h);
  }

  lemma {:induction false} TurnKeepsRuns(c: Config, store: map<TaskId, Task>, l: Loop, h: Handle)
    requires Handles(l) && h in l.runs
    ensures h in LaunchAll(c, store, l).runs && LaunchAll(c, store, l).runs[h] == l.runs[h]
    decreases |Kept(store, l.pending)|
  {
    if |l.activeRuns| < c.maxRuns {
      var l1 := Purge(store, l);
      var b := Best(c, store, l1, l1.pending);
      if b.Some? {
        LaunchShrinks(store, l.pending, b.value);
        var p := store[l1.pending[b.value]].provider;
        PurgeHandles(store, l);
        LaunchHandles(l1, b.value, p);
        assert l1.nextHandle !in l1.runs;
        hide Handles, Before, Eligible;
        TurnKeepsRuns(c, store, Launch(l1, b.value, p), h);
      }
    }
  }

  lemma ScheduleKeepsRuns(c: Config, s: State, h: Handle)
    requires Handles(s.loop) && h in s.loop.runs
    ensures h in Schedule(c, s).loop.runs && Schedule(c, s).loop.runs[h] == s.loop.runs[h]
  {
    if s.loop.wakeup {
      assert Handles(Drained(s.loop)) && Drained(s.loop).runs == s.loop.runs;
      ScheduleIs(c, s);
      hide *;
      TurnKeepsRuns(c, s.store, Drained(s.loop), h);
    }
  }

  // Only a scheduler turn starts runs, and it starts them fresh.
  lemma OnlyTurnsLaunch(c: Config, s: State, step: Step, h: Handle)
    requires h !in s.loop.runs && !step.DoSchedule?
    ensures h !in Next(c, s, step).loop.runs
  {
    StepTokens(c, s, step);
    hide Next;
  }

  lemma {:induction false} TurnLaunchesFresh(c: Config, store: map<TaskId, Task>, l: Loop, h: Handle)
    requires h !in l.runs
    ensures h in LaunchAll(c, store, l).runs ==> LaunchAll(c, store, l).runs[h].point == Fresh
    decreases |Kept(store, l.pending)|
  {
    if |l.activeRuns| < c.maxRuns {
      var l1 := Purge(store, l);
      var b := Best(c, store, l1, l1.pending);
      if b.Some? {
        LaunchShrinks(store, l.pending, b.value);
        var m := Launch(l1, b.value, store[l1.pending[b.value]].provider);
        hide Before, Eligible, Kept;
        if h in m.runs {
          StaysFresh(c, store, m, h);
        } else {
          TurnLaunchesFresh(c, store, m, h);
        }
      }
    }
  }

  // A turn never revisits a run it has just launched.
  lemma {:induction false} StaysFresh(c: Config, store: map<TaskId, Task>, l: Loop, h: Handle)
    requires h in l.runs && l.runs[h].point == Fresh
    ensures h in LaunchAll(c, store, l).runs && LaunchAll(c, store, l).runs[h].point == Fresh
    decreases |Kept(store, l.pending)|
  {
    if |l.activeRuns| < c.maxRuns {
      var l1 := Purge(store, l);
      var b := Best(c, store, l1, l1.pending);
      if b.Some? {
        LaunchShrinks(store, l.pending, b.value);
        var m := Launch(l1, b.value, store[l1.pending[b.value]].provider);
        hide Before, Eligible, Kept;
        StaysFresh(c, store, m, h);
      }
    }
  }

  // ---- lost runs -----------------------------------------------------------------------

  lemma LostStays(c: Config, s: State, step: Step, h: Handle)
    requires Handles(s.loop) && h in s.loop.runs && s.loop.runs[h].point == Lost
    ensures h in Next(c, s, step).loop.runs && Next(c, s, step).loop.runs[h] == s.loop.runs[h]
  {
    if step.DoSchedule? { ScheduleKeepsRuns(c, s, h); hide Schedule; } else { StepRuns(c, s, step, h); hide Next; }
  }

  predicate IsLost(l: Loop, h: Handle) {
    h in l.runs && l.runs[h].point == Lost
  }

  // Whatever the limits, a lost run is counted against its source for ever.
  lemma {:induction false} LostForever(c: Config, s: State, steps: seq<Step>, h: Handle)
    requires Core(c, s) && IsLost(s.loop, h)
    ensures var l := Trace(c, s, steps).loop; h in l.runs && l.runs[h] == s.loop.runs[h] && Active(l, l.runs[h].provider) >= 1
  {
    if steps != [] {
      LostForever(c, s, steps[..|steps|-1], h);
      CoreAlways(c, s, steps[..|steps|-1]);
      hide Next;
      LostStays(c, Trace(c, s, steps[..|steps|-1]), steps[|steps|-1], h);
    }
    CoreAlways(c, s, steps);
    var l := Trace(c, s, steps).loop;
    hide Trace, Next;
    LostCounts(c, l, h);
  }

  lemma LostCounts(c: Config, l: Loop, h: Handle)
    requires Counted(c, l) && h in l.runs
    ensures Active(l, l.runs[h].provider) >= 1
  {
    assert CountedFor(c, l, l.runs[h].provider);
    assert h in RunsOf(l.runs, l.runs[h].provider);
  }

  // Where runs exclude each other it also keeps its slot in `_active_runs`.
  lemma LostKeepsSlot(c: Config, s: State, steps: seq<Step>, h: Handle)
    requires Safe(c, s) && Excluding(c, s, steps) && IsLost(s.loop, h)
    ensures Holds(Trace(c, s, steps).loop, h, s.loop.runs[h].task)
  {
    LostForever(c, s, steps, h);
    SafeAlways(c, s, steps);
    hide Trace;
  }

  // Otherwise a second run of the task takes the slot over and gives it back.
  lemma SecondRunFreesSlot(l: Loop, h: Handle, i: nat, p: Provider)
    requires Handles(l) && IsLost(l, h) && i < |l.pending| && l.pending[i] == l.runs[h].task && Holds(l, h, l.pending[i])
    ensures var t := EndRun(Launch(l, i, p), l.nextHandle); IsLost(t, h) && l.pending[i] !in t.activeRuns
  {
  }

  // With one download per source, nothing of that provider ever runs again.
  lemma LostBlocksSource(c: Config, s: State, steps: seq<Step>, h: Handle)
    requires c.perSource == 1 && Core(c, s) && IsLost(s.loop, h)
    ensures forall k :: k in Trace(c, s, steps).loop.runs && Trace(c, s, steps).loop.runs[k].provider == s.loop.runs[h].provider ==> k == h
  {
    LostForever(c, s, steps, h);
    CoreAlways(c, s, steps);
    var l, p := Trace(c, s, steps).loop, s.loop.runs[h].provider;
    hide Trace;
    assert CountedFor(c, l, p);
    forall k | k in l.runs && l.runs[k].provider == p ensures k == h {
      PairFits(RunsOf(l.runs, p), h, k);
    }
  }

  lemma PairFits<T>(s: set<T>, a: T, b: T)
    requires |s| <= 1 && a in s && b in s
    ensures a == b
  {
    if a != b { SubsetSize({a, b}, s); }
  }

  lemma OnlyFreshAreLost(c: Config, s: State, step: Step, h: Handle)
    requires Handles(s.loop) && IsLost(Next(c, s, step).loop, h) && !IsLost(s.loop, h)
    ensures IsStop(step) && h in s.loop.runs && s.loop.runs[h].point == Fresh
  {
    if step.DoSchedule? {
      ScheduleLosesNone(c, s, h);
    } else if h !in s.loop.runs {
      OnlyTurnsLaunch(c, s, step, h);
    } else {
      StepRuns(c, s, step, h);
    }
    hide Next;
  }

  lemma ScheduleLosesNone(c: Config, s: State, h: Handle)
    requires Handles(s.loop) && (h in s.loop.runs ==> s.loop.runs[h].point != Lost)
    ensures h in Schedule(c, s).loop.runs ==> Schedule(c, s).loop.runs[h].point != Lost
  {
    if h in s.loop.runs {
      ScheduleKeepsRuns(c, s, h);
      hide Schedule;
    } else if s.loop.wakeup {
      TurnLaunchesFresh(c, s.store, Drained(s.loop), h);
      hide LaunchAll;
    }
  }

  // The call pauses or cancels the task of a run that was launched but has not
  // taken its first step.
  predicate StopsFresh(l: Loop, step: Step, h: Handle) {
    IsStop(step) && h in l.runs && l.runs[h].point == Fresh && l.runs[h].task == step.id
  }

  lemma StopIs(c: Config, s: State, step: Step)
    ensures step.DoPause? ==> Next(c, s, step) == Pause(s, step.id)
    ensures step.DoCancel? ==> Next(c, s, step) == Cancel(s, step.id)
  {
    hide Pause, Cancel;
  }

  // Both calls cancel the operation on their task and leave every other run.
  function StoppedLoop(s: State, id: TaskId): Loop {
    if Busy(s.loop, id) then CancelHandle(s.loop, s.loop.activeRuns[id]) else s.loop
  }

  lemma PauseCancels(s: State, id: TaskId)
    ensures Pause(s, id).loop.runs == if id in s.store && Pausable(s.store[id].status) then StoppedLoop(s, id).runs else s.loop.runs
  {
    hide Finished, CancelHandle, Pausable;
  }

  lemma CancelCancels(s: State, id: TaskId)
    ensures Cancel(s, id).loop.runs == if id in s.store && Cancellable(s.store[id].status) then StoppedLoop(s, id).runs else s.loop.runs
  {
    QueueRuns(s.loop, id);
    hide Finished, CancelHandle, Cancellable, CancelTimerOf;
  }

  lemma StepCancels(c: Config, s: State, step: Step)
    requires IsStop(step)
    ensures Next(c, s, step).loop.runs in {s.loop.runs, StoppedLoop(s, step.id).runs}
    ensures Has(s.store, step.id, Queued) ==> Next(c, s, step).loop.runs == StoppedLoop(s, step.id).runs
  {
    StopIs(c, s, step);
    PauseCancels(s, step.id);
    CancelCancels(s, step.id);
    hide Next, Pause, Cancel, StoppedLoop;
  }

  lemma OthersStay(l: Loop, stop: Handle, h: Handle)
    requires h in l.runs && h != stop
    ensures h in CancelHandle(l, stop).runs && CancelHandle(l, stop).runs[h] == l.runs[h]
  {
  }

  lemma FreshIsBusy(l: Loop, h: Handle)
    requires Handles(l) && h in l.runs && l.runs[h].point == Fresh && Holds(l, h, l.runs[h].task)
    ensures Busy(l, l.runs[h].task) && IsLost(CancelHandle(l, h), h)
  {
  }

  lemma StopLoses(c: Config, s: State, step: Step, h: Handle)
    requires Owned(s.loop) && RunsFit(s.store, s.loop) && Handles(s.loop) && StopsFresh(s.loop, step, h)
    ensures IsLost(Next(c, s, step).loop, h)
  {
    assert Holds(s.loop, h, step.id) && Has(s.store, step.id, Queued);
    FreshIsBusy(s.loop, h);
    StepCancels(c, s, step);
    hide Owned, RunsFit, Handles, Next, Busy, CancelHandle;
  }

  // A stop reaches no run of another task.
  lemma StopTarget(c: Config, s: State, step: Step, h: Handle)
    requires Handles(s.loop) && Registered(s.loop) && IsStop(step)
    requires h in s.loop.runs && s.loop.runs[h].task != step.id
    ensures h in Next(c, s, step).loop.runs && Next(c, s, step).loop.runs[h] == s.loop.runs[h]
  {
    if step.id in s.loop.activeRuns { assert Operates(s.loop, s.loop.activeRuns[step.id], step.id); }
    assert h !in s.loop.confirms;
    if step.id in s.loop.activeRuns { OthersStay(s.loop, s.loop.activeRuns[step.id], h); }
    StepCancels(c, s, step);
    hide Handles, Registered, Next, Finished, CancelHandle;
  }

  // From a safe state, a step loses exactly the run it stops before its first
  // step.
  lemma LosesExactly(c: Config, s: State, step: Step, h: Handle)
    requires Safe(c, s)
    ensures IsLost(Next(c, s, step).loop, h) <==> IsLost(s.loop, h) || StopsFresh(s.loop, step, h)
  {
    assert Handles(s.loop) && Registered(s.loop) && Owned(s.loop) && RunsFit(s.store, s.loop);
    hide Safe, Handles, Registered, Owned, RunsFit;
    if IsLost(s.loop, h) {
      LostStays(c, s, step, h);
    } else if StopsFresh(s.loop, step, h) {
      StopLoses(c, s, step, h);
    } else if IsLost(Next(c, s, step).loop, h) {
      OnlyFreshAreLost(c, s, step, h);
      StopTarget(c, s, step, h);
    }
    hide Next;
  }

  ghost predicate NoneLost(l: Loop) {
    forall h :: !IsLost(l, h)
  }

  ghost predicate StopsAFreshRun(l: Loop, step: Step) {
    exists h :: StopsFresh(l, step, h)
  }

  ghost predicate NeverStopsFresh(c: Config, s: State, steps: seq<Step>) {
    steps == [] ||
    (NeverStopsFresh(c, s, steps[..|steps|-1]) && !StopsAFreshRun(Trace(c, s, steps[..|steps|-1]).loop, steps[|steps|-1]))
  }

  // A run of the system loses none exactly when no call ever stops a task
  // between the launch of its run and that run's first step.
  lemma {:induction false} LossExact(c: Config, s: State, steps: seq<Step>)
    requires Safe(c, s) && Excluding(c, s, steps) && NoneLost(s.loop)
    ensures NoneLost(Trace(c, s, steps).loop) <==> NeverStopsFresh(c, s, steps)
  {
    if steps != [] {
      var t, step := Trace(c, s, steps[..|steps|-1]), steps[|steps|-1];
      ExcludingPrefix(c, s, steps);
      LossExact(c, s, steps[..|steps|-1]);
      SafeAlways(c, s, steps[..|steps|-1]);
      hide Safe, Excluding, Next, StopsFresh, IsLost;
      forall h ensures IsLost(Next(c, t, step).loop, h) <==> IsLost(t.loop, h) || StopsFresh(t.loop, step, h) {
        LosesExactly(c, t, step, h);
      }
    }
  }

  // Exactly then every counter is the number of runs still on their way out.
  lemma CountersReturn(c: Config, s: State, steps: seq<Step>)
    requires Safe(c, s) && Excluding(c, s, steps) && NoneLost(s.loop)
    ensures (forall p :: Active(Trace(c, s, steps).loop, p) == |LiveOrUnwinding(Trace(c, s, steps).loop, p)|) <==> NeverStopsFresh(c, s, steps)
  {
    LossExact(c, s, steps);
    var l := Trace(c, s, steps).loop;
    forall p ensures Active(l, p) == |LiveOrUnwinding(l, p)| + |LostOf(l, p)| {
      Conservation(c, s, steps, p);
    }
    hide *;
    LostByProvider(l);
  }

  lemma LostByProvider(l: Loop)
    ensures NoneLost(l) <==> forall p :: |LostOf(l, p)| == 0
  {
    if NoneLost(l) {
      forall p ensures LostOf(l, p) == {} {
        assert forall h :: h in LostOf(l, p) ==> IsLost(l, h);
      }
    } else {
      var h :| IsLost(l, h);
      assert h in LostOf(l, l.runs[h].provider);
    }
  }
}
