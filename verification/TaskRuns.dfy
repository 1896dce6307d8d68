// The invariant along every run of the task manager, for all limits.
module TaskRuns {
  import opened TaskTypes
  import opened TaskState
  import opened TaskInvariants

  // A QUEUED task always has somebody to carry it on.
  ghost predicate Carried(s: State) {
    forall id :: Is(s, id, Queued) ==> Carrier(s.loop, id)
  }

  ghost predicate Carrier(l: Loop, id: TaskId) {
    id in l.queue || id in l.pending || RunCarries(l, id) || CallCarries(l, id)
  }

  ghost predicate RunCarries(l: Loop, id: TaskId) {
    exists h :: h in l.runs && l.runs[h].task == id && Live(l.runs[h].point)
  }

  ghost predicate CallCarries(l: Loop, id: TaskId) {
    exists h :: h in l.calls && l.calls[h] == StartNowTail(id)
  }

  // COMPLETED names an artifact that the catalog has held.
  ghost predicate Recorded(s: State) {
    && s.held <= s.ever
    && (forall id :: Is(s, id, Completed) ==> s.store[id].artifact.Some? && s.store[id].artifact.value in s.ever)
  }

  ghost predicate Core(c: Config, s: State) {
    StoreKnown(s.store, s.known) && Sound(c, s.loop, s.known) && Carried(s) && Recorded(s)
  }

  // ---- accounts and wakeups ----------------------------------------------------

  lemma KnownGrows(c: Config, l: Loop, known: map<TaskId, Provider>, id: TaskId, p: Provider)
    requires Sound(c, l, known) && id !in known
    ensures Sound(c, l, known[id := p])
  {
    assert forall i :: i in l.pending && Saturated(c, l, known, i) ==> Saturated(c, l, known[id := p], i);
  }

  lemma WakeSound(c: Config, l: Loop, known: map<TaskId, Provider>)
    requires Sound(c, l, known)
    ensures Sound(c, l.(wakeup := true), known)
  {
    TimersSound(c, l, l.(wakeup := true), known);
  }

  lemma CancelTimerOnly(l: Loop, known: map<TaskId, Provider>, id: TaskId)
    requires Linked(l, known)
    ensures OnlyTimers(l, CancelTimerOf(l, id), known)
  {
  }

  lemma DisarmSound(c: Config, l: Loop, known: map<TaskId, Provider>, id: TaskId)
    requires Sound(c, l, known)
    ensures Sound(c, CancelTimerOf(l, id).(scheduledRuns := l.scheduledRuns - {id}), known)
  {
    CancelTimerOnly(l, known, id);
    TimersSound(c, l, CancelTimerOf(l, id).(scheduledRuns := l.scheduledRuns - {id}), known);
  }

  lemma ArmSound(c: Config, l: Loop, known: map<TaskId, Provider>, id: TaskId)
    requires Sound(c, l, known) && id in known
    ensures Sound(c, Arm(l, id), known)
  {
    CancelTimerOnly(l, known, id);
    TimersSound(c, l, Arm(l, id), known);
  }

  lemma AdmitSound(c: Config, l: Loop, known: map<TaskId, Provider>, id: TaskId, delayed: bool)
    requires Sound(c, l, known) && id in known
    ensures Sound(c, if delayed then Arm(l, id) else Enqueue(l, id), known)
  {
    if delayed { ArmSound(c, l, known, id); } else { EnqueueSound(c, l, known, id); }
  }

  lemma StartNowSound(c: Config, s: State, id: TaskId)
    requires Sound(c, s.loop, s.known) && StoreKnown(s.store, s.known)
    ensures Sound(c, StartNow(s, id).loop, s.known)
  {
    if Is(s, id, Scheduled) {
      if id in s.loop.scheduledRuns {
        DisarmSound(c, s.loop, s.known, id);
        SuspendedSound(c, CancelTimerOf(s.loop, id).(scheduledRuns := s.loop.scheduledRuns - {id}), s.known, StartNowTail(id));
      } else {
        EnqueueSound(c, s.loop, s.known, id);
      }
    }
  }

  lemma InterruptSound(c: Config, l: Loop, known: map<TaskId, Provider>, h: Handle, call: Call)
    requires Sound(c, l, known) && call.task in known
    ensures Sound(c, Suspended(CancelHandle(l, h), call), known)
  {
    CancelHandleSound(c, l, known, h);
    SuspendedSound(c, CancelHandle(l, h), known, call);
  }

  lemma PauseSound(c: Config, s: State, id: TaskId)
    requires Sound(c, s.loop, s.known) && StoreKnown(s.store, s.known)
    ensures Sound(c, Pause(s, id).loop, s.known)
  {
    if id in s.store {
      if Busy(s.loop, id) {
        InterruptSound(c, s.loop, s.known, s.loop.activeRuns[id], PauseTail(id, s.loop.activeRuns[id]));
      } else {
        WakeSound(c, s.loop, s.known);
      }
    }
  }

  lemma FinishCancelSound(c: Config, s: State, id: TaskId)
    requires Sound(c, s.loop, s.known)
    ensures Sound(c, FinishCancel(s, id).loop, s.known)
  {
    DisarmSound(c, s.loop, s.known, id);
    WakeSound(c, CancelTimerOf(s.loop, id).(scheduledRuns := s.loop.scheduledRuns - {id}), s.known);
  }

  lemma CancelSound(c: Config, s: State, id: TaskId)
    requires Sound(c, s.loop, s.known) && StoreKnown(s.store, s.known)
    ensures Sound(c, Cancel(s, id).loop, s.known)
  {
    if id in s.store {
      if Busy(s.loop, id) {
        InterruptSound(c, s.loop, s.known, s.loop.activeRuns[id], CancelTail(id, s.loop.activeRuns[id]));
      } else {
        FinishCancelSound(c, s, id);
      }
    }
  }

  lemma ForgetCallSound(c: Config, l: Loop, known: map<TaskId, Provider>, call: Handle)
    requires Sound(c, l, known)
    ensures Sound(c, l.(calls := l.calls - {call}), known)
  {
    TimersSound(c, l, l.(calls := l.calls - {call}), known);
  }

  lemma ReturnSound(c: Config, s: State, call: Handle)
    requires Sound(c, s.loop, s.known)
    ensures Sound(c, CallReturns(s, call).loop, s.known)
  {
    if call in s.loop.calls {
      var l, id := s.loop.(calls := s.loop.calls - {call}), s.loop.calls[call].task;
      assert id in s.known && (Sound(c, l, s.known) ==> Linked(l, s.known) && Budgeted(c, l));
      hide Sound, Linked, Budgeted, FinishCancel, Enqueue, Ready;
      ForgetCallSound(c, s.loop, s.known, call);
      WakeSound(c, l, s.known);
      FinishCancelSound(c, s.(loop := l), id);
      EnqueueSound(c, l, s.known, id);
    }
  }

  lemma TimerFiresSound(c: Config, s: State, h: Handle)
    requires Sound(c, s.loop, s.known)
    ensures Sound(c, TimerFires(s, h).loop, s.known)
  {
    if h in s.loop.sleeping {
      TimersSound(c, s.loop, CancelTimer(s.loop, h), s.known);
      assert s.loop.sleeping[h] in s.known;
      hide Parked, Counted, Balanced, Registered, Provenance, Handles, CancelTimer, Enqueue;
      EnqueueSound(c, CancelTimer(s.loop, h), s.known, s.loop.sleeping[h]);
    }
  }

  lemma ScheduleSound(c: Config, s: State)
    requires Sound(c, s.loop, s.known) && StoreKnown(s.store, s.known)
    ensures Sound(c, Schedule(c, s).loop, s.known)
  {
    if s.loop.wakeup {
      var l := Drained(s.loop);
      CountsUnmoved(c, s.loop, l);
      assert forall id :: id in l.activeRuns ==> Operates(s.loop, l.activeRuns[id], id);
      LaunchAllSound(c, l, s.known, s.store);
    }
  }

  lemma TimerReapedSound(c: Config, l: Loop, known: map<TaskId, Provider>, h: Handle)
    requires Sound(c, l, known)
    ensures Sound(c, TimerReaped(l, h), known)
  {
    TimersSound(c, l, TimerReaped(l, h), known);
  }

  lemma RunUnwindsSound(c: Config, l: Loop, known: map<TaskId, Provider>, h: Handle)
    requires Sound(c, l, known)
    ensures Sound(c, RunUnwinds(l, h), known)
  {
    if h in l.runs { EndRunSound(c, l, known, h); }
  }

  // A run moves, leaves, or does nothing.
  lemma RunLoop(s: State, h: Handle, e: RunEvent)
    requires h in s.loop.runs && Live(s.loop.runs[h].point)
    ensures var l := RunAdvances(s, h, e).loop;
            || l == s.loop || l == EndRun(s.loop, h) || l == MoveRun(s.loop, h, Pointers)
            || l == MoveRun(s.loop, h, Fetching) || l == MoveRun(s.loop, h, Hashing)
  {
  }

  lemma RunAdvancesSound(c: Config, s: State, h: Handle, e: RunEvent)
    requires Sound(c, s.loop, s.known)
    ensures Sound(c, RunAdvances(s, h, e).loop, s.known)
  {
    if h in s.loop.runs && Live(s.loop.runs[h].point) {
      RunLoop(s, h, e);
      var l := RunAdvances(s, h, e).loop;
      if l == EndRun(s.loop, h) {
        EndRunSound(c, s.loop, s.known, h);
      } else if l != s.loop {
        MoveRunSound(c, s.loop, s.known, h, l.runs[h].point);
      }
    }
  }

  // A confirmation either goes on or leaves.
  lemma ConfirmLoop(s: State, h: Handle, id: TaskId, e: ConfirmEvent)
    requires id in s.store
    ensures ConfirmSettles(s, h, id, e).loop == if e.KeepWorking? then s.loop else EndConfirm(s.loop, h, id)
  {
  }

  lemma ConfirmBeginsSound(c: Config, s: State, id: TaskId, e: ConfirmEvent)
    requires Sound(c, s.loop, s.known) && StoreKnown(s.store, s.known)
    ensures Sound(c, ConfirmBegins(s, id, e).loop, s.known)
  {
    if id !in s.loop.activeRuns {
      if id in s.store && ConfirmBegins(s, id, e).loop != s.loop.(wakeup := true) {
        var l := BeginConfirm(s.loop, id);
        BeginConfirmSound(c, s.loop, s.known, id);
        ConfirmLoop(SetTask(s, id, s.store[id].(status := Verifying)).(loop := l), s.loop.nextHandle, id, e);
        if !e.KeepWorking? {
          EndConfirmSound(c, l, s.known, s.loop.nextHandle, id);
        }
      } else {
        WakeSound(c, s.loop, s.known);
      }
    }
  }

  lemma ConfirmAdvancesSound(c: Config, s: State, h: Handle, e: ConfirmEvent)
    requires Sound(c, s.loop, s.known)
    ensures Sound(c, ConfirmAdvances(s, h, e).loop, s.known)
    ensures Sound(c, ConfirmUnwinds(s.loop, h), s.known)
  {
    if h in s.loop.confirms {
      var id := s.loop.confirms[h].task;
      EndConfirmSound(c, s.loop, s.known, h, id);
      if id in s.store { ConfirmLoop(s, h, id, e); }
    }
  }

  lemma ControlSound(c: Config, s: State, step: Step)
    requires Sound(c, s.loop, s.known) && StoreKnown(s.store, s.known)
    requires step.DoCreate? || step.DoStartNow? || step.DoReschedule? || step.DoPause? || step.DoResume? || step.DoCancel?
    ensures Sound(c, Next(c, s, step).loop, Next(c, s, step).known)
  {
    hide Sound;
    match step
    case DoCreate(id, p, _, _, _, delayed, _) =>
      if id !in s.known {
        KnownGrows(c, s.loop, s.known, id, p);
        AdmitSound(c, s.loop, s.known[id := p], id, delayed);
      }
    case DoStartNow(id) => StartNowSound(c, s, id);
    case DoReschedule(id) => if id in s.store { ArmSound(c, s.loop, s.known, id); }
    case DoPause(id) => PauseSound(c, s, id);
    case DoResume(id, delayed) => if id in s.store { AdmitSound(c, s.loop, s.known, id, delayed); }
    case DoCancel(id) => CancelSound(c, s, id);
  }

  lemma EventSound(c: Config, s: State, step: Step)
    requires Sound(c, s.loop, s.known) && StoreKnown(s.store, s.known)
    requires !step.DoCreate? && !step.DoStartNow? && !step.DoReschedule? && !step.DoPause? && !step.DoResume? && !step.DoCancel?
    ensures Sound(c, Next(c, s, step).loop, s.known)
  {
    hide Sound, CallReturns, TimerFires, TimerReaped, Schedule, RunAdvances, ConfirmBegins, ConfirmAdvances, ConfirmUnwinds;
    match step
    case DoCallReturns(call) => ReturnSound(c, s, call);
    case DoDeleteTask(_, _) =>
    case DoDeleteArtifact(_) =>
    case DoReorder(ids) => WakeSound(c, s.loop, s.known);
    case DoTimerFires(h) => TimerFiresSound(c, s, h);
    case DoTimerReaped(h) => TimerReapedSound(c, s.loop, s.known, h);
    case DoSchedule => ScheduleSound(c, s);
    case DoRunAdvances(h, e) => RunAdvancesSound(c, s, h, e);
    case DoRunUnwinds(h) => RunUnwindsSound(c, s.loop, s.known, h);
    case DoConfirmBegins(id, e) => ConfirmBeginsSound(c, s, id, e);
    case DoConfirmAdvances(h, e) => ConfirmAdvancesSound(c, s, h, e);
    case DoConfirmUnwinds(h) => ConfirmAdvancesSound(c, s, h, GiveUp);
  }

  // ---- records -----------------------------------------------------------------

  lemma {:induction false} RenumberKeeps(store: map<TaskId, Task>, ids: seq<TaskId>)
    ensures Renumber(store, ids).Keys == store.Keys
    ensures forall id :: id in store ==> Renumber(store, ids)[id] == store[id].(queuePosition := Renumber(store, ids)[id].queuePosition)
  {
    if ids != [] { RenumberKeeps(store, ids[..|ids|-1]); }
  }

  lemma {:induction false} RenumberElsewhere(store: map<TaskId, Task>, ids: seq<TaskId>, id: TaskId)
    requires id !in ids && id in store
    ensures id in Renumber(store, ids) && Renumber(store, ids)[id] == store[id]
  {
    if ids != [] {
      RenumberElsewhere(store, ids[..|ids|-1], id);
    }
  }

  // What a step may do to the record of one task: drop it, admit it, or rewrite
  // it within its provider, naming a held artifact when it says COMPLETED.
  ghost predicate TaskKept(s: State, t: State, id: TaskId) {
    && s.ever <= t.ever
    && (id in t.store && id !in s.store ==> id in t.known && t.known[id] == t.store[id].provider)
    && (id in t.store && id in s.store ==> t.store[id].provider == s.store[id].provider)
    && (Is(t, id, Completed) && (Is(s, id, Completed) ==> t.store[id].artifact != s.store[id].artifact)
        ==> t.store[id].artifact.Some? && t.store[id].artifact.value in t.ever)
  }

  // The catalog only ever holds what was held before or recorded as published.
  predicate HeldKept(s: State, t: State) {
    s.held <= s.ever ==> t.held <= t.ever
  }

  lemma RunKeepsTask(s: State, h: Handle, e: RunEvent, id: TaskId)
    ensures TaskKept(s, RunAdvances(s, h, e), id)
  {
    hide EndRun, MoveRun, Live;
  }

  lemma RunKeepsHeld(s: State, h: Handle, e: RunEvent)
    ensures RunAdvances(s, h, e).known == s.known && HeldKept(s, RunAdvances(s, h, e))
  {
    hide EndRun, MoveRun, Live;
  }

  lemma ConfirmSettlesKeeps(s: State, h: Handle, i: TaskId, e: ConfirmEvent, id: TaskId)
    requires i in s.store
    ensures TaskKept(s, ConfirmSettles(s, h, i, e), id)
    ensures ConfirmSettles(s, h, i, e).known == s.known && HeldKept(s, ConfirmSettles(s, h, i, e))
  {
    hide EndConfirm;
  }

  lemma ConfirmAdvancesTask(s: State, h: Handle, e: ConfirmEvent, id: TaskId)
    ensures TaskKept(s, ConfirmAdvances(s, h, e), id)
    ensures ConfirmAdvances(s, h, e).known == s.known && HeldKept(s, ConfirmAdvances(s, h, e))
  {
    if h in s.loop.confirms && s.loop.confirms[h].task in s.store { ConfirmSettlesKeeps(s, h, s.loop.confirms[h].task, e, id); }
    hide ConfirmSettles, EndConfirm;
  }

  lemma ConfirmBeginsTask(s: State, i: TaskId, e: ConfirmEvent, id: TaskId)
    ensures TaskKept(s, ConfirmBegins(s, i, e), id)
    ensures ConfirmBegins(s, i, e).known == s.known && HeldKept(s, ConfirmBegins(s, i, e))
  {
    if i in s.store {
      var s1 := SetTask(s, i, s.store[i].(status := Verifying)).(loop := BeginConfirm(s.loop, i));
      ConfirmSettlesKeeps(s1, s.loop.nextHandle, i, e, id);
    }
    hide ConfirmSettles, BeginConfirm;
  }

  lemma CreateKeepsTask(c: Config, s: State, step: Step, id: TaskId)
    requires s.held <= s.ever && StoreKnown(s.store, s.known) && step.DoCreate?
    ensures TaskKept(s, Next(c, s, step), id) && HeldKept(s, Next(c, s, step))
  {
    hide Arm, Enqueue, HasTwin, HasCompleted;
  }

  lemma WorkKeepsTask(c: Config, s: State, step: Step, id: TaskId)
    requires step.DoRunAdvances? || step.DoConfirmBegins? || step.DoConfirmAdvances? || step.DoReorder?
    ensures TaskKept(s, Next(c, s, step), id) && Next(c, s, step).known == s.known && HeldKept(s, Next(c, s, step))
  {
    hide RunAdvances, ConfirmBegins, ConfirmAdvances, TaskKept, HeldKept;
    match step
    case DoReorder(ids) => ReorderKeepsTask(s, ids, id);
    case DoRunAdvances(h, e) => RunKeepsTask(s, h, e, id); RunKeepsHeld(s, h, e);
    case DoConfirmBegins(i, e) => ConfirmBeginsTask(s, i, e, id);
    case DoConfirmAdvances(h, e) => ConfirmAdvancesTask(s, h, e, id);
  }

  lemma ReorderKeepsTask(s: State, ids: seq<TaskId>, id: TaskId)
    ensures TaskKept(s, Reorder(s, ids), id) && Reorder(s, ids).known == s.known && HeldKept(s, Reorder(s, ids))
  {
    RenumberKeeps(s.store, ids);
    hide IsWaitingList;
  }

  lemma StepKeepsTask(c: Config, s: State, step: Step, id: TaskId)
    requires s.held <= s.ever && StoreKnown(s.store, s.known)
    ensures TaskKept(s, Next(c, s, step), id) && HeldKept(s, Next(c, s, step))
    ensures !step.DoCreate? ==> Next(c, s, step).known == s.known
  {
    if step.DoCreate? {
      CreateKeepsTask(c, s, step, id); hide Next;
    } else if step.DoRunAdvances? || step.DoConfirmBegins? || step.DoConfirmAdvances? || step.DoReorder? {
      WorkKeepsTask(c, s, step, id); hide Next;
    } else {
      LoopKeepsTask(c, s, step, id); hide Next;
    }
  }

  // The other steps write no more than status, position and staging flag.
  lemma LoopKeepsTask(c: Config, s: State, step: Step, id: TaskId)
    requires !step.DoCreate? && !step.DoRunAdvances? && !step.DoConfirmBegins? && !step.DoConfirmAdvances? && !step.DoReorder?
    ensures TaskKept(s, Next(c, s, step), id) && Next(c, s, step).known == s.known && HeldKept(s, Next(c, s, step))
  {
    hide CancelHandle, Arm, Enqueue, CancelTimerOf, Suspended, LaunchAll, CancelTimer, RunAdvances,
      ConfirmBegins, ConfirmAdvances, Create, Busy, TimerReaped, RunUnwinds, ConfirmUnwinds, Reorder, Drained;
  }

  // ---- no stranded work ----------------------------------------------------------

  // Whoever carried the task still does, unless the run that did has moved on.
  ghost predicate CarriersKept(l: Loop, t: Loop, id: TaskId) {
    && (id in l.queue ==> id in t.queue || id in t.pending)
    && (id in l.pending ==> id in t.pending || RunCarries(t, id))
    && (forall h :: h in l.runs && l.runs[h].task == id && Live(l.runs[h].point) ==> h in t.runs && t.runs[h].task == id && Live(t.runs[h].point))
    && (forall h :: h in l.calls && l.calls[h] == StartNowTail(id) ==> (h in t.calls && t.calls[h] == StartNowTail(id)) || id in t.queue)
  }

  lemma KeptCarrier(l: Loop, t: Loop, id: TaskId)
    requires Carrier(l, id) && CarriersKept(l, t, id)
    ensures Carrier(t, id)
  {
  }

  lemma LaunchCarries(l: Loop, i: nat, p: Provider, id: TaskId)
    requires i < |l.pending| && Handles(l) && Underway(l, id)
    ensures Underway(Launch(l, i, p), id)
  {
    var t := Launch(l, i, p);
    if id in l.pending {
      if id == l.pending[i] {
        assert t.runs[l.nextHandle].task == id;
      } else {
        var k :| 0 <= k < |l.pending| && l.pending[k] == id;
        assert t.pending[if k < i then k else k - 1] == id;
      }
    } else {
      var h :| h in l.runs && l.runs[h].task == id && Live(l.runs[h].point);
      assert h in t.runs && t.runs[h] == l.runs[h];
    }
  }

  lemma LaunchHandles(l: Loop, i: nat, p: Provider)
    requires i < |l.pending| && Handles(l)
    ensures Handles(Launch(l, i, p))
  {
  }

  lemma PurgeCarries(store: map<TaskId, Task>, l: Loop, id: TaskId)
    requires id in store && store[id].status == Queued
    requires Underway(l, id)
    ensures Underway(Purge(store, l), id)
    ensures Handles(l) ==> Handles(Purge(store, l))
  {
    KeptContents(store, l.pending);
  }

  ghost predicate Underway(l: Loop, id: TaskId) {
    id in l.pending || RunCarries(l, id)
  }

  lemma {:induction false} LaunchAllCarries(c: Config, store: map<TaskId, Task>, l: Loop, id: TaskId)
    requires id in store && store[id].status == Queued
    requires Handles(l) && Underway(l, id)
    ensures Underway(LaunchAll(c, store, l), id)
    decreases |Kept(store, l.pending)|
  {
    if |l.activeRuns| < c.maxRuns {
      var l1 := Purge(store, l);
      PurgeCarries(store, l, id);
      var b := Best(c, store, l1, l1.pending);
      if b.Some? {
        LaunchShrinks(store, l.pending, b.value);
        var p := store[l1.pending[b.value]].provider;
        hide Underway, Handles, Eligible, Before, Purge;
        LaunchCarries(l1, b.value, p, id);
        LaunchHandles(l1, b.value, p);
        LaunchAllCarries(c, store, Launch(l1, b.value, p), id);
      }
    }
  }

  lemma {:induction false} LaunchAllCalls(c: Config, store: map<TaskId, Task>, l: Loop)
    ensures LaunchAll(c, store, l).calls == l.calls
    decreases |Kept(store, l.pending)|
  {
    if |l.activeRuns| < c.maxRuns {
      var l1 := Purge(store, l);
      var b := Best(c, store, l1, l1.pending);
      if b.Some? {
        LaunchShrinks(store, l.pending, b.value);
        LaunchAllCalls(c, store, Launch(l1, b.value, store[l1.pending[b.value]].provider));
      }
    }
  }

  lemma ScheduleCarries(c: Config, s: State, id: TaskId)
    requires Linked(s.loop, s.known) && Is(s, id, Queued) && Carrier(s.loop, id)
    ensures Carrier(Schedule(c, s).loop, id)
  {
    if s.loop.wakeup {
      var l := Drained(s.loop);
      if CallCarries(s.loop, id) {
        LaunchAllCalls(c, s.store, l);
      } else {
        assert RunCarries(s.loop, id) ==> RunCarries(l, id);
        LaunchAllCarries(c, s.store, l, id);
      }
    }
  }

  // Ending or cancelling a run only lets go of its own task.
  lemma MoveLetsGo(l: Loop, h: Handle, point: Point, id: TaskId)
    requires h in l.runs && (Live(point) || l.runs[h].task != id)
    ensures CarriersKept(l, MoveRun(l, h, point), id)
  {
  }

  lemma EndLetsGo(l: Loop, h: Handle, id: TaskId)
    requires h in l.runs && (l.runs[h].task != id || !Live(l.runs[h].point))
    ensures CarriersKept(l, EndRun(l, h), id)
  {
  }

  lemma StopLetsGo(l: Loop, of: TaskId, id: TaskId)
    requires Handles(l) && Registered(l) && of in l.activeRuns && of != id
    ensures CarriersKept(l, CancelHandle(l, l.activeRuns[of]), id)
  {
    var h := l.activeRuns[of];
    assert Operates(l, h, of);
    if h in l.runs && l.runs[h].task == of {
      MoveLetsGo(l, h, CancelHandle(l, h).runs[h].point, id);
    }
  }

  lemma SuspendedKeeps(l: Loop, call: Call, id: TaskId)
    requires Handles(l)
    ensures CarriersKept(l, Suspended(l, call), id)
  {
  }

  lemma KeptTransitive(l: Loop, m: Loop, t: Loop, id: TaskId)
    requires CarriersKept(l, m, id) && CarriersKept(m, t, id) && Carrier(l, id)
    ensures Carrier(t, id)
  {
    KeptCarrier(l, m, id);
    KeptCarrier(m, t, id);
  }

  lemma EnqueueKeeps(l: Loop, i: TaskId, id: TaskId)
    ensures CarriersKept(l, Enqueue(l, i), id)
  {
  }

  lemma ArmKeeps(l: Loop, i: TaskId, id: TaskId)
    ensures CarriersKept(l, Arm(l, i), id)
  {
  }

  // The record a run leaves is QUEUED only if it was, and then it goes on.
  lemma RunLeaves(s: State, h: Handle, e: RunEvent, id: TaskId)
    requires h in s.loop.runs && Live(s.loop.runs[h].point) && Is(RunAdvances(s, h, e), id, Queued)
    ensures Is(s, id, Queued)
    ensures s.loop.runs[h].task == id ==> RunAdvances(s, h, e).loop in {s.loop, MoveRun(s.loop, h, Pointers)}
  {
    hide MoveRun, EndRun;
  }

  lemma RunCarriesOn(s: State, h: Handle, e: RunEvent, id: TaskId)
    requires Is(RunAdvances(s, h, e), id, Queued)
    ensures Is(s, id, Queued) && CarriersKept(s.loop, RunAdvances(s, h, e).loop, id)
  {
    hide CarriersKept;
    assert CarriersKept(s.loop, s.loop, id) by { Unmoved(s.loop, s.loop, id); }
    if h in s.loop.runs && Live(s.loop.runs[h].point) {
      RunLeaves(s, h, e, id);
      RunLoop(s, h, e);
      hide RunAdvances, EndRun, MoveRun;
      if s.loop.runs[h].task != id { EndLetsGo(s.loop, h, id); }
      MoveLetsGo(s.loop, h, Pointers, id);
      MoveLetsGo(s.loop, h, Fetching, id);
      MoveLetsGo(s.loop, h, Hashing, id);
    }
  }

  // Steps that touch no queue, run or call.
  lemma Unmoved(l: Loop, t: Loop, id: TaskId)
    requires l.queue == t.queue && l.pending == t.pending && l.runs == t.runs && l.calls == t.calls
    ensures CarriersKept(l, t, id)
  {
  }

  lemma ConfirmLeaves(s: State, h: Handle, e: ConfirmEvent, i: TaskId, id: TaskId)
    ensures Is(ConfirmBegins(s, i, e), id, Queued) ==> Is(s, id, Queued)
    ensures Is(ConfirmAdvances(s, h, e), id, Queued) ==> Is(s, id, Queued)
  {
    hide BeginConfirm, EndConfirm;
  }

  lemma EndConfirmOnly(l: Loop, h: Handle, id: TaskId)
    ensures var t := EndConfirm(l, h, id);
            t.queue == l.queue && t.pending == l.pending && t.runs == l.runs && t.calls == l.calls
  {
  }

  lemma ConfirmBeginsKeeps(s: State, i: TaskId, e: ConfirmEvent, id: TaskId)
    ensures CarriersKept(s.loop, ConfirmBegins(s, i, e).loop, id)
  {
    if i in s.store {
      var s1 := SetTask(s, i, s.store[i].(status := Verifying)).(loop := BeginConfirm(s.loop, i));
      ConfirmLoop(s1, s.loop.nextHandle, i, e);
    }
    hide CarriersKept, ConfirmSettles;
    Unmoved(s.loop, ConfirmBegins(s, i, e).loop, id);
  }

  lemma ConfirmAdvancesKeeps(s: State, h: Handle, e: ConfirmEvent, id: TaskId)
    ensures CarriersKept(s.loop, ConfirmAdvances(s, h, e).loop, id)
  {
    if h in s.loop.confirms {
      if s.loop.confirms[h].task in s.store { ConfirmLoop(s, h, s.loop.confirms[h].task, e); }
      EndConfirmOnly(s.loop, h, s.loop.confirms[h].task);
    }
    hide CarriersKept, ConfirmSettles, EndConfirm;
    Unmoved(s.loop, ConfirmAdvances(s, h, e).loop, id);
  }

  // ---- who carries a task that has just become QUEUED ------------------------------

  lemma StartNowCarries(s: State, i: TaskId, id: TaskId)
    requires Linked(s.loop, s.known) && Carried(s) && Is(StartNow(s, i), id, Queued)
    ensures Carrier(StartNow(s, i).loop, id)
  {
    if Is(s, i, Scheduled) && i in s.loop.scheduledRuns {
      var l := CancelTimerOf(s.loop, i).(scheduledRuns := s.loop.scheduledRuns - {i});
      if i == id {
        assert Suspended(l, StartNowTail(i)).calls[l.nextHandle] == StartNowTail(id);
      } else {
        Unmoved(s.loop, l, id);
        SuspendedKeeps(l, StartNowTail(i), id);
        KeptTransitive(s.loop, l, Suspended(l, StartNowTail(i)), id);
      }
    } else if Is(s, i, Scheduled) {
      if i != id {
        EnqueueKeeps(s.loop, i, id);
        KeptCarrier(s.loop, Enqueue(s.loop, i), id);
      }
    }
  }

  // Admission and resumption put the token in the queue at once.
  lemma AdmitCarries(s: State, t: State, i: TaskId, delayed: bool, id: TaskId)
    requires Carried(s) && Is(t, id, Queued)
    requires t.loop == if delayed then Arm(s.loop, i) else Enqueue(s.loop, i)
    requires Is(s, id, Queued) || (id == i && !delayed)
    ensures Carrier(t.loop, id)
  {
    if Is(s, id, Queued) {
      EnqueueKeeps(s.loop, i, id);
      ArmKeeps(s.loop, i, id);
      KeptCarrier(s.loop, t.loop, id);
    }
  }

  lemma PauseCarries(s: State, i: TaskId, id: TaskId)
    requires Linked(s.loop, s.known) && Carried(s) && Is(Pause(s, i), id, Queued)
    ensures Carrier(Pause(s, i).loop, id)
  {
    hide CarriersKept;
    if i in s.store && Pausable(s.store[i].status) && Busy(s.loop, i) {
      var l := CancelHandle(s.loop, s.loop.activeRuns[i]);
      StopKeeps(s.loop, s.known, i, PauseTail(i, s.loop.activeRuns[i]), id);
    } else {
      Unmoved(s.loop, Pause(s, i).loop, id);
      KeptCarrier(s.loop, Pause(s, i).loop, id);
    }
  }

  lemma CancelHandles(l: Loop, h: Handle)
    requires Handles(l)
    ensures Handles(CancelHandle(l, h))
  {
  }

  lemma StopKeeps(l: Loop, known: map<TaskId, Provider>, of: TaskId, call: Call, id: TaskId)
    requires Linked(l, known) && of in l.activeRuns && of != id && Carrier(l, id)
    ensures Carrier(Suspended(CancelHandle(l, l.activeRuns[of]), call), id)
  {
    hide CarriersKept;
    StopLetsGo(l, of, id);
    var m := CancelHandle(l, l.activeRuns[of]);
    CancelHandles(l, l.activeRuns[of]);
    SuspendedKeeps(m, call, id);
    KeptTransitive(l, m, Suspended(m, call), id);
  }

  lemma CancelCarries(s: State, i: TaskId, id: TaskId)
    requires Linked(s.loop, s.known) && Carried(s) && Is(Cancel(s, i), id, Queued)
    ensures Carrier(Cancel(s, i).loop, id)
  {
    hide CarriersKept;
    if i in s.store && Cancellable(s.store[i].status) && Busy(s.loop, i) {
      StopKeeps(s.loop, s.known, i, CancelTail(i, s.loop.activeRuns[i]), id);
    } else {
      Unmoved(s.loop, Cancel(s, i).loop, id);
      KeptCarrier(s.loop, Cancel(s, i).loop, id);
    }
  }

  lemma ForgetKeeps(l: Loop, call: Handle, id: TaskId)
    requires call in l.calls && (l.calls[call] == StartNowTail(id) ==> id in l.queue)
    ensures CarriersKept(l, l.(calls := l.calls - {call}), id)
  {
  }

  lemma ReturnCarries(s: State, call: Handle, id: TaskId)
    requires Carried(s) && Is(CallReturns(s, call), id, Queued)
    ensures Carrier(CallReturns(s, call).loop, id)
  {
    if call in s.loop.calls && Ready(s.loop, s.loop.calls[call]) {
      var l := s.loop.(calls := s.loop.calls - {call});
      assert Carrier(s.loop, id) by { assert CallReturns(s, call).store == s.store; }
      hide CarriersKept, Carrier, Carried;
      if s.loop.calls[call].StartNowTail? {
        if s.loop.calls[call].task == id {
          Queued1(l, id);
        } else {
          ForgetKeeps(s.loop, call, id);
          KeptCarrier(s.loop, l, id);
          EnqueueKeeps(l, s.loop.calls[call].task, id);
          KeptCarrier(l, Enqueue(l, s.loop.calls[call].task), id);
        }
        hide Enqueue;
      } else {
        ForgetKeeps(s.loop, call, id);
        KeptCarrier(s.loop, l, id);
        TailUnmoved(s, call);
        hide CallReturns;
        UnmovedCarrier(l, CallReturns(s, call).loop, id);
      }
    }
  }

  lemma TailUnmoved(s: State, call: Handle)
    requires call in s.loop.calls && Ready(s.loop, s.loop.calls[call]) && !s.loop.calls[call].StartNowTail?
    ensures var l, t := s.loop, CallReturns(s, call).loop;
            l.queue == t.queue && l.pending == t.pending && l.runs == t.runs && t.calls == l.calls - {call}
  {
    FinishOnly(s.(loop := s.loop.(calls := s.loop.calls - {call})), s.loop.calls[call].task);
    hide Ready, FinishCancel;
  }

  lemma FinishOnly(s: State, id: TaskId)
    ensures var l, t := s.loop, FinishCancel(s, id).loop;
            l.queue == t.queue && l.pending == t.pending && l.runs == t.runs && l.calls == t.calls
  {
    DisarmOnly(s.loop, id);
    hide CancelTimerOf;
  }

  lemma DisarmOnly(l: Loop, id: TaskId)
    ensures var t := CancelTimerOf(l, id);
            t.queue == l.queue && t.pending == l.pending && t.runs == l.runs && t.calls == l.calls
  {
  }

  lemma Queued1(l: Loop, id: TaskId)
    ensures Carrier(Enqueue(l, id), id)
  {
    assert Enqueue(l, id).queue[|l.queue|] == id;
  }

  lemma TimerCarries(s: State, h: Handle, id: TaskId)
    requires Carried(s) && Is(TimerFires(s, h), id, Queued)
    ensures Carrier(TimerFires(s, h).loop, id)
  {
    hide CarriersKept, Carrier;
    if h in s.loop.sleeping {
      var i, l := s.loop.sleeping[h], CancelTimer(s.loop, h);
      Queued1(l, id);
      if i != id || !Is(s, id, Scheduled) {
        UnmovedCarrier(s.loop, l, id);
        EnqueueKeeps(l, i, id);
        KeptCarrier(l, Enqueue(l, i), id);
      }
    }
  }

  lemma ControlCarries(c: Config, s: State, step: Step, id: TaskId)
    requires Linked(s.loop, s.known) && StoreKnown(s.store, s.known) && Carried(s)
    requires step.DoCreate? || step.DoStartNow? || step.DoReschedule? || step.DoPause? || step.DoResume? || step.DoCancel?
    requires Is(Next(c, s, step), id, Queued)
    ensures Carrier(Next(c, s, step).loop, id)
  {
    hide Carrier, Enqueue, Arm, Pause, Cancel, StartNow, HasTwin, HasCompleted, Linked;
    match step
    case DoCreate(i, _, _, _, _, delayed, _) =>
      if Next(c, s, step).nextPosition != s.nextPosition { AdmitCarries(s, Next(c, s, step), i, delayed, id); }
    case DoStartNow(i) => StartNowCarries(s, i, id);
    case DoReschedule(i) => if Is(s, i, Scheduled) { AdmitCarries(s, Next(c, s, step), i, true, id); }
    case DoPause(i) => PauseCarries(s, i, id);
    case DoResume(i, delayed) => if Is(s, i, Paused) || Is(s, i, Failed) { AdmitCarries(s, Next(c, s, step), i, delayed, id); }
    case DoCancel(i) => CancelCarries(s, i, id);
  }

  lemma EventCarries(c: Config, s: State, step: Step, id: TaskId)
    requires Linked(s.loop, s.known) && Carried(s)
    requires !step.DoCreate? && !step.DoStartNow? && !step.DoReschedule? && !step.DoPause? && !step.DoResume? && !step.DoCancel?
    requires Is(Next(c, s, step), id, Queued)
    ensures Carrier(Next(c, s, step).loop, id)
  {
    hide Carrier, CarriersKept, Linked, CallReturns, TimerFires, Schedule, RunAdvances, ConfirmBegins, ConfirmAdvances;
    match step
    case DoCallReturns(call) => ReturnCarries(s, call, id);
    case DoDeleteTask(_, _) =>
    case DoDeleteArtifact(_) =>
    case DoReorder(ids) => RenumberKeeps(s.store, ids); UnmovedCarrier(s.loop, Next(c, s, step).loop, id);
    case DoTimerFires(h) => TimerCarries(s, h, id);
    case DoTimerReaped(h) => UnmovedCarrier(s.loop, TimerReaped(s.loop, h), id);
    case DoSchedule => ScheduleQueued(c, s, id); ScheduleCarries(c, s, id);
    case DoRunAdvances(h, e) => RunCarriesOn(s, h, e, id); KeptCarrier(s.loop, Next(c, s, step).loop, id);
    case DoRunUnwinds(h) =>
      if h in s.loop.runs && s.loop.runs[h].point == Unwinding {
        EndLetsGo(s.loop, h, id);
        KeptCarrier(s.loop, EndRun(s.loop, h), id);
      }
    case DoConfirmBegins(i, e) =>
      ConfirmLeaves(s, 0, e, i, id);
      ConfirmBeginsKeeps(s, i, e, id);
      KeptCarrier(s.loop, Next(c, s, step).loop, id);
    case DoConfirmAdvances(h, e) =>
      ConfirmLeaves(s, h, e, 0, id);
      ConfirmAdvancesKeeps(s, h, e, id);
      KeptCarrier(s.loop, Next(c, s, step).loop, id);
    case DoConfirmUnwinds(h) => UnmovedCarrier(s.loop, ConfirmUnwinds(s.loop, h), id);
  }

  lemma ScheduleQueued(c: Config, s: State, id: TaskId)
    requires Is(Schedule(c, s), id, Queued)
    ensures Is(s, id, Queued)
  {
  }

  lemma UnmovedCarrier(l: Loop, t: Loop, id: TaskId)
    requires l.queue == t.queue && l.pending == t.pending && l.runs == t.runs && l.calls == t.calls && Carrier(l, id)
    ensures Carrier(t, id)
  {
    Unmoved(l, t, id);
    KeptCarrier(l, t, id);
  }

  // ---- the invariant along every run ------------------------------------------------

  predicate IsControl(step: Step) {
    step.DoCreate? || step.DoStartNow? || step.DoReschedule? || step.DoPause? || step.DoResume? || step.DoCancel?
  }

  lemma StepSound(c: Config, s: State, step: Step)
    requires Core(c, s)
    ensures Sound(c, Next(c, s, step).loop, Next(c, s, step).known)
  {
    hide Sound, Next, Carried, TaskKept;
    if IsControl(step) {
      ControlSound(c, s, step);
    } else {
      EventSound(c, s, step);
      StepKeepsTask(c, s, step, 0);
    }
  }

  lemma StepCarried(c: Config, s: State, step: Step)
    requires Core(c, s)
    ensures Carried(Next(c, s, step))
  {
    hide Next, Carrier, Counted, Balanced, Handles, Provenance, Registered, Parked;
    forall id | Is(Next(c, s, step), id, Queued) ensures Carrier(Next(c, s, step).loop, id) {
      if IsControl(step) { ControlCarries(c, s, step, id); } else { EventCarries(c, s, step, id); }
    }
  }

  lemma StepRecorded(c: Config, s: State, step: Step)
    requires Core(c, s)
    ensures StoreKnown(Next(c, s, step).store, Next(c, s, step).known) && Recorded(Next(c, s, step))
  {
    var t := Next(c, s, step);
    hide Sound, Next, Carried;
    StepKeepsTask(c, s, step, 0);
    KnownOnlyGrows(c, s, step);
    forall id | id in t.store
      ensures id in t.known && t.known[id] == t.store[id].provider
      ensures Is(t, id, Completed) ==> t.store[id].artifact.Some? && t.store[id].artifact.value in t.ever
    {
      StepKeepsTask(c, s, step, id);
    }
  }

  lemma KnownOnlyGrows(c: Config, s: State, step: Step)
    requires Recorded(s) && StoreKnown(s.store, s.known)
    ensures forall id :: id in s.known ==> id in Next(c, s, step).known && Next(c, s, step).known[id] == s.known[id]
  {
    hide TaskKept, Arm, Enqueue, HasTwin, HasCompleted;
    if !step.DoCreate? {
      hide Next;
      StepKeepsTask(c, s, step, 0);
    }
  }

  lemma CoreStep(c: Config, s: State, step: Step)
    requires Core(c, s)
    ensures Core(c, Next(c, s, step))
  {
    hide Next, Sound, Carried, Recorded, StoreKnown;
    StepSound(c, s, step);
    StepCarried(c, s, step);
    StepRecorded(c, s, step);
  }

  // Every state the manager can reach satisfies the invariant.
  lemma {:induction false} CoreAlways(c: Config, s: State, steps: seq<Step>)
    requires Core(c, s)
    ensures Core(c, Trace(c, s, steps))
  {
    hide Core, Next;
    if steps != [] {
      CoreAlways(c, s, steps[..|steps|-1]);
      CoreStep(c, Trace(c, s, steps[..|steps|-1]), steps[|steps|-1]);
    }
  }
}
