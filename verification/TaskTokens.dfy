// For per-source limits above one: exclusion follows when nobody puts a task
// back in the queue while a token or a run of it is still around.
module TaskTokens {
  import opened Sequences
  import opened TaskTypes
  import opened TaskState
  import opened TaskInvariants
  import opened TaskRuns
  import opened TaskExclusion
  import opened TaskStatus

  function RunsFor(runs: map<Handle, Run>, id: TaskId): set<Handle> {
    set h | h in runs && runs[h].task == id
  }

  // Queue entries, pending entries and runs of one task.
  function TokensOf(l: Loop, id: TaskId): nat {
    multiset(l.queue)[id] + multiset(l.pending)[id] + |RunsFor(l.runs, id)|
  }

  ghost predicate Unique(l: Loop) {
    forall id :: TokensOf(l, id) <= 1
  }

  // Does `create_with_result` admit the request as a new waiting task?
  predicate Accepted(s: State, id: TaskId, p: Provider, q: Request, resolved: Option<string>, refused: bool) {
    && id !in s.known && !refused
    && (resolved.Some? && resolved.value != "" ==>
          ArtifactId(p, q.source, resolved.value, q.selection) !in s.held && !HasTwin(s, p, q, resolved.value))
  }

  // The task the step will put into the queue, read off the state before it.
  function Queues(s: State, step: Step): Option<TaskId> {
    match step
    case DoCreate(id, p, q, resolved, _, delayed, refused) =>
      if !delayed && Accepted(s, id, p, q, resolved, refused) then Some(id) else None
    case DoStartNow(id) => if Is(s, id, Scheduled) && id !in s.loop.scheduledRuns then Some(id) else None
    case DoResume(id, delayed) => if !delayed && (Is(s, id, Paused) || Is(s, id, Failed)) then Some(id) else None
    case DoCallReturns(h) => if h in s.loop.calls && s.loop.calls[h].StartNowTail? then Some(s.loop.calls[h].task) else None
    case DoTimerFires(h) => if h in s.loop.sleeping && Is(s, s.loop.sleeping[h], Scheduled) then Some(s.loop.sleeping[h]) else None
    case _ => None
  }

  // The step puts back a task that still has a token or a run: a resume while
  // the old run unwinds, or a second resume of a paused queued task.
  predicate Requeues(s: State, step: Step) {
    Queues(s, step).Some? && TokensOf(s.loop, Queues(s, step).value) > 0
  }

  lemma RunForAdded(runs: map<Handle, Run>, h: Handle, r: Run, id: TaskId)
    requires h !in runs
    ensures |RunsFor(runs[h := r], id)| == |RunsFor(runs, id)| + (if r.task == id then 1 else 0)
  {
    assert RunsFor(runs[h := r], id) - {h} == RunsFor(runs, id);
  }

  // No more tokens than before.
  lemma TokensDrop(l: Loop, t: Loop)
    requires Unique(l) && t.queue == l.queue && t.pending == l.pending
    requires t.runs.Keys <= l.runs.Keys && forall h :: h in t.runs ==> t.runs[h].task == l.runs[h].task
    ensures Unique(t)
  {
    forall id ensures TokensOf(t, id) <= 1 {
      assert TokensOf(l, id) <= 1;
      SubsetSize(RunsFor(t.runs, id), RunsFor(l.runs, id));
    }
  }

  lemma TokensEnqueue(l: Loop, t: Loop, i: TaskId)
    requires Unique(l) && Adds(l, t, i)
    ensures Unique(t) <==> TokensOf(l, i) == 0
  {
    assert multiset(t.queue) == multiset(l.queue) + multiset{i};
    assert TokensOf(t, i) == TokensOf(l, i) + 1;
    forall id ensures TokensOf(t, id) <= 1 || id == i {
      assert TokensOf(l, id) <= 1;
    }
  }

  lemma TokensDrained(l: Loop)
    requires Unique(l)
    ensures Unique(Drained(l))
  {
    forall id ensures TokensOf(Drained(l), id) <= 1 {
      assert TokensOf(l, id) <= 1;
      assert multiset(l.pending + l.queue) == multiset(l.pending) + multiset(l.queue);
    }
  }

  lemma {:induction false} KeptTokens(store: map<TaskId, Task>, q: seq<TaskId>, id: TaskId)
    ensures multiset(Kept(store, q))[id] <= multiset(q)[id]
  {
    if q != [] {
      KeptTokens(store, q[..|q|-1], id);
      var init, last := q[..|q|-1], q[|q|-1];
      assert q == init + [last];
      assert multiset(q) == multiset(init) + multiset{last};
      assert multiset(Kept(store, init) + [last]) == multiset(Kept(store, init)) + multiset{last};
    }
  }

  lemma TokensPurge(store: map<TaskId, Task>, l: Loop)
    requires Unique(l)
    ensures Unique(Purge(store, l))
  {
    forall id ensures TokensOf(Purge(store, l), id) <= 1 {
      assert TokensOf(l, id) <= 1;
      KeptTokens(store, l.pending, id);
    }
  }

  lemma TokensLaunch(l: Loop, i: nat, p: Provider)
    requires Unique(l) && Handles(l) && i < |l.pending|
    ensures Unique(Launch(l, i, p)) && Alone(l, l.pending[i])
  {
    var q := l.pending;
    assert q == q[..i] + [q[i]] + q[i+1..];
    assert multiset(q) == multiset(Without(q, i)) + multiset{q[i]};
    assert TokensOf(l, q[i]) <= 1;
    assert RunsFor(l.runs, q[i]) == {};
    assert forall h :: h in l.runs && l.runs[h].task == q[i] ==> h in RunsFor(l.runs, q[i]);
    forall id ensures TokensOf(Launch(l, i, p), id) <= 1 {
      assert TokensOf(l, id) <= 1;
      RunForAdded(l.runs, l.nextHandle, Run(q[i], p, Fresh), id);
    }
  }

  lemma PurgeHandles(store: map<TaskId, Task>, l: Loop)
    requires Handles(l)
    ensures Handles(Purge(store, l))
  {
  }

  lemma {:induction false} TurnUnique(c: Config, store: map<TaskId, Task>, l: Loop)
    requires Unique(l) && Handles(l)
    ensures Unique(LaunchAll(c, store, l)) && LaunchesAlone(c, store, l)
    decreases |Kept(store, l.pending)|
  {
    if |l.activeRuns| < c.maxRuns {
      hide Unique, Handles, Alone, Before;
      var l1 := Purge(store, l);
      TokensPurge(store, l);
      PurgeHandles(store, l);
      var b := Best(c, store, l1, l1.pending);
      if b.Some? {
        LaunchShrinks(store, l.pending, b.value);
        var p := store[l1.pending[b.value]].provider;
        TokensLaunch(l1, b.value, p);
        LaunchHandles(l1, b.value, p);
        TurnUnique(c, store, Launch(l1, b.value, p));
      }
    }
  }

  // What a step other than a scheduler turn does to tokens.
  predicate Keeps(l: Loop, t: Loop) {
    t.queue == l.queue && t.pending == l.pending && t.runs.Keys <= l.runs.Keys && SameTasks(l, t)
  }

  predicate SameTasks(l: Loop, t: Loop) {
    forall h :: h in t.runs && h in l.runs ==> t.runs[h].task == l.runs[h].task
  }

  predicate Adds(l: Loop, t: Loop, id: TaskId) {
    t.queue == l.queue + [id] && t.pending == l.pending && t.runs == l.runs
  }

  predicate Settled(l: Loop, t: Loop, added: Option<TaskId>) {
    if added.Some? then Adds(l, t, added.value) else Keeps(l, t)
  }

  lemma QueueOps(l: Loop, id: TaskId)
    ensures Adds(l, Enqueue(l, id), id)
    ensures Keeps(l, Arm(l, id))
    ensures Keeps(l, l)
    ensures Keeps(l, l.(wakeup := true))
  {
  }

  lemma AdmitTokens(c: Config, s: State, step: Step)
    requires step.DoCreate? || step.DoReschedule? || step.DoResume?
    ensures Settled(s.loop, Next(c, s, step).loop, Queues(s, step))
  {
    QueueOps(s.loop, step.id);
    hide Arm, Enqueue, HasTwin, HasCompleted, Keeps, Adds;
  }

  lemma StartNowTokens(s: State, id: TaskId)
    ensures Settled(s.loop, StartNow(s, id).loop, Queues(s, DoStartNow(id)))
  {
    QueueOps(s.loop, id);
    hide Enqueue, Adds;
  }

  lemma StopTokens(l: Loop, h: Handle, call: Call)
    ensures Keeps(l, Suspended(CancelHandle(l, h), call))
  {
  }

  lemma FinishTokens(s: State, id: TaskId)
    ensures Keeps(s.loop, FinishCancel(s, id).loop)
  {
  }

  lemma PauseTokens(s: State, id: TaskId)
    ensures Keeps(s.loop, Pause(s, id).loop)
  {
    QueueOps(s.loop, id);
    if Busy(s.loop, id) { StopTokens(s.loop, s.loop.activeRuns[id], PauseTail(id, s.loop.activeRuns[id])); }
    hide Suspended, CancelHandle, Keeps, Adds, Finished;
  }

  lemma CancelTokens(s: State, id: TaskId)
    ensures Keeps(s.loop, Cancel(s, id).loop)
  {
    QueueOps(s.loop, id);
    if Busy(s.loop, id) { StopTokens(s.loop, s.loop.activeRuns[id], CancelTail(id, s.loop.activeRuns[id])); }
    if id in s.store { FinishTokens(SetTask(s, id, s.store[id].(status := Cancelled, queuePosition := None)), id); }
    hide Suspended, CancelHandle, FinishCancel, Keeps, Adds, Finished;
  }

  lemma ReturnTokens(s: State, call: Handle)
    ensures Settled(s.loop, CallReturns(s, call).loop, Queues(s, DoCallReturns(call)))
  {
    QueueOps(s.loop, 0);
    if call in s.loop.calls {
      hide CallReturns;
      match s.loop.calls[call]
      case PauseTail(_, _) => PauseReturnTokens(s, call);
      case CancelTail(_, _) => CancelReturnTokens(s, call);
      case StartNowTail(_) => StartNowReturnTokens(s, call);
    }
  }

  lemma PauseReturnTokens(s: State, call: Handle)
    requires call in s.loop.calls && s.loop.calls[call].PauseTail?
    ensures Keeps(s.loop, CallReturns(s, call).loop)
  {
    hide Finished;
  }

  lemma CancelReturnTokens(s: State, call: Handle)
    requires call in s.loop.calls && s.loop.calls[call].CancelTail?
    ensures Keeps(s.loop, CallReturns(s, call).loop)
  {
    hide Finished;
  }

  lemma StartNowReturnTokens(s: State, call: Handle)
    requires call in s.loop.calls && s.loop.calls[call].StartNowTail?
    ensures Adds(s.loop, CallReturns(s, call).loop, s.loop.calls[call].task)
  {
  }

  lemma TimerTokens(s: State, h: Handle)
    ensures Settled(s.loop, TimerFires(s, h).loop, Queues(s, DoTimerFires(h)))
    ensures Keeps(s.loop, TimerReaped(s.loop, h))
  {
  }

  lemma EndTokens(l: Loop, h: Handle)
    requires h in l.runs
    ensures Keeps(l, EndRun(l, h))
  {
  }

  lemma MoveTokens(l: Loop, h: Handle, point: Point)
    requires h in l.runs
    ensures Keeps(l, MoveRun(l, h, point))
  {
  }

  lemma RunTokens(s: State, h: Handle, e: RunEvent)
    ensures Keeps(s.loop, RunAdvances(s, h, e).loop)
  {
    if h in s.loop.runs && Live(s.loop.runs[h].point) {
      RunLoop(s, h, e);
      EndTokens(s.loop, h);
      MoveTokens(s.loop, h, Pointers);
      MoveTokens(s.loop, h, Fetching);
      MoveTokens(s.loop, h, Hashing);
      QueueOps(s.loop, 0);
      hide RunAdvances, EndRun, MoveRun, Keeps;
    } else {
      QueueOps(s.loop, 0);
    }
  }

  lemma ConfirmTokens(s: State, h: Handle, id: TaskId, e: ConfirmEvent)
    ensures Keeps(s.loop, ConfirmBegins(s, id, e).loop)
  {
    BeginLoop(s, id, e);
    hide ConfirmBegins;
  }

  lemma EndConfirmTokens(l: Loop, h: Handle, id: TaskId)
    ensures Keeps(l, EndConfirm(l, h, id))
  {
  }

  lemma ConfirmsTokens(s: State, h: Handle, e: ConfirmEvent)
    ensures Keeps(s.loop, ConfirmAdvances(s, h, e).loop)
  {
    QueueOps(s.loop, 0);
    if h in s.loop.confirms {
      EndConfirmTokens(s.loop, h, s.loop.confirms[h].task);
      hide EndConfirm, Keeps;
      if s.loop.confirms[h].task in s.store { ConfirmLoop(s, h, s.loop.confirms[h].task, e); }
      hide ConfirmSettles;
    }
  }

  lemma UnwindTokens(l: Loop, h: Handle)
    ensures Keeps(l, RunUnwinds(l, h))
    ensures Keeps(l, ConfirmUnwinds(l, h))
  {
  }

  lemma StepTokens(c: Config, s: State, step: Step)
    requires !step.DoSchedule?
    ensures Settled(s.loop, Next(c, s, step).loop, Queues(s, step))
  {
    hide Keeps, Adds, StartNow, Reschedule, Pause, Resume, Cancel, CallReturns, DeleteTask,
      TimerFires, TimerReaped, RunAdvances, RunUnwinds, ConfirmBegins, ConfirmAdvances, ConfirmUnwinds;
    QueueOps(s.loop, 0);
    match step
    case DoCreate(_, _, _, _, _, _, _) => AdmitTokens(c, s, step);
    case DoStartNow(id) => StartNowTokens(s, id);
    case DoReschedule(id) => AdmitTokens(c, s, step);
    case DoPause(id) => PauseTokens(s, id);
    case DoResume(id, delayed) => AdmitTokens(c, s, step);
    case DoCancel(id) => CancelTokens(s, id);
    case DoCallReturns(call) => ReturnTokens(s, call);
    case DoDeleteTask(id, withArtifact) => DeleteTokens(s, id, withArtifact);
    case DoDeleteArtifact(_) =>
    case DoReorder(ids) =>
    case DoTimerFires(h) => TimerTokens(s, h);
    case DoTimerReaped(h) => TimerTokens(s, h);
    case DoRunAdvances(h, e) => RunTokens(s, h, e);
    case DoRunUnwinds(h) => UnwindTokens(s.loop, h);
    case DoConfirmBegins(id, e) => ConfirmTokens(s, 0, id, e);
    case DoConfirmAdvances(h, e) => ConfirmsTokens(s, h, e);
    case DoConfirmUnwinds(h) => UnwindTokens(s.loop, h);
  }

  lemma DeleteTokens(s: State, id: TaskId, withArtifact: bool)
    ensures DeleteTask(s, id, withArtifact).loop == s.loop
  {
  }

  // One token per task is kept by exactly the steps that requeue nothing; then
  // a scheduler turn launches only tasks without a run.
  lemma UniqueStep(c: Config, s: State, step: Step)
    requires Unique(s.loop) && Handles(s.loop)
    ensures Unique(Next(c, s, step).loop) <==> !Requeues(s, step)
    ensures step.DoSchedule? && s.loop.wakeup ==> LaunchesAlone(c, s.store, Drained(s.loop))
  {
    var t := Next(c, s, step).loop;
    if step.DoSchedule? {
      if s.loop.wakeup {
        TokensDrained(s.loop);
        assert Handles(Drained(s.loop));
        hide Unique, Handles, Drained;
        TurnUnique(c, s.store, Drained(s.loop));
      }
    } else {
      StepTokens(c, s, step);
      hide Next, Unique, Queues, TokensOf;
      if Queues(s, step).Some? {
        TokensEnqueue(s.loop, t, Queues(s, step).value);
      } else {
        TokensDrop(s.loop, t);
      }
    }
  }
}
