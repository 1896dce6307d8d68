// What each step does, read off the records and the event loop: the status it
// writes, the run or call it leaves, and what it does not touch. The invariants
// say which changes are permitted; this says which ones happen.
module TaskEffects {
  import opened TaskTypes
  import opened TaskState
  import opened TaskInvariants
  import opened TaskRuns
  import opened TaskExclusion
  import opened TaskQueue
  import opened TaskStatus
  import opened TaskTheorems

  // ---- the parts of a change --------------------------------------------------------

  // One record is written, every other stays.
  predicate Writes(s: State, t: State, id: TaskId, record: Task) {
    t.store == s.store[id := record]
  }

  // Catalog and history stay.
  predicate SameCatalog(s: State, t: State) {
    t.held == s.held && t.ever == s.ever
  }

  predicate Publishes(s: State, t: State, a: ArtifactId) {
    a in t.held && t.held == s.held + {a} && t.ever == s.ever + {a}
  }

  // Everything but the store, the catalog and the event loop stays.
  predicate SameBooks(s: State, t: State) {
    t.nextPosition == s.nextPosition && t.known == s.known && t.resumeSet == s.resumeSet
  }

  predicate SameQueues(l: Loop, t: Loop) {
    t.queue == l.queue && t.pending == l.pending
  }

  predicate SameTimetable(l: Loop, t: Loop) {
    t.scheduledRuns == l.scheduledRuns && t.sleeping == l.sleeping && t.expired == l.expired
  }

  predicate SameCalls(l: Loop, t: Loop) {
    t.calls == l.calls && t.nextHandle == l.nextHandle
  }

  predicate SameRuns(l: Loop, t: Loop) {
    && t.runs == l.runs && t.confirms == l.confirms && t.activeRuns == l.activeRuns
    && t.activeBySource == l.activeBySource && t.unfinished == l.unfinished
  }

  // The run is gone, with its slot, its unit of the counter and its token.
  ghost predicate RunLeft(l: Loop, t: Loop, h: Handle) {
    && h in l.runs && h !in t.runs && t.runs == l.runs - {h} && l.runs[h].task !in t.activeRuns
    && t.activeRuns == l.activeRuns - {l.runs[h].task}
    && (forall p :: Active(t, p) == Active(l, p) - if p == l.runs[h].provider then 1 else 0)
    && t.unfinished == l.unfinished - 1 && t.wakeup
    && t.confirms == l.confirms && SameQueues(l, t) && SameCalls(l, t) && SameTimetable(l, t)
  }

  // The run goes on at another point.
  predicate RunAt(l: Loop, t: Loop, h: Handle, point: Point) {
    h in l.runs && t == l.(runs := l.runs[h := Run(l.runs[h].task, l.runs[h].provider, point)])
  }

  // A new entry at the end of the queue, and the scheduler is woken.
  predicate Queued1(l: Loop, t: Loop, id: TaskId) {
    t == l.(queue := l.queue + [id], unfinished := l.unfinished + 1, wakeup := true)
  }

  // A new timer sleeps for the task; the one it had does not fire any more.
  ghost predicate Armed1(l: Loop, t: Loop, id: TaskId) {
    && t.scheduledRuns == l.scheduledRuns[id := l.nextHandle] && t.nextHandle == l.nextHandle + 1
    && l.nextHandle in t.sleeping && t.sleeping[l.nextHandle] == id
    && (forall h :: h in t.sleeping <==> h == l.nextHandle || (h in l.sleeping && !TimerOf(l, h, id)))
    && (forall h :: h in t.sleeping && h != l.nextHandle ==> t.sleeping[h] == l.sleeping[h])
    && SameQueues(l, t) && SameRuns(l, t) && t.calls == l.calls && t.wakeup == l.wakeup
  }

  predicate TimerOf(l: Loop, h: Handle, id: TaskId) {
    id in l.scheduledRuns && l.scheduledRuns[id] == h
  }

  // The timer of the task is forgotten and does not fire any more.
  ghost predicate Disarmed(l: Loop, t: Loop, id: TaskId) {
    && t.scheduledRuns == l.scheduledRuns - {id}
    && (forall h :: h in t.sleeping <==> h in l.sleeping && !TimerOf(l, h, id))
    && (forall h :: h in t.sleeping ==> t.sleeping[h] == l.sleeping[h])
  }

  // The call waits for something under a handle of its own.
  predicate Waits(l: Loop, t: Loop, call: Call) {
    t.calls == l.calls[l.nextHandle := call] && t.nextHandle == l.nextHandle + 1
  }

  // An operation on the task that has not finished.
  predicate Operated(l: Loop, id: TaskId) {
    id in l.activeRuns &&
    (l.activeRuns[id] in l.confirms || (l.activeRuns[id] in l.runs && l.runs[l.activeRuns[id]].point != Lost))
  }

  // The operation on the task is told to unwind: a run that has not started is
  // lost at once, a confirmation stops working. No other is touched.
  ghost predicate OperationStopped(l: Loop, t: Loop, id: TaskId) {
    && id in l.activeRuns && t.activeRuns == l.activeRuns && t.activeBySource == l.activeBySource && t.unfinished == l.unfinished
    && t.runs.Keys == l.runs.Keys && t.confirms.Keys == l.confirms.Keys
    && (forall h :: h in l.runs && h != l.activeRuns[id] ==> t.runs[h] == l.runs[h])
    && (forall h :: h in l.confirms && h != l.activeRuns[id] ==> t.confirms[h] == l.confirms[h])
    && (l.activeRuns[id] in l.runs ==>
          t.runs[l.activeRuns[id]] == l.runs[l.activeRuns[id]].(point := if l.runs[l.activeRuns[id]].point.Fresh? then Lost else Unwinding))
    && (l.activeRuns[id] in l.confirms ==> t.confirms[l.activeRuns[id]] == Confirm(l.confirms[l.activeRuns[id]].task, false))
  }

  // ---- the work of a run ---------------------------------------------------------------

  function Artifact(r: Task, revision: string): ArtifactId {
    ArtifactId(r.provider, r.request.source, revision, r.request.selection)
  }

  predicate Nothing(s: State, t: State) {
    t.store == s.store && SameCatalog(s, t) && t.loop == s.loop
  }

  // A live run of a task with record `r`.
  ghost predicate RunWritesEffect(s: State, h: Handle, e: RunEvent, t: State, id: TaskId, r: Task, point: Point) {
    match e
    case CheckPointers =>
      if point.Fresh? && r.provider in {ModelScopeCn, ModelScopeAi}
      then Writes(s, t, id, r.(resumeFromStage := true)) && SameCatalog(s, t) && RunAt(s.loop, t.loop, h, Pointers)
      else Nothing(s, t)
    case Fetch =>
      if point in {Fresh, Pointers}
      then && Writes(s, t, id, r.(status := Downloading, queuePosition := None, resumeFromStage := true))
           && SameCatalog(s, t) && RunAt(s.loop, t.loop, h, Fetching)
      else Nothing(s, t)
    case Hash =>
      && Writes(s, t, id, r.(status := Verifying, queuePosition := None, resumeFromStage := true))
      && SameCatalog(s, t) && RunAt(s.loop, t.loop, h, Hashing)
    case Raise(late, dequeued) =>
      && Writes(s, t, id, r.(status := Failed, resumeFromStage := true, resolved := if late.Some? then late else r.resolved,
                             queuePosition := if late.Some? || dequeued then None else r.queuePosition))
      && SameCatalog(s, t) && RunLeft(s.loop, t.loop, h)
    case RaisePublished(revision) =>
      if r.provider == Http then Nothing(s, t)
      else && Writes(s, t, id, r.(status := Failed, resumeFromStage := true, resolved := Some(revision), queuePosition := None))
           && Publishes(s, t, Artifact(r, revision)) && RunLeft(s.loop, t.loop, h)
    case AwaitUser(revision) =>
      if r.provider != Http then Nothing(s, t)
      else && Writes(s, t, id, r.(status := AwaitingConfirmation, resumeFromStage := true, resolved := Some(revision), queuePosition := None))
           && SameCatalog(s, t) && RunLeft(s.loop, t.loop, h)
    case Publish(revision) =>
      if r.provider == Http then Nothing(s, t)
      else && Writes(s, t, id, r.(status := Completed, resumeFromStage := false, resolved := Some(revision), queuePosition := None,
                                  artifact := Some(Artifact(r, revision))))
           && Publishes(s, t, Artifact(r, revision)) && RunLeft(s.loop, t.loop, h)
  }

  ghost predicate RunEffect(s: State, h: Handle, e: RunEvent, t: State) {
    if h !in s.loop.runs || s.loop.runs[h].point in {Unwinding, Lost} then t == s
    else
      var id, point := s.loop.runs[h].task, s.loop.runs[h].point;
      && t.nextPosition == s.nextPosition && t.known == s.known
      && if id !in s.store then t.store == s.store && SameCatalog(s, t) && t.resumeSet == s.resumeSet && RunLeft(s.loop, t.loop, h)
         else && t.resumeSet == (if point.Fresh? then s.resumeSet - {id} else s.resumeSet)
              && RunWritesEffect(s, h, e, t, id, s.store[id], point)
  }

  lemma EndLeaves(c: Config, l: Loop, h: Handle)
    requires Counted(c, l) && h in l.runs
    ensures RunLeft(l, EndRun(l, h), h)
  {
    forall p ensures Active(EndRun(l, h), p) == Active(l, p) - if p == l.runs[h].provider then 1 else 0 {
      assert CountedFor(c, l, p);
      if p == l.runs[h].provider { assert h in RunsOf(l.runs, p); }
    }
  }

  lemma MovesTo(l: Loop, h: Handle, point: Point)
    requires h in l.runs
    ensures RunAt(l, MoveRun(l, h, point), h, point)
  {
  }

  lemma FetchedHolds(c: Config, s: State, h: Handle, e: RunEvent, r: Task)
    requires Counted(c, s.loop) && h in s.loop.runs && (e.Hash? || e.AwaitUser? || e.RaisePublished? || e.Publish?)
    ensures RunWritesEffect(s, h, e, RunFetched(s, h, r.(resumeFromStage := true), e), s.loop.runs[h].task, r, s.loop.runs[h].point)
  {
    EndLeaves(c, s.loop, h);
    MovesTo(s.loop, h, Hashing);
    hide EndRun, MoveRun, RunLeft, RunAt, Counted;
  }

  lemma RunWritesHolds(c: Config, s: State, h: Handle, e: RunEvent, r: Task)
    requires Counted(c, s.loop) && h in s.loop.runs && Live(s.loop.runs[h].point) && r.status !in {Paused, Cancelled}
    ensures RunWritesEffect(s, h, e, RunWrites(s, h, r.(resumeFromStage := true), e), s.loop.runs[h].task, r, s.loop.runs[h].point)
  {
    if e.Hash? || e.AwaitUser? || e.RaisePublished? || e.Publish? {
      FetchedHolds(c, s, h, e, r);
      hide RunFetched, RunWritesEffect, Counted, Live;
    } else {
      EndLeaves(c, s.loop, h);
      MovesTo(s.loop, h, Pointers);
      MovesTo(s.loop, h, Fetching);
      hide EndRun, MoveRun, RunLeft, RunAt, Counted, Live, RunFetched;
    }
  }

  lemma RunEffects(c: Config, s: State, h: Handle, e: RunEvent)
    requires Safe(c, s)
    ensures RunEffect(s, h, e, RunAdvances(s, h, e))
  {
    assert Counted(c, s.loop) && RunsFit(s.store, s.loop);
    hide Safe, Counted;
    if h in s.loop.runs && Live(s.loop.runs[h].point) {
      var id := s.loop.runs[h].task;
      if id in s.store {
        assert Has(s.store, id, StatusAt(s.loop.runs[h].point));
        var b := if s.loop.runs[h].point.Fresh? then s.(resumeSet := s.resumeSet - {id}) else s;
        RunWritesHolds(c, b, h, e, s.store[id]);
        RunKeepsBooks(b, h, s.store[id].(resumeFromStage := true), e);
        hide RunWrites, RunWritesEffect, RunsFit;
        EffectOfBoth(s, b, h, e, RunAdvances(s, h, e));
      } else {
        EndLeaves(c, s.loop, h);
        hide EndRun, RunLeft, RunsFit;
      }
    }
  }

  // The flag of a resume plays no part in what the run writes.
  lemma EffectOfBoth(s: State, b: State, h: Handle, e: RunEvent, t: State)
    requires b == s.(resumeSet := b.resumeSet) && h in s.loop.runs && s.loop.runs[h].task in s.store
    requires RunWritesEffect(b, h, e, t, s.loop.runs[h].task, s.store[s.loop.runs[h].task], s.loop.runs[h].point)
    ensures RunWritesEffect(s, h, e, t, s.loop.runs[h].task, s.store[s.loop.runs[h].task], s.loop.runs[h].point)
  {
    hide RunLeft, RunAt;
  }

  lemma RunKeepsBooks(s: State, h: Handle, r: Task, e: RunEvent)
    requires h in s.loop.runs
    ensures SameBooks(s, RunWrites(s, h, r, e))
  {
    hide EndRun, MoveRun;
  }

  // The case a reader looks for first: a run that publishes completes its task.
  lemma PublishCompletes(c: Config, s: State, h: Handle, revision: string)
    requires Safe(c, s) && h in s.loop.runs && s.loop.runs[h].point in {Fetching, Hashing}
    requires s.loop.runs[h].task in s.store && s.store[s.loop.runs[h].task].provider != Http
    ensures var t, id := Next(c, s, DoRunAdvances(h, Publish(revision))), s.loop.runs[h].task;
            var r, a := s.store[id], ArtifactId(s.store[id].provider, s.store[id].request.source, revision, s.store[id].request.selection);
            && id in t.store && t.store[id].status == Completed && t.store[id].resolved == Some(revision) && !t.store[id].resumeFromStage
            && t.store[id].artifact == Some(a) && a in t.held && h !in t.loop.runs && id !in t.loop.activeRuns
  {
    RunEffects(c, s, h, Publish(revision));
    RunIs(c, s, h, Publish(revision));
    hide Safe, RunAdvances, Next, SameQueues, SameCalls, SameTimetable, Active;
  }

  lemma RunIs(c: Config, s: State, h: Handle, e: RunEvent)
    ensures Next(c, s, DoRunAdvances(h, e)) == RunAdvances(s, h, e)
  {
    hide RunAdvances;
  }

  // A cancelled run leaves; the record is what the call that stopped it wrote.
  ghost predicate UnwindEffect(s: State, h: Handle, t: State) {
    if h in s.loop.runs && s.loop.runs[h].point == Unwinding
    then t.store == s.store && SameCatalog(s, t) && SameBooks(s, t) && RunLeft(s.loop, t.loop, h) else t == s
  }

  lemma UnwindEffects(c: Config, s: State, h: Handle)
    requires Safe(c, s)
    ensures UnwindEffect(s, h, s.(loop := RunUnwinds(s.loop, h)))
  {
    assert Counted(c, s.loop);
    if h in s.loop.runs { EndLeaves(c, s.loop, h); }
    hide Safe, EndRun, RunLeft;
  }

  // ---- confirmations ----------------------------------------------------------------------

  // The operation is gone, and its slot if it is still the current one.
  predicate ConfirmLeft(l: Loop, t: Loop, h: Handle, id: TaskId) {
    && h !in t.confirms && t.confirms == l.confirms - {h} && t.wakeup
    && t.activeRuns == (if id in l.activeRuns && l.activeRuns[id] == h then l.activeRuns - {id} else l.activeRuns)
    && t.runs == l.runs && t.activeBySource == l.activeBySource && t.unfinished == l.unfinished
    && SameQueues(l, t) && SameCalls(l, t) && SameTimetable(l, t)
  }

  function Resolved(r: Task): string {
    if r.resolved.Some? then r.resolved.value else ""
  }

  // A working confirmation of a task with record `r`.
  predicate ConfirmWritesEffect(s: State, h: Handle, e: ConfirmEvent, t: State, id: TaskId, r: Task) {
    match e
    case KeepWorking => t == s
    case GiveUp => t.store == s.store && SameCatalog(s, t) && ConfirmLeft(s.loop, t.loop, h, id)
    case FailPublishing(published) =>
      && Writes(s, t, id, r.(status := Publishing)) && ConfirmLeft(s.loop, t.loop, h, id)
      && if published then Publishes(s, t, Artifact(r, Resolved(r))) else SameCatalog(s, t)
    case PublishHttp =>
      && Writes(s, t, id, r.(status := Completed, artifact := Some(Artifact(r, Resolved(r)))))
      && ConfirmLeft(s.loop, t.loop, h, id) && Publishes(s, t, Artifact(r, Resolved(r)))
  }

  lemma ConfirmWritesHolds(s: State, h: Handle, id: TaskId, e: ConfirmEvent)
    requires id in s.store
    ensures ConfirmWritesEffect(s, h, e, ConfirmSettles(s, h, id, e), id, s.store[id]) && SameBooks(s, ConfirmSettles(s, h, id, e))
  {
  }

  predicate ConfirmEffect(s: State, h: Handle, e: ConfirmEvent, t: State) {
    if h !in s.loop.confirms || !s.loop.confirms[h].working then t == s
    else
      var id := s.loop.confirms[h].task;
      && SameBooks(s, t)
      && if id in s.store then ConfirmWritesEffect(s, h, e, t, id, s.store[id])
         else t.store == s.store && SameCatalog(s, t) && ConfirmLeft(s.loop, t.loop, h, id)
  }

  lemma ConfirmEffects(s: State, h: Handle, e: ConfirmEvent)
    ensures ConfirmEffect(s, h, e, ConfirmAdvances(s, h, e))
  {
    if h in s.loop.confirms && s.loop.confirms[h].task in s.store {
      ConfirmWritesHolds(s, h, s.loop.confirms[h].task, e);
      hide ConfirmSettles, ConfirmWritesEffect;
    }
  }

  // A confirmation that may begin registers itself and marks the task
  // VERIFYING; then it does its first piece of work.
  ghost predicate ConfirmBeginEffect(s: State, id: TaskId, e: ConfirmEvent, t: State) {
    if id in s.loop.activeRuns then t == s
    else if !(id in s.store && s.store[id].status == AwaitingConfirmation && s.store[id].provider == Http && Resolved(s.store[id]) != "")
    then t == s.(loop := s.loop.(wakeup := true))
    else
      exists m: State ::
        && Writes(s, m, id, s.store[id].(status := Verifying)) && SameCatalog(s, m) && SameBooks(s, m) && SameBooks(m, t)
        && m.loop == s.loop.(activeRuns := s.loop.activeRuns[id := s.loop.nextHandle], nextHandle := s.loop.nextHandle + 1,
                             confirms := s.loop.confirms[s.loop.nextHandle := Confirm(id, true)])
        && ConfirmWritesEffect(m, s.loop.nextHandle, e, t, id, m.store[id])
  }

  lemma ConfirmBeginEffects(s: State, id: TaskId, e: ConfirmEvent)
    ensures ConfirmBeginEffect(s, id, e, ConfirmBegins(s, id, e))
  {
    if id in s.store {
      var m := SetTask(s, id, s.store[id].(status := Verifying)).(loop := BeginConfirm(s.loop, id));
      ConfirmWritesHolds(m, s.loop.nextHandle, id, e);
      hide ConfirmSettles, ConfirmWritesEffect;
    }
  }

  predicate ConfirmUnwindEffect(s: State, h: Handle, t: State) {
    if h in s.loop.confirms && !s.loop.confirms[h].working
    then t.store == s.store && SameCatalog(s, t) && SameBooks(s, t) && ConfirmLeft(s.loop, t.loop, h, s.loop.confirms[h].task) else t == s
  }

  lemma ConfirmUnwindEffects(s: State, h: Handle)
    ensures ConfirmUnwindEffect(s, h, s.(loop := ConfirmUnwinds(s.loop, h)))
  {
  }

  // ---- control calls ----------------------------------------------------------------------

  // The position the task keeps, or the next free one, which is then used up.
  function PlaceOf(s: State, id: TaskId): nat {
    if id in s.store && s.store[id].queuePosition.Some? then s.store[id].queuePosition.value else s.nextPosition
  }

  predicate PlaceTaken(s: State, id: TaskId, t: State) {
    t.nextPosition == if id in s.store && s.store[id].queuePosition.Some? then s.nextPosition else s.nextPosition + 1
  }

  ghost predicate PauseEffect(s: State, id: TaskId, t: State) {
    && PlaceTaken(s, id, t) && SameCatalog(s, t) && t.known == s.known && t.resumeSet == s.resumeSet
    && if id !in s.store || s.store[id].status !in {Queued, Resolving, Downloading, Verifying} then t.store == s.store && t.loop == s.loop
       else
         && Writes(s, t, id, s.store[id].(status := Paused, queuePosition := Some(PlaceOf(s, id)), resumeFromStage := true))
         && SameQueues(s.loop, t.loop) && SameTimetable(s.loop, t.loop)
         && if Operated(s.loop, id)
            then OperationStopped(s.loop, t.loop, id) && Waits(s.loop, t.loop, PauseTail(id, s.loop.activeRuns[id])) && t.loop.wakeup == s.loop.wakeup
            else SameRuns(s.loop, t.loop) && SameCalls(s.loop, t.loop) && t.loop.wakeup
  }

  ghost predicate CancelEffect(s: State, id: TaskId, t: State) {
    && SameCatalog(s, t) && t.known == s.known && t.nextPosition == s.nextPosition
    && if id !in s.store || s.store[id].status !in {Queued, Scheduled, Resolving, Downloading, Verifying, Paused, AwaitingConfirmation} then t == s
       else
         && Writes(s, t, id, s.store[id].(status := Cancelled, queuePosition := None))
         && SameQueues(s.loop, t.loop)
         && if Operated(s.loop, id)
            then && OperationStopped(s.loop, t.loop, id) && Waits(s.loop, t.loop, CancelTail(id, s.loop.activeRuns[id]))
                 && SameTimetable(s.loop, t.loop) && t.loop.wakeup == s.loop.wakeup && t.resumeSet == s.resumeSet
            else && SameRuns(s.loop, t.loop) && SameCalls(s.loop, t.loop) && Disarmed(s.loop, t.loop, id)
                 && t.loop.wakeup && t.resumeSet == s.resumeSet - {id}
  }

  ghost predicate CallEffect(s: State, call: Handle, t: State) {
    if call !in s.loop.calls || (!s.loop.calls[call].StartNowTail? && !IsOver(s.loop, s.loop.calls[call].awaited)) then t == s
    else
      var l := s.loop.(calls := s.loop.calls - {call}, wakeup := true);
      match s.loop.calls[call]
      case PauseTail(_, _) => t == s.(loop := l)
      case CancelTail(id, _) =>
        && t == s.(resumeSet := s.resumeSet - {id},
                   loop := l.(scheduledRuns := t.loop.scheduledRuns, sleeping := t.loop.sleeping, expired := t.loop.expired))
        && Disarmed(s.loop, t.loop, id)
      case StartNowTail(id) => t == s.(loop := l.(queue := l.queue + [id], unfinished := l.unfinished + 1))
  }

  // The awaited run or confirmation is over, or lost.
  predicate IsOver(l: Loop, h: Handle) {
    h !in l.confirms && (h in l.runs ==> l.runs[h].point == Lost)
  }

  ghost predicate ResumeEffect(s: State, id: TaskId, delayed: bool, t: State) {
    && PlaceTaken(s, id, t) && SameCatalog(s, t) && t.known == s.known
    && if id !in s.store || s.store[id].status !in {Paused, Failed} then t.store == s.store && t.loop == s.loop && t.resumeSet == s.resumeSet - {id}
       else if delayed then
         && Writes(s, t, id, s.store[id].(status := Scheduled, queuePosition := None, resumeFromStage := true))
         && Armed1(s.loop, t.loop, id) && t.resumeSet == s.resumeSet
       else
         && Writes(s, t, id, s.store[id].(status := Queued, queuePosition := Some(PlaceOf(s, id)), resumeFromStage := true))
         && Queued1(s.loop, t.loop, id) && t.resumeSet == s.resumeSet + {id}
  }

  ghost predicate StartNowEffect(s: State, id: TaskId, t: State) {
    && SameCatalog(s, t) && t.known == s.known && t.resumeSet == s.resumeSet && t.nextPosition == s.nextPosition + 1
    && if id !in s.store || s.store[id].status != Scheduled then t.store == s.store && t.loop == s.loop
       else
         && Writes(s, t, id, s.store[id].(status := Queued, queuePosition := Some(s.nextPosition)))
         && SameQueues(s.loop, t.loop) && SameRuns(s.loop, t.loop) && t.loop.wakeup == s.loop.wakeup
         && Disarmed(s.loop, t.loop, id) && Waits(s.loop, t.loop, StartNowTail(id))
  }

  ghost predicate RescheduleEffect(s: State, id: TaskId, t: State) {
    && SameCatalog(s, t) && SameBooks(s, t)
    && if id !in s.store || s.store[id].status != Scheduled then t == s
       else Writes(s, t, id, s.store[id].(queuePosition := None)) && Armed1(s.loop, t.loop, id)
  }

  predicate DeleteEffect(s: State, id: TaskId, withArtifact: bool, t: State) {
    if id !in s.store || s.store[id].status !in {Completed, Failed, Cancelled} || (withArtifact && s.store[id].status != Completed) then t == s
    else
      && t.store == s.store - {id} && SameBooks(s, t) && t.loop == s.loop && t.ever == s.ever
      && t.held == if withArtifact && s.store[id].artifact.Some? then s.held - {s.store[id].artifact.value} else s.held
  }

  // An open task for the same ingestion.
  ghost predicate AlreadyOpen(s: State, p: Provider, q: Request, revision: string) {
    exists id :: id in s.store && s.store[id].status !in {Completed, Failed, Cancelled}
                 && s.store[id].provider == p && s.store[id].request == q && s.store[id].resolved == Some(revision)
  }

  ghost predicate AlreadyDone(s: State, a: ArtifactId) {
    exists id :: id in s.store && s.store[id].status == Completed && s.store[id].artifact == Some(a)
  }

  ghost predicate CreateEffect(s: State, step: Step, t: State)
    requires step.DoCreate?
  {
    var id, p, q, resolved := step.id, step.provider, step.request, step.resolved;
    var known := resolved.Some? && resolved.value != "";
    if id in s.known || step.refused then t == s
    else if known && ArtifactId(p, q.source, resolved.value, q.selection) in s.held then
      if AlreadyDone(s, ArtifactId(p, q.source, resolved.value, q.selection)) then t == s
      else
        && Writes(s, t, id, Task(p, q, resolved, Completed, None, step.createdAt, false, Some(ArtifactId(p, q.source, resolved.value, q.selection))))
        && t.known == s.known[id := p] && t.loop == s.loop && SameCatalog(s, t) && t.resumeSet == s.resumeSet && t.nextPosition == s.nextPosition
    else if known && AlreadyOpen(s, p, q, resolved.value) then t == s
    else
      && t.known == s.known[id := p] && SameCatalog(s, t) && t.resumeSet == s.resumeSet && t.nextPosition == s.nextPosition + 1
      && if step.delayed
         then Writes(s, t, id, Task(p, q, resolved, Scheduled, None, step.createdAt, false, None)) && Armed1(s.loop, t.loop, id)
         else Writes(s, t, id, Task(p, q, resolved, Queued, Some(s.nextPosition), step.createdAt, false, None)) && Queued1(s.loop, t.loop, id)
  }

  lemma StopsOperation(l: Loop, id: TaskId, call: Call)
    requires Operated(l, id) && Handles(l)
    ensures var t := Suspended(CancelHandle(l, l.activeRuns[id]), call);
            && OperationStopped(l, t, id) && Waits(l, t, call) && SameQueues(l, t) && SameTimetable(l, t) && t.wakeup == l.wakeup
  {
    assert l.activeRuns[id] in l.runs ==> l.activeRuns[id] !in l.confirms;
    hide Handles;
  }

  lemma OperatedIsBusy(l: Loop, id: TaskId)
    ensures Operated(l, id) <==> Busy(l, id)
  {
  }

  lemma PauseEffects(s: State, id: TaskId)
    requires Handles(s.loop)
    ensures PauseEffect(s, id, Pause(s, id))
  {
    OperatedIsBusy(s.loop, id);
    if Operated(s.loop, id) { StopsOperation(s.loop, id, PauseTail(id, s.loop.activeRuns[id])); }
    hide Handles, Operated, Busy, Suspended, CancelHandle, OperationStopped, Waits;
  }

  lemma CancelsTimer(l: Loop, id: TaskId)
    ensures var t := CancelTimerOf(l, id);
            && t == l.(sleeping := t.sleeping, expired := t.expired)
            && (forall h :: h in t.sleeping <==> h in l.sleeping && !TimerOf(l, h, id))
            && (forall h :: h in t.sleeping ==> t.sleeping[h] == l.sleeping[h])
  {
  }

  lemma Disarms(l: Loop, id: TaskId)
    ensures var t := CancelTimerOf(l, id).(scheduledRuns := l.scheduledRuns - {id});
            && Disarmed(l, t, id) && SameRuns(l, t) && SameQueues(l, t) && SameCalls(l, t) && t.wakeup == l.wakeup
            && t == l.(scheduledRuns := l.scheduledRuns - {id}, sleeping := t.sleeping, expired := t.expired)
  {
    CancelsTimer(l, id);
    hide CancelTimerOf, TimerOf;
  }

  lemma CancelStops(s: State, id: TaskId)
    requires Handles(s.loop) && Operated(s.loop, id)
    ensures CancelEffect(s, id, Cancel(s, id))
  {
    OperatedIsBusy(s.loop, id);
    StopsOperation(s.loop, id, CancelTail(id, s.loop.activeRuns[id]));
    hide Handles, Operated, Busy, Suspended, CancelHandle, OperationStopped, Waits, Disarmed, CancelTimerOf;
  }

  lemma CancelIdle(s: State, id: TaskId)
    requires !Operated(s.loop, id)
    ensures CancelEffect(s, id, Cancel(s, id))
  {
    OperatedIsBusy(s.loop, id);
    Disarms(s.loop, id);
    assert !Busy(s.loop, id);
    hide Operated, Busy, CancelTimerOf, Disarmed;
  }

  lemma CancelEffects(s: State, id: TaskId)
    requires Handles(s.loop)
    ensures CancelEffect(s, id, Cancel(s, id))
  {
    if Operated(s.loop, id) { CancelStops(s, id); } else { CancelIdle(s, id); }
    hide Handles, Operated, Cancel, CancelEffect;
  }

  lemma CallOver(l: Loop, call: Call)
    ensures Ready(l, call) <==> call.StartNowTail? || IsOver(l, call.awaited)
  {
  }

  lemma TailEffects(s: State, call: Handle)
    requires call in s.loop.calls && Ready(s.loop, s.loop.calls[call])
    ensures var l, t := s.loop.(calls := s.loop.calls - {call}), CallReturns(s, call);
            match s.loop.calls[call]
            case PauseTail(_, _) => t == s.(loop := l.(wakeup := true))
            case CancelTail(id, _) => t == FinishCancel(s.(loop := l), id)
            case StartNowTail(id) => t == s.(loop := Enqueue(l, id))
  {
    hide Ready, FinishCancel, Enqueue;
  }

  lemma CallEffects(s: State, call: Handle)
    ensures CallEffect(s, call, CallReturns(s, call))
  {
    if call in s.loop.calls {
      CallOver(s.loop, s.loop.calls[call]);
      if Ready(s.loop, s.loop.calls[call]) {
        TailEffects(s, call);
        if s.loop.calls[call].CancelTail? { FinishDisarms(s, call, s.loop.calls[call].task); }
        hide CallReturns, Ready, IsOver, FinishCancel, Disarmed;
      } else {
        hide Ready, IsOver;
      }
    }
  }

  lemma FinishDisarms(s: State, call: Handle, id: TaskId)
    ensures var l := s.loop.(calls := s.loop.calls - {call});
            var t := FinishCancel(s.(loop := l), id);
            && t == s.(resumeSet := s.resumeSet - {id},
                       loop := l.(wakeup := true, scheduledRuns := t.loop.scheduledRuns, sleeping := t.loop.sleeping, expired := t.loop.expired))
            && Disarmed(s.loop, t.loop, id)
  {
    Disarms(s.loop.(calls := s.loop.calls - {call}), id);
    hide CancelTimerOf;
  }

  // Timers are armed under a fresh handle.
  lemma Arms(l: Loop, id: TaskId)
    requires Handles(l)
    ensures Armed1(l, Arm(l, id), id)
  {
    CancelsTimer(l, id);
    assert l.nextHandle !in l.sleeping;
    hide CancelTimerOf, Handles, TimerOf;
  }

  lemma ResumeEffects(s: State, id: TaskId, delayed: bool)
    requires Handles(s.loop)
    ensures ResumeEffect(s, id, delayed, Resume(s, id, delayed))
  {
    Arms(s.loop, id);
    hide Handles, Armed1, Arm;
  }

  lemma StartNowEffects(s: State, id: TaskId)
    requires Awaited(s.store, s.loop)
    ensures StartNowEffect(s, id, StartNow(s, id))
  {
    assert Is(s, id, Scheduled) ==> Has(s.store, id, Scheduled) && Sleeps(s.loop, id);
    Disarms(s.loop, id);
    hide Awaited, CancelTimerOf, Disarmed;
  }

  lemma RescheduleEffects(s: State, id: TaskId)
    requires Handles(s.loop)
    ensures RescheduleEffect(s, id, Reschedule(s, id))
  {
    Arms(s.loop, id);
    hide Handles, Armed1, Arm;
  }

  lemma AdmitEffects(s: State, id: TaskId, p: Provider, q: Request, resolved: Option<string>, createdAt: int, delayed: bool)
    requires Handles(s.loop)
    ensures var t := Admit(s, id, p, q, resolved, createdAt, delayed);
            && t.known == s.known[id := p] && SameCatalog(s, t) && t.resumeSet == s.resumeSet && t.nextPosition == s.nextPosition + 1
            && if delayed
               then Writes(s, t, id, Task(p, q, resolved, Scheduled, None, createdAt, false, None)) && Armed1(s.loop, t.loop, id)
               else Writes(s, t, id, Task(p, q, resolved, Queued, Some(s.nextPosition), createdAt, false, None)) && Queued1(s.loop, t.loop, id)
  {
    Arms(s.loop, id);
    hide Handles, Armed1, Arm;
  }

  lemma TwinsAreOpen(s: State, p: Provider, q: Request, revision: string, a: ArtifactId)
    ensures HasTwin(s, p, q, revision) <==> AlreadyOpen(s, p, q, revision)
    ensures HasCompleted(s, a) <==> AlreadyDone(s, a)
  {
  }

  lemma CreateEffects(c: Config, s: State, step: Step)
    requires step.DoCreate? && Handles(s.loop)
    ensures CreateEffect(s, step, Next(c, s, step))
  {
    AdmitEffects(s, step.id, step.provider, step.request, step.resolved, step.createdAt, step.delayed);
    if step.resolved.Some? {
      TwinsAreOpen(s, step.provider, step.request, step.resolved.value,
                   ArtifactId(step.provider, step.request.source, step.resolved.value, step.request.selection));
    }
    hide Handles, Admit, HasTwin, HasCompleted, AlreadyOpen, AlreadyDone, Armed1, Queued1;
  }

  // ---- timers, the scheduler and the order of the queue --------------------------------------

  predicate TimerEffect(s: State, h: Handle, t: State) {
    if h !in s.loop.sleeping then t == s
    else
      var id := s.loop.sleeping[h];
      && SameCatalog(s, t) && t.known == s.known && t.resumeSet == s.resumeSet
      && t.loop.sleeping == s.loop.sleeping - {h} && t.loop.expired == s.loop.expired[h := id] && t.loop.scheduledRuns == s.loop.scheduledRuns
      && t.loop.pending == s.loop.pending && SameCalls(s.loop, t.loop) && t.loop.runs == s.loop.runs && t.loop.confirms == s.loop.confirms
      && t.loop.activeRuns == s.loop.activeRuns && t.loop.activeBySource == s.loop.activeBySource
      && if id !in s.store || s.store[id].status != Scheduled
         then && t.store == s.store && t.nextPosition == s.nextPosition && t.loop.queue == s.loop.queue
              && t.loop.unfinished == s.loop.unfinished && t.loop.wakeup == s.loop.wakeup
         else && Writes(s, t, id, s.store[id].(status := Queued, queuePosition := Some(s.nextPosition))) && t.nextPosition == s.nextPosition + 1
              && t.loop.queue == s.loop.queue + [id] && t.loop.unfinished == s.loop.unfinished + 1 && t.loop.wakeup
  }

  lemma TimerEffects(s: State, h: Handle)
    ensures TimerEffect(s, h, TimerFires(s, h))
  {
  }

  // The done-callback forgets the waiter, and its registration if that is still
  // current.
  predicate ReapEffect(s: State, h: Handle, t: State) {
    && t.loop == s.loop.(expired := t.loop.expired, scheduledRuns := t.loop.scheduledRuns)
    && t == s.(loop := t.loop) && t.loop.expired == s.loop.expired - {h}
    && t.loop.scheduledRuns
       == if h in s.loop.expired && TimerOf(s.loop, h, s.loop.expired[h]) then s.loop.scheduledRuns - {s.loop.expired[h]} else s.loop.scheduledRuns
  }

  lemma ReapEffects(s: State, h: Handle)
    ensures ReapEffect(s, h, s.(loop := TimerReaped(s.loop, h)))
  {
  }

  // A turn clears the event and takes everything out of the queue; what it
  // launches is the subject of `TaskCapacity`.
  predicate TurnEffect(s: State, t: State) {
    if !s.loop.wakeup then t == s
    else
      && t == s.(loop := t.loop) && !t.loop.wakeup && t.loop.queue == []
      && t.loop.confirms == s.loop.confirms && t.loop.calls == s.loop.calls && SameTimetable(s.loop, t.loop)
  }

  predicate SameRest(l: Loop, t: Loop) {
    t.wakeup == l.wakeup && t.queue == l.queue && t.confirms == l.confirms && t.calls == l.calls && SameTimetable(l, t)
  }

  lemma RoundKeepsRest(store: map<TaskId, Task>, l: Loop, i: nat, p: Provider)
    requires i < |Purge(store, l).pending|
    ensures SameRest(l, Launch(Purge(store, l), i, p)) && SameRest(l, Purge(store, l)) && SameRest(l, l)
  {
    hide Kept;
  }

  lemma RestIsShared(l: Loop, m: Loop, t: Loop)
    requires SameRest(l, m) && SameRest(m, t)
    ensures SameRest(l, t)
  {
  }

  lemma {:induction false} TurnKeepsRest(c: Config, store: map<TaskId, Task>, l: Loop)
    ensures SameRest(l, LaunchAll(c, store, l))
    decreases |Kept(store, l.pending)|
  {
    if |l.activeRuns| < c.maxRuns {
      var l1 := Purge(store, l);
      var b := Best(c, store, l1, l1.pending);
      if b.Some? {
        LaunchShrinks(store, l.pending, b.value);
        var p := store[l1.pending[b.value]].provider;
        hide Before, Eligible, Kept, SameRest;
        RoundKeepsRest(store, l, b.value, p);
        TurnKeepsRest(c, store, Launch(l1, b.value, p));
        RestIsShared(l, Launch(l1, b.value, p), LaunchAll(c, store, Launch(l1, b.value, p)));
      }
    }
  }

  lemma TurnEffects(c: Config, s: State)
    ensures TurnEffect(s, Schedule(c, s))
  {
    if s.loop.wakeup { TurnKeepsRest(c, s.store, Drained(s.loop)); }
    hide LaunchAll;
  }

  // Each waiting task once, and no other.
  ghost predicate ListsWaiting(store: map<TaskId, Task>, ids: seq<TaskId>) {
    && (forall i, j :: 0 <= i < j < |ids| ==> ids[i] != ids[j])
    && (forall id :: id in ids <==> id in store && store[id].status in {Queued, Paused})
  }

  ghost predicate ReorderEffect(s: State, ids: seq<TaskId>, t: State) {
    if !ListsWaiting(s.store, ids) then t == s
    else
      && t == s.(store := t.store, loop := s.loop.(wakeup := true)) && t.store.Keys == s.store.Keys
      && (forall k :: 0 <= k < |ids| ==> ids[k] in s.store && t.store[ids[k]] == s.store[ids[k]].(queuePosition := Some(k)))
      && (forall id :: id in s.store && id !in ids ==> t.store[id] == s.store[id])
  }

  lemma ReorderEffects(s: State, ids: seq<TaskId>)
    ensures ReorderEffect(s, ids, Reorder(s, ids))
  {
    assert ListsWaiting(s.store, ids) <==> IsWaitingList(s.store, ids);
    ReorderExact(s, ids);
    hide IsWaitingList, ListsWaiting, Renumber;
  }

  // ---- every step -----------------------------------------------------------------------------

  ghost predicate Effect(s: State, step: Step, t: State) {
    match step
    case DoCreate(_, _, _, _, _, _, _) => CreateEffect(s, step, t)
    case DoStartNow(id) => StartNowEffect(s, id, t)
    case DoReschedule(id) => RescheduleEffect(s, id, t)
    case DoPause(id) => PauseEffect(s, id, t)
    case DoResume(id, delayed) => ResumeEffect(s, id, delayed, t)
    case DoCancel(id) => CancelEffect(s, id, t)
    case DoCallReturns(call) => CallEffect(s, call, t)
    case DoDeleteTask(id, withArtifact) => DeleteEffect(s, id, withArtifact, t)
    case DoDeleteArtifact(a) => t == s.(held := s.held - {a})
    case DoReorder(ids) => ReorderEffect(s, ids, t)
    case DoTimerFires(h) => TimerEffect(s, h, t)
    case DoTimerReaped(h) => ReapEffect(s, h, t)
    case DoSchedule => TurnEffect(s, t)
    case DoRunAdvances(h, e) => RunEffect(s, h, e, t)
    case DoRunUnwinds(h) => UnwindEffect(s, h, t)
    case DoConfirmBegins(id, e) => ConfirmBeginEffect(s, id, e, t)
    case DoConfirmAdvances(h, e) => ConfirmEffect(s, h, e, t)
    case DoConfirmUnwinds(h) => ConfirmUnwindEffect(s, h, t)
  }

  lemma DeleteEffects(s: State, id: TaskId, withArtifact: bool)
    ensures DeleteEffect(s, id, withArtifact, DeleteTask(s, id, withArtifact))
  {
  }

  // From a safe state every step does what the call, timer or run is for.
  lemma StepEffects(c: Config, s: State, step: Step)
    requires Safe(c, s)
    ensures Effect(s, step, Next(c, s, step))
  {
    assert Handles(s.loop) && Awaited(s.store, s.loop);
    hide Safe, Handles, Awaited, Create, StartNow, Reschedule, Pause, Resume, Cancel, CallReturns, DeleteTask, Reorder,
      TimerFires, TimerReaped, Schedule, RunAdvances, RunUnwinds, ConfirmBegins, ConfirmAdvances, ConfirmUnwinds;
    hide CreateEffect, StartNowEffect, RescheduleEffect, PauseEffect, ResumeEffect, CancelEffect, CallEffect, DeleteEffect, ReorderEffect,
      TimerEffect, ReapEffect, TurnEffect, RunEffect, UnwindEffect, ConfirmBeginEffect, ConfirmEffect, ConfirmUnwindEffect;
    match step
    case DoCreate(_, _, _, _, _, _, _) => CreateEffects(c, s, step);
    case DoStartNow(id) => StartNowEffects(s, id);
    case DoReschedule(id) => RescheduleEffects(s, id);
    case DoPause(id) => PauseEffects(s, id);
    case DoResume(id, delayed) => ResumeEffects(s, id, delayed);
    case DoCancel(id) => CancelEffects(s, id);
    case DoCallReturns(call) => CallEffects(s, call);
    case DoDeleteTask(id, withArtifact) => DeleteEffects(s, id, withArtifact);
    case DoDeleteArtifact(_) =>
    case DoReorder(ids) => ReorderEffects(s, ids);
    case DoTimerFires(h) => TimerEffects(s, h);
    case DoTimerReaped(h) => ReapEffects(s, h);
    case DoSchedule => TurnEffects(c, s);
    case DoRunAdvances(h, e) => RunEffects(c, s, h, e);
    case DoRunUnwinds(h) => UnwindEffects(c, s, h);
    case DoConfirmBegins(id, e) => ConfirmBeginEffects(s, id, e);
    case DoConfirmAdvances(h, e) => ConfirmEffects(s, h, e);
    case DoConfirmUnwinds(h) => ConfirmUnwindEffects(s, h);
  }
}
