// The task manager as a state machine: one total function per atomic step.
// A step is the code between two real suspensions of the asyncio event loop;
// a step that is not enabled, or that the source rejects, returns what the
// source leaves behind.
module TaskState {
  import opened Sequences
  import opened TaskTypes

  datatype Config = Config(maxRuns: nat, perSource: nat)

  // Program point of `_execute_queued`. A Fresh run was created but has not
  // taken its first step; cancelling it then skips its `finally`, so it is
  // Lost: finished for whoever awaits it, never released by the scheduler.
  datatype Point = Fresh | Pointers | Fetching | Hashing | Unwinding | Lost

  // A live run may still write to the task store.
  predicate Live(p: Point) { !p.Unwinding? && !p.Lost? }

  datatype Run = Run(task: TaskId, provider: Provider, point: Point)
  datatype Confirm = Confirm(task: TaskId, working: bool)

  // A control call suspended on another asyncio task.
  datatype Call =
    | PauseTail(task: TaskId, awaited: Handle)
    | CancelTail(task: TaskId, awaited: Handle)
    | StartNowTail(task: TaskId)

  // Queue, counters and the asyncio tasks of the event loop.
  datatype Loop = Loop(
    queue: seq<TaskId>,
    unfinished: int,
    pending: seq<TaskId>,
    activeRuns: map<TaskId, Handle>,
    activeBySource: map<Provider, nat>,
    wakeup: bool,
    scheduledRuns: map<TaskId, Handle>,
    runs: map<Handle, Run>,
    confirms: map<Handle, Confirm>,
    calls: map<Handle, Call>,
    sleeping: map<Handle, TaskId>,
    expired: map<Handle, TaskId>,
    nextHandle: Handle)

  // `held` is what the catalog finds; `known` and `ever` are history.
  datatype State = State(
    store: map<TaskId, Task>,
    resumeSet: set<TaskId>,
    nextPosition: nat,
    held: set<ArtifactId>,
    loop: Loop,
    known: map<TaskId, Provider>,
    ever: set<ArtifactId>)

  predicate Is(s: State, id: TaskId, st: Status) {
    id in s.store && s.store[id].status == st
  }

  function Active(l: Loop, p: Provider): nat {
    if p in l.activeBySource then l.activeBySource[p] else 0
  }

  function SetTask(s: State, id: TaskId, t: Task): State {
    s.(store := s.store[id := t])
  }

  // `queue.put` on an unbounded queue, then `_scheduler_wakeup.set()`.
  function Enqueue(l: Loop, id: TaskId): Loop {
    l.(queue := l.queue + [id], unfinished := l.unfinished + 1, wakeup := true)
  }

  // ---- timers of scheduled tasks -----------------------------------------

  // `waiter.cancel()`: the coroutine never gets past its sleep.
  function CancelTimer(l: Loop, h: Handle): Loop {
    l.(sleeping := l.sleeping - {h},
       expired := if h in l.sleeping then l.expired[h := l.sleeping[h]] else l.expired)
  }

  function CancelTimerOf(l: Loop, id: TaskId): Loop {
    if id in l.scheduledRuns then CancelTimer(l, l.scheduledRuns[id]) else l
  }

  // `asyncio.create_task` of `_wait_for_scheduled_task`.
  function Install(l: Loop, id: TaskId): Loop {
    l.(scheduledRuns := l.scheduledRuns[id := l.nextHandle],
       sleeping := l.sleeping[l.nextHandle := id],
       nextHandle := l.nextHandle + 1)
  }

  // `_arm_scheduled_task`
  function Arm(l: Loop, id: TaskId): Loop {
    Install(CancelTimerOf(l, id), id)
  }

  function TimerFires(s: State, h: Handle): State {
    if h !in s.loop.sleeping then s else
    var id := s.loop.sleeping[h];
    var l := CancelTimer(s.loop, h);
    if !Is(s, id, Scheduled) then s.(loop := l) else
    SetTask(s, id, s.store[id].(status := Queued, queuePosition := Some(s.nextPosition)))
    .(nextPosition := s.nextPosition + 1, loop := Enqueue(l, id))
  }

  // The done-callback `finished` of a waiter.
  function TimerReaped(l: Loop, h: Handle): Loop {
    var current := h in l.expired && l.expired[h] in l.scheduledRuns && l.scheduledRuns[l.expired[h]] == h;
    l.(expired := l.expired - {h},
       scheduledRuns := if current then l.scheduledRuns - {l.expired[h]} else l.scheduledRuns)
  }

  // ---- control calls -----------------------------------------------------

  function Suspended(l: Loop, call: Call): Loop {
    l.(calls := l.calls[l.nextHandle := call], nextHandle := l.nextHandle + 1)
  }

  function StartNow(s: State, id: TaskId): State {
    var s1 := s.(nextPosition := s.nextPosition + 1);
    if !Is(s, id, Scheduled) then s1 else
    SetTask(s1, id, s.store[id].(status := Queued, queuePosition := Some(s.nextPosition)))
    .(loop := if id !in s.loop.scheduledRuns then Enqueue(s.loop, id)
              else Suspended(CancelTimerOf(s.loop, id).(scheduledRuns := s.loop.scheduledRuns - {id}), StartNowTail(id)))
  }

  function Reschedule(s: State, id: TaskId): State {
    if !Is(s, id, Scheduled) then s else
    SetTask(s, id, s.store[id].(queuePosition := None)).(loop := Arm(s.loop, id))
  }

  // `active.cancel()` on a run or a confirmation.
  function CancelHandle(l: Loop, h: Handle): Loop {
    l.(runs := if h in l.runs then l.runs[h := l.runs[h].(point := AfterCancel(l.runs[h].point))] else l.runs,
       confirms := if h in l.confirms then l.confirms[h := l.confirms[h].(working := false)] else l.confirms)
  }

  function AfterCancel(p: Point): Point {
    if p.Fresh? || p.Lost? then Lost else Unwinding
  }

  predicate Finished(l: Loop, h: Handle) {
    h !in l.confirms && (h in l.runs ==> l.runs[h].point == Lost)
  }

  // Is there an operation on the task that a control call must wait for?
  predicate Busy(l: Loop, id: TaskId) {
    id in l.activeRuns && !Finished(l, l.activeRuns[id])
  }

  // The position a task keeps, or the one it claims.
  function PositionFor(s: State, id: TaskId): nat {
    if id in s.store && s.store[id].queuePosition.Some? then s.store[id].queuePosition.value else s.nextPosition
  }

  function ClaimedBy(s: State, id: TaskId): nat {
    if id in s.store && s.store[id].queuePosition.Some? then s.nextPosition else s.nextPosition + 1
  }

  function Pause(s: State, id: TaskId): State {
    var s1 := s.(nextPosition := ClaimedBy(s, id));
    if id !in s.store || !Pausable(s.store[id].status) then s1 else
    SetTask(s1, id, s.store[id].(status := Paused, queuePosition := Some(PositionFor(s, id)), resumeFromStage := true))
    .(loop := if Busy(s.loop, id)
              then Suspended(CancelHandle(s.loop, s.loop.activeRuns[id]), PauseTail(id, s.loop.activeRuns[id]))
              else s.loop.(wakeup := true))
  }

  function FinishCancel(s: State, id: TaskId): State {
    s.(resumeSet := s.resumeSet - {id},
       loop := CancelTimerOf(s.loop, id).(wakeup := true, scheduledRuns := s.loop.scheduledRuns - {id}))
  }

  function Cancel(s: State, id: TaskId): State {
    if id !in s.store || !Cancellable(s.store[id].status) then s else
    var s1 := SetTask(s, id, s.store[id].(status := Cancelled, queuePosition := None));
    if Busy(s.loop, id)
    then s1.(loop := Suspended(CancelHandle(s.loop, s.loop.activeRuns[id]), CancelTail(id, s.loop.activeRuns[id])))
    else FinishCancel(s1, id)
  }

  // `start_now` awaits a cancelled timer; the others await an operation.
  predicate Ready(l: Loop, call: Call) {
    call.StartNowTail? || Finished(l, call.awaited)
  }

  // The rest of a suspended control call, once what it awaits has finished.
  function CallReturns(s: State, c: Handle): State {
    if c !in s.loop.calls || !Ready(s.loop, s.loop.calls[c]) then s else
    var l := s.loop.(calls := s.loop.calls - {c});
    match s.loop.calls[c]
    case PauseTail(_, _) => s.(loop := l.(wakeup := true))
    case CancelTail(id, _) => FinishCancel(s.(loop := l), id)
    case StartNowTail(id) => s.(loop := Enqueue(l, id))
  }

  function Resume(s: State, id: TaskId, delayed: bool): State {
    var s1 := s.(nextPosition := ClaimedBy(s, id));
    if !Is(s, id, Paused) && !Is(s, id, Failed) then s1.(resumeSet := s.resumeSet - {id}) else
    var t := s.store[id].(resumeFromStage := true);
    if delayed then
      SetTask(s1, id, t.(status := Scheduled, queuePosition := None)).(loop := Arm(s.loop, id))
    else
      SetTask(s1, id, t.(status := Queued, queuePosition := Some(PositionFor(s, id))))
      .(resumeSet := s.resumeSet + {id}, loop := Enqueue(s.loop, id))
  }

  function DeleteTask(s: State, id: TaskId, withArtifact: bool): State {
    if id !in s.store || !Terminal(s.store[id].status) || (withArtifact && s.store[id].status != Completed) then s else
    var a := s.store[id].artifact;
    s.(store := s.store - {id},
       held := if withArtifact && a.Some? then s.held - {a.value} else s.held)
  }

  // ---- admission ---------------------------------------------------------

  predicate SameIngestion(t: Task, p: Provider, q: Request, revision: string) {
    !Terminal(t.status) && t.provider == p && t.request == q && t.resolved == Some(revision)
  }

  predicate HasTwin(s: State, p: Provider, q: Request, revision: string) {
    exists id :: id in s.store && SameIngestion(s.store[id], p, q, revision)
  }

  predicate HasCompleted(s: State, a: ArtifactId) {
    exists id :: id in s.store && s.store[id].status == Completed && s.store[id].artifact == Some(a)
  }

  function Admit(s: State, id: TaskId, p: Provider, q: Request, resolved: Option<string>, createdAt: int, delayed: bool): State {
    var t := Task(p, q, resolved, if delayed then Scheduled else Queued,
                  if delayed then None else Some(s.nextPosition), createdAt, false, None);
    SetTask(s, id, t).(nextPosition := s.nextPosition + 1, known := s.known[id := p],
                       loop := if delayed then Arm(s.loop, id) else Enqueue(s.loop, id))
  }

  function AlreadyHeld(p: Provider, q: Request, revision: string, createdAt: int): Task {
    Task(p, q, Some(revision), Completed, None, createdAt, false, Some(ArtifactId(p, q.source, revision, q.selection)))
  }

  // `create_with_result`; `refused` stands for a storage or alias error.
  function Create(s: State, id: TaskId, p: Provider, q: Request, resolved: Option<string>,
                  createdAt: int, delayed: bool, refused: bool): State {
    if id in s.known then s
    else if resolved.Some? && resolved.value != "" then
      if ArtifactId(p, q.source, resolved.value, q.selection) in s.held then
        if HasCompleted(s, ArtifactId(p, q.source, resolved.value, q.selection)) || refused then s
        else SetTask(s, id, AlreadyHeld(p, q, resolved.value, createdAt)).(known := s.known[id := p])
      else if HasTwin(s, p, q, resolved.value) || refused then s
      else Admit(s, id, p, q, resolved, createdAt, delayed)
    else if refused then s
    else Admit(s, id, p, q, resolved, createdAt, delayed)
  }

  // ---- scheduler ---------------------------------------------------------

  // What the purge of `_next_schedulable` leaves of `_pending`.
  function Kept(store: map<TaskId, Task>, q: seq<TaskId>): seq<TaskId> {
    if q == [] then []
    else
      var init, last := Kept(store, q[..|q|-1]), q[|q|-1];
      if last in store && store[last].status == Queued then init + [last] else init
  }

  predicate Eligible(c: Config, store: map<TaskId, Task>, l: Loop, id: TaskId) {
    id in store && store[id].status == Queued && Active(l, store[id].provider) < c.perSource
  }

  // The index the scan ends with over a purged prefix.
  function Best(c: Config, store: map<TaskId, Task>, l: Loop, q: seq<TaskId>): (r: Option<nat>)
    ensures r.Some? ==> r.value < |q| && Eligible(c, store, l, q[r.value])
  {
    if q == [] then None
    else
      var b, last := Best(c, store, l, q[..|q|-1]), q[|q|-1];
      if Eligible(c, store, l, last) && (b.None? || Before(store[last], store[q[b.value]]))
      then Some(|q|-1) else b
  }

  function Purge(store: map<TaskId, Task>, l: Loop): Loop {
    var kept := Kept(store, l.pending);
    l.(pending := kept, unfinished := l.unfinished - (|l.pending| - |kept|))
  }

  function Launch(l: Loop, i: nat, p: Provider): Loop
    requires i < |l.pending|
  {
    l.(pending := Without(l.pending, i),
       activeBySource := l.activeBySource[p := Active(l, p) + 1],
       runs := l.runs[l.nextHandle := Run(l.pending[i], p, Fresh)],
       activeRuns := l.activeRuns[l.pending[i] := l.nextHandle],
       nextHandle := l.nextHandle + 1)
  }

  function LaunchAll(c: Config, store: map<TaskId, Task>, l: Loop): Loop
    decreases |Kept(store, l.pending)|
  {
    if |l.activeRuns| >= c.maxRuns then l else
    var l1 := Purge(store, l);
    var b := Best(c, store, l1, l1.pending);
    if b.None? then l1 else
    LaunchShrinks(store, l.pending, b.value);
    LaunchAll(c, store, Launch(l1, b.value, store[l1.pending[b.value]].provider))
  }

  lemma {:induction false} KeptContents(store: map<TaskId, Task>, q: seq<TaskId>)
    ensures forall id :: id in Kept(store, q) <==> id in q && id in store && store[id].status == Queued
    ensures |Kept(store, q)| <= |q|
    ensures (forall id :: id in q ==> id in store && store[id].status == Queued) ==> Kept(store, q) == q
  {
    if q != [] {
      KeptContents(store, q[..|q|-1]);
      assert q == q[..|q|-1] + [q[|q|-1]];
    }
  }

  lemma LaunchShrinks(store: map<TaskId, Task>, q: seq<TaskId>, i: nat)
    requires i < |Kept(store, q)|
    ensures |Kept(store, Without(Kept(store, q), i))| < |Kept(store, q)|
  {
    KeptContents(store, q);
    KeptContents(store, Without(Kept(store, q), i));
  }

  // One turn of `_schedule`.
  function Drained(l: Loop): Loop {
    l.(wakeup := false, pending := l.pending + l.queue, queue := [])
  }

  function Schedule(c: Config, s: State): State {
    if s.loop.wakeup then s.(loop := LaunchAll(c, s.store, Drained(s.loop))) else s
  }

  // The `finally` of `_execute_queued`.
  function EndRun(l: Loop, h: Handle): Loop
    requires h in l.runs
  {
    var r := l.runs[h];
    var count := if r.provider in l.activeBySource then l.activeBySource[r.provider] else 1;
    l.(runs := l.runs - {h},
       activeRuns := l.activeRuns - {r.task},
       activeBySource := if count > 1 then l.activeBySource[r.provider := count - 1]
                         else l.activeBySource - {r.provider},
       unfinished := l.unfinished - 1,
       wakeup := true)
  }

  // ---- what a run may do between two suspensions ---------------------------

  datatype RunEvent =
    | CheckPointers                      // suspends scanning for LFS pointers
    | Fetch                              // suspends in the provider
    | Hash                               // suspends verifying the inventory
    | Raise(late: Option<string>, dequeued: bool)  // fails: after recording a revision, after the first write
    | RaisePublished(revision: string)   // fails after `catalog.publish`
    | AwaitUser(revision: string)        // HTTP: waits for confirmation
    | Publish(revision: string)          // publishes and completes

  function Identity(t: Task, revision: string): ArtifactId {
    ArtifactId(t.provider, t.request.source, revision, t.request.selection)
  }

  function Hold(s: State, a: ArtifactId): State {
    s.(held := s.held + {a}, ever := s.ever + {a})
  }

  // The run writes its last record and leaves through the `finally`.
  function Settle(s: State, h: Handle, t: Task): State
    requires h in s.loop.runs
  {
    SetTask(s, s.loop.runs[h].task, t).(loop := EndRun(s.loop, h))
  }

  // The run suspends again with a new record at a new point.
  function Suspend(s: State, h: Handle, t: Task, point: Point): State
    requires h in s.loop.runs
  {
    SetTask(s, s.loop.runs[h].task, t).(loop := MoveRun(s.loop, h, point))
  }

  function MoveRun(l: Loop, h: Handle, point: Point): Loop
    requires h in l.runs
  {
    l.(runs := l.runs[h := l.runs[h].(point := point)])
  }

  // The record at the `except` clause: `late` once a revision was recorded,
  // `dequeued` once the run had written a status of its own.
  function FailedTask(t: Task, late: Option<string>, dequeued: bool): Task {
    t.(status := Failed, queuePosition := if dequeued || late.Some? then None else t.queuePosition,
       resolved := if late.Some? then late else t.resolved)
  }

  function PublishedTask(t: Task, revision: string): Task {
    t.(status := Completed, queuePosition := None, resolved := Some(revision),
       resumeFromStage := false, artifact := Some(Identity(t, revision)))
  }

  function RunAdvances(s: State, h: Handle, e: RunEvent): State {
    if h !in s.loop.runs || !Live(s.loop.runs[h].point) then s else
    var r := s.loop.runs[h];
    if r.task !in s.store then s.(loop := EndRun(s.loop, h))
    else
      var b := if r.point.Fresh? then s.(resumeSet := s.resumeSet - {r.task}) else s;
      RunWrites(b, h, s.store[r.task].(resumeFromStage := true), e)
  }

  function RunWrites(s: State, h: Handle, t: Task, e: RunEvent): State
    requires h in s.loop.runs
  {
    var point := s.loop.runs[h].point;
    match e
    case CheckPointers => if point.Fresh? && IsModelScope(t.provider) then Suspend(s, h, t, Pointers) else s
    case Fetch =>
      if point.Fresh? || point.Pointers?
      then Suspend(s, h, t.(status := Downloading, queuePosition := None), Fetching) else s
    case Raise(late, dequeued) => Settle(s, h, FailedTask(t, late, dequeued))
    case _ =>
      // `_raise_if_stopped`
      if Stopped(t.status) then s.(loop := EndRun(s.loop, h)) else RunFetched(s, h, t, e)
  }

  function RunFetched(s: State, h: Handle, t: Task, e: RunEvent): State
    requires h in s.loop.runs
  {
    match e
    case Hash => Suspend(s, h, t.(status := Verifying, queuePosition := None), Hashing)
    case AwaitUser(revision) =>
      if t.provider == Http
      then Settle(s, h, t.(status := AwaitingConfirmation, queuePosition := None, resolved := Some(revision)))
      else s
    case RaisePublished(revision) =>
      if t.provider == Http then s
      else Hold(Settle(s, h, FailedTask(t, Some(revision), true)), Identity(t, revision))
    case Publish(revision) =>
      if t.provider == Http then s
      else Hold(Settle(s, h, PublishedTask(t, revision)), Identity(t, revision))
    case _ => s
  }

  // A cancelled run finishes its cleanup and writes no status.
  function RunUnwinds(l: Loop, h: Handle): Loop {
    if h in l.runs && l.runs[h].point == Unwinding then EndRun(l, h) else l
  }

  // ---- confirmation of an HTTP download -----------------------------------

  // Failures reach the caller and leave the status where it was: Verifying, or
  // Publishing with or without the artifact in the catalog.
  datatype ConfirmEvent = KeepWorking | GiveUp | FailPublishing(published: bool) | PublishHttp

  function EndConfirm(l: Loop, h: Handle, id: TaskId): Loop {
    l.(confirms := l.confirms - {h},
       activeRuns := if id in l.activeRuns && l.activeRuns[id] == h then l.activeRuns - {id} else l.activeRuns,
       wakeup := true)
  }

  function HttpIdentity(t: Task): ArtifactId {
    Identity(t, if t.resolved.Some? then t.resolved.value else "")
  }

  function ConfirmSettles(s: State, h: Handle, id: TaskId, e: ConfirmEvent): State
    requires id in s.store
  {
    var t := s.store[id];
    var l := EndConfirm(s.loop, h, id);
    match e
    case KeepWorking => s
    case GiveUp => s.(loop := l)
    case FailPublishing(published) =>
      var s1 := SetTask(s, id, t.(status := Publishing)).(loop := l);
      if published then Hold(s1, HttpIdentity(t)) else s1
    case PublishHttp =>
      Hold(SetTask(s, id, t.(status := Completed, artifact := Some(HttpIdentity(t)))).(loop := l), HttpIdentity(t))
  }

  function BeginConfirm(l: Loop, id: TaskId): Loop {
    l.(activeRuns := l.activeRuns[id := l.nextHandle],
       confirms := l.confirms[l.nextHandle := Confirm(id, true)],
       nextHandle := l.nextHandle + 1)
  }

  function ConfirmBegins(s: State, id: TaskId, e: ConfirmEvent): State {
    if id in s.loop.activeRuns then s
    else if !Is(s, id, AwaitingConfirmation) || s.store[id].provider != Http || s.store[id].resolved in {None, Some("")}
    then s.(loop := s.loop.(wakeup := true))
    else
      var s1 := SetTask(s, id, s.store[id].(status := Verifying)).(loop := BeginConfirm(s.loop, id));
      ConfirmSettles(s1, s.loop.nextHandle, id, e)
  }

  function ConfirmAdvances(s: State, h: Handle, e: ConfirmEvent): State {
    if h !in s.loop.confirms || !s.loop.confirms[h].working then s else
    var id := s.loop.confirms[h].task;
    if id !in s.store then s.(loop := EndConfirm(s.loop, h, id)) else ConfirmSettles(s, h, id, e)
  }

  function ConfirmUnwinds(l: Loop, h: Handle): Loop {
    if h in l.confirms && !l.confirms[h].working then EndConfirm(l, h, l.confirms[h].task) else l
  }

  // ---- queue order --------------------------------------------------------

  // Exactly the waiting tasks, each one once.
  predicate IsWaitingList(store: map<TaskId, Task>, ids: seq<TaskId>) {
    && Distinct(ids)
    && (forall id :: id in ids ==> id in store && Waiting(store[id].status))
    && (forall id :: id in store && Waiting(store[id].status) ==> id in ids)
  }

  function Renumber(store: map<TaskId, Task>, ids: seq<TaskId>): map<TaskId, Task> {
    if ids == [] then store
    else
      var m := Renumber(store, ids[..|ids|-1]);
      var id := ids[|ids|-1];
      if id in m then m[id := m[id].(queuePosition := Some(|ids|-1))] else m
  }

  function Reorder(s: State, ids: seq<TaskId>): State {
    if IsWaitingList(s.store, ids) then s.(store := Renumber(s.store, ids), loop := s.loop.(wakeup := true)) else s
  }

  // ---- runs of the system --------------------------------------------------

  datatype Step =
    | DoCreate(id: TaskId, provider: Provider, request: Request, resolved: Option<string>,
               createdAt: int, delayed: bool, refused: bool)
    | DoStartNow(id: TaskId)
    | DoReschedule(id: TaskId)
    | DoPause(id: TaskId)
    | DoResume(id: TaskId, delayed: bool)
    | DoCancel(id: TaskId)
    | DoCallReturns(call: Handle)
    | DoDeleteTask(id: TaskId, withArtifact: bool)
    | DoDeleteArtifact(artifact: ArtifactId)
    | DoReorder(ids: seq<TaskId>)
    | DoTimerFires(timer: Handle)
    | DoTimerReaped(timer: Handle)
    | DoSchedule
    | DoRunAdvances(run: Handle, runEvent: RunEvent)
    | DoRunUnwinds(run: Handle)
    | DoConfirmBegins(id: TaskId, confirmEvent: ConfirmEvent)
    | DoConfirmAdvances(confirm: Handle, confirmEvent: ConfirmEvent)
    | DoConfirmUnwinds(confirm: Handle)

  function Next(c: Config, s: State, step: Step): State {
    match step
    case DoCreate(id, p, q, resolved, createdAt, delayed, refused) => Create(s, id, p, q, resolved, createdAt, delayed, refused)
    case DoStartNow(id) => StartNow(s, id)
    case DoReschedule(id) => Reschedule(s, id)
    case DoPause(id) => Pause(s, id)
    case DoResume(id, delayed) => Resume(s, id, delayed)
    case DoCancel(id) => Cancel(s, id)
    case DoCallReturns(h) => CallReturns(s, h)
    case DoDeleteTask(id, withArtifact) => DeleteTask(s, id, withArtifact)
    case DoDeleteArtifact(a) => s.(held := s.held - {a})
    case DoReorder(ids) => Reorder(s, ids)
    case DoTimerFires(h) => TimerFires(s, h)
    case DoTimerReaped(h) => s.(loop := TimerReaped(s.loop, h))
    case DoSchedule => Schedule(c, s)
    case DoRunAdvances(h, e) => RunAdvances(s, h, e)
    case DoRunUnwinds(h) => s.(loop := RunUnwinds(s.loop, h))
    case DoConfirmBegins(id, e) => ConfirmBegins(s, id, e)
    case DoConfirmAdvances(h, e) => ConfirmAdvances(s, h, e)
    case DoConfirmUnwinds(h) => s.(loop := ConfirmUnwinds(s.loop, h))
  }

  function Trace(c: Config, s: State, steps: seq<Step>): State {
    if steps == [] then s else Next(c, Trace(c, s, steps[..|steps|-1]), steps[|steps|-1])
  }
}
