// Two schedules the source allows: why the exclusion results need their
// hypotheses, and how a run is lost.
module TaskWitness {
  import opened Sequences
  import opened TaskTypes
  import opened TaskState
  import opened TaskInvariants
  import opened TaskAdmission
  import opened TaskExclusion
  import opened TaskLost
  import opened TaskQueue
  import opened TaskRestart
  import opened TaskTheorems

  const REQUEST := Request("org/model", None, false, None, false)

  // A manager restarted on an empty store.
  ghost predicate Idle(s: State) {
    s == State(map[], {}, 0, {}, IDLE.(wakeup := true), map[], {})
  }

  lemma RestartIsIdle(store: map<TaskId, Task>, listed: seq<TaskId>, held: set<ArtifactId>)
    requires store == map[] && listed == [] && held == {}
    ensures Idle(Start(store, listed, held))
  {
    assert Select(store, listed, IsScheduled) == [] && Select(store, listed, IsInterrupted) == [] && Select(store, listed, IsWaiting) == [];
    assert RestartOrder(store, listed) == [];
  }

  lemma IdleIsSafe(c: Config, s: State)
    requires Idle(s)
    ensures Safe(c, s)
  {
    var store: map<TaskId, Task>, listed: seq<TaskId>, held: set<ArtifactId> := map[], [], {};
    StartSafe(c, store, listed, held);
    hide Start, Safe;
    RestartIsIdle(store, listed, held);
  }

  const CREATE := DoCreate(0, HuggingFace, REQUEST, None, 0, false, false)

  function QueuedTask(resume: bool): Task {
    Task(HuggingFace, REQUEST, None, Queued, Some(0), 0, resume, None)
  }

  lemma Created(c: Config, s: State)
    requires Idle(s)
    ensures Next(c, s, CREATE) == State(map[0 := QueuedTask(false)], {}, 1, {}, Enqueue(IDLE, 0), map[0 := HuggingFace], {})
  {
  }

  lemma Traced(c: Config, s: State, steps: seq<Step>, step: Step)
    ensures Trace(c, s, steps + [step]) == Next(c, Trace(c, s, steps), step)
  {
    assert (steps + [step])[..|steps|] == steps;
  }

  // The turn that finds the same QUEUED task twice launches it twice.
  lemma TurnOnTwoTokens(c: Config, s: State)
    requires c == Config(2, 2) && s.loop == IDLE.(queue := [0, 0], unfinished := 2, wakeup := true)
    requires s.store == map[0 := QueuedTask(true)]
    ensures Shared(Schedule(c, s).loop)
  {
    var l := Drained(s.loop);
    TwoTokens(c, s.store, l);
    TurnLaunches(c, s.store, l);
    var t := LaunchAll(c, s.store, l);
    hide LaunchAll, Picks;
    assert t.runs[0].task == 0 && t.runs[1].task == 0;
  }

  lemma KeptOnes(store: map<TaskId, Task>, q: seq<TaskId>)
    requires store == map[0 := QueuedTask(true)] && q in {[0], [0, 0]}
    ensures Kept(store, q) == q
  {
    KeptContents(store, q);
  }

  lemma FirstOfTwo(c: Config, store: map<TaskId, Task>, l: Loop)
    requires c == Config(2, 2) && store == map[0 := QueuedTask(true)]
    requires l == IDLE.(pending := [0, 0], unfinished := 2)
    ensures Chosen(c, store, l).Some? && Head(c, store, l) == 0
    ensures var m := AfterHead(c, store, l); m.pending == [0] && m.activeRuns == map[0 := 0] && m.activeBySource == map[HuggingFace := 1]
  {
    KeptOnes(store, [0, 0]);
    var l1 := Purge(store, l);
    assert Eligible(c, store, l1, 0) && 0 in [0, 0];
    BestNone(c, store, l1, [0, 0]);
    hide Best, Before, Kept, Eligible;
    assert forall b: nat :: b < 2 ==> Without([0, 0], b) == [0];
  }

  lemma SecondOfTwo(c: Config, store: map<TaskId, Task>, l: Loop)
    requires c == Config(2, 2) && store == map[0 := QueuedTask(true)]
    requires l.pending == [0] && l.activeRuns == map[0 := 0] && l.activeBySource == map[HuggingFace := 1]
    ensures Chosen(c, store, l).Some? && Head(c, store, l) == 0 && AfterHead(c, store, l).pending == []
  {
    KeptOnes(store, [0]);
    assert |l.activeRuns| == 1;
    BestNone(c, store, Purge(store, l), [0]);
    hide Best, Before;
  }

  lemma NoneLeft(c: Config, store: map<TaskId, Task>, l: Loop)
    requires l.pending == []
    ensures Picks(c, store, l) == []
  {
  }

  lemma TwoTokens(c: Config, store: map<TaskId, Task>, l: Loop)
    requires c == Config(2, 2) && store == map[0 := QueuedTask(true)]
    requires l == IDLE.(pending := [0, 0], unfinished := 2)
    ensures Picks(c, store, l) == [0, 0]
  {
    FirstOfTwo(c, store, l);
    SecondOfTwo(c, store, AfterHead(c, store, l));
    NoneLeft(c, store, AfterHead(c, store, AfterHead(c, store, l)));
    hide AfterHead, Head, Chosen;
  }

  lemma PausedAndResumed(s: State)
    requires s == State(map[0 := QueuedTask(false)], {}, 1, {}, Enqueue(IDLE, 0), map[0 := HuggingFace], {})
    ensures var t := Resume(Pause(s, 0), 0, false);
            t.store == map[0 := QueuedTask(true)] && t.loop == IDLE.(queue := [0, 0], unfinished := 2, wakeup := true)
  {
  }

  lemma TraceThree(c: Config, s: State, a: Step, b: Step, d: Step)
    ensures Trace(c, s, [a, b, d]) == Next(c, Next(c, Next(c, s, a), b), d)
  {
    hide Next;
    Traced(c, s, [], a);
    Traced(c, s, [a], b);
    Traced(c, s, [a, b], d);
    assert [] + [a] == [a] && [a] + [b] == [a, b] && [a, b] + [d] == [a, b, d];
  }

  lemma StepIs(c: Config, s: State, step: Step)
    ensures step == DoPause(0) ==> Next(c, s, step) == Pause(s, 0)
    ensures step == DoResume(0, false) ==> Next(c, s, step) == Resume(s, 0, false)
    ensures step == DoSchedule ==> Next(c, s, step) == Schedule(c, s)
  {
    hide Pause, Resume, Schedule;
  }

  // Two runs of one task: with two downloads per source, pausing and resuming
  // a task before the scheduler has looked is enough.
  lemma TwoRunsOfOneTask(c: Config, s: State, create: Step, pause: Step, resume: Step, turn: Step)
    requires c == Config(2, 2) && Idle(s)
    requires create == CREATE && pause == DoPause(0) && resume == DoResume(0, false) && turn == DoSchedule
    ensures Safe(c, s) && Shared(Trace(c, s, [create, pause, resume] + [turn]).loop)
  {
    IdleIsSafe(c, s);
    Created(c, s);
    TraceThree(c, s, create, pause, resume);
    Traced(c, s, [create, pause, resume], turn);
    var t := Next(c, s, create);
    StepIs(c, t, pause);
    StepIs(c, Pause(t, 0), resume);
    StepIs(c, Resume(Pause(t, 0), 0, false), turn);
    PausedAndResumed(t);
    TurnOnTwoTokens(c, Resume(Pause(t, 0), 0, false));
    hide Safe, Idle, Trace, Shared, Next, Schedule, Pause, Resume;
  }

  // One lost run: pausing between the launch and the first step.
  lemma LostRun(c: Config, s: State, create: Step, turn: Step, pause: Step)
    requires c == Config(1, 1) && Idle(s)
    requires create == CREATE && turn == DoSchedule && pause == DoPause(0)
    ensures Safe(c, s)
    ensures var l := Trace(c, s, [create, turn, pause]).loop; 0 in l.runs && l.runs[0].point == Lost
  {
    IdleIsSafe(c, s);
    Created(c, s);
    TraceThree(c, s, create, turn, pause);
    var t := Next(c, s, create);
    StepIs(c, t, turn);
    StepIs(c, Schedule(c, t), pause);
    OneLaunch(c, t);
    PauseLoses(Schedule(c, t), Pause(Schedule(c, t), 0));
    hide Safe, Idle, Trace, Next, Schedule, Pause;
  }

  lemma PauseLoses(s: State, t: State)
    requires t == Pause(s, 0) && s.store == map[0 := QueuedTask(false)] && s.loop.runs == map[0 := Run(0, HuggingFace, Fresh)]
    requires s.loop.activeRuns == map[0 := 0] && s.loop.confirms == map[]
    ensures 0 in t.loop.runs && t.loop.runs[0].point == Lost
  {
    PauseCancels(s, 0);
    assert Busy(s.loop, 0) && CancelHandle(s.loop, 0).runs[0].point == Lost;
    hide Pause, CancelHandle, Busy;
  }

  lemma OneLaunch(c: Config, s: State)
    requires c == Config(1, 1) && s.loop == Enqueue(IDLE, 0) && s.store == map[0 := QueuedTask(false)]
    ensures var t := Schedule(c, s);
            t.store == s.store && t.loop.runs == map[0 := Run(0, HuggingFace, Fresh)] && t.loop.activeRuns == map[0 := 0] && t.loop.confirms == map[]
  {
    var l := Drained(s.loop);
    KeptContents(s.store, l.pending);
    assert Kept(s.store, l.pending) == [0];
    BestNone(c, s.store, Purge(s.store, l), [0]);
    TurnGoesOn(c, s.store, l);
    var m := AfterHead(c, s.store, l);
    assert |m.activeRuns| == 1;
    TurnEnds(c, s.store, m);
  }

  // ---- a twin revived --------------------------------------------------------------------

  function ResolvedTask(st: Status): Task {
    Task(HuggingFace, REQUEST, Some("r"), st, if st.Queued? then Some(0) else None, 0, false, None)
  }

  // A manager restarted on one failed task.
  lemma RestartOnFailed(c: Config, store: map<TaskId, Task>, listed: seq<TaskId>)
    requires store == map[0 := ResolvedTask(Failed)] && listed == [0]
    ensures var s := Start(store, listed, {}); Safe(c, s) && Deduplicated(s)
    ensures Start(store, listed, {}) == State(store, {}, 0, {}, IDLE.(wakeup := true), map[0 := HuggingFace], {})
  {
    StartSafe(c, store, listed, {});
    StartKeepsDedup(store, listed, {});
    hide Start, Safe;
    FailedStarts(store, listed);
  }

  lemma FailedStarts(store: map<TaskId, Task>, listed: seq<TaskId>)
    requires store == map[0 := ResolvedTask(Failed)] && listed == [0]
    ensures Start(store, listed, {}) == State(store, {}, 0, {}, IDLE.(wakeup := true), map[0 := HuggingFace], {})
  {
    assert listed[..0] == [];
    assert Select(store, [], IsScheduled) == [] && Select(store, [], IsInterrupted) == [] && Select(store, [], IsWaiting) == [];
    assert Select(store, listed, IsScheduled) == [] && Select(store, listed, IsInterrupted) == [] && Select(store, listed, IsWaiting) == [];
    assert RestartOrder(store, listed) == [];
    assert FreePosition(store, []) == 0 && FreePosition(store, listed) == 0;
    assert Artifacts(store) == {};
  }

  // Asking again for a revision whose task has failed and then resuming the
  // failed task leaves two open tasks for one ingestion.
  lemma RevivedTwin(c: Config, store: map<TaskId, Task>, listed: seq<TaskId>, again: Step, resume: Step)
    requires store == map[0 := ResolvedTask(Failed)] && listed == [0]
    requires again == DoCreate(1, HuggingFace, REQUEST, Some("r"), 0, false, false) && resume == DoResume(0, false)
    ensures var s := Start(store, listed, {});
            && Safe(c, s) && Deduplicated(s)
            && RevivesTwin(Trace(c, s, [again]), resume) && !Deduplicated(Next(c, Trace(c, s, [again]), resume))
  {
    var s := Start(store, listed, {});
    RestartOnFailed(c, store, listed);
    Traced(c, s, [], again);
    assert [] + [again] == [again] && Trace(c, s, []) == s;
    hide Start, Safe, Deduplicated, Trace;
    AdmittedAgain(c, s, again);
    RevivalBreaks(c, Next(c, s, again), resume);
  }

  lemma AdmittedAgain(c: Config, s: State, again: Step)
    requires s == State(map[0 := ResolvedTask(Failed)], {}, 0, {}, IDLE.(wakeup := true), map[0 := HuggingFace], {})
    requires again == DoCreate(1, HuggingFace, REQUEST, Some("r"), 0, false, false)
    ensures RevivesTwin(Next(c, s, again), DoResume(0, false))
  {
    var t := Next(c, s, again);
    assert t.store == map[0 := ResolvedTask(Failed), 1 := ResolvedTask(Queued)];
    assert Twins(t.store[0].(status := Queued), t.store[1]);
  }
}
