// Deduplication: what admission promises over whole runs.
module TaskAdmission {
  import opened TaskTypes
  import opened TaskState
  import opened TaskInvariants
  import opened TaskRuns
  import opened TaskExclusion
  import opened TaskStatus
  import opened TaskTheorems

  // ---- what identifies an ingestion never changes while it is open ------------------

  // HTTP is the exception: its revision is known only once downloaded.
  predicate SameKey(a: Task, b: Task) {
    && b.provider == a.provider && b.request == a.request
    && (b.resolved == a.resolved || Terminal(b.status) || a.provider == Http)
  }

  predicate KeyKept(s: State, t: State, id: TaskId) {
    id in s.store && id in t.store ==> SameKey(s.store[id], t.store[id])
  }

  lemma RunKey(s: State, h: Handle, e: RunEvent, id: TaskId)
    ensures KeyKept(s, RunAdvances(s, h, e), id)
  {
    hide EndRun, MoveRun, Live;
  }

  lemma SettlesKey(s: State, h: Handle, i: TaskId, e: ConfirmEvent, id: TaskId)
    requires i in s.store
    ensures KeyKept(s, ConfirmSettles(s, h, i, e), id)
  {
    hide EndConfirm;
  }

  lemma ConfirmKey(s: State, h: Handle, e: ConfirmEvent, id: TaskId)
    ensures KeyKept(s, ConfirmAdvances(s, h, e), id)
  {
    if h in s.loop.confirms && s.loop.confirms[h].task in s.store { SettlesKey(s, h, s.loop.confirms[h].task, e, id); }
    hide ConfirmSettles, EndConfirm;
  }

  lemma BeginKey(s: State, i: TaskId, e: ConfirmEvent, id: TaskId)
    ensures KeyKept(s, ConfirmBegins(s, i, e), id)
  {
    if i in s.store {
      SettlesKey(SetTask(s, i, s.store[i].(status := Verifying)).(loop := BeginConfirm(s.loop, i)), s.loop.nextHandle, i, e, id);
    }
    hide ConfirmSettles, BeginConfirm;
  }

  lemma LoopKey(c: Config, s: State, step: Step, id: TaskId)
    requires !step.DoCreate? && !step.DoRunAdvances? && !step.DoConfirmBegins? && !step.DoConfirmAdvances? && !step.DoReorder?
    ensures KeyKept(s, Next(c, s, step), id)
  {
    hide CancelHandle, Arm, Enqueue, CancelTimerOf, Suspended, LaunchAll, CancelTimer, RunAdvances,
      ConfirmBegins, ConfirmAdvances, Create, Busy, TimerReaped, RunUnwinds, ConfirmUnwinds, Reorder, Drained;
  }

  lemma CreateKey(c: Config, s: State, step: Step, id: TaskId)
    requires step.DoCreate? && StoreKnown(s.store, s.known)
    ensures KeyKept(s, Next(c, s, step), id)
  {
    CreateShape(c, s, step);
    hide Next;
  }

  lemma StepKey(c: Config, s: State, step: Step, id: TaskId)
    requires StoreKnown(s.store, s.known)
    ensures KeyKept(s, Next(c, s, step), id)
  {
    if step.DoCreate? {
      CreateKey(c, s, step, id); hide Next;
    } else if step.DoReorder? {
      RenumberKeeps(s.store, step.ids); hide IsWaitingList;
    } else if step.DoRunAdvances? || step.DoConfirmBegins? || step.DoConfirmAdvances? {
      hide RunAdvances, ConfirmBegins, ConfirmAdvances, KeyKept;
      match step
      case DoRunAdvances(h, e) => RunKey(s, h, e, id);
      case DoConfirmBegins(i, e) => BeginKey(s, i, e, id);
      case DoConfirmAdvances(h, e) => ConfirmKey(s, h, e, id);
    } else {
      LoopKey(c, s, step, id); hide Next;
    }
  }

  // ---- no two open tasks for the same ingestion ----------------------------------------

  // Both tasks are open and ask for the same, fully resolved, ingestion.
  predicate Twins(a: Task, b: Task) {
    && !Terminal(a.status) && !Terminal(b.status)
    && a.provider == b.provider != Http && a.request == b.request
    && a.resolved == b.resolved && a.resolved.Some? && a.resolved.value != ""
  }

  ghost predicate Deduplicated(s: State) {
    forall i, j :: i in s.store && j in s.store && i != j ==> !Twins(s.store[i], s.store[j])
  }

  // Does resuming a FAILED task bring back a duplicate of an open one?
  predicate RevivesTwin(s: State, step: Step) {
    && step.DoResume? && Is(s, step.id, Failed)
    && exists j :: j in s.store && j != step.id && Twins(s.store[step.id].(status := Queued), s.store[j])
  }

  // A task is reopened only by the resume of a FAILED one.
  lemma OpenStays(c: Config, s: State, step: Step, id: TaskId)
    requires Sole(c, s.store, s.loop) && StoreKnown(s.store, s.known)
    requires id in s.store && id in Next(c, s, step).store && !Terminal(Next(c, s, step).store[id].status)
    ensures !Terminal(s.store[id].status) || (step.DoResume? && step.id == id && Is(s, id, Failed))
    ensures SameKey(s.store[id], Next(c, s, step).store[id])
  {
    StatusStep(c, s, step, id);
    StepKey(c, s, step, id);
    hide Next, Sole;
  }

  // A task that appears is not the twin of one that was already there.
  lemma CreateChecks(c: Config, s: State, step: Step, j: TaskId)
    requires StoreKnown(s.store, s.known)
    requires step.DoCreate? && step.id !in s.store && step.id in Next(c, s, step).store && j in s.store
    ensures Next(c, s, step).store == s.store[step.id := Next(c, s, step).store[step.id]]
    ensures !Twins(Next(c, s, step).store[step.id], s.store[j])
  {
    hide Arm, Enqueue, HasCompleted;
  }

  lemma OnlyCreateAdds(c: Config, s: State, step: Step, id: TaskId)
    requires StoreKnown(s.store, s.known) && id !in s.store && id in Next(c, s, step).store
    ensures step.DoCreate? && step.id == id
  {
    if step.DoCreate? {
      CreateShape(c, s, step); hide Next;
    } else if step.DoRunAdvances? || step.DoConfirmBegins? || step.DoConfirmAdvances? {
      WorkKeys(c, s, step); hide Next;
    } else if step.DoReorder? {
      RenumberKeeps(s.store, step.ids); hide IsWaitingList;
    } else {
      LoopAddsNone(c, s, step, id); hide Next;
    }
  }

  lemma LoopAddsNone(c: Config, s: State, step: Step, id: TaskId)
    requires !step.DoCreate? && !step.DoRunAdvances? && !step.DoConfirmBegins? && !step.DoConfirmAdvances? && !step.DoReorder?
    requires id !in s.store
    ensures id !in Next(c, s, step).store
  {
    hide CancelHandle, Arm, Enqueue, CancelTimerOf, Suspended, LaunchAll, CancelTimer, RunAdvances,
      ConfirmBegins, ConfirmAdvances, Create, Busy, TimerReaped, RunUnwinds, ConfirmUnwinds, Reorder, Drained;
  }

  lemma TwinsBefore(c: Config, s: State, step: Step, i: TaskId, j: TaskId)
    requires Sole(c, s.store, s.loop) && StoreKnown(s.store, s.known)
    requires i in s.store && j in s.store && i != j && i in Next(c, s, step).store && j in Next(c, s, step).store
    requires Twins(Next(c, s, step).store[i], Next(c, s, step).store[j])
    requires !RevivesTwin(s, step)
    ensures Twins(s.store[i], s.store[j])
  {
    OpenStays(c, s, step, i);
    OpenStays(c, s, step, j);
    hide Next, Sole;
  }

  lemma NewTwin(c: Config, s: State, step: Step, i: TaskId, j: TaskId)
    requires StoreKnown(s.store, s.known)
    requires i !in s.store && i != j && i in Next(c, s, step).store && j in Next(c, s, step).store
    ensures !Twins(Next(c, s, step).store[i], Next(c, s, step).store[j])
  {
    OnlyCreateAdds(c, s, step, i);
    if j in s.store {
      CreateChecks(c, s, step, j);
    } else {
      OnlyCreateAdds(c, s, step, j);
    }
    hide Next;
  }

  lemma RevivalBreaks(c: Config, s: State, step: Step)
    requires RevivesTwin(s, step)
    ensures !Deduplicated(Next(c, s, step))
  {
    var j :| j in s.store && j != step.id && Twins(s.store[step.id].(status := Queued), s.store[j]);
    hide Arm, Enqueue;
    assert Twins(Next(c, s, step).store[step.id], Next(c, s, step).store[j]);
  }

  // Every step keeps open ingestions distinct, except exactly the resume of a
  // FAILED task whose ingestion was started again in the meantime.
  lemma DedupStep(c: Config, s: State, step: Step)
    requires Safe(c, s) && Deduplicated(s)
    ensures Deduplicated(Next(c, s, step)) <==> !RevivesTwin(s, step)
  {
    assert Sole(c, s.store, s.loop) && StoreKnown(s.store, s.known);
    hide Safe, Sole, StoreKnown;
    if RevivesTwin(s, step) {
      RevivalBreaks(c, s, step);
    } else {
      var t := Next(c, s, step);
      forall i, j | i in t.store && j in t.store && i != j ensures !Twins(t.store[i], t.store[j]) {
        if i !in s.store {
          NewTwin(c, s, step, i, j);
        } else if j !in s.store {
          NewTwin(c, s, step, j, i);
        } else if Twins(t.store[i], t.store[j]) {
          TwinsBefore(c, s, step, i, j);
          hide Next;
        }
      }
    }
  }

  ghost predicate NoRevivals(c: Config, s: State, steps: seq<Step>) {
    steps == [] || (NoRevivals(c, s, steps[..|steps|-1]) && !RevivesTwin(Trace(c, s, steps[..|steps|-1]), steps[|steps|-1]))
  }

  lemma {:induction false} DedupAlways(c: Config, s: State, steps: seq<Step>)
    requires Safe(c, s) && Excluding(c, s, steps) && Deduplicated(s) && NoRevivals(c, s, steps)
    ensures Deduplicated(Trace(c, s, steps))
  {
    if steps != [] {
      ExcludingPrefix(c, s, steps);
      DedupAlways(c, s, steps[..|steps|-1]);
      SafeAlways(c, s, steps[..|steps|-1]);
      hide Safe, Next, RevivesTwin;
      DedupStep(c, Trace(c, s, steps[..|steps|-1]), steps[|steps|-1]);
    }
  }

  // ---- what a caller of create gets -----------------------------------------------------

  // A resolved request is queued or armed exactly when the catalog does not
  // hold the artifact and no open task already ingests it.
  lemma CreateDecides(c: Config, s: State, step: Step, revision: string)
    requires step.DoCreate? && step.id !in s.known && StoreKnown(s.store, s.known) && step.resolved == Some(revision) && revision != ""
    ensures var t := Next(c, s, step);
            var held := ArtifactId(step.provider, step.request.source, revision, step.request.selection) in s.held;
            && (step.id in t.store && !Terminal(t.store[step.id].status)
                <==> !step.refused && !held && !HasTwin(s, step.provider, step.request, revision))
            && (held && step.id in t.store ==>
                t.store[step.id] == AlreadyHeld(step.provider, step.request, revision, step.createdAt) && t.loop == s.loop)
  {
    hide Arm, Enqueue, HasTwin, HasCompleted;
  }
}
