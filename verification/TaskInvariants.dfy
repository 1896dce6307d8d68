// What every reachable state keeps, whatever the limits: conservation of queue
// tokens and counters, no stranded work, no lost wakeup.
module TaskInvariants {
  import opened TaskTypes
  import opened TaskState

  // ---- the invariant, conjunct by conjunct ---------------------------------

  // Every asyncio task has its own handle.
  ghost predicate Handles(l: Loop) {
    && (forall h :: h in l.runs ==> h < l.nextHandle && h !in l.confirms)
    && (forall h :: h in l.confirms ==> h < l.nextHandle)
    && (forall h :: h in l.sleeping ==> h < l.nextHandle)
    && (forall h :: h in l.expired ==> h < l.nextHandle)
    && (forall h :: h in l.calls ==> h < l.nextHandle)
  }

  // Ids are never reused and never change provider.
  ghost predicate Provenance(l: Loop, known: map<TaskId, Provider>) {
    && (forall h :: h in l.runs ==> l.runs[h].task in known && known[l.runs[h].task] == l.runs[h].provider)
    && (forall h :: h in l.confirms ==> l.confirms[h].task in known)
    && (forall h :: h in l.calls ==> l.calls[h].task in known)
    && (forall h :: h in l.sleeping ==> l.sleeping[h] in known)
    && (forall id :: id in l.queue ==> id in known)
    && (forall id :: id in l.pending ==> id in known)
  }

  // `_active_runs[id]` is always an unfinished operation on `id`, or a Lost run.
  ghost predicate Registered(l: Loop) {
    forall id :: id in l.activeRuns ==> Operates(l, l.activeRuns[id], id)
  }

  predicate Operates(l: Loop, h: Handle, id: TaskId) {
    (h in l.runs && l.runs[h].task == id) || (h in l.confirms && l.confirms[h].task == id)
  }

  function RunsOf(runs: map<Handle, Run>, p: Provider): set<Handle> {
    set h | h in runs && runs[h].provider == p
  }

  // `_active_by_source` counts exactly the runs of each provider.
  ghost predicate Counted(c: Config, l: Loop) {
    forall p :: CountedFor(c, l, p)
  }

  ghost predicate CountedFor(c: Config, l: Loop, p: Provider) {
    Active(l, p) == |RunsOf(l.runs, p)| <= c.perSource && (p in l.activeBySource ==> l.activeBySource[p] > 0)
  }

  // `queue._unfinished_tasks` counts every token exactly once.
  ghost predicate Balanced(l: Loop) {
    l.unfinished == |l.queue| + |l.pending| + |l.runs|
  }

  predicate Saturated(c: Config, l: Loop, known: map<TaskId, Provider>, id: TaskId) {
    id in known && Active(l, known[id]) >= c.perSource
  }

  // With the event clear, there is nothing the scheduler could do.
  ghost predicate Parked(c: Config, l: Loop, known: map<TaskId, Provider>) {
    !l.wakeup ==> l.queue == [] && (|l.activeRuns| >= c.maxRuns || forall id :: id in l.pending ==> Saturated(c, l, known, id))
  }

  // Who is who ...
  ghost predicate Linked(l: Loop, known: map<TaskId, Provider>) {
    Handles(l) && Provenance(l, known) && Registered(l)
  }

  // ... and how many.
  ghost predicate Budgeted(c: Config, l: Loop) {
    Counted(c, l) && Balanced(l)
  }

  ghost predicate Sound(c: Config, l: Loop, known: map<TaskId, Provider>) {
    Linked(l, known) && Budgeted(c, l) && Parked(c, l, known)
  }

  // ---- counting runs ---------------------------------------------------------

  lemma OneFewer<K, V>(m: map<K, V>, k: K)
    requires k in m
    ensures |m - {k}| == |m| - 1
  {
    assert (m - {k}).Keys == m.Keys - {k};
  }

  lemma OneMore<K, V>(m: map<K, V>, k: K, v: V)
    requires k !in m
    ensures |m[k := v]| == |m| + 1
  {
    assert m[k := v].Keys - {k} == m.Keys;
  }

  lemma RunRemoved(runs: map<Handle, Run>, h: Handle, p: Provider)
    requires h in runs
    ensures |RunsOf(runs - {h}, p)| == |RunsOf(runs, p)| - (if runs[h].provider == p then 1 else 0)
  {
    assert RunsOf(runs - {h}, p) == RunsOf(runs, p) - {h};
  }

  lemma RunAdded(runs: map<Handle, Run>, h: Handle, r: Run, p: Provider)
    requires h !in runs
    ensures |RunsOf(runs[h := r], p)| == |RunsOf(runs, p)| + (if r.provider == p then 1 else 0)
  {
    assert RunsOf(runs[h := r], p) - {h} == RunsOf(runs, p);
  }

  lemma EndRunCounted(c: Config, l: Loop, h: Handle)
    requires Counted(c, l) && h in l.runs
    ensures Counted(c, EndRun(l, h))
  {
    forall p ensures CountedFor(c, EndRun(l, h), p) {
      assert CountedFor(c, l, p);
      RunRemoved(l.runs, h, p);
    }
  }

  lemma EndRunSound(c: Config, l: Loop, known: map<TaskId, Provider>, h: Handle)
    requires Linked(l, known) && Budgeted(c, l) && h in l.runs
    ensures Sound(c, EndRun(l, h), known)
  {
    EndRunCounted(c, l, h);
    OneFewer(l.runs, h);
    assert forall id :: id in l.activeRuns ==> Operates(l, l.activeRuns[id], id);
  }

  lemma LaunchCounted(c: Config, l: Loop, i: nat, p: Provider)
    requires Budgeted(c, l) && i < |l.pending| && Active(l, p) < c.perSource && l.nextHandle !in l.runs
    ensures Budgeted(c, Launch(l, i, p))
  {
    forall q ensures CountedFor(c, Launch(l, i, p), q) {
      assert CountedFor(c, l, q);
      RunAdded(l.runs, l.nextHandle, Run(l.pending[i], p, Fresh), q);
    }
    OneMore(l.runs, l.nextHandle, Run(l.pending[i], p, Fresh));
  }

  lemma LaunchRegistered(l: Loop, i: nat, p: Provider)
    requires Registered(l) && Handles(l) && i < |l.pending|
    ensures Registered(Launch(l, i, p)) && Handles(Launch(l, i, p))
  {
    assert forall id :: id in l.activeRuns ==> Operates(l, l.activeRuns[id], id);
  }

  lemma LaunchLinked(l: Loop, known: map<TaskId, Provider>, i: nat, p: Provider)
    requires Linked(l, known) && i < |l.pending| && known[l.pending[i]] == p
    ensures Linked(Launch(l, i, p), known)
  {
    LaunchRegistered(l, i, p);
    hide Registered, Handles;
  }

  // A step that moves no token and no run in or out.
  predicate SameBudget(l: Loop, t: Loop) {
    && t.activeBySource == l.activeBySource && t.unfinished == l.unfinished
    && t.queue == l.queue && t.pending == l.pending && t.runs.Keys == l.runs.Keys
    && (forall h :: h in l.runs ==> t.runs[h].provider == l.runs[h].provider)
  }

  lemma CountsUnmoved(c: Config, l: Loop, t: Loop)
    requires Counted(c, l) && t.activeBySource == l.activeBySource && t.runs.Keys == l.runs.Keys
    requires forall h :: h in l.runs ==> t.runs[h].provider == l.runs[h].provider
    ensures Counted(c, t) && |t.runs| == |l.runs|
  {
    assert |t.runs.Keys| == |l.runs.Keys|;
    forall p ensures CountedFor(c, t, p) {
      assert CountedFor(c, l, p);
      assert RunsOf(l.runs, p) == RunsOf(t.runs, p);
    }
  }

  // Such a step keeps the scheduler parked if it frees no active slot silently.
  lemma SameBudgetSound(c: Config, l: Loop, known: map<TaskId, Provider>, t: Loop)
    requires Budgeted(c, l) && Parked(c, l, known) && SameBudget(l, t)
    requires !t.wakeup ==> !l.wakeup && |t.activeRuns| >= |l.activeRuns|
    ensures Budgeted(c, t) && Parked(c, t, known)
  {
    CountsUnmoved(c, l, t);
    assert forall id :: id in l.pending && Saturated(c, l, known, id) ==> Saturated(c, t, known, id);
  }

  lemma MoveRunSound(c: Config, l: Loop, known: map<TaskId, Provider>, h: Handle, point: Point)
    requires Sound(c, l, known) && h in l.runs
    ensures Sound(c, MoveRun(l, h, point), known)
  {
    SameBudgetSound(c, l, known, MoveRun(l, h, point));
    MoveRunLinked(l, known, h, point);
  }

  lemma MoveRunLinked(l: Loop, known: map<TaskId, Provider>, h: Handle, point: Point)
    requires Linked(l, known) && h in l.runs
    ensures Linked(MoveRun(l, h, point), known)
  {
    assert forall id :: id in l.activeRuns ==> Operates(l, l.activeRuns[id], id);
  }

  lemma StopConfirmLinked(l: Loop, known: map<TaskId, Provider>, h: Handle)
    requires Linked(l, known) && h in l.confirms && h !in l.runs
    ensures Linked(CancelHandle(l, h), known)
  {
    assert forall id :: id in l.activeRuns ==> Operates(l, l.activeRuns[id], id);
  }

  lemma CancelHandleSound(c: Config, l: Loop, known: map<TaskId, Provider>, h: Handle)
    requires Sound(c, l, known)
    ensures Sound(c, CancelHandle(l, h), known)
  {
    assert h in l.runs ==> h !in l.confirms;
    hide Linked, Counted, Balanced, Parked;
    if h in l.runs {
      MoveRunSound(c, l, known, h, CancelHandle(l, h).runs[h].point);
    } else if h in l.confirms {
      SameBudgetSound(c, l, known, CancelHandle(l, h));
      StopConfirmLinked(l, known, h);
    }
  }

  lemma EnqueueSound(c: Config, l: Loop, known: map<TaskId, Provider>, id: TaskId)
    requires Linked(l, known) && Budgeted(c, l) && id in known
    ensures Sound(c, Enqueue(l, id), known)
  {
    CountsUnmoved(c, l, Enqueue(l, id));
    assert forall id :: id in l.activeRuns ==> Operates(l, l.activeRuns[id], id);
  }

  lemma SuspendedSound(c: Config, l: Loop, known: map<TaskId, Provider>, call: Call)
    requires Sound(c, l, known) && call.task in known
    ensures Sound(c, Suspended(l, call), known)
  {
    SameBudgetSound(c, l, known, Suspended(l, call));
    assert forall id :: id in l.activeRuns ==> Operates(l, l.activeRuns[id], id);
  }

  // Timers, wakeups and returning calls touch neither runs nor tokens.
  predicate OnlyTimers(l: Loop, t: Loop, known: map<TaskId, Provider>) {
    && t == l.(scheduledRuns := t.scheduledRuns, sleeping := t.sleeping, expired := t.expired,
               calls := t.calls, wakeup := t.wakeup, nextHandle := t.nextHandle)
    && (l.wakeup ==> t.wakeup)
    && l.nextHandle <= t.nextHandle
    && (forall h :: h in t.sleeping ==> h < t.nextHandle && t.sleeping[h] in known)
    && (forall h :: h in t.expired ==> h < t.nextHandle)
    && (forall h :: h in t.calls ==> h in l.calls && t.calls[h] == l.calls[h])
  }

  lemma TimersLinked(l: Loop, t: Loop, known: map<TaskId, Provider>)
    requires Linked(l, known) && OnlyTimers(l, t, known)
    ensures Linked(t, known)
  {
    assert forall id :: id in l.activeRuns ==> Operates(l, l.activeRuns[id], id);
  }

  lemma TimersSound(c: Config, l: Loop, t: Loop, known: map<TaskId, Provider>)
    requires Sound(c, l, known) && OnlyTimers(l, t, known)
    ensures Sound(c, t, known)
  {
    SameBudgetSound(c, l, known, t);
    TimersLinked(l, t, known);
  }

  lemma EndConfirmLinked(l: Loop, known: map<TaskId, Provider>, h: Handle, id: TaskId)
    requires Linked(l, known) && h in l.confirms && l.confirms[h].task == id
    ensures Linked(EndConfirm(l, h, id), known)
  {
    assert forall id :: id in l.activeRuns ==> Operates(l, l.activeRuns[id], id);
  }

  lemma EndConfirmSound(c: Config, l: Loop, known: map<TaskId, Provider>, h: Handle, id: TaskId)
    requires Sound(c, l, known) && h in l.confirms && l.confirms[h].task == id
    ensures Sound(c, EndConfirm(l, h, id), known)
  {
    SameBudgetSound(c, l, known, EndConfirm(l, h, id));
    EndConfirmLinked(l, known, h, id);
  }

  lemma BeginConfirmLinked(l: Loop, known: map<TaskId, Provider>, id: TaskId)
    requires Linked(l, known) && id in known
    ensures Linked(BeginConfirm(l, id), known)
  {
    assert forall id :: id in l.activeRuns ==> Operates(l, l.activeRuns[id], id);
  }

  lemma BeginConfirmSound(c: Config, l: Loop, known: map<TaskId, Provider>, id: TaskId)
    requires Sound(c, l, known) && id in known && id !in l.activeRuns
    ensures Sound(c, BeginConfirm(l, id), known)
  {
    OneMore(l.activeRuns, id, l.nextHandle);
    SameBudgetSound(c, l, known, BeginConfirm(l, id));
    BeginConfirmLinked(l, known, id);
  }

  // ---- one turn of the scheduler ---------------------------------------------

  lemma {:induction false} BestNone(c: Config, store: map<TaskId, Task>, l: Loop, q: seq<TaskId>)
    ensures Best(c, store, l, q).None? <==> forall id :: id in q ==> !Eligible(c, store, l, id)
  {
    if q != [] {
      BestNone(c, store, l, q[..|q|-1]);
      assert q == q[..|q|-1] + [q[|q|-1]];
    }
  }

  // Known ids have the provider their record names.
  ghost predicate StoreKnown(store: map<TaskId, Task>, known: map<TaskId, Provider>) {
    forall id :: id in store ==> id in known && known[id] == store[id].provider
  }

  lemma PurgeSound(c: Config, l: Loop, known: map<TaskId, Provider>, store: map<TaskId, Task>)
    requires Linked(l, known) && Budgeted(c, l)
    ensures Linked(Purge(store, l), known) && Budgeted(c, Purge(store, l))
  {
    KeptContents(store, l.pending);
    CountsUnmoved(c, l, Purge(store, l));
    assert forall id :: id in l.activeRuns ==> Operates(l, l.activeRuns[id], id);
  }

  lemma {:induction false} LaunchAllSound(c: Config, l: Loop, known: map<TaskId, Provider>, store: map<TaskId, Task>)
    requires Linked(l, known) && Budgeted(c, l) && StoreKnown(store, known) && l.queue == []
    ensures Sound(c, LaunchAll(c, store, l), known)
    decreases |Kept(store, l.pending)|
  {
    if |l.activeRuns| < c.maxRuns {
      var l1 := Purge(store, l);
      PurgeSound(c, l, known, store);
      KeptContents(store, l.pending);
      var b := Best(c, store, l1, l1.pending);
      BestNone(c, store, l1, l1.pending);
      if b.None? {
        forall id | id in l1.pending ensures Saturated(c, l1, known, id) {
          assert !Eligible(c, store, l1, id);
        }
      } else {
        LaunchShrinks(store, l.pending, b.value);
        var p := store[l1.pending[b.value]].provider;
        LaunchCounted(c, l1, b.value, p);
        LaunchLinked(l1, known, b.value, p);
        LaunchAllSound(c, Launch(l1, b.value, p), known, store);
      }
    }
  }
}
