// At most one run per task: always with a per-source limit of one, and for
// larger limits exactly when no launch meets a run of the same task.
module TaskExclusion {
  import opened TaskTypes
  import opened TaskState
  import opened TaskInvariants
  import opened TaskRuns

  // `_active_runs` holds every run, hence one per task.
  ghost predicate Owned(l: Loop) {
    forall h :: h in l.runs ==> Holds(l, h, l.runs[h].task)
  }

  predicate Holds(l: Loop, h: Handle, id: TaskId) {
    id in l.activeRuns && l.activeRuns[id] == h
  }

  predicate Alone(l: Loop, id: TaskId) {
    forall h :: h in l.runs ==> l.runs[h].task != id
  }

  function StatusAt(p: Point): Status
    requires Live(p)
  {
    match p
    case Fetching => Downloading
    case Hashing => Verifying
    case _ => Queued
  }

  // A live run works on a task whose status says so; so does a confirmation.
  ghost predicate Fits(store: map<TaskId, Task>, l: Loop) {
    RunsFit(store, l) && ConfirmsFit(store, l)
  }

  predicate Has(store: map<TaskId, Task>, id: TaskId, st: Status) {
    id in store && store[id].status == st
  }

  ghost predicate RunsFit(store: map<TaskId, Task>, l: Loop) {
    forall h :: h in l.runs && Live(l.runs[h].point) ==> Has(store, l.runs[h].task, StatusAt(l.runs[h].point))
  }

  ghost predicate ConfirmsFit(store: map<TaskId, Task>, l: Loop) {
    forall h :: h in l.confirms && l.confirms[h].working ==>
      Has(store, l.confirms[h].task, Verifying) && Holds(l, h, l.confirms[h].task)
  }

  ghost predicate Capped(c: Config, l: Loop) {
    |l.runs| <= c.maxRuns
  }

  // ---- who holds the slot -----------------------------------------------------

  lemma OwnedMove(l: Loop, h: Handle, point: Point)
    requires Owned(l) && h in l.runs
    ensures Owned(MoveRun(l, h, point))
  {
    var t := MoveRun(l, h, point);
    forall k | k in t.runs ensures Holds(t, k, t.runs[k].task) {
      assert Holds(l, k, l.runs[k].task);
    }
  }

  lemma OwnedEnd(l: Loop, h: Handle)
    requires Owned(l) && h in l.runs
    ensures Owned(EndRun(l, h))
  {
    assert forall k :: k in l.runs ==> Holds(l, k, l.runs[k].task);
  }

  lemma OwnedLaunch(l: Loop, i: nat, p: Provider)
    requires Owned(l) && Handles(l) && i < |l.pending| && Alone(l, l.pending[i])
    ensures Owned(Launch(l, i, p))
  {
    assert forall k :: k in l.runs ==> Holds(l, k, l.runs[k].task);
  }

  lemma OwnedSame(l: Loop, t: Loop)
    requires Owned(l) && t.runs == l.runs
    requires forall id :: id in l.activeRuns && l.activeRuns[id] in l.runs ==> Holds(t, l.activeRuns[id], id)
    ensures Owned(t)
  {
    assert forall k :: k in l.runs ==> Holds(l, k, l.runs[k].task);
  }

  // ---- at most maxRuns runs ------------------------------------------------------

  lemma {:induction false} FewerValues<K, V>(m: map<K, V>)
    ensures |m.Values| <= |m|
    decreases |m|
  {
    if m.Keys != {} {
      var k :| k in m;
      OneFewer(m, k);
      FewerValues(m - {k});
      forall v | v in m.Values && v != m[k] ensures v in (m - {k}).Values {
        var j :| j in m && m[j] == v;
        assert j in m - {k} && (m - {k})[j] == v;
      }
      SubsetSize(m.Values, (m - {k}).Values + {m[k]});
    } else {
      assert m.Values == {};
    }
  }

  lemma {:induction false} SubsetSize<T>(a: set<T>, b: set<T>)
    requires a <= b
    ensures |a| <= |b|
  {
    assert b == a + (b - a);
  }

  lemma OwnedFits(l: Loop)
    requires Owned(l)
    ensures |l.runs| <= |l.activeRuns|
  {
    forall h | h in l.runs.Keys ensures h in l.activeRuns.Values {
      assert Holds(l, h, l.runs[h].task);
    }
    SubsetSize(l.runs.Keys, l.activeRuns.Values);
    FewerValues(l.activeRuns);
  }

  lemma CappedLaunch(c: Config, l: Loop, i: nat, p: Provider)
    requires Owned(l) && Handles(l) && i < |l.pending| && |l.activeRuns| < c.maxRuns
    ensures Capped(c, Launch(l, i, p))
  {
    OwnedFits(l);
    OneMore(l.runs, l.nextHandle, Run(l.pending[i], p, Fresh));
  }

  // ---- one turn of the scheduler ---------------------------------------------------

  // Does every launch of this turn pick a task without a run?
  predicate LaunchesAlone(c: Config, store: map<TaskId, Task>, l: Loop)
    decreases |Kept(store, l.pending)|
  {
    if |l.activeRuns| >= c.maxRuns then true else
    var l1 := Purge(store, l);
    var b := Best(c, store, l1, l1.pending);
    if b.None? then true else
    LaunchShrinks(store, l.pending, b.value);
    && Alone(l1, l1.pending[b.value])
    && LaunchesAlone(c, store, Launch(l1, b.value, store[l1.pending[b.value]].provider))
  }

  ghost predicate Shared(l: Loop) {
    exists h, k :: h in l.runs && k in l.runs && h != k && l.runs[h].task == l.runs[k].task
  }

  lemma OwnedNotShared(l: Loop)
    requires Owned(l)
    ensures !Shared(l)
  {
    forall h, k | h in l.runs && k in l.runs && l.runs[h].task == l.runs[k].task ensures h == k {
      assert Holds(l, h, l.runs[h].task) && Holds(l, k, l.runs[k].task);
    }
  }

  lemma SharedLaunch(l: Loop, i: nat, p: Provider)
    requires Handles(l) && i < |l.pending| && (Shared(l) || !Alone(l, l.pending[i]))
    ensures Shared(Launch(l, i, p))
  {
    var t := Launch(l, i, p);
    if Shared(l) {
      var h, k :| h in l.runs && k in l.runs && h != k && l.runs[h].task == l.runs[k].task;
      assert t.runs[h].task == t.runs[k].task;
    } else {
      var h :| h in l.runs && l.runs[h].task == l.pending[i];
      assert t.runs[h].task == t.runs[l.nextHandle].task;
    }
  }

  lemma PurgeSame(store: map<TaskId, Task>, l: Loop)
    ensures Purge(store, l) == l.(pending := Kept(store, l.pending), unfinished := Purge(store, l).unfinished)
    ensures forall id :: id in Purge(store, l).pending ==> Has(store, id, Queued)
  {
    KeptContents(store, l.pending);
  }

  lemma {:induction false} TurnShares(c: Config, store: map<TaskId, Task>, l: Loop)
    requires Handles(l) && (Shared(l) || !LaunchesAlone(c, store, l))
    ensures Shared(LaunchAll(c, store, l))
    decreases |Kept(store, l.pending)|
  {
    if |l.activeRuns| < c.maxRuns {
      var l1 := Purge(store, l);
      assert Handles(l1) && (Shared(l) ==> Shared(l1));
      var b := Best(c, store, l1, l1.pending);
      if b.Some? {
        LaunchShrinks(store, l.pending, b.value);
        var p := store[l1.pending[b.value]].provider;
        LaunchHandles(l1, b.value, p);
        hide Handles, Shared, Alone, Before, Eligible;
        if Shared(l1) || !Alone(l1, l1.pending[b.value]) { SharedLaunch(l1, b.value, p); }
        TurnShares(c, store, Launch(l1, b.value, p));
      }
    }
  }

  lemma FitsLaunch(store: map<TaskId, Task>, l: Loop, i: nat, p: Provider)
    requires Fits(store, l) && Handles(l) && i < |l.pending| && Has(store, l.pending[i], Queued)
    ensures Fits(store, Launch(l, i, p))
  {
  }

  // The exclusion invariant of the event loop.
  ghost predicate Sole(c: Config, store: map<TaskId, Task>, l: Loop) {
    Owned(l) && Capped(c, l) && Fits(store, l)
  }

  lemma SoleLaunch(c: Config, store: map<TaskId, Task>, l: Loop, i: nat, p: Provider)
    requires Sole(c, store, l) && Handles(l) && |l.activeRuns| < c.maxRuns
    requires i < |l.pending| && Has(store, l.pending[i], Queued) && Alone(l, l.pending[i])
    ensures Sole(c, store, Launch(l, i, p))
  {
    hide Owned, Fits, Handles;
    OwnedLaunch(l, i, p);
    CappedLaunch(c, l, i, p);
    FitsLaunch(store, l, i, p);
  }

  lemma SolePurge(c: Config, store: map<TaskId, Task>, l: Loop)
    requires Sole(c, store, l) && Handles(l)
    ensures Sole(c, store, Purge(store, l)) && Handles(Purge(store, l))
  {
    assert forall k :: k in l.runs ==> Holds(l, k, l.runs[k].task);
  }

  lemma {:induction false} TurnSole(c: Config, store: map<TaskId, Task>, l: Loop)
    requires Sole(c, store, l) && Handles(l) && LaunchesAlone(c, store, l)
    ensures Sole(c, store, LaunchAll(c, store, l))
    decreases |Kept(store, l.pending)|
  {
    if |l.activeRuns| < c.maxRuns {
      hide Sole, Handles, Before, Alone;
      var l1 := Purge(store, l);
      SolePurge(c, store, l);
      PurgeSame(store, l);
      var b := Best(c, store, l1, l1.pending);
      if b.Some? {
        LaunchShrinks(store, l.pending, b.value);
        var p := store[l1.pending[b.value]].provider;
        SoleLaunch(c, store, l1, b.value, p);
        LaunchHandles(l1, b.value, p);
        TurnSole(c, store, Launch(l1, b.value, p));
      }
    }
  }

  // From an exclusive state, a turn keeps one run per task exactly when each of
  // its launches meets no run of the same task.
  lemma TurnExact(c: Config, store: map<TaskId, Task>, l: Loop)
    requires Sole(c, store, l) && Handles(l)
    ensures !Shared(LaunchAll(c, store, l)) <==> LaunchesAlone(c, store, l)
  {
    if LaunchesAlone(c, store, l) {
      TurnSole(c, store, l);
      OwnedNotShared(LaunchAll(c, store, l));
    } else {
      TurnShares(c, store, l);
    }
  }

  // With one download per source the counter rules such launches out.
  lemma EligibleAlone(c: Config, store: map<TaskId, Task>, l: Loop, known: map<TaskId, Provider>, id: TaskId)
    requires c.perSource == 1 && Linked(l, known) && Budgeted(c, l) && StoreKnown(store, known) && Eligible(c, store, l, id)
    ensures Alone(l, id)
  {
    var p := store[id].provider;
    assert CountedFor(c, l, p);
    assert RunsOf(l.runs, p) == {};
    assert forall h :: h in l.runs && l.runs[h].task == id ==> h in RunsOf(l.runs, p);
  }

  lemma {:induction false} OnePerSource(c: Config, store: map<TaskId, Task>, l: Loop, known: map<TaskId, Provider>)
    requires c.perSource == 1 && Linked(l, known) && Budgeted(c, l) && StoreKnown(store, known)
    ensures LaunchesAlone(c, store, l)
    decreases |Kept(store, l.pending)|
  {
    if |l.activeRuns| < c.maxRuns {
      hide Handles, Provenance, Registered, Counted, Balanced, Before, Alone;
      var l1 := Purge(store, l);
      PurgeSound(c, l, known, store);
      var b := Best(c, store, l1, l1.pending);
      if b.Some? {
        LaunchShrinks(store, l.pending, b.value);
        var p := store[l1.pending[b.value]].provider;
        EligibleAlone(c, store, l1, known, l1.pending[b.value]);
        LaunchBounds(l1, known, b.value, p);
        LaunchCounted(c, l1, b.value, p);
        LaunchLinked(l1, known, b.value, p);
        OnePerSource(c, store, Launch(l1, b.value, p), known);
      }
    }
  }

  lemma LaunchBounds(l: Loop, known: map<TaskId, Provider>, i: nat, p: Provider)
    requires Linked(l, known) && i < |l.pending|
    ensures l.nextHandle !in l.runs && l.pending[i] in known
  {
  }
}
