// `TaskManager.__init__` and `start`: what a restart makes of a persisted store.
module TaskRestart {
  import opened Sequences
  import opened TaskTypes
  import opened TaskState
  import opened TaskInvariants
  import opened TaskRuns
  import opened TaskExclusion
  import opened TaskStatus
  import opened TaskTokens
  import opened TaskTheorems
  import opened TaskQueue
  import opened TaskAdmission

  // ---- the constructor and start --------------------------------------------------

  const IDLE := Loop([], 0, [], map[], map[], false, map[], map[], map[], map[], map[], map[], 0)

  // One past the largest stored position.
  function FreePosition(store: map<TaskId, Task>, listed: seq<TaskId>): nat {
    if listed == [] then 0
    else
      var rest, id := FreePosition(store, listed[..|listed|-1]), listed[|listed|-1];
      if id in store && store[id].queuePosition.Some? && store[id].queuePosition.value >= rest
      then store[id].queuePosition.value + 1 else rest
  }

  function Artifacts(store: map<TaskId, Task>): set<ArtifactId> {
    set id | id in store && store[id].status == Completed && store[id].artifact.Some? :: store[id].artifact.value
  }

  function Booted(store: map<TaskId, Task>, listed: seq<TaskId>, held: set<ArtifactId>): State {
    State(store, {}, FreePosition(store, listed), held, IDLE, map id | id in store :: store[id].provider, held + Artifacts(store))
  }

  predicate IsScheduled(t: Task) { t.status.Scheduled? }
  predicate IsInterrupted(t: Task) { Interrupted(t.status) }
  predicate Older(a: Task, b: Task) { a.createdAt < b.createdAt }

  function ArmAll(l: Loop, ids: seq<TaskId>): Loop {
    if ids == [] then l else Arm(ArmAll(l, ids[..|ids|-1]), ids[|ids|-1])
  }

  function RestartOrder(store: map<TaskId, Task>, listed: seq<TaskId>): seq<TaskId> {
    SortBy(Select(store, listed, IsInterrupted), ByRecord(store, Older)) + QueueOf(store, listed)
  }

  function RestoredTask(t: Task, position: nat): Task {
    if Interrupted(t.status) then t.(status := Queued, queuePosition := Some(position), resumeFromStage := true)
    else t.(queuePosition := Some(position))
  }

  // A PAUSED task keeps its place in the order but is not put in the queue.
  function Restore(s: State, id: TaskId, position: nat): State {
    if id !in s.store then s else
    var t := s.store[id];
    s.(store := s.store[id := RestoredTask(t, position)],
       resumeSet := if Interrupted(t.status) then s.resumeSet + {id} else s.resumeSet,
       loop := s.loop.(queue := if t.status.Paused? then s.loop.queue else s.loop.queue + [id],
                       unfinished := if t.status.Paused? then s.loop.unfinished else s.loop.unfinished + 1))
  }

  function RestoreAll(s: State, ids: seq<TaskId>): State {
    if ids == [] then s else Restore(RestoreAll(s, ids[..|ids|-1]), ids[|ids|-1], |ids|-1)
  }

  function Start(store: map<TaskId, Task>, listed: seq<TaskId>, held: set<ArtifactId>): State {
    var s := Booted(store, listed, held);
    var order := RestartOrder(store, listed);
    var t := RestoreAll(s.(loop := ArmAll(s.loop, Select(store, listed, IsScheduled))), order);
    t.(nextPosition := if t.nextPosition < |order| then |order| else t.nextPosition, loop := t.loop.(wakeup := true))
  }

  // ---- what start does to the store ---------------------------------------------------

  lemma {:induction false} RestoreAllStore(s: State, ids: seq<TaskId>)
    requires Distinct(ids)
    ensures var t := RestoreAll(s, ids);
            && t.store.Keys == s.store.Keys
            && (forall k :: 0 <= k < |ids| && ids[k] in s.store ==> t.store[ids[k]] == RestoredTask(s.store[ids[k]], k))
            && (forall id :: id in s.store && id !in ids ==> t.store[id] == s.store[id])
  {
    if ids != [] {
      RestoreAllStore(s, ids[..|ids|-1]);
      hide RestoredTask;
    }
  }

  lemma {:induction false} RestoreAllShape(s: State, ids: seq<TaskId>)
    ensures var t := RestoreAll(s, ids);
            && t == s.(store := t.store, resumeSet := t.resumeSet, loop := t.loop)
            && t.loop == s.loop.(queue := t.loop.queue, unfinished := t.loop.unfinished)
  {
    if ids != [] {
      RestoreAllShape(s, ids[..|ids|-1]);
      hide RestoredTask;
    }
  }

  lemma {:induction false} RestoreAllTokens(s: State, ids: seq<TaskId>)
    ensures RestoreAll(s, ids).loop.unfinished - |RestoreAll(s, ids).loop.queue| == s.loop.unfinished - |s.loop.queue|
  {
    if ids != [] {
      RestoreAllTokens(s, ids[..|ids|-1]);
      hide RestoredTask;
    }
  }

  lemma {:induction false} RestoreAllResumes(s: State, ids: seq<TaskId>)
    requires Distinct(ids) && forall id :: id in ids ==> id in s.store
    ensures forall id :: id in RestoreAll(s, ids).resumeSet <==> id in s.resumeSet || (id in ids && Interrupted(s.store[id].status))
  {
    if ids != [] {
      var init, last := ids[..|ids|-1], ids[|ids|-1];
      assert ids == init + [last];
      RestoreAllResumes(s, init);
      RestoreAllStore(s, init);
      assert last !in init;
      hide RestoredTask;
    }
  }

  // How often start puts a task in the queue.
  lemma {:induction false} RestoreAllQueues(s: State, ids: seq<TaskId>, id: TaskId)
    requires Distinct(ids) && forall i :: i in ids ==> i in s.store
    ensures multiset(RestoreAll(s, ids).loop.queue)[id]
         == multiset(s.loop.queue)[id] + if id in ids && !s.store[id].status.Paused? then 1 else 0
  {
    if ids != [] {
      var init, last := ids[..|ids|-1], ids[|ids|-1];
      assert ids == init + [last];
      RestoreAllQueues(s, init, id);
      RestoreAllStore(s, init);
      assert last !in init;
      hide RestoredTask;
    }
  }

  lemma SortedSelection(store: map<TaskId, Task>, listed: seq<TaskId>, keep: Task -> bool, before: (Task, Task) -> bool)
    requires Lists(store, listed)
    ensures Distinct(SortBy(Select(store, listed, keep), ByRecord(store, before)))
    ensures forall id :: id in SortBy(Select(store, listed, keep), ByRecord(store, before)) <==> id in store && keep(store[id])
    ensures Ranking(before) ==> InOrder(SortBy(Select(store, listed, keep), ByRecord(store, before)), ByRecord(store, before))
  {
    SelectContents(store, listed, keep);
    SortContents(Select(store, listed, keep), ByRecord(store, before));
    SameMembers(SortBy(Select(store, listed, keep), ByRecord(store, before)), Select(store, listed, keep));
    if Ranking(before) { SortedInOrder(store, Select(store, listed, keep), before); }
  }

  lemma OrderContents(store: map<TaskId, Task>, listed: seq<TaskId>)
    requires Lists(store, listed)
    ensures Distinct(RestartOrder(store, listed))
    ensures forall id :: id in RestartOrder(store, listed) <==> id in store && (Waiting(store[id].status) || Interrupted(store[id].status))
  {
    var first, second := SortBy(Select(store, listed, IsInterrupted), ByRecord(store, Older)), QueueOf(store, listed);
    SortedSelection(store, listed, IsInterrupted, Older);
    SortedSelection(store, listed, IsWaiting, Before);
    assert RestartOrder(store, listed) == first + second;
    assert forall i, j :: 0 <= i < |first| && 0 <= j < |second| ==> first[i] in first && second[j] in second;
    hide SortBy, Select, RestartOrder;
  }

  // One past the largest position, 0 without any.
  lemma {:induction false} FreePositionExact(store: map<TaskId, Task>, listed: seq<TaskId>)
    ensures var n := FreePosition(store, listed);
            && (forall id :: id in listed && id in store && store[id].queuePosition.Some? ==> store[id].queuePosition.value < n)
            && (n > 0 ==> exists id :: id in listed && id in store && store[id].queuePosition == Some(n - 1))
  {
    if listed != [] {
      var init, last := listed[..|listed|-1], listed[|listed|-1];
      FreePositionExact(store, init);
      assert listed == init + [last];
      assert forall id :: id in listed <==> id in init || id == last;
    }
  }

  // Interrupted tasks first, oldest first; then the old queue order.
  lemma OrderSorted(store: map<TaskId, Task>, listed: seq<TaskId>, i: nat, j: nat)
    requires Lists(store, listed) && i < j < |RestartOrder(store, listed)|
    ensures RestartOrder(store, listed)[i] in store && RestartOrder(store, listed)[j] in store
    ensures var a, b := store[RestartOrder(store, listed)[i]], store[RestartOrder(store, listed)[j]];
            if Interrupted(a.status) then Interrupted(b.status) ==> !Older(b, a) else !Interrupted(b.status) && !Before(b, a)
  {
    var first, second := SortBy(Select(store, listed, IsInterrupted), ByRecord(store, Older)), QueueOf(store, listed);
    var order := RestartOrder(store, listed);
    OrderContents(store, listed);
    assert order[i] in order && order[j] in order;
    SortedSelection(store, listed, IsInterrupted, Older);
    QueueOrderRanks();
    SortedSelection(store, listed, IsWaiting, Before);
    assert order == first + second;
    if i < |first| { assert order[i] in first; } else { assert order[i] in second && order[j] in second; }
    if j < |first| { assert order[j] in first; }
  }

  // The whole effect of a restart on the store and the queue.
  lemma StartIs(store: map<TaskId, Task>, listed: seq<TaskId>, held: set<ArtifactId>)
    ensures var b := Booted(store, listed, held);
            var a := b.(loop := ArmAll(b.loop, Select(store, listed, IsScheduled)));
            var s, r := Start(store, listed, held), RestoreAll(a, RestartOrder(store, listed));
            && a.store == store && a.resumeSet == {} && b.loop.queue == []
            && s.store == r.store && s.resumeSet == r.resumeSet && s.loop.queue == r.loop.queue
  {
    hide ArmAll, RestoreAll, RestartOrder, Select, FreePosition;
  }

  lemma StartQueues(store: map<TaskId, Task>, listed: seq<TaskId>, held: set<ArtifactId>, id: TaskId)
    requires Lists(store, listed)
    ensures multiset(Start(store, listed, held).loop.queue)[id]
         == if id in store && (store[id].status.Queued? || Interrupted(store[id].status)) then 1 else 0
  {
    var b := Booted(store, listed, held);
    var a := b.(loop := ArmAll(b.loop, Select(store, listed, IsScheduled)));
    StartIs(store, listed, held);
    OrderContents(store, listed);
    ArmAllShape(b.loop, Select(store, listed, IsScheduled));
    hide RestartOrder, Select, ArmAll, RestoreAll, Start, Booted;
    RestoreAllQueues(a, RestartOrder(store, listed), id);
  }

  // Its place in the order, and QUEUED again if it was interrupted.
  predicate PutBack(t: Task, place: nat, r: Task) {
    r == if t.status in {Queued, Paused} then t.(queuePosition := Some(place))
         else t.(status := Queued, queuePosition := Some(place), resumeFromStage := true)
  }

  function PlaceIn(store: map<TaskId, Task>, id: TaskId): int {
    if id in store then Position(store[id]) else -1
  }

  // The queue follows the positions given out.
  ghost predicate QueueRises(s: State, n: nat) {
    && (forall i :: 0 <= i < |s.loop.queue| ==> 0 <= PlaceIn(s.store, s.loop.queue[i]) < n)
    && (forall i, j :: 0 <= i < j < |s.loop.queue| ==> PlaceIn(s.store, s.loop.queue[i]) < PlaceIn(s.store, s.loop.queue[j]))
  }

  lemma {:induction false} RestoreAllRises(s: State, ids: seq<TaskId>)
    requires Distinct(ids) && (forall id :: id in ids ==> id in s.store) && s.loop.queue == []
    ensures QueueRises(RestoreAll(s, ids), |ids|) && forall id :: id in RestoreAll(s, ids).loop.queue ==> id in ids
  {
    if ids != [] {
      var init, last := ids[..|ids|-1], ids[|ids|-1];
      assert ids == init + [last] && last !in init;
      RestoreAllRises(s, init);
      RestoreAllStore(s, init);
      hide Distinct, RestoreAll;
      RestoreRises(RestoreAll(s, init), last, |init|);
      assert RestoreAll(s, ids) == Restore(RestoreAll(s, init), last, |init|) by { LastRestored(s, ids); }
    }
  }

  lemma LastRestored(s: State, ids: seq<TaskId>)
    requires ids != []
    ensures RestoreAll(s, ids) == Restore(RestoreAll(s, ids[..|ids|-1]), ids[|ids|-1], |ids|-1)
  {
    hide Restore;
  }

  lemma RestoreRises(s: State, id: TaskId, n: nat)
    requires QueueRises(s, n) && id in s.store && id !in s.loop.queue
    ensures QueueRises(Restore(s, id, n), n + 1) && forall i :: i in Restore(s, id, n).loop.queue ==> i in s.loop.queue || i == id
  {
    var t := Restore(s, id, n);
    assert PlaceIn(t.store, id) == n;
    assert forall i :: 0 <= i < |s.loop.queue| ==> t.loop.queue[i] == s.loop.queue[i] && s.loop.queue[i] != id;
    assert forall i :: i != id ==> PlaceIn(t.store, i) == PlaceIn(s.store, i);
    hide Restore, PlaceIn;
  }

  lemma StartExact(store: map<TaskId, Task>, listed: seq<TaskId>, held: set<ArtifactId>)
    requires Lists(store, listed)
    ensures var s, order := Start(store, listed, held), RestartOrder(store, listed);
            && s.store.Keys == store.Keys
            && (forall k :: 0 <= k < |order| ==> order[k] in store && PutBack(store[order[k]], k, s.store[order[k]]))
            && (forall id :: id in order <==> id in store && store[id].status in {Queued, Paused, Resolving, Downloading, Verifying, Publishing})
            && (forall id :: id in store && id !in order ==> s.store[id] == store[id])
            && (forall id :: id in s.resumeSet <==> id in store && store[id].status in {Resolving, Downloading, Verifying, Publishing})
            && (forall id :: multiset(s.loop.queue)[id]
                  == if id in store && store[id].status in {Queued, Resolving, Downloading, Verifying, Publishing} then 1 else 0)
            && (forall i, j :: 0 <= i < j < |s.loop.queue| ==> PlaceIn(s.store, s.loop.queue[i]) < PlaceIn(s.store, s.loop.queue[j]))
            && (forall id :: id in s.store && s.store[id].queuePosition.Some? ==> s.store[id].queuePosition.value < s.nextPosition)
  {
    StartPutsBack(store, listed, held);
    StartQueueExact(store, listed, held);
    PositionsFree(store, listed, held);
    hide Start, RestartOrder, PutBack, PlaceIn, Lists;
  }

  lemma StartPutsBack(store: map<TaskId, Task>, listed: seq<TaskId>, held: set<ArtifactId>)
    requires Lists(store, listed)
    ensures var s, order := Start(store, listed, held), RestartOrder(store, listed);
            && s.store.Keys == store.Keys
            && (forall k :: 0 <= k < |order| ==> order[k] in store && PutBack(store[order[k]], k, s.store[order[k]]))
            && (forall id :: id in order <==> id in store && store[id].status in {Queued, Paused, Resolving, Downloading, Verifying, Publishing})
            && (forall id :: id in store && id !in order ==> s.store[id] == store[id])
            && (forall id :: id in s.resumeSet <==> id in store && store[id].status in {Resolving, Downloading, Verifying, Publishing})
  {
    var order := RestartOrder(store, listed);
    var b := Booted(store, listed, held);
    var a := b.(loop := ArmAll(b.loop, Select(store, listed, IsScheduled)));
    StartIs(store, listed, held);
    OrderContents(store, listed);
    RestoreAllStore(a, order);
    RestoreAllResumes(a, order);
    RestoredPutsBack(store, order);
    hide RestartOrder, Select, RestoredTask, PutBack, ArmAll, RestoreAll, Start, Booted, Lists, Distinct;
  }

  lemma RestoredPutsBack(store: map<TaskId, Task>, order: seq<TaskId>)
    requires forall id :: id in order ==> id in store && (Waiting(store[id].status) || Interrupted(store[id].status))
    ensures forall k :: 0 <= k < |order| ==> order[k] in store && PutBack(store[order[k]], k, RestoredTask(store[order[k]], k))
  {
    forall k | 0 <= k < |order| ensures order[k] in store && PutBack(store[order[k]], k, RestoredTask(store[order[k]], k)) {
      assert order[k] in order;
    }
  }

  lemma StartQueueExact(store: map<TaskId, Task>, listed: seq<TaskId>, held: set<ArtifactId>)
    requires Lists(store, listed)
    ensures var s := Start(store, listed, held);
            && (forall id :: multiset(s.loop.queue)[id]
                  == if id in store && store[id].status in {Queued, Resolving, Downloading, Verifying, Publishing} then 1 else 0)
            && (forall i, j :: 0 <= i < j < |s.loop.queue| ==> PlaceIn(s.store, s.loop.queue[i]) < PlaceIn(s.store, s.loop.queue[j]))
  {
    var order := RestartOrder(store, listed);
    var b := Booted(store, listed, held);
    var a := b.(loop := ArmAll(b.loop, Select(store, listed, IsScheduled)));
    StartIs(store, listed, held);
    OrderContents(store, listed);
    ArmAllShape(b.loop, Select(store, listed, IsScheduled));
    RestoreAllRises(a, order);
    forall id ensures multiset(Start(store, listed, held).loop.queue)[id]
                   == if id in store && store[id].status in {Queued, Resolving, Downloading, Verifying, Publishing} then 1 else 0 {
      StartQueues(store, listed, held, id);
    }
    hide RestartOrder, Select, PlaceIn, ArmAll, RestoreAll, Start, Booted, Lists, Distinct;
  }

  lemma {:induction false} ArmAllShape(l: Loop, ids: seq<TaskId>)
    ensures ArmAll(l, ids).queue == l.queue && ArmAll(l, ids).unfinished == l.unfinished
  {
    if ids != [] { ArmAllShape(l, ids[..|ids|-1]); }
  }

  lemma PositionsFree(store: map<TaskId, Task>, listed: seq<TaskId>, held: set<ArtifactId>)
    requires Lists(store, listed)
    ensures forall id :: id in Start(store, listed, held).store && Start(store, listed, held).store[id].queuePosition.Some? ==>
      Start(store, listed, held).store[id].queuePosition.value < Start(store, listed, held).nextPosition
  {
    var s, order, b := Start(store, listed, held), RestartOrder(store, listed), Booted(store, listed, held);
    OrderContents(store, listed);
    var a := b.(loop := ArmAll(b.loop, Select(store, listed, IsScheduled)));
    RestoreAllStore(a, order);
    RestoreAllShape(a, order);
    forall id | id in s.store && s.store[id].queuePosition.Some? ensures s.store[id].queuePosition.value < s.nextPosition {
      if id in order {
        var k :| 0 <= k < |order| && order[k] == id;
        assert s.store[id] == RestoredTask(store[id], k);
      } else {
        FreePositionExact(store, listed);
      }
    }
  }

  // ---- a restarted manager meets every invariant ------------------------------------------

  lemma {:induction false} ArmAllSound(c: Config, l: Loop, known: map<TaskId, Provider>, ids: seq<TaskId>)
    requires Sound(c, l, known) && forall id :: id in ids ==> id in known
    ensures Sound(c, ArmAll(l, ids), known)
  {
    if ids != [] {
      assert ids[|ids|-1] in known && forall id :: id in ids[..|ids|-1] ==> id in ids;
      hide Sound, Arm;
      ArmAllSound(c, l, known, ids[..|ids|-1]);
      ArmSound(c, ArmAll(l, ids[..|ids|-1]), known, ids[|ids|-1]);
    }
  }

  // Every listed task sleeps; the store plays no part.
  lemma {:induction false} ArmAllSleeps(l: Loop, ids: seq<TaskId>)
    requires Timetable(l) && Handles(l) && l.calls == map[] && l.runs == map[] && l.confirms == map[]
    ensures var t := ArmAll(l, ids);
            Timetable(t) && Handles(t) && t.calls == map[] && t.runs == map[] && t.confirms == map[] && forall id :: id in ids ==> Sleeps(t, id)
  {
    if ids != [] {
      var init, last := ids[..|ids|-1], ids[|ids|-1];
      ArmAllSleeps(l, init);
      var m := ArmAll(l, init);
      TimetableArm(m, last);
      ArmSleeps(m, last);
      hide Timetable, Handles, Sleeps, Arm;
    }
  }

  lemma CancelKeepsSleeping(l: Loop, id: TaskId)
    requires Timetable(l)
    ensures forall i :: i != id && Sleeps(l, i) ==> Sleeps(CancelTimerOf(l, id), i)
    ensures CancelTimerOf(l, id) == l.(sleeping := CancelTimerOf(l, id).sleeping, expired := CancelTimerOf(l, id).expired)
  {
  }

  lemma InstallSleeps(l: Loop, id: TaskId)
    requires Handles(l)
    ensures var t := Install(l, id);
            && Sleeps(t, id) && (forall i :: i != id && Sleeps(l, i) ==> Sleeps(t, i))
            && Handles(t) && t.calls == l.calls && t.runs == l.runs && t.confirms == l.confirms
  {
  }

  lemma ArmSleeps(l: Loop, id: TaskId)
    requires Timetable(l) && Handles(l)
    ensures var t := Arm(l, id);
            && Handles(t) && t.calls == l.calls && t.runs == l.runs && t.confirms == l.confirms
            && Sleeps(t, id) && (forall i :: Sleeps(l, i) ==> Sleeps(t, i))
  {
    var m := CancelTimerOf(l, id);
    CancelKeepsSleeping(l, id);
    CancelledHandles(l, id);
    hide Sleeps, Timetable, Handles, CancelTimerOf, Install;
    InstallSleeps(m, id);
  }

  lemma CancelledHandles(l: Loop, id: TaskId)
    requires Handles(l)
    ensures var m := CancelTimerOf(l, id); Handles(m) && m.calls == l.calls && m.runs == l.runs && m.confirms == l.confirms
  {
    CancelTimerHandles(l, if id in l.scheduledRuns then l.scheduledRuns[id] else 0);
    hide Handles;
  }

  // COMPLETED records written by the manager name their artifact.
  ghost predicate Credible(store: map<TaskId, Task>) {
    forall id :: id in store && store[id].status.Completed? ==> store[id].artifact.Some?
  }

  // The loop a restart begins with: timers, a queue, and nothing running.
  ghost predicate Quiet(l: Loop) {
    && l.pending == [] && l.activeRuns == map[] && l.activeBySource == map[] && l.runs == map[] && l.confirms == map[]
    && l.calls == map[] && l.wakeup && l.unfinished == |l.queue|
  }

  lemma QuietSound(c: Config, l: Loop, known: map<TaskId, Provider>)
    requires Quiet(l) && Handles(l)
    requires forall h :: h in l.sleeping ==> l.sleeping[h] in known
    requires forall id :: id in l.queue ==> id in known
    ensures Sound(c, l, known)
  {
    forall p ensures CountedFor(c, l, p) {
      assert RunsOf(l.runs, p) == {};
    }
  }

  lemma QuietSole(c: Config, store: map<TaskId, Task>, l: Loop)
    requires Quiet(l)
    ensures Sole(c, store, l)
  {
  }

  lemma {:induction false} ArmAllQuiet(ids: seq<TaskId>, known: map<TaskId, Provider>)
    requires forall id :: id in ids ==> id in known
    ensures var l := ArmAll(IDLE, ids);
            && Quiet(l.(wakeup := true)) && l.queue == []
            && (forall h :: h in l.sleeping ==> l.sleeping[h] in known)
  {
    if ids != [] {
      assert ids[|ids|-1] in known && forall id :: id in ids[..|ids|-1] ==> id in ids;
      ArmAllQuiet(ids[..|ids|-1], known);
    }
  }

  // From nothing each listed task has one timer of its own.
  ghost predicate OneTimerEach(l: Loop, ids: seq<TaskId>) {
    && (forall id :: id in l.scheduledRuns <==> id in ids) && l.expired == map[]
    && (forall id :: id in l.scheduledRuns ==> l.scheduledRuns[id] in l.sleeping && l.sleeping[l.scheduledRuns[id]] == id)
    && (forall h :: h in l.sleeping ==> l.sleeping[h] in l.scheduledRuns && l.scheduledRuns[l.sleeping[h]] == h < l.nextHandle)
  }

  lemma {:induction false} ArmAllOnce(ids: seq<TaskId>)
    requires Distinct(ids)
    ensures OneTimerEach(ArmAll(IDLE, ids), ids)
  {
    if ids != [] {
      var init, last := ids[..|ids|-1], ids[|ids|-1];
      assert ids == init + [last] && last !in init;
      assert forall id :: id in ids <==> id in init || id == last;
      hide Distinct;
      ArmAllOnce(init);
      ArmedOnce(ArmAll(IDLE, init), init, last);
      hide Arm, OneTimerEach;
    }
  }

  lemma ArmedOnce(l: Loop, init: seq<TaskId>, id: TaskId)
    requires OneTimerEach(l, init) && id !in init
    ensures OneTimerEach(Arm(l, id), init + [id])
  {
    assert CancelTimerOf(l, id) == l;
    hide CancelTimerOf;
    assert forall i :: i in init + [id] <==> i in init || i == id;
  }

  // Timers for exactly the SCHEDULED tasks, and the next position.
  lemma StartTimersExact(store: map<TaskId, Task>, listed: seq<TaskId>, held: set<ArtifactId>)
    requires Lists(store, listed)
    ensures var l := Start(store, listed, held).loop;
            && (forall id :: id in l.scheduledRuns <==> id in store && store[id].status == Scheduled) && l.expired == map[]
            && (forall id :: id in l.scheduledRuns ==> l.scheduledRuns[id] in l.sleeping && l.sleeping[l.scheduledRuns[id]] == id)
            && (forall h :: h in l.sleeping ==> l.sleeping[h] in l.scheduledRuns && l.scheduledRuns[l.sleeping[h]] == h)
    ensures var n, free := Start(store, listed, held).nextPosition, FreePosition(store, listed);
            n == if |RestartOrder(store, listed)| > free then |RestartOrder(store, listed)| else free
  {
    var ids, order, b := Select(store, listed, IsScheduled), RestartOrder(store, listed), Booted(store, listed, held);
    SelectContents(store, listed, IsScheduled);
    ArmAllOnce(ids);
    RestoreAllShape(b.(loop := ArmAll(b.loop, ids)), order);
    hide ArmAll, Select, RestoreAll, RestartOrder, Lists, Distinct;
  }

  lemma StartLoop(store: map<TaskId, Task>, listed: seq<TaskId>, held: set<ArtifactId>)
    requires Lists(store, listed)
    ensures var s := Start(store, listed, held);
            && Quiet(s.loop) && Handles(s.loop) && Timetable(s.loop)
            && s.known == Booted(store, listed, held).known
            && (forall h :: h in s.loop.sleeping ==> s.loop.sleeping[h] in s.known)
            && (forall id :: id in store && store[id].status.Scheduled? ==> Sleeps(s.loop, id))
            && s.held == held && s.ever == held + Artifacts(store)
  {
    var ids, order, b := Select(store, listed, IsScheduled), RestartOrder(store, listed), Booted(store, listed, held);
    SelectContents(store, listed, IsScheduled);
    ArmAllQuiet(ids, b.known);
    ArmAllSleeps(IDLE, ids);
    RestoreAllShape(b.(loop := ArmAll(b.loop, ids)), order);
    RestoreAllTokens(b.(loop := ArmAll(b.loop, ids)), order);
    hide ArmAll, Select, RestoreAll, RestartOrder;
    StartTimers(ArmAll(IDLE, ids), Start(store, listed, held).loop);
  }

  lemma StartTimers(l: Loop, t: Loop)
    requires t == l.(queue := t.queue, unfinished := t.unfinished, wakeup := true)
    requires Handles(l) && Timetable(l)
    ensures Handles(t) && Timetable(t) && forall id :: Sleeps(l, id) ==> Sleeps(t, id)
  {
  }

  lemma StartCore(c: Config, store: map<TaskId, Task>, listed: seq<TaskId>, held: set<ArtifactId>)
    requires Lists(store, listed) && Credible(store)
    ensures Core(c, Start(store, listed, held))
  {
    var s := Start(store, listed, held);
    StartQueueExact(store, listed, held);
    PositionsFree(store, listed, held);
    StartLoop(store, listed, held);
    StartRecords(store, listed, held);
    hide RestartOrder, Start, Quiet, Timetable, Handles, Sleeps, PlaceIn, Lists, Credible;
    forall id | id in s.loop.queue ensures id in s.known {
      assert multiset(s.loop.queue)[id] > 0;
    }
    QuietSound(c, s.loop, s.known);
    forall id | Is(s, id, Queued) ensures Carrier(s.loop, id) {
      assert multiset(s.loop.queue)[id] > 0;
    }
    hide Carrier;
  }

  // A restart turns interrupted tasks into QUEUED ones and keeps what they are.
  lemma StartRecord(store: map<TaskId, Task>, listed: seq<TaskId>, held: set<ArtifactId>, id: TaskId)
    requires Lists(store, listed) && id in store
    ensures id in Start(store, listed, held).store
    ensures var t := Start(store, listed, held).store[id];
            && t == store[id].(status := t.status, queuePosition := t.queuePosition, resumeFromStage := t.resumeFromStage)
            && t.status == if Interrupted(store[id].status) then Queued else store[id].status
  {
    StartPutsBack(store, listed, held);
    var order := RestartOrder(store, listed);
    hide Start, RestartOrder, Lists;
    if id in order {
      var k :| 0 <= k < |order| && order[k] == id;
      assert PutBack(store[order[k]], k, Start(store, listed, held).store[id]);
    }
  }

  lemma StartRecords(store: map<TaskId, Task>, listed: seq<TaskId>, held: set<ArtifactId>)
    requires Lists(store, listed) && Credible(store)
    ensures var s := Start(store, listed, held);
            && StoreKnown(s.store, s.known) && Recorded(s)
            && (forall id :: Is(s, id, Queued) ==> id in store && (store[id].status.Queued? || Interrupted(store[id].status)))
            && (forall id :: Is(s, id, Scheduled) ==> id in store && store[id].status.Scheduled?)
  {
    var s := Start(store, listed, held);
    StartLoop(store, listed, held);
    StartKeys(store, listed, held);
    forall id | id in s.store
      ensures s.store[id].provider == store[id].provider && s.store[id].artifact == store[id].artifact
      ensures s.store[id].status == if Interrupted(store[id].status) then Queued else store[id].status
    {
      StartRecord(store, listed, held, id);
    }
    hide Start, Quiet, Timetable, Handles, Sleeps;
  }

  lemma StartKeys(store: map<TaskId, Task>, listed: seq<TaskId>, held: set<ArtifactId>)
    requires Lists(store, listed)
    ensures Start(store, listed, held).store.Keys == store.Keys
  {
    StartPutsBack(store, listed, held);
    hide Start, RestartOrder;
  }

  // Whatever was persisted, the restarted manager meets every invariant the
  // results about its runs start from.
  lemma StartSafe(c: Config, store: map<TaskId, Task>, listed: seq<TaskId>, held: set<ArtifactId>)
    requires Lists(store, listed) && Credible(store)
    ensures Safe(c, Start(store, listed, held)) && Unique(Start(store, listed, held).loop)
  {
    var s := Start(store, listed, held);
    StartCore(c, store, listed, held);
    StartExact(store, listed, held);
    StartLoop(store, listed, held);
    StartRecords(store, listed, held);
    QuietSole(c, s.store, s.loop);
    forall id ensures TokensOf(s.loop, id) <= 1 {
      assert RunsFor(s.loop.runs, id) == {};
    }
    hide Start, RestartOrder, Core, Sole, Timetable, Sleeps;
    assert Awaited(s.store, s.loop);
  }

  // ... and it neither creates nor resolves duplicates.
  lemma StartKeepsDedup(store: map<TaskId, Task>, listed: seq<TaskId>, held: set<ArtifactId>)
    requires Lists(store, listed)
    ensures Deduplicated(Start(store, listed, held)) <==> Deduplicated(Booted(store, listed, held))
  {
    var s := Start(store, listed, held);
    StartKeys(store, listed, held);
    hide Start, Twins;
    forall i, j | i in store && j in store ensures Twins(store[i], store[j]) <==> Twins(s.store[i], s.store[j]) {
      StartRecord(store, listed, held, i);
      StartRecord(store, listed, held, j);
      SameTwins(store[i], store[j], s.store[i], s.store[j]);
    }
  }

  lemma SameTwins(a: Task, b: Task, c: Task, d: Task)
    requires c.provider == a.provider && c.request == a.request && c.resolved == a.resolved && Terminal(c.status) == Terminal(a.status)
    requires d.provider == b.provider && d.request == b.request && d.resolved == b.resolved && Terminal(d.status) == Terminal(b.status)
    ensures Twins(a, b) <==> Twins(c, d)
  {
  }
}
