// The order in which the scheduler picks tasks, and who controls it.
module TaskQueue {
  import opened Sequences
  import opened TaskTypes
  import opened TaskState
  import opened TaskRuns

  // ---- one pick ------------------------------------------------------------------

  // The scan ends with the first minimal eligible entry.
  lemma {:induction false} BestIsFirst(c: Config, store: map<TaskId, Task>, l: Loop, q: seq<TaskId>, j: nat)
    requires j < |q| && Eligible(c, store, l, q[j])
    ensures var b := Best(c, store, l, q);
            b.Some? && !Before(store[q[j]], store[q[b.value]]) && (j < b.value ==> Before(store[q[b.value]], store[q[j]]))
  {
    if j < |q| - 1 { BestIsFirst(c, store, l, q[..|q|-1], j); }
    var b := Best(c, store, l, q[..|q|-1]);
    if j == |q| - 1 && b.Some? { assert Eligible(c, store, l, q[b.value]); }
  }

  // The indices of the QUEUED entries, in order.
  ghost function QueuedAt(store: map<TaskId, Task>, q: seq<TaskId>): seq<nat> {
    if q == [] then []
    else
      var init, last := QueuedAt(store, q[..|q|-1]), q[|q|-1];
      if last in store && store[last].status == Queued then init + [|q|-1] else init
  }

  // The purge keeps exactly the QUEUED entries, each one, in their order.
  lemma {:induction false} KeptInOrder(store: map<TaskId, Task>, q: seq<TaskId>)
    ensures var at := QueuedAt(store, q);
            && |at| == |Kept(store, q)|
            && (forall k :: 0 <= k < |at| ==> at[k] < |q| && Kept(store, q)[k] == q[at[k]])
            && (forall j, k :: 0 <= j < k < |at| ==> at[j] < at[k])
            && (forall i :: 0 <= i < |q| && q[i] in store && store[q[i]].status == Queued ==> i in at)
  {
    if q != [] {
      KeptInOrder(store, q[..|q|-1]);
      var init, at := QueuedAt(store, q[..|q|-1]), QueuedAt(store, q);
      forall i | 0 <= i < |q| && q[i] in store && store[q[i]].status == Queued ensures i in at {
        if i < |q| - 1 { assert q[..|q|-1][i] == q[i]; }
      }
    }
  }

  // ---- one turn --------------------------------------------------------------------

  // The index a turn launches next, if any.
  ghost function Chosen(c: Config, store: map<TaskId, Task>, l: Loop): (b: Option<nat>)
    ensures b.Some? ==> b.value < |Purge(store, l).pending| && Eligible(c, store, Purge(store, l), Purge(store, l).pending[b.value])
  {
    if |l.activeRuns| >= c.maxRuns then None else Best(c, store, Purge(store, l), Purge(store, l).pending)
  }

  ghost function Head(c: Config, store: map<TaskId, Task>, l: Loop): TaskId
    requires Chosen(c, store, l).Some?
  {
    Purge(store, l).pending[Chosen(c, store, l).value]
  }

  ghost function AfterHead(c: Config, store: map<TaskId, Task>, l: Loop): Loop
    requires Chosen(c, store, l).Some?
  {
    Launch(Purge(store, l), Chosen(c, store, l).value, store[Head(c, store, l)].provider)
  }

  // The ids a turn launches, first to last.
  ghost function Picks(c: Config, store: map<TaskId, Task>, l: Loop): seq<TaskId>
    decreases |Kept(store, l.pending)|
  {
    if Chosen(c, store, l).None? then [] else
    LaunchShrinks(store, l.pending, Chosen(c, store, l).value);
    [Head(c, store, l)] + Picks(c, store, AfterHead(c, store, l))
  }

  lemma TurnGoesOn(c: Config, store: map<TaskId, Task>, l: Loop)
    requires Chosen(c, store, l).Some?
    ensures LaunchAll(c, store, l) == LaunchAll(c, store, AfterHead(c, store, l))
    ensures |Kept(store, AfterHead(c, store, l).pending)| < |Kept(store, l.pending)|
  {
    LaunchShrinks(store, l.pending, Chosen(c, store, l).value);
  }

  lemma TurnEnds(c: Config, store: map<TaskId, Task>, l: Loop)
    requires Chosen(c, store, l).None?
    ensures LaunchAll(c, store, l) in {l, Purge(store, l)}
  {
  }

  // What the next launch changes.
  lemma HeadLaunched(c: Config, store: map<TaskId, Task>, l: Loop)
    requires Chosen(c, store, l).Some?
    ensures var m, head := AfterHead(c, store, l), Head(c, store, l);
            && Eligible(c, store, l, head) && head in l.pending
            && m.nextHandle == l.nextHandle + 1
            && m.runs == l.runs[l.nextHandle := Run(head, store[head].provider, Fresh)]
            && (forall p :: Active(m, p) >= Active(l, p))
            && (forall id :: id in m.pending ==> id in Kept(store, l.pending))
  {
    KeptContents(store, l.pending);
    hide Best, Kept;
  }

  // A turn only launches what was pending and eligible when it began.
  lemma {:induction false} PicksEligible(c: Config, store: map<TaskId, Task>, l: Loop, id: TaskId)
    requires id in Picks(c, store, l)
    ensures id in Kept(store, l.pending) && Eligible(c, store, l, id)
    decreases |Kept(store, l.pending)|
  {
    if Chosen(c, store, l).Some? {
      TurnGoesOn(c, store, l);
      HeadLaunched(c, store, l);
      KeptContents(store, l.pending);
      KeptContents(store, AfterHead(c, store, l).pending);
      if id != Head(c, store, l) {
        assert id in Picks(c, store, AfterHead(c, store, l));
        hide Picks, AfterHead, Chosen, Head, Kept;
        PicksEligible(c, store, AfterHead(c, store, l), id);
      }
    }
  }

  // What a turn leaves was there when it began, and no source loses a run.
  lemma {:induction false} TurnOnlyTakes(c: Config, store: map<TaskId, Task>, l: Loop, q: Provider)
    ensures Active(LaunchAll(c, store, l), q) >= Active(l, q)
    ensures forall id :: id in LaunchAll(c, store, l).pending ==> id in l.pending
    decreases |Kept(store, l.pending)|
  {
    KeptContents(store, l.pending);
    if Chosen(c, store, l).Some? {
      TurnGoesOn(c, store, l);
      HeadLaunched(c, store, l);
      TurnOnlyTakes(c, store, AfterHead(c, store, l), q);
      hide LaunchAll, AfterHead, Chosen, Head, Kept;
    } else {
      TurnEnds(c, store, l);
      hide LaunchAll, Chosen, Kept;
    }
  }

  // A waiting task that should go before the head has no capacity left.
  lemma HeadFirst(c: Config, store: map<TaskId, Task>, l: Loop, id: TaskId)
    requires Chosen(c, store, l).Some? && id in Kept(store, l.pending) && id in store
    requires Before(store[id], store[Head(c, store, l)])
    ensures !Eligible(c, store, l, id)
  {
    var l1 := Purge(store, l);
    var k :| 0 <= k < |l1.pending| && l1.pending[k] == id;
    assert Eligible(c, store, l, id) ==> Eligible(c, store, l1, id);
    if Eligible(c, store, l1, id) { BestIsFirst(c, store, l1, l1.pending, k); }
  }

  lemma HeadPrecedes(c: Config, store: map<TaskId, Task>, l: Loop, id: TaskId)
    requires Chosen(c, store, l).Some? && id in Picks(c, store, l)
    ensures id in store && !Before(store[id], store[Head(c, store, l)])
  {
    PicksEligible(c, store, l, id);
    hide Picks, Chosen, Head, Kept, Before;
    if Before(store[id], store[Head(c, store, l)]) { HeadFirst(c, store, l, id); }
  }

  ghost predicate LaunchOrder(store: map<TaskId, Task>, picks: seq<TaskId>) {
    && (forall id :: id in picks ==> id in store)
    && (forall i, j :: 0 <= i < j < |picks| ==> !Before(store[picks[j]], store[picks[i]]))
  }

  lemma OrderFirst(store: map<TaskId, Task>, head: TaskId, picks: seq<TaskId>)
    requires LaunchOrder(store, picks) && head in store
    requires forall id :: id in picks ==> id in store && !Before(store[id], store[head])
    ensures LaunchOrder(store, [head] + picks)
  {
  }

  // The ids of one turn are launched in `_queue_order` ...
  lemma {:induction false} PicksInOrder(c: Config, store: map<TaskId, Task>, l: Loop)
    ensures LaunchOrder(store, Picks(c, store, l))
    decreases |Kept(store, l.pending)|
  {
    if Chosen(c, store, l).Some? {
      TurnGoesOn(c, store, l);
      var head, tail := Head(c, store, l), Picks(c, store, AfterHead(c, store, l));
      assert head in store;
      assert Picks(c, store, l) == [head] + tail;
      forall id | id in tail ensures id in store && !Before(store[id], store[head]) {
        HeadPrecedes(c, store, l, id);
      }
      PicksInOrder(c, store, AfterHead(c, store, l));
      hide LaunchOrder, Picks, AfterHead, Chosen, Head, Kept, Before, LaunchAll;
      OrderFirst(store, head, tail);
    }
  }

  // ... and overtake a waiting task only when its source is full.
  lemma {:induction false} NoOvertaking(c: Config, store: map<TaskId, Task>, l: Loop, id: TaskId, other: TaskId)
    requires other in Picks(c, store, l) && id in LaunchAll(c, store, l).pending
    requires id in store && store[id].status == Queued && other in store && Before(store[id], store[other])
    ensures Active(LaunchAll(c, store, l), store[id].provider) >= c.perSource
    decreases |Kept(store, l.pending)|
  {
    if Chosen(c, store, l).Some? {
      var m := AfterHead(c, store, l);
      TurnGoesOn(c, store, l);
      if other == Head(c, store, l) {
        TurnOnlyTakes(c, store, m, store[id].provider);
        HeadLaunched(c, store, l);
        HeadFirst(c, store, l, id);
        hide LaunchAll, AfterHead, Chosen, Head, Kept, Picks, Before;
      } else {
        assert other in Picks(c, store, m);
        hide LaunchAll, AfterHead, Chosen, Head, Kept, Picks, Before;
        NoOvertaking(c, store, m, id, other);
      }
    }
  }

  // From loop `l` to loop `t`, exactly the runs `picks` were started, in order.
  ghost predicate Launched(l: Loop, t: Loop, picks: seq<TaskId>) {
    && t.nextHandle == l.nextHandle + |picks|
    && (forall h :: h in t.runs <==> h in l.runs || l.nextHandle <= h < t.nextHandle)
    && (forall k :: l.nextHandle <= k < t.nextHandle ==> k in t.runs && t.runs[k].task == picks[k - l.nextHandle])
    && (forall h :: h in l.runs && h < l.nextHandle ==> h in t.runs && t.runs[h] == l.runs[h])
  }

  lemma LaunchedFirst(l: Loop, m: Loop, head: Run, t: Loop, picks: seq<TaskId>)
    requires m.nextHandle == l.nextHandle + 1 && m.runs == l.runs[l.nextHandle := head] && Launched(m, t, picks)
    ensures Launched(l, t, [head.task] + picks)
  {
  }

  lemma {:induction false} TurnLaunches(c: Config, store: map<TaskId, Task>, l: Loop)
    ensures Launched(l, LaunchAll(c, store, l), Picks(c, store, l))
    decreases |Kept(store, l.pending)|
  {
    if Chosen(c, store, l).Some? {
      TurnGoesOn(c, store, l);
      HeadLaunched(c, store, l);
      TurnLaunches(c, store, AfterHead(c, store, l));
      assert Picks(c, store, l) == [Head(c, store, l)] + Picks(c, store, AfterHead(c, store, l));
      hide LaunchAll, AfterHead, Chosen, Head, Kept, Picks, Launched;
      LaunchedFirst(l, AfterHead(c, store, l), Run(Head(c, store, l), store[Head(c, store, l)].provider, Fresh),
                    LaunchAll(c, store, l), Picks(c, store, AfterHead(c, store, l)));
    } else {
      TurnEnds(c, store, l);
      assert Picks(c, store, l) == [];
      hide LaunchAll, Chosen, Kept, Picks;
    }
  }

  // ---- reordering --------------------------------------------------------------------

  lemma {:induction false} RenumberPositions(store: map<TaskId, Task>, ids: seq<TaskId>, k: nat)
    requires Distinct(ids) && k < |ids| && ids[k] in store
    ensures ids[k] in Renumber(store, ids) && Renumber(store, ids)[ids[k]].queuePosition == Some(k)
  {
    RenumberKeeps(store, ids[..|ids|-1]);
    if k < |ids| - 1 { RenumberPositions(store, ids[..|ids|-1], k); }
  }

  // A list that is not exactly the waiting tasks changes nothing; otherwise the
  // k-th task of the list gets position k and nothing else is written.
  lemma ReorderExact(s: State, ids: seq<TaskId>)
    ensures Reorder(s, ids).store.Keys == s.store.Keys
    ensures IsWaitingList(s.store, ids) ==> forall k :: 0 <= k < |ids| ==>
              ids[k] in s.store && Reorder(s, ids).store[ids[k]] == s.store[ids[k]].(queuePosition := Some(k))
    ensures forall id :: id in s.store && (id !in ids || !IsWaitingList(s.store, ids)) ==> Reorder(s, ids).store[id] == s.store[id]
  {
    RenumberKeeps(s.store, ids);
    if IsWaitingList(s.store, ids) {
      forall k | 0 <= k < |ids|
        ensures ids[k] in s.store && Reorder(s, ids).store[ids[k]] == s.store[ids[k]].(queuePosition := Some(k))
      {
        RenumberPositions(s.store, ids, k);
      }
      forall id | id in s.store && id !in ids ensures Renumber(s.store, ids)[id] == s.store[id] {
        RenumberElsewhere(s.store, ids, id);
      }
    }
  }

  // After a reorder, a turn launches in the order of the list.
  lemma ReorderControlsPicks(c: Config, s: State, ids: seq<TaskId>, l: Loop, i: nat, j: nat)
    requires IsWaitingList(s.store, ids) && i < j < |Picks(c, Reorder(s, ids).store, l)|
    ensures var picks := Picks(c, Reorder(s, ids).store, l);
            exists a, b :: 0 <= a <= b < |ids| && picks[i] == ids[a] && picks[j] == ids[b]
  {
    var store := Reorder(s, ids).store;
    var picks := Picks(c, store, l);
    ReorderExact(s, ids);
    PicksInOrder(c, store, l);
    PicksEligible(c, store, l, picks[i]);
    PicksEligible(c, store, l, picks[j]);
    KeptContents(store, l.pending);
    assert picks[i] in ids && picks[j] in ids;
    var a :| 0 <= a < |ids| && ids[a] == picks[i];
    var b :| 0 <= b < |ids| && ids[b] == picks[j];
  }

  // ---- sorting --------------------------------------------------------------------------

  function ByRecord(store: map<TaskId, Task>, before: (Task, Task) -> bool): (TaskId, TaskId) -> bool {
    (a: TaskId, b: TaskId) => a in store && b in store && before(store[a], store[b])
  }

  predicate AnyTask(t: Task) { true }

  function Stored(store: map<TaskId, Task>): TaskId -> bool {
    (id: TaskId) => id in store
  }

  // A strict weak order on records orders the tasks that have one.
  ghost predicate Ranking(before: (Task, Task) -> bool) {
    Ranks(AnyTask, before)
  }

  lemma QueueOrderRanks()
    ensures Ranking(Before)
  {
  }

  lemma SortedInOrder(store: map<TaskId, Task>, q: seq<TaskId>, before: (Task, Task) -> bool)
    requires Ranking(before) && forall i :: i in q ==> i in store
    ensures InOrder(SortBy(q, ByRecord(store, before)), ByRecord(store, before))
  {
    assert Ranks(Stored(store), ByRecord(store, before));
    SortInOrder(Stored(store), q, ByRecord(store, before));
  }

  // ---- moving one task ------------------------------------------------------------------

  // The listed tasks whose record passes `keep`, in order.
  function Select(store: map<TaskId, Task>, listed: seq<TaskId>, keep: Task -> bool): seq<TaskId> {
    if listed == [] then []
    else
      var init, last := Select(store, listed[..|listed|-1], keep), listed[|listed|-1];
      if last in store && keep(store[last]) then init + [last] else init
  }

  predicate IsWaiting(t: Task) {
    Waiting(t.status)
  }

  lemma {:induction false} SelectContents(store: map<TaskId, Task>, listed: seq<TaskId>, keep: Task -> bool)
    ensures forall id :: id in Select(store, listed, keep) <==> id in listed && id in store && keep(store[id])
    ensures Distinct(listed) ==> Distinct(Select(store, listed, keep))
  {
    if listed != [] {
      SelectContents(store, listed[..|listed|-1], keep);
      assert listed == listed[..|listed|-1] + [listed[|listed|-1]];
    }
  }

  ghost function IndexOf(q: seq<TaskId>, id: TaskId): (i: nat)
    requires id in q
    ensures i < |q| && q[i] == id
  {
    var i :| 0 <= i < |q| && q[i] == id; i
  }

  // `listed` is what `store.list()` returns.
  ghost predicate Lists(store: map<TaskId, Task>, listed: seq<TaskId>) {
    Distinct(listed) && forall id :: id in listed <==> id in store
  }

  function QueueOf(store: map<TaskId, Task>, listed: seq<TaskId>): seq<TaskId> {
    SortBy(Select(store, listed, IsWaiting), ByRecord(store, Before))
  }

  ghost function Moved(q: seq<TaskId>, id: TaskId, target: TaskId, after: bool): seq<TaskId>
    requires id in q && target in q && id != target
  {
    var rest := Without(q, IndexOf(q, id));
    TargetStays(q, id, target);
    var at := IndexOf(rest, target) + if after then 1 else 0;
    InsertAt(rest, at, id)
  }

  function InsertAt(q: seq<TaskId>, at: nat, id: TaskId): seq<TaskId>
    requires at <= |q|
  {
    q[..at] + [id] + q[at..]
  }

  lemma TargetStays(q: seq<TaskId>, id: TaskId, target: TaskId)
    requires id in q && target in q && id != target
    ensures target in Without(q, IndexOf(q, id))
  {
    var i := IndexOf(q, id);
    var k :| 0 <= k < |q| && q[k] == target;
    assert Without(q, i)[if k < i then k else k - 1] == target;
  }

  ghost function MoveQueued(s: State, listed: seq<TaskId>, id: TaskId, target: TaskId, after: bool): State {
    var q := QueueOf(s.store, listed);
    if id !in q || target !in q || id == target then s else Reorder(s, Moved(q, id, target, after))
  }

  lemma QueueIsWaitingList(s: State, listed: seq<TaskId>)
    requires Lists(s.store, listed)
    ensures IsWaitingList(s.store, QueueOf(s.store, listed)) && InOrder(QueueOf(s.store, listed), ByRecord(s.store, Before))
  {
    SelectContents(s.store, listed, IsWaiting);
    SortContents(Select(s.store, listed, IsWaiting), ByRecord(s.store, Before));
    SameMembers(QueueOf(s.store, listed), Select(s.store, listed, IsWaiting));
    QueueOrderRanks();
    SortedInOrder(s.store, Select(s.store, listed, IsWaiting), Before);
  }

  lemma MovedContents(q: seq<TaskId>, id: TaskId, target: TaskId, after: bool)
    requires id in q && target in q && id != target
    ensures multiset(Moved(q, id, target, after)) == multiset(q)
  {
    var i := IndexOf(q, id);
    TargetStays(q, id, target);
    var rest := Without(q, i);
    var at := IndexOf(rest, target) + if after then 1 else 0;
    RemovedContents(q, i);
    hide Without, IndexOf;
    assert rest == rest[..at] + rest[at..];
  }

  lemma RemovedContents(q: seq<TaskId>, i: nat)
    requires i < |q|
    ensures multiset(Without(q, i)) + multiset{q[i]} == multiset(q)
  {
    assert q == q[..i] + [q[i]] + q[i+1..];
  }

  // Which of two tasks comes first in the queue.
  ghost predicate Precedes(q: seq<TaskId>, a: TaskId, b: TaskId) {
    a in q && b in q && IndexOf(q, a) < IndexOf(q, b)
  }

  lemma IndexIs(q: seq<TaskId>, k: nat)
    requires Distinct(q) && k < |q|
    ensures q[k] in q && IndexOf(q, q[k]) == k
  {
  }

  // Taking an entry out shifts the entries after it one place left ...
  lemma RemovedIndex(q: seq<TaskId>, i: nat, a: TaskId)
    requires Distinct(q) && i < |q| && a in q && a != q[i]
    ensures Distinct(Without(q, i)) && a in Without(q, i)
    ensures IndexOf(Without(q, i), a) == if IndexOf(q, a) < i then IndexOf(q, a) else IndexOf(q, a) - 1
  {
    var k, r := IndexOf(q, a), Without(q, i);
    assert r[if k < i then k else k - 1] == a;
    IndexIs(r, if k < i then k else k - 1);
  }

  // ... and putting one in shifts the entries from there on one place right.
  lemma InsertedIndex(q: seq<TaskId>, at: nat, id: TaskId, a: TaskId)
    requires Distinct(q) && at <= |q| && id !in q && a in q
    ensures var m := InsertAt(q, at, id);
            && Distinct(m) && a in m && id in m && IndexOf(m, id) == at
            && IndexOf(m, a) == if IndexOf(q, a) < at then IndexOf(q, a) else IndexOf(q, a) + 1
  {
    var k, m := IndexOf(q, a), InsertAt(q, at, id);
    assert m[if k < at then k else k + 1] == a && m[at] == id;
    IndexIs(m, if k < at then k else k + 1);
    IndexIs(m, at);
  }

  // Where the entry at index `k` goes when the one at `from` moves to `to`.
  function Seat(k: nat, from: nat, to: nat): int {
    var r := if k < from then k else k - 1;
    if r < to then r else r + 1
  }

  lemma MovedSeat(q: seq<TaskId>, id: TaskId, target: TaskId, after: bool, a: TaskId)
    requires Distinct(q) && id in q && target in q && id != target && a in q && a != id
    ensures target in Without(q, IndexOf(q, id))
    ensures var to := IndexOf(Without(q, IndexOf(q, id)), target) + if after then 1 else 0;
            var m := Moved(q, id, target, after);
            Distinct(m) && a in m && IndexOf(m, a) == Seat(IndexOf(q, a), IndexOf(q, id), to)
  {
    var i, k := IndexOf(q, id), IndexOf(q, a);
    var rest := Without(q, i);
    RemovedIndex(q, i, target);
    RemovedIndex(q, i, a);
    var to := IndexOf(rest, target) + if after then 1 else 0;
    assert Moved(q, id, target, after) == InsertAt(rest, to, id);
    NotLeft(q, i);
    hide InsertAt, Without, Distinct, IndexOf, Moved;
    InsertedIndex(rest, to, id, a);
  }

  lemma NotLeft(q: seq<TaskId>, i: nat)
    requires Distinct(q) && i < |q|
    ensures q[i] !in Without(q, i)
  {
  }

  lemma MovedOrder(q: seq<TaskId>, id: TaskId, target: TaskId, after: bool, a: TaskId, b: TaskId)
    requires Distinct(q) && id in q && target in q && id != target && a in q && b in q && a != id && b != id
    ensures Distinct(Moved(q, id, target, after))
    ensures Precedes(Moved(q, id, target, after), a, b) <==> Precedes(q, a, b)
  {
    MovedSeat(q, id, target, after, a);
    MovedSeat(q, id, target, after, b);
    var m := Moved(q, id, target, after);
    assert Precedes(q, a, b) <==> IndexOf(q, a) < IndexOf(q, b);
    assert Precedes(m, a, b) <==> IndexOf(m, a) < IndexOf(m, b);
    var to := IndexOf(Without(q, IndexOf(q, id)), target) + if after then 1 else 0;
    SeatsKeepOrder(IndexOf(q, a), IndexOf(q, b), IndexOf(q, id), to);
  }

  lemma SeatsKeepOrder(j: nat, k: nat, from: nat, to: nat)
    requires j != from && k != from
    ensures Seat(j, from, to) < Seat(k, from, to) <==> j < k
  {
  }

  // `id` ends up directly beside its target.
  lemma MovedBeside(q: seq<TaskId>, id: TaskId, target: TaskId, after: bool)
    requires Distinct(q) && id in q && target in q && id != target
    ensures var m := Moved(q, id, target, after);
            id in m && target in m && IndexOf(m, id) == if after then IndexOf(m, target) + 1 else IndexOf(m, target) - 1
  {
    var i := IndexOf(q, id);
    RemovedIndex(q, i, target);
    var rest := Without(q, i);
    assert id !in rest;
    hide Without, IndexOf, Distinct;
    InsertedIndex(rest, IndexOf(rest, target) + if after then 1 else 0, id, target);
  }

  // Moving one task renumbers the queue 0..n-1: the task sits beside its
  // target and no two others change places.
  lemma MoveQueuedExact(s: State, listed: seq<TaskId>, id: TaskId, target: TaskId, after: bool, a: TaskId, b: TaskId)
    requires Lists(s.store, listed)
    requires id in s.store && Waiting(s.store[id].status) && target in s.store && Waiting(s.store[target].status) && id != target
    requires a in s.store && Waiting(s.store[a].status) && b in s.store && Waiting(s.store[b].status) && a != id && b != id
    ensures var t := MoveQueued(s, listed, id, target, after);
            && t.store.Keys == s.store.Keys
            && Position(t.store[id]) == (if after then Position(t.store[target]) + 1 else Position(t.store[target]) - 1)
            && (Before(t.store[a], t.store[b]) <==> Precedes(QueueOf(s.store, listed), a, b))
            && (Before(s.store[a], s.store[b]) ==> Before(t.store[a], t.store[b]))
  {
    var q := QueueOf(s.store, listed);
    MoveIsReorder(s, listed, id, target, after);
    assert id in q && target in q && a in q && b in q;
    var m := Moved(q, id, target, after);
    MovedContents(q, id, target, after);
    SameMembers(m, q);
    var t := Reorder(s, m);
    PositionIs(s, m, id);
    PositionIs(s, m, target);
    PositionIs(s, m, a);
    PositionIs(s, m, b);
    MovedBeside(q, id, target, after);
    MovedOrder(q, id, target, after, a, b);
    ReorderedBefore(s, m, a, b);
    if Before(s.store[a], s.store[b]) { EarlierPrecedes(s.store, q, a, b); }
    hide MoveQueued, QueueOf, IsWaitingList, Distinct, InOrder, Moved, IndexOf, Reorder, Precedes, Position, Before;
  }

  lemma PositionIs(s: State, m: seq<TaskId>, x: TaskId)
    requires IsWaitingList(s.store, m) && x in m
    ensures Reorder(s, m).store.Keys == s.store.Keys && x in s.store && Position(Reorder(s, m).store[x]) == IndexOf(m, x)
  {
    ReorderExact(s, m);
  }

  lemma ReorderedBefore(s: State, m: seq<TaskId>, a: TaskId, b: TaskId)
    requires IsWaitingList(s.store, m) && a in m && b in m
    ensures a in Reorder(s, m).store && b in Reorder(s, m).store
    ensures Before(Reorder(s, m).store[a], Reorder(s, m).store[b]) <==> Precedes(m, a, b)
  {
    PositionIs(s, m, a);
    PositionIs(s, m, b);
    assert m[IndexOf(m, a)] == a && m[IndexOf(m, b)] == b;
  }

  lemma EarlierPrecedes(store: map<TaskId, Task>, q: seq<TaskId>, a: TaskId, b: TaskId)
    requires InOrder(q, ByRecord(store, Before)) && a in q && b in q && a in store && b in store && Before(store[a], store[b])
    ensures Precedes(q, a, b)
  {
    assert q[IndexOf(q, b)] == b && q[IndexOf(q, a)] == a;
  }

  lemma MoveIsReorder(s: State, listed: seq<TaskId>, id: TaskId, target: TaskId, after: bool)
    requires Lists(s.store, listed) && id != target
    requires id in s.store && Waiting(s.store[id].status) && target in s.store && Waiting(s.store[target].status)
    ensures var q := QueueOf(s.store, listed);
            && IsWaitingList(s.store, q) && InOrder(q, ByRecord(s.store, Before)) && id in q && target in q
            && IsWaitingList(s.store, Moved(q, id, target, after))
            && MoveQueued(s, listed, id, target, after) == Reorder(s, Moved(q, id, target, after))
  {
    var q := QueueOf(s.store, listed);
    QueueIsWaitingList(s, listed);
    assert id in q && target in q;
    MovedContents(q, id, target, after);
    SameMembers(Moved(q, id, target, after), q);
    hide QueueOf, Moved, Reorder, InOrder;
  }
}
