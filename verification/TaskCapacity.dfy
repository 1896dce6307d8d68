// Which entries a scheduler turn launches, read off the state before the turn.
module TaskCapacity {
  import opened Sequences
  import opened TaskTypes
  import opened TaskState
  import opened TaskInvariants
  import opened TaskExclusion
  import opened TaskQueue

  // Entry `j` is ahead of entry `i`: smaller in `_queue_order`, or equal and
  // earlier in the list.
  predicate Ahead(store: map<TaskId, Task>, q: seq<TaskId>, j: nat, i: nat) {
    && j < |q| && i < |q| && q[j] in store && q[i] in store
    && (Before(store[q[j]], store[q[i]]) || (!Before(store[q[i]], store[q[j]]) && j < i))
  }

  function Rivals(store: map<TaskId, Task>, q: seq<TaskId>, i: nat): set<nat> {
    set j: nat | j < |q| && Ahead(store, q, j, i) && store[q[j]].provider == store[q[i]].provider
  }

  // The source has a free download left after all entries ahead have theirs.
  predicate SourceFree(c: Config, store: map<TaskId, Task>, l: Loop, q: seq<TaskId>, i: nat)
    requires i < |q| && q[i] in store
  {
    Active(l, store[q[i]].provider) + |Rivals(store, q, i)| < c.perSource
  }

  // The tasks ahead that will take a slot of `_active_runs` first.
  function Takers(c: Config, store: map<TaskId, Task>, l: Loop, q: seq<TaskId>, i: nat): set<TaskId> {
    set j: nat | j < |q| && Ahead(store, q, j, i) && SourceFree(c, store, l, q, j) && q[j] !in l.activeRuns :: q[j]
  }

  predicate HasRoom(c: Config, store: map<TaskId, Task>, l: Loop, q: seq<TaskId>, i: nat) {
    && i < |q| && q[i] in store && SourceFree(c, store, l, q, i)
    && |l.activeRuns| + |Takers(c, store, l, q, i)| < c.maxRuns
  }

  // The task of the entry already runs, or an entry ahead names it too.
  ghost predicate Doubled(store: map<TaskId, Task>, l: Loop, q: seq<TaskId>, i: nat) {
    i < |q| && (!Alone(l, q[i]) || exists j: nat :: Ahead(store, q, j, i) && q[j] == q[i])
  }

  ghost predicate AllQueued(store: map<TaskId, Task>, q: seq<TaskId>) {
    forall i :: 0 <= i < |q| ==> Has(store, q[i], Queued)
  }

  // ---- one launch ----------------------------------------------------------------

  // Where an entry was before entry `b` was removed.
  function Was(i: nat, b: nat): nat { if i < b then i else i + 1 }

  function Becomes(k: nat, b: nat): nat
    requires k != b
  {
    if k < b then k else k - 1
  }

  lemma WasEntry(q: seq<TaskId>, b: nat, i: nat)
    requires b < |q| && i < |q| - 1
    ensures |Without(q, b)| == |q| - 1 && Was(i, b) < |q| && Without(q, b)[i] == q[Was(i, b)] && Was(i, b) != b
  {
  }

  // A set of indices, renamed after the removal of index `b`.
  lemma {:induction false} Renamed(a: set<nat>, t: set<nat>, b: nat)
    requires forall i: nat :: i in t <==> Was(i, b) in a
    ensures |a| == |t| + (if b in a then 1 else 0)
    decreases |t|
  {
    if t == {} {
      forall k: nat ensures k in a ==> k == b {
        if k != b { assert Was(Becomes(k, b), b) == k; }
      }
      assert a == if b in a then {b} else {};
    } else {
      var i :| i in t;
      assert forall k: nat :: Was(k, b) == Was(i, b) <==> k == i;
      Renamed(a - {Was(i, b)}, t - {i}, b);
    }
  }

  lemma AheadRenamed(store: map<TaskId, Task>, q: seq<TaskId>, b: nat, j: nat, i: nat)
    requires b < |q| && i < |q| - 1 && j < |q| - 1
    ensures Ahead(store, Without(q, b), j, i) <==> Ahead(store, q, Was(j, b), Was(i, b))
  {
    WasEntry(q, b, i);
    WasEntry(q, b, j);
    hide Before, Without;
  }

  lemma RivalsRenamed(store: map<TaskId, Task>, q: seq<TaskId>, b: nat, i: nat)
    requires b < |q| && i < |q| - 1
    ensures var was := Was(i, b);
            |Rivals(store, q, was)| == |Rivals(store, Without(q, b), i)| + (if b in Rivals(store, q, was) then 1 else 0)
  {
    var t := Without(q, b);
    WasEntry(q, b, i);
    forall j: nat ensures j in Rivals(store, t, i) <==> Was(j, b) in Rivals(store, q, Was(i, b)) {
      if j < |q| - 1 {
        WasEntry(q, b, j);
        AheadRenamed(store, q, b, j, i);
      }
      hide Ahead, Without;
    }
    Renamed(Rivals(store, q, Was(i, b)), Rivals(store, t, i), b);
  }

  // `b` is ahead of every other entry whose source is not full.
  ghost predicate Leads(c: Config, store: map<TaskId, Task>, l: Loop, q: seq<TaskId>, b: nat) {
    && b < |q| && AllQueued(store, q) && Active(l, store[q[b]].provider) < c.perSource
    && forall i: nat :: i < |q| && i != b && Active(l, store[q[i]].provider) < c.perSource ==> Ahead(store, q, b, i)
  }

  lemma ChosenLeads(c: Config, store: map<TaskId, Task>, l: Loop)
    requires Chosen(c, store, l).Some?
    ensures Leads(c, store, l, Kept(store, l.pending), Chosen(c, store, l).value)
  {
    var q, b := Kept(store, l.pending), Chosen(c, store, l).value;
    KeptContents(store, l.pending);
    forall i: nat | i < |q| && i != b && Active(l, store[q[i]].provider) < c.perSource ensures Ahead(store, q, b, i) {
      BestIsFirst(c, store, Purge(store, l), q, i);
    }
  }

  // The loop after launching entry `b`.
  ghost predicate HasLaunched(l: Loop, m: Loop, store: map<TaskId, Task>, head: TaskId) {
    && head in store
    && m.activeRuns.Keys == l.activeRuns.Keys + {head}
    && forall p :: Active(m, p) == Active(l, p) + if p == store[head].provider then 1 else 0
  }

  lemma SourceFreeRenamed(c: Config, store: map<TaskId, Task>, l: Loop, m: Loop, q: seq<TaskId>, b: nat, i: nat)
    requires Leads(c, store, l, q, b) && HasLaunched(l, m, store, q[b]) && i < |q| - 1
    ensures Was(i, b) < |q| && i < |Without(q, b)| && q[Was(i, b)] in store && Without(q, b)[i] in store
    ensures SourceFree(c, store, m, Without(q, b), i) <==> SourceFree(c, store, l, q, Was(i, b))
  {
    WasEntry(q, b, i);
    RivalsRenamed(store, q, b, i);
    var was := Was(i, b);
    assert Has(store, q[was], Queued);
    if Active(l, store[q[was]].provider) < c.perSource {
      assert Ahead(store, q, b, was);
      assert b in Rivals(store, q, was) <==> store[q[b]].provider == store[q[was]].provider;
    }
    hide Rivals, Ahead, Without, Active;
  }

  lemma LeaderFree(c: Config, store: map<TaskId, Task>, l: Loop, q: seq<TaskId>, b: nat)
    requires Leads(c, store, l, q, b) && |l.activeRuns| < c.maxRuns
    ensures HasRoom(c, store, l, q, b)
    ensures forall j: nat :: Ahead(store, q, j, b) ==> Active(l, store[q[j]].provider) >= c.perSource
  {
    forall j: nat | Ahead(store, q, j, b) ensures Active(l, store[q[j]].provider) >= c.perSource {
      assert j != b;
      assert Active(l, store[q[j]].provider) < c.perSource ==> Ahead(store, q, b, j);
    }
    assert Rivals(store, q, b) == {};
    assert Takers(c, store, l, q, b) == {};
  }

  lemma TakersRenamed(c: Config, store: map<TaskId, Task>, l: Loop, m: Loop, q: seq<TaskId>, b: nat, i: nat)
    requires Leads(c, store, l, q, b) && HasLaunched(l, m, store, q[b]) && i < |q| - 1 && |l.activeRuns| < c.maxRuns
    requires Active(l, store[q[Was(i, b)]].provider) < c.perSource
    ensures Takers(c, store, m, Without(q, b), i) == Takers(c, store, l, q, Was(i, b)) - {q[b]}
    ensures q[b] !in l.activeRuns ==> q[b] in Takers(c, store, l, q, Was(i, b))
  {
    var t, was := Without(q, b), Was(i, b);
    WasEntry(q, b, i);
    LeaderFree(c, store, l, q, b);
    forall j: nat | j < |t|
      ensures t[j] == q[Was(j, b)] && (Ahead(store, t, j, i) <==> Ahead(store, q, Was(j, b), was)) && t[j] in store
      ensures SourceFree(c, store, m, t, j) <==> SourceFree(c, store, l, q, Was(j, b))
    {
      WasEntry(q, b, j);
      AheadRenamed(store, q, b, j, i);
      SourceFreeRenamed(c, store, l, m, q, b, j);
    }
    assert Ahead(store, q, b, was);
    hide Ahead, SourceFree, Without, Leads, HasRoom;
    forall id ensures id in Takers(c, store, m, t, i) <==> id in Takers(c, store, l, q, was) - {q[b]} {
      if id in Takers(c, store, l, q, was) && id != q[b] {
        var k: nat :| k < |q| && Ahead(store, q, k, was) && SourceFree(c, store, l, q, k) && q[k] !in l.activeRuns && q[k] == id;
        var j := Becomes(k, b);
        assert Was(j, b) == k && t[j] == id;
      }
    }
  }

  lemma RoomRenamed(c: Config, store: map<TaskId, Task>, l: Loop, m: Loop, q: seq<TaskId>, b: nat, i: nat)
    requires Leads(c, store, l, q, b) && HasLaunched(l, m, store, q[b]) && i < |q| - 1 && |l.activeRuns| < c.maxRuns
    ensures HasRoom(c, store, m, Without(q, b), i) <==> HasRoom(c, store, l, q, Was(i, b))
  {
    WasEntry(q, b, i);
    SourceFreeRenamed(c, store, l, m, q, b, i);
    if Active(l, store[q[Was(i, b)]].provider) < c.perSource {
      TakersRenamed(c, store, l, m, q, b, i);
      SlotsAfter(l, m, store, q[b]);
    }
    hide Leads, Takers, Without;
  }

  lemma SlotsAfter(l: Loop, m: Loop, store: map<TaskId, Task>, head: TaskId)
    requires HasLaunched(l, m, store, head)
    ensures |m.activeRuns| == |l.activeRuns| + (if head in l.activeRuns then 0 else 1)
  {
    assert |m.activeRuns| == |m.activeRuns.Keys| && |l.activeRuns| == |l.activeRuns.Keys|;
    if head in l.activeRuns { assert m.activeRuns.Keys == l.activeRuns.Keys; }
  }

  lemma LaunchHas(store: map<TaskId, Task>, l: Loop, i: nat)
    requires i < |l.pending| && l.pending[i] in store
    ensures HasLaunched(l, Launch(l, i, store[l.pending[i]].provider), store, l.pending[i])
  {
  }

  lemma KeptAfter(store: map<TaskId, Task>, q: seq<TaskId>, b: nat)
    requires b < |Kept(store, q)|
    ensures Kept(store, Without(Kept(store, q), b)) == Without(Kept(store, q), b)
  {
    KeptContents(store, q);
    KeptContents(store, Without(Kept(store, q), b));
  }

  lemma AfterHeadHas(c: Config, store: map<TaskId, Task>, l: Loop)
    requires Chosen(c, store, l).Some?
    ensures var q, b, m := Kept(store, l.pending), Chosen(c, store, l).value, AfterHead(c, store, l);
            && HasLaunched(l, m, store, Head(c, store, l)) && Head(c, store, l) == q[b]
            && m.pending == Without(q, b) && Kept(store, m.pending) == Without(q, b)
            && m.runs == l.runs[l.nextHandle := Run(q[b], store[q[b]].provider, Fresh)]
  {
    KeptAfter(store, l.pending, Chosen(c, store, l).value);
    LaunchHas(store, Purge(store, l), Chosen(c, store, l).value);
    hide Best, Kept, Before, Chosen, Without, Eligible;
  }

  lemma NoneFree(c: Config, store: map<TaskId, Task>, l: Loop, i: nat)
    requires Chosen(c, store, l).None?
    ensures !HasRoom(c, store, l, Kept(store, l.pending), i)
  {
    KeptContents(store, l.pending);
    var l1 := Purge(store, l);
    BestNone(c, store, l1, l1.pending);
    if i < |l1.pending| && |l.activeRuns| < c.maxRuns { assert !Eligible(c, store, l1, l1.pending[i]); }
    hide Best, Kept, Rivals, Takers;
  }

  // ---- what a turn launches --------------------------------------------------------

  // The waiting entries of one task that have room.
  ghost function RoomFor(c: Config, store: map<TaskId, Task>, l: Loop, id: TaskId): set<nat> {
    set i: nat | i < |Kept(store, l.pending)| && HasRoom(c, store, l, Kept(store, l.pending), i) && Kept(store, l.pending)[i] == id
  }

  lemma RoomForRenamed(c: Config, store: map<TaskId, Task>, l: Loop, id: TaskId)
    requires Chosen(c, store, l).Some?
    ensures |RoomFor(c, store, l, id)| == |RoomFor(c, store, AfterHead(c, store, l), id)| + if id == Head(c, store, l) then 1 else 0
  {
    var q, b, m := Kept(store, l.pending), Chosen(c, store, l).value, AfterHead(c, store, l);
    ChosenLeads(c, store, l);
    AfterHeadHas(c, store, l);
    LeaderFree(c, store, l, q, b);
    forall i: nat ensures i in RoomFor(c, store, m, id) <==> Was(i, b) in RoomFor(c, store, l, id) {
      if i < |q| - 1 {
        WasEntry(q, b, i);
        RoomRenamed(c, store, l, m, q, b, i);
      }
      hide HasRoom, Leads, HasLaunched, Without, Chosen, AfterHead, Head, Kept;
    }
    Renamed(RoomFor(c, store, l, id), RoomFor(c, store, m, id), b);
  }

  // Greedy, launch by launch, as the turn is: it launches exactly the entries
  // that had room when it began.
  lemma {:induction false} TurnFillsRoom(c: Config, store: map<TaskId, Task>, l: Loop, id: TaskId)
    ensures multiset(Picks(c, store, l))[id] == |RoomFor(c, store, l, id)|
    decreases |Kept(store, l.pending)|
  {
    if Chosen(c, store, l).Some? {
      TurnGoesOn(c, store, l);
      RoomForRenamed(c, store, l, id);
      TurnFillsRoom(c, store, AfterHead(c, store, l), id);
      var rest := Picks(c, store, AfterHead(c, store, l));
      assert Picks(c, store, l) == [Head(c, store, l)] + rest;
      assert multiset([Head(c, store, l)] + rest) == multiset{Head(c, store, l)} + multiset(rest);
      hide Picks, RoomFor, Chosen, AfterHead, Head;
    } else {
      forall i: nat ensures i !in RoomFor(c, store, l, id) {
        NoneFree(c, store, l, i);
      }
      assert RoomFor(c, store, l, id) == {};
    }
  }

  // ---- when a turn launches over a run ------------------------------------------------

  lemma DoubledRenamed(c: Config, store: map<TaskId, Task>, l: Loop, m: Loop, q: seq<TaskId>, b: nat, i: nat)
    requires Leads(c, store, l, q, b) && i < |q| - 1 && l.nextHandle !in l.runs
    requires m.runs == l.runs[l.nextHandle := Run(q[b], store[q[b]].provider, Fresh)]
    ensures Doubled(store, m, Without(q, b), i) <==> Doubled(store, l, q, Was(i, b))
  {
    var t, was := Without(q, b), Was(i, b);
    WasEntry(q, b, i);
    assert Has(store, q[was], Queued);
    assert Alone(m, t[i]) <==> Alone(l, t[i]) && t[i] != q[b] by {
      if t[i] == q[b] { assert l.nextHandle in m.runs; }
      else if !Alone(l, t[i]) { var h :| h in l.runs && l.runs[h].task == t[i]; assert h in m.runs && m.runs[h].task == t[i]; }
    }
    if t[i] == q[b] {
      assert Ahead(store, q, b, was);
    } else {
      forall j: nat | j < |t| ensures t[j] == q[Was(j, b)] && (Ahead(store, t, j, i) <==> Ahead(store, q, Was(j, b), was)) {
        WasEntry(q, b, j);
        AheadRenamed(store, q, b, j, i);
      }
      hide Without, Leads, Alone;
      if k: nat :| Ahead(store, q, k, was) && q[k] == q[was] {
        var j := Becomes(k, b);
        assert Was(j, b) == k && Ahead(store, t, j, i);
      }
    }
  }

  lemma LeaderDoubled(c: Config, store: map<TaskId, Task>, l: Loop, q: seq<TaskId>, b: nat)
    requires Leads(c, store, l, q, b) && |l.activeRuns| < c.maxRuns
    ensures Doubled(store, l, q, b) <==> !Alone(l, q[b])
  {
    LeaderFree(c, store, l, q, b);
    forall j: nat | Ahead(store, q, j, b) ensures q[j] != q[b] {
    }
  }

  // An entry that names a task with a run, or one named again ahead of it, has
  // room: the turn would launch it over that run.
  ghost predicate DoublesHaveRoom(c: Config, store: map<TaskId, Task>, l: Loop) {
    var q := Kept(store, l.pending);
    exists i: nat :: HasRoom(c, store, l, q, i) && Doubled(store, l, q, i)
  }

  lemma DoublesRenamed(c: Config, store: map<TaskId, Task>, l: Loop)
    requires Chosen(c, store, l).Some? && Handles(l) && Alone(l, Head(c, store, l))
    ensures DoublesHaveRoom(c, store, l) <==> DoublesHaveRoom(c, store, AfterHead(c, store, l))
  {
    var q, b, m := Kept(store, l.pending), Chosen(c, store, l).value, AfterHead(c, store, l);
    ChosenLeads(c, store, l);
    AfterHeadHas(c, store, l);
    LeaderDoubled(c, store, l, q, b);
    assert l.nextHandle !in l.runs && |l.activeRuns| < c.maxRuns;
    hide *;
    forall i: nat | i < |q| - 1
      ensures HasRoom(c, store, m, Without(q, b), i) <==> HasRoom(c, store, l, q, Was(i, b))
      ensures Doubled(store, m, Without(q, b), i) <==> Doubled(store, l, q, Was(i, b))
    {
      RoomRenamed(c, store, l, m, q, b, i);
      DoubledRenamed(c, store, l, m, q, b, i);
    }
    DoublesMove(c, store, l, m, q, b);
  }

  lemma DoublesMove(c: Config, store: map<TaskId, Task>, l: Loop, m: Loop, q: seq<TaskId>, b: nat)
    requires b < |q| && q == Kept(store, l.pending) && Without(q, b) == Kept(store, m.pending) && !Doubled(store, l, q, b)
    requires forall i: nat :: i < |q| - 1 ==>
               && (HasRoom(c, store, m, Without(q, b), i) <==> HasRoom(c, store, l, q, Was(i, b)))
               && (Doubled(store, m, Without(q, b), i) <==> Doubled(store, l, q, Was(i, b)))
    ensures DoublesHaveRoom(c, store, l) <==> DoublesHaveRoom(c, store, m)
  {
    assert |Without(q, b)| == |q| - 1;
    assert forall i: nat :: HasRoom(c, store, m, Without(q, b), i) ==> i < |q| - 1;
    assert forall k: nat :: HasRoom(c, store, l, q, k) ==> k < |q|;
    hide HasRoom, Doubled, Without, Kept;
    if k: nat :| HasRoom(c, store, l, q, k) && Doubled(store, l, q, k) {
      var i := Becomes(k, b);
      assert Was(i, b) == k && HasRoom(c, store, m, Without(q, b), i);
    }
  }

  lemma AloneStep(c: Config, store: map<TaskId, Task>, l: Loop)
    ensures LaunchesAlone(c, store, l) <==>
            (Chosen(c, store, l).Some? ==> Alone(l, Head(c, store, l)) && LaunchesAlone(c, store, AfterHead(c, store, l)))
  {
    hide Best, Kept;
  }

  // No launch of a turn meets a run of the same task exactly when no such entry
  // had room when the turn began.
  lemma {:induction false} AloneExact(c: Config, store: map<TaskId, Task>, l: Loop)
    requires Handles(l)
    ensures LaunchesAlone(c, store, l) <==> !DoublesHaveRoom(c, store, l)
    decreases |Kept(store, l.pending)|
  {
    AloneStep(c, store, l);
    if Chosen(c, store, l).None? {
      forall i: nat ensures !HasRoom(c, store, l, Kept(store, l.pending), i) {
        NoneFree(c, store, l, i);
      }
    } else if Alone(l, Head(c, store, l)) {
      TurnGoesOn(c, store, l);
      DoublesRenamed(c, store, l);
      AfterHeadHandles(c, store, l);
      AloneExact(c, store, AfterHead(c, store, l));
    } else {
      var q, b := Kept(store, l.pending), Chosen(c, store, l).value;
      ChosenLeads(c, store, l);
      LeaderFree(c, store, l, q, b);
      LeaderDoubled(c, store, l, q, b);
    }
  }

  lemma AfterHeadHandles(c: Config, store: map<TaskId, Task>, l: Loop)
    requires Handles(l) && Chosen(c, store, l).Some?
    ensures Handles(AfterHead(c, store, l))
  {
    hide Chosen, Kept, Without;
  }
}
