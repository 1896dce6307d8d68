// Storage accounting of one artifact on a filesystem of names and inodes
// (`Catalog.storage_stats`).
module StorageStats {
  import opened Sequences
  import opened TaskTypes

  type Name = string
  type Ino = nat

  datatype Inode = Inode(size: nat, blocks: nat, regular: bool)
  datatype Fs = Fs(names: map<Name, Ino>, inodes: map<Ino, Inode>)

  function Links(fs: Fs, i: Ino): set<Name> {
    set n | n in fs.names && fs.names[n] == i
  }

  // One file of the manifest.
  datatype Entry = Entry(name: Name, size: nat)

  datatype Group = Group(logical: nat, blockBytes: nat, localLinks: nat, totalLinks: nat)

  // A dictionary with its insertion order.
  datatype Groups = Groups(order: seq<Ino>, of: map<Ino, Group>)

  datatype Stats = Stats(
    sharedLogical: nat, sharedAllocated: nat, sharedFiles: nat,
    exclusiveLogical: nat, exclusiveAllocated: nat, exclusiveFiles: nat)

  // ---- the two passes ------------------------------------------------------------------

  // What the scan accepts of one entry.
  predicate Present(fs: Fs, e: Entry) {
    && e.name in fs.names && fs.names[e.name] in fs.inodes
    && fs.inodes[fs.names[e.name]].regular && fs.inodes[fs.names[e.name]].size == e.size
  }

  function Grouped(fs: Fs, g: Groups, e: Entry): Groups
    requires Present(fs, e)
  {
    var i := fs.names[e.name];
    var before := if i in g.of then g.of[i] else Group(0, fs.inodes[i].blocks * 512, 0, |Links(fs, i)|);
    Groups(if i in g.of then g.order else g.order + [i],
           g.of[i := before.(logical := before.logical + e.size, localLinks := before.localLinks + 1)])
  }

  function Collect(fs: Fs, entries: seq<Entry>): Option<Groups> {
    if entries == [] then Some(Groups([], map[]))
    else
      var g, e := Collect(fs, entries[..|entries|-1]), entries[|entries|-1];
      if g.None? || !Present(fs, e) then None else Some(Grouped(fs, g.value, e))
  }

  function Add(s: Stats, g: Group): Stats {
    if g.totalLinks > g.localLinks
    then s.(sharedLogical := s.sharedLogical + g.logical, sharedAllocated := s.sharedAllocated + g.blockBytes,
            sharedFiles := s.sharedFiles + g.localLinks)
    else s.(exclusiveLogical := s.exclusiveLogical + g.logical, exclusiveAllocated := s.exclusiveAllocated + g.blockBytes,
            exclusiveFiles := s.exclusiveFiles + g.localLinks)
  }

  const NOTHING := Stats(0, 0, 0, 0, 0, 0)

  function Totals(order: seq<Ino>, of: map<Ino, Group>): Option<Stats> {
    if order == [] then Some(NOTHING)
    else
      var s, i := Totals(order[..|order|-1], of), order[|order|-1];
      if s.None? || i !in of || of[i].totalLinks < of[i].localLinks then None else Some(Add(s.value, of[i]))
  }

  function StatsOf(fs: Fs, entries: seq<Entry>): Option<Stats> {
    var g := Collect(fs, entries);
    if g.None? then None else Totals(g.value.order, g.value.of)
  }

  method ComputeStats(fs: Fs, entries: seq<Entry>) returns (stats: Option<Stats>)
    ensures stats == StatsOf(fs, entries)
  {
    var g := Groups([], map[]);
    for k := 0 to |entries|
      invariant Collect(fs, entries[..k]) == Some(g)
    {
      assert entries[..k+1][..k] == entries[..k];
      if !Present(fs, entries[k]) {
        CollectStops(fs, entries, k + 1);
        return None;
      }
      g := Grouped(fs, g, entries[k]);
    }
    assert entries[..|entries|] == entries;
    var s := NOTHING;
    for k := 0 to |g.order|
      invariant Totals(g.order[..k], g.of) == Some(s)
    {
      assert g.order[..k+1][..k] == g.order[..k];
      var i := g.order[k];
      if i !in g.of || g.of[i].totalLinks < g.of[i].localLinks {
        TotalsStop(g.order, g.of, k + 1);
        return None;
      }
      s := Add(s, g.of[i]);
    }
    assert g.order[..|g.order|] == g.order;
    stats := Some(s);
  }

  lemma {:induction false} CollectStops(fs: Fs, entries: seq<Entry>, k: nat)
    requires k <= |entries| && Collect(fs, entries[..k]).None?
    ensures Collect(fs, entries).None?
    decreases |entries| - k
  {
    if k < |entries| {
      assert entries[..k+1][..k] == entries[..k];
      CollectStops(fs, entries, k + 1);
    } else {
      assert entries[..k] == entries;
    }
  }

  lemma {:induction false} TotalsStop(order: seq<Ino>, of: map<Ino, Group>, k: nat)
    requires k <= |order| && Totals(order[..k], of).None?
    ensures Totals(order, of).None?
    decreases |order| - k
  {
    if k < |order| {
      assert order[..k+1][..k] == order[..k];
      TotalsStop(order, of, k + 1);
    } else {
      assert order[..k] == order;
    }
  }

  // ---- the reference: what unlinking frees ------------------------------------------------

  ghost predicate UniqueNames(entries: seq<Entry>) {
    forall j, k :: 0 <= j < k < |entries| ==> entries[j].name != entries[k].name
  }

  function Own(entries: seq<Entry>): set<Name> {
    set e | e in entries :: e.name
  }

  function Unlink(fs: Fs, gone: set<Name>): Fs {
    fs.(names := fs.names - gone)
  }

  // Inodes some name still leads to.
  ghost function Named(fs: Fs): set<Ino> {
    set i | i in fs.inodes && Links(fs, i) != {}
  }

  ghost function Blocks(fs: Fs, s: set<Ino>): nat
    requires s <= fs.inodes.Keys
  {
    if s == {} then 0 else
    var i :| i in s;
    fs.inodes[i].blocks + Blocks(fs, s - {i})
  }

  lemma {:induction false} BlocksWithout(fs: Fs, s: set<Ino>, i: Ino)
    requires s <= fs.inodes.Keys && i in s
    ensures Blocks(fs, s) == fs.inodes[i].blocks + Blocks(fs, s - {i})
  {
    var k :| k in s && Blocks(fs, s) == fs.inodes[k].blocks + Blocks(fs, s - {k});
    if k != i {
      BlocksWithout(fs, s - {k}, i);
      BlocksWithout(fs, s - {i}, k);
      assert s - {k} - {i} == s - {i} - {k};
    }
  }

  lemma {:induction false} BlocksSplit(fs: Fs, s: set<Ino>, t: set<Ino>)
    requires s <= fs.inodes.Keys && t <= s
    ensures Blocks(fs, s) == Blocks(fs, t) + Blocks(fs, s - t)
  {
    if t == {} {
      assert s - t == s;
    } else {
      var i :| i in t;
      BlocksSplit(fs, s - {i}, t - {i});
      BlocksWithout(fs, s, i);
      BlocksWithout(fs, t, i);
      assert s - {i} - (t - {i}) == s - t;
    }
  }

  // ---- what the groups hold ------------------------------------------------------------------

  // Names of the artifact that lead to the inode.
  function OwnLinks(fs: Fs, entries: seq<Entry>, i: Ino): set<Name> {
    Links(fs, i) * Own(entries)
  }

  function Sizes(entries: seq<Entry>): nat {
    if entries == [] then 0 else Sizes(entries[..|entries|-1]) + entries[|entries|-1].size
  }

  // The entries that lead to one of the inodes.
  function Those(fs: Fs, entries: seq<Entry>, keep: Ino -> bool): seq<Entry> {
    if entries == [] then []
    else
      var init, e := Those(fs, entries[..|entries|-1], keep), entries[|entries|-1];
      if e.name in fs.names && keep(fs.names[e.name]) then init + [e] else init
  }

  function Logical(order: seq<Ino>, of: map<Ino, Group>, keep: Ino -> bool): nat {
    if order == [] then 0 else
    var last := order[|order|-1];
    Logical(order[..|order|-1], of, keep) + if last in of && keep(last) then of[last].logical else 0
  }

  function Files(order: seq<Ino>, of: map<Ino, Group>, keep: Ino -> bool): nat {
    if order == [] then 0 else
    var last := order[|order|-1];
    Files(order[..|order|-1], of, keep) + if last in of && keep(last) then of[last].localLinks else 0
  }

  ghost predicate Holds(fs: Fs, entries: seq<Entry>, g: Groups, keep: Ino -> bool) {
    Ordered(g) && Described(fs, entries, g) && Summed(fs, entries, g, keep)
  }

  // Sizes and number of the entries that lead to one of the inodes.
  ghost predicate Summed(fs: Fs, entries: seq<Entry>, g: Groups, keep: Ino -> bool) {
    Logical(g.order, g.of, keep) == Sizes(Those(fs, entries, keep)) && Files(g.order, g.of, keep) == |Those(fs, entries, keep)|
  }

  ghost predicate Ordered(g: Groups) {
    Distinct(g.order) && forall i :: i in g.order <==> i in g.of
  }

  ghost predicate Described(fs: Fs, entries: seq<Entry>, g: Groups) {
    && (forall i :: i in g.of <==> i in fs.inodes && OwnLinks(fs, entries, i) != {})
    && (forall i :: i in g.of ==> Describes(fs, entries, i, g.of[i]))
  }

  ghost predicate Describes(fs: Fs, entries: seq<Entry>, i: Ino, g: Group) {
    i in fs.inodes && g.blockBytes == fs.inodes[i].blocks * 512
    && g.localLinks == |OwnLinks(fs, entries, i)| && g.totalLinks == |Links(fs, i)|
  }

  lemma {:induction false} SumsAfterUpdate(order: seq<Ino>, of: map<Ino, Group>, i: Ino, g: Group, keep: Ino -> bool)
    requires Distinct(order) && (forall k :: k in order ==> k in of) && i in of
    ensures Logical(order, of[i := g], keep) == Logical(order, of, keep) + (if i in order && keep(i) then g.logical - of[i].logical else 0)
    ensures Files(order, of[i := g], keep) == Files(order, of, keep) + (if i in order && keep(i) then g.localLinks - of[i].localLinks else 0)
  {
    if order != [] {
      var init, last := order[..|order|-1], order[|order|-1];
      assert order == init + [last] && last !in init;
      SumsAfterUpdate(init, of, i, g, keep);
    }
  }

  lemma {:induction false} SumsIgnore(order: seq<Ino>, of: map<Ino, Group>, i: Ino, g: Group, keep: Ino -> bool)
    requires i !in order
    ensures Logical(order, of[i := g], keep) == Logical(order, of, keep) && Files(order, of[i := g], keep) == Files(order, of, keep)
  {
    if order != [] {
      assert order == order[..|order|-1] + [order[|order|-1]];
      SumsIgnore(order[..|order|-1], of, i, g, keep);
    }
  }

  lemma OwnGrows(fs: Fs, init: seq<Entry>, e: Entry, i: Ino)
    requires Present(fs, e) && e.name !in Own(init)
    ensures OwnLinks(fs, init + [e], i) == if fs.names[e.name] == i then OwnLinks(fs, init, i) + {e.name} else OwnLinks(fs, init, i)
    ensures e.name !in OwnLinks(fs, init, i)
  {
    assert Own(init + [e]) == Own(init) + {e.name};
  }

  lemma GroupDescribed(fs: Fs, init: seq<Entry>, e: Entry, g: Groups, k: Ino)
    requires Described(fs, init, g) && Present(fs, e) && e.name !in Own(init)
    ensures var t := Grouped(fs, g, e);
            && (k in t.of <==> k in fs.inodes && OwnLinks(fs, init + [e], k) != {})
            && (k in t.of ==> Describes(fs, init + [e], k, t.of[k]))
  {
    OwnGrows(fs, init, e, k);
    hide Links, OwnLinks, Own;
    if k == fs.names[e.name] && k !in g.of { assert OwnLinks(fs, init, k) == {}; }
  }

  lemma GroupsDescribed(fs: Fs, init: seq<Entry>, e: Entry, g: Groups)
    requires Described(fs, init, g) && Present(fs, e) && e.name !in Own(init)
    ensures Described(fs, init + [e], Grouped(fs, g, e))
  {
    var t := Grouped(fs, g, e);
    forall k
      ensures k in t.of <==> k in fs.inodes && OwnLinks(fs, init + [e], k) != {}
      ensures k in t.of ==> Describes(fs, init + [e], k, t.of[k])
    {
      GroupDescribed(fs, init, e, g, k);
    }
    hide Grouped, Links, Own, Present, OwnLinks, Describes;
  }

  lemma GroupedHolds(fs: Fs, init: seq<Entry>, e: Entry, g: Groups, keep: Ino -> bool)
    requires Holds(fs, init, g, keep) && Present(fs, e) && e.name !in Own(init)
    ensures Holds(fs, init + [e], Grouped(fs, g, e), keep)
  {
    hide Grouped, Own, Present, Ordered, Described, Summed;
    GroupsDescribed(fs, init, e, g);
    GroupedSums(fs, init, e, g, keep);
  }

  lemma GroupedOrdered(fs: Fs, e: Entry, g: Groups)
    requires Ordered(g) && Present(fs, e)
    ensures Ordered(Grouped(fs, g, e))
  {
    hide Links;
  }

  lemma MoreSums(fs: Fs, e: Entry, g: Groups, keep: Ino -> bool)
    requires Ordered(g) && Present(fs, e)
    ensures var t, kept := Grouped(fs, g, e), keep(fs.names[e.name]);
            && Logical(t.order, t.of, keep) == Logical(g.order, g.of, keep) + (if kept then e.size else 0)
            && Files(t.order, t.of, keep) == Files(g.order, g.of, keep) + (if kept then 1 else 0)
  {
    if fs.names[e.name] in g.of { KnownSums(fs, e, g, keep); } else { FreshSums(fs, e, g, keep); }
    hide *;
  }

  lemma GroupedSums(fs: Fs, init: seq<Entry>, e: Entry, g: Groups, keep: Ino -> bool)
    requires Ordered(g) && Summed(fs, init, g, keep) && Present(fs, e)
    ensures Summed(fs, init + [e], Grouped(fs, g, e), keep) && Ordered(Grouped(fs, g, e))
  {
    GroupedOrdered(fs, e, g);
    ThoseGrow(fs, init, e, keep);
    MoreSums(fs, e, g, keep);
    hide Grouped, Ordered, Logical, Files, Sizes, Those;
  }

  lemma KnownSums(fs: Fs, e: Entry, g: Groups, keep: Ino -> bool)
    requires Ordered(g) && Present(fs, e) && fs.names[e.name] in g.of
    ensures var t, kept := Grouped(fs, g, e), keep(fs.names[e.name]);
            && Logical(t.order, t.of, keep) == Logical(g.order, g.of, keep) + (if kept then e.size else 0)
            && Files(t.order, t.of, keep) == Files(g.order, g.of, keep) + (if kept then 1 else 0)
  {
    var i, t := fs.names[e.name], Grouped(fs, g, e);
    hide Links, Logical, Files;
    SumsAfterUpdate(g.order, g.of, i, t.of[i], keep);
  }

  lemma FreshSums(fs: Fs, e: Entry, g: Groups, keep: Ino -> bool)
    requires Ordered(g) && Present(fs, e) && fs.names[e.name] !in g.of
    ensures var t, kept := Grouped(fs, g, e), keep(fs.names[e.name]);
            && Logical(t.order, t.of, keep) == Logical(g.order, g.of, keep) + (if kept then e.size else 0)
            && Files(t.order, t.of, keep) == Files(g.order, g.of, keep) + (if kept then 1 else 0)
  {
    var i, t := fs.names[e.name], Grouped(fs, g, e);
    hide Links, Logical, Files;
    NewSums(g, i, t.of[i], keep);
  }

  lemma ThoseGrow(fs: Fs, init: seq<Entry>, e: Entry, keep: Ino -> bool)
    requires e.name in fs.names
    ensures var kept, before, after := keep(fs.names[e.name]), Those(fs, init, keep), Those(fs, init + [e], keep);
            |after| == |before| + (if kept then 1 else 0) && Sizes(after) == Sizes(before) + (if kept then e.size else 0)
  {
    assert (init + [e])[..|init|] == init;
    SizesGrow(Those(fs, init, keep), e);
  }

  lemma SizesGrow(init: seq<Entry>, e: Entry)
    ensures Sizes(init + [e]) == Sizes(init) + e.size
  {
    assert (init + [e])[..|init|] == init;
  }

  lemma NewSums(g: Groups, i: Ino, group: Group, keep: Ino -> bool)
    requires i !in g.order
    ensures Logical(g.order + [i], g.of[i := group], keep) == Logical(g.order, g.of, keep) + if keep(i) then group.logical else 0
    ensures Files(g.order + [i], g.of[i := group], keep) == Files(g.order, g.of, keep) + if keep(i) then group.localLinks else 0
  {
    assert (g.order + [i])[..|g.order|] == g.order;
    SumsIgnore(g.order, g.of, i, group, keep);
  }

  lemma {:induction false} CollectHolds(fs: Fs, entries: seq<Entry>, keep: Ino -> bool)
    requires UniqueNames(entries)
    ensures Collect(fs, entries).Some? <==> forall e :: e in entries ==> Present(fs, e)
    ensures Collect(fs, entries).Some? ==> Holds(fs, entries, Collect(fs, entries).value, keep)
  {
    if entries != [] {
      var init, e := entries[..|entries|-1], entries[|entries|-1];
      assert entries == init + [e];
      CollectHolds(fs, init, keep);
      assert e.name !in Own(init);
      assert Collect(fs, entries).Some? <==> Collect(fs, init).Some? && Present(fs, e);
      assert (forall x :: x in entries ==> Present(fs, x)) <==> Present(fs, e) && forall x :: x in init ==> Present(fs, x);
      hide Holds, Grouped, Own, Present;
      if Collect(fs, entries).Some? { GroupedHolds(fs, init, e, Collect(fs, init).value, keep); }
    }
  }

  // ---- the sums of the groups ---------------------------------------------------------------------

  ghost predicate IsShared(fs: Fs, entries: seq<Entry>, i: Ino) {
    !(Links(fs, i) <= Own(entries))
  }

  lemma SharedIsMoreLinks(fs: Fs, entries: seq<Entry>, i: Ino)
    ensures |OwnLinks(fs, entries, i)| <= |Links(fs, i)|
    ensures |Links(fs, i)| > |OwnLinks(fs, entries, i)| <==> IsShared(fs, entries, i)
  {
    var all, own := Links(fs, i), OwnLinks(fs, entries, i);
    assert |all| == |own| + |all - own| by { assert all == own + (all - own); }
  }

  ghost function Parts(fs: Fs, entries: seq<Entry>, order: seq<Ino>, shared: bool): set<Ino> {
    set i | i in order && IsShared(fs, entries, i) == shared
  }

  lemma PartsGrow(fs: Fs, entries: seq<Entry>, init: seq<Ino>, last: Ino, shared: bool)
    requires last !in init
    ensures Parts(fs, entries, init + [last], shared)
         == Parts(fs, entries, init, shared) + if IsShared(fs, entries, last) == shared then {last} else {}
    ensures last !in Parts(fs, entries, init, shared)
  {
    hide IsShared;
  }

  // The inodes some other name leads to, or the others.
  ghost function Marked(fs: Fs, entries: seq<Entry>, shared: bool): Ino -> bool {
    (i: Ino) => IsShared(fs, entries, i) == shared
  }

  ghost predicate Totalled(fs: Fs, entries: seq<Entry>, order: seq<Ino>, of: map<Ino, Group>, s: Stats) {
    && (forall i :: i in order ==> i in fs.inodes)
    && s.sharedLogical == Logical(order, of, Marked(fs, entries, true)) && s.exclusiveLogical == Logical(order, of, Marked(fs, entries, false))
    && s.sharedFiles == Files(order, of, Marked(fs, entries, true)) && s.exclusiveFiles == Files(order, of, Marked(fs, entries, false))
    && s.sharedAllocated == 512 * Blocks(fs, Parts(fs, entries, order, true))
    && s.exclusiveAllocated == 512 * Blocks(fs, Parts(fs, entries, order, false))
  }

  lemma PartBlocks(fs: Fs, entries: seq<Entry>, init: seq<Ino>, last: Ino, shared: bool)
    requires last !in init && (forall i :: i in init ==> i in fs.inodes) && last in fs.inodes
    ensures Parts(fs, entries, init, shared) <= fs.inodes.Keys && Parts(fs, entries, init + [last], shared) <= fs.inodes.Keys
    ensures Blocks(fs, Parts(fs, entries, init + [last], shared))
         == Blocks(fs, Parts(fs, entries, init, shared)) + if IsShared(fs, entries, last) == shared then fs.inodes[last].blocks else 0
  {
    PartsGrow(fs, entries, init, last, shared);
    var p := Parts(fs, entries, init, shared);
    if IsShared(fs, entries, last) == shared {
      BlocksWithout(fs, p + {last}, last);
      assert p + {last} - {last} == p;
    } else {
      assert p + {} == p;
    }
    hide IsShared, Blocks;
  }

  lemma AddTotalled(fs: Fs, entries: seq<Entry>, init: seq<Ino>, last: Ino, of: map<Ino, Group>, s: Stats)
    requires Totalled(fs, entries, init, of, s) && last !in init && last in of && Describes(fs, entries, last, of[last])
    ensures Totalled(fs, entries, init + [last], of, Add(s, of[last]))
  {
    SharedIsMoreLinks(fs, entries, last);
    PartBlocks(fs, entries, init, last, true);
    PartBlocks(fs, entries, init, last, false);
    assert (init + [last])[..|init|] == init;
    assert forall b :: Marked(fs, entries, b)(last) <==> IsShared(fs, entries, last) == b;
    hide IsShared, Links, OwnLinks, Parts, Blocks, Marked;
  }

  ghost predicate AllDescribed(fs: Fs, entries: seq<Entry>, order: seq<Ino>, of: map<Ino, Group>) {
    forall i :: i in order ==> i in of && Describes(fs, entries, i, of[i])
  }

  lemma LastDescribed(fs: Fs, entries: seq<Entry>, order: seq<Ino>, of: map<Ino, Group>)
    requires order != [] && Distinct(order) && AllDescribed(fs, entries, order, of)
    ensures var init, last := order[..|order|-1], order[|order|-1];
            && last !in init && Distinct(init) && AllDescribed(fs, entries, init, of)
            && last in of && Describes(fs, entries, last, of[last]) && of[last].totalLinks >= of[last].localLinks
  {
    var last := order[|order|-1];
    assert order == order[..|order|-1] + [last];
    SharedIsMoreLinks(fs, entries, last);
    hide Links, OwnLinks, IsShared;
  }

  lemma {:induction false} TotalsExact(fs: Fs, entries: seq<Entry>, order: seq<Ino>, of: map<Ino, Group>)
    requires Distinct(order) && AllDescribed(fs, entries, order, of)
    ensures Totals(order, of).Some? && Totalled(fs, entries, order, of, Totals(order, of).value)
  {
    if order != [] {
      var init, last := order[..|order|-1], order[|order|-1];
      LastDescribed(fs, entries, order, of);
      assert order == init + [last];
      hide AllDescribed, Describes, Totalled, Distinct, Add;
      TotalsExact(fs, entries, init, of);
      AddTotalled(fs, entries, init, last, of, Totals(init, of).value);
    }
  }

  // Inodes that lose their last name ...
  ghost function FreedBy(fs: Fs, gone: set<Name>): set<Ino> {
    Named(fs) - Named(Unlink(fs, gone))
  }

  // ... when the artifact's files are unlinked.
  ghost function Freed(fs: Fs, entries: seq<Entry>): set<Ino> {
    FreedBy(fs, Own(entries))
  }

  lemma FreedIsExclusive(fs: Fs, entries: seq<Entry>, i: Ino)
    ensures i in Freed(fs, entries) <==> i in fs.inodes && OwnLinks(fs, entries, i) != {} && !IsShared(fs, entries, i)
  {
    var gone := Own(entries);
    assert Links(Unlink(fs, gone), i) == Links(fs, i) - gone;
    forall n | n in Links(fs, i) && n !in gone ensures Links(fs, i) - gone != {} {
      assert n in Links(fs, i) - gone;
    }
    assert Links(fs, i) <= gone ==> OwnLinks(fs, entries, i) == Links(fs, i);
    assert OwnLinks(fs, entries, i) != {} ==> Links(fs, i) != {} by {
      if n :| n in OwnLinks(fs, entries, i) { assert n in Links(fs, i); }
    }
    hide Links, OwnLinks, Own;
  }

  // The scan succeeds exactly when every entry is the regular file the
  // manifest says.
  lemma StatsSucceed(fs: Fs, entries: seq<Entry>)
    requires UniqueNames(entries)
    ensures StatsOf(fs, entries).Some? <==> forall e :: e in entries ==> Present(fs, e)
    ensures StatsOf(fs, entries).Some? ==>
      Collect(fs, entries).Some? && Totalled(fs, entries, Collect(fs, entries).value.order, Collect(fs, entries).value.of, StatsOf(fs, entries).value)
  {
    hide UniqueNames, Collect, Totals, Totalled, Present, Describes, Logical, Files, Sizes;
    CollectHolds(fs, entries, Marked(fs, entries, true));
    if Collect(fs, entries).Some? { TotalsOfGroups(fs, entries, Collect(fs, entries).value); }
  }

  lemma TotalsOfGroups(fs: Fs, entries: seq<Entry>, g: Groups)
    requires Ordered(g) && Described(fs, entries, g)
    ensures Totals(g.order, g.of).Some? && Totalled(fs, entries, g.order, g.of, Totals(g.order, g.of).value)
  {
    hide Totals, Totalled, Describes, OwnLinks;
    TotalsExact(fs, entries, g.order, g.of);
  }

  // Its parts add up to the manifest, and the exclusive bytes are exactly the
  // blocks that unlinking the artifact's files gives back.
  lemma StatsPredictDeletion(fs: Fs, entries: seq<Entry>)
    requires UniqueNames(entries) && StatsOf(fs, entries).Some?
    ensures var s := StatsOf(fs, entries).value;
            var shared, own := Those(fs, entries, Marked(fs, entries, true)), Those(fs, entries, Marked(fs, entries, false));
            && s.sharedLogical == Sizes(shared) && s.sharedFiles == |shared|
            && s.exclusiveLogical == Sizes(own) && s.exclusiveFiles == |own|
            && Freed(fs, entries) + SharedInodes(fs, entries) <= fs.inodes.Keys
            && s.exclusiveAllocated == 512 * Blocks(fs, Freed(fs, entries))
            && s.sharedAllocated == 512 * Blocks(fs, SharedInodes(fs, entries))
    ensures Blocks(fs, Freed(fs, entries)) == Blocks(fs, Named(fs)) - Blocks(Unlink(fs, Own(entries)), Named(Unlink(fs, Own(entries))))
    ensures var s := StatsOf(fs, entries).value;
            s.sharedLogical + s.exclusiveLogical == Sizes(entries) && s.sharedFiles + s.exclusiveFiles == |entries|
  {
    StatsSucceed(fs, entries);
    CollectHolds(fs, entries, Marked(fs, entries, true));
    CollectHolds(fs, entries, Marked(fs, entries, false));
    var g := Collect(fs, entries).value;
    assert Summed(fs, entries, g, Marked(fs, entries, true)) && Summed(fs, entries, g, Marked(fs, entries, false));
    FreedParts(fs, entries, g);
    FreedBlocks(fs, Own(entries));
    BothParts(fs, entries, entries);
    hide StatsOf, Collect, Freed, Parts, Blocks, Logical, Files, Sizes, Own, Described, Ordered, Named, UniqueNames, Marked, SharedInodes, Those, Present;
  }

  // Inodes of the artifact that some other name leads to.
  ghost function SharedInodes(fs: Fs, entries: seq<Entry>): set<Ino> {
    set i | i in fs.inodes && OwnLinks(fs, entries, i) != {} && IsShared(fs, entries, i)
  }

  lemma {:induction false} BothParts(fs: Fs, all: seq<Entry>, entries: seq<Entry>)
    requires forall e :: e in entries ==> Present(fs, e)
    ensures var shared, own := Those(fs, entries, Marked(fs, all, true)), Those(fs, entries, Marked(fs, all, false));
            Sizes(shared) + Sizes(own) == Sizes(entries) && |shared| + |own| == |entries|
  {
    if entries != [] {
      var init, e := entries[..|entries|-1], entries[|entries|-1];
      assert entries == init + [e] && e in entries && Present(fs, e);
      assert Marked(fs, all, true)(fs.names[e.name]) != Marked(fs, all, false)(fs.names[e.name]);
      hide IsShared, Marked, Those, Sizes;
      BothParts(fs, all, init);
      ThoseGrow(fs, init, e, Marked(fs, all, true));
      ThoseGrow(fs, init, e, Marked(fs, all, false));
      SizesGrow(init, e);
    }
  }

  lemma FreedParts(fs: Fs, entries: seq<Entry>, g: Groups)
    requires Ordered(g) && Described(fs, entries, g)
    ensures Parts(fs, entries, g.order, false) == Freed(fs, entries) && Parts(fs, entries, g.order, true) == SharedInodes(fs, entries)
  {
    hide Freed, OwnLinks, IsShared, Describes;
    forall i ensures i in Parts(fs, entries, g.order, false) <==> i in Freed(fs, entries) { FreedIsExclusive(fs, entries, i); }
  }

  lemma FreedBlocks(fs: Fs, gone: set<Name>)
    ensures FreedBy(fs, gone) <= Named(fs)
    ensures Blocks(fs, FreedBy(fs, gone)) == Blocks(fs, Named(fs)) - Blocks(Unlink(fs, gone), Named(Unlink(fs, gone)))
  {
    var after := Unlink(fs, gone);
    UnlinkKeepsSome(fs, gone);
    BlocksSplit(fs, Named(fs), FreedBy(fs, gone));
    assert Named(fs) - FreedBy(fs, gone) == Named(after);
    BlocksUnlinked(fs, gone, Named(after));
  }

  lemma UnlinkKeepsSome(fs: Fs, gone: set<Name>)
    ensures Named(Unlink(fs, gone)) <= Named(fs)
  {
    forall i | i in Named(Unlink(fs, gone)) ensures i in Named(fs) {
      var n :| n in Links(Unlink(fs, gone), i);
      assert n in Links(fs, i);
    }
  }

  lemma {:induction false} BlocksUnlinked(fs: Fs, gone: set<Name>, s: set<Ino>)
    requires s <= fs.inodes.Keys
    ensures Blocks(Unlink(fs, gone), s) == Blocks(fs, s)
  {
    if s != {} {
      var i :| i in s;
      BlocksWithout(fs, s, i);
      BlocksWithout(Unlink(fs, gone), s, i);
      BlocksUnlinked(fs, gone, s - {i});
    }
  }

  // ---- metadata ------------------------------------------------------------------------------------

  predicate AllThere(fs: Fs, paths: seq<Name>) {
    forall p :: p in paths ==> p in fs.names && fs.names[p] in fs.inodes
  }

  function InodesOf(fs: Fs, paths: seq<Name>): set<Ino> {
    set p | p in paths && p in fs.names :: fs.names[p]
  }

  // The directories of the artifact and what lies below `.modelshelf`, each
  // inode once; None when a path is gone.
  method MetadataBytes(fs: Fs, paths: seq<Name>) returns (bytes: Option<nat>)
    ensures bytes.Some? <==> AllThere(fs, paths)
    ensures bytes.Some? ==> InodesOf(fs, paths) <= fs.inodes.Keys && bytes.value == 512 * Blocks(fs, InodesOf(fs, paths))
  {
    var total, seen: set<Ino> := 0, {};
    for k := 0 to |paths|
      invariant AllThere(fs, paths[..k]) && seen == InodesOf(fs, paths[..k]) && seen <= fs.inodes.Keys
      invariant total == 512 * Blocks(fs, seen)
    {
      assert paths[..k+1] == paths[..k] + [paths[k]] && paths[k] in paths;
      if paths[k] !in fs.names || fs.names[paths[k]] !in fs.inodes { return None; }
      var i := fs.names[paths[k]];
      assert InodesOf(fs, paths[..k+1]) == seen + {i};
      if i !in seen {
        BlocksWithout(fs, seen + {i}, i);
        assert seen + {i} - {i} == seen;
        total := total + fs.inodes[i].blocks * 512;
      } else {
        assert seen + {i} == seen;
      }
      seen := seen + {i};
    }
    assert paths[..|paths|] == paths;
    bytes := Some(total);
  }

  // Nothing but the metadata paths leads to their inodes, and none of them is
  // a file of the manifest.
  ghost predicate OwnMetadata(fs: Fs, entries: seq<Entry>, paths: seq<Name>) {
    forall p :: p in paths ==> p !in Own(entries) && p in fs.names && Links(fs, fs.names[p]) <= Set(paths)
  }

  function Set(paths: seq<Name>): set<Name> {
    set p | p in paths
  }

  lemma FreedExact(fs: Fs, gone: set<Name>, i: Ino)
    ensures i in FreedBy(fs, gone) <==> i in fs.inodes && Links(fs, i) != {} && Links(fs, i) <= gone
  {
    assert Links(Unlink(fs, gone), i) == Links(fs, i) - gone;
    forall n | n in Links(fs, i) && n !in gone ensures Links(fs, i) - gone != {} {
      assert n in Links(fs, i) - gone;
    }
    hide Links;
  }

  lemma FreedWithMetadata(fs: Fs, entries: seq<Entry>, paths: seq<Name>, i: Ino)
    requires AllThere(fs, paths) && OwnMetadata(fs, entries, paths)
    ensures i in FreedBy(fs, Own(entries) + Set(paths)) <==> i in Freed(fs, entries) || i in InodesOf(fs, paths)
    ensures !(i in Freed(fs, entries) && i in InodesOf(fs, paths))
  {
    FreedExact(fs, Own(entries), i);
    FreedExact(fs, Own(entries) + Set(paths), i);
    hide Own, FreedBy;
    if i in InodesOf(fs, paths) {
      var p :| p in paths && p in fs.names && fs.names[p] == i;
      assert p in Links(fs, i);
    } else {
      assert forall n :: n in Links(fs, i) ==> n !in Set(paths);
    }
  }

  // The reclaimable bytes are exactly the blocks freed when the files and the
  // metadata of the artifact go.
  lemma ReclaimableIsFreed(fs: Fs, entries: seq<Entry>, paths: seq<Name>)
    requires UniqueNames(entries) && StatsOf(fs, entries).Some? && AllThere(fs, paths) && OwnMetadata(fs, entries, paths)
    ensures var gone := Own(entries) + Set(paths);
            && InodesOf(fs, paths) <= fs.inodes.Keys
            && StatsOf(fs, entries).value.exclusiveAllocated + 512 * Blocks(fs, InodesOf(fs, paths))
               == 512 * (Blocks(fs, Named(fs)) - Blocks(Unlink(fs, gone), Named(Unlink(fs, gone))))
  {
    var gone, freed := Own(entries) + Set(paths), FreedBy(fs, Own(entries) + Set(paths));
    StatsPredictDeletion(fs, entries);
    FreedBlocks(fs, gone);
    forall i ensures i in freed <==> i in Freed(fs, entries) || i in InodesOf(fs, paths)
             ensures !(i in Freed(fs, entries) && i in InodesOf(fs, paths)) {
      FreedWithMetadata(fs, entries, paths, i);
    }
    hide StatsOf, FreedBy, Freed, Own, Named, UniqueNames, OwnMetadata;
    BlocksSplit(fs, freed, Freed(fs, entries));
    assert freed - Freed(fs, entries) == InodesOf(fs, paths);
  }
}
