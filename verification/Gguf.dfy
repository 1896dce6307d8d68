// GGUF variants: the server groups weight files (providers.py), the client
// checks a group (config.go). Paths are ASCII, where the case folding of both
// languages is the same.
module Gguf {
  import opened Sequences
  import opened Strings
  import opened TaskTypes

  // ---- names ---------------------------------------------------------------------------

  function LowerChar(c: char): char {
    if 'A' <= c <= 'Z' then c - 'A' + 'a' else c
  }

  function Lower(s: string): string {
    seq(|s|, i requires 0 <= i < |s| => LowerChar(s[i]))
  }

  predicate EndsWith(s: string, suffix: string) {
    |suffix| <= |s| && s[|s|-|suffix|..] == suffix
  }

  predicate Contains(s: string, part: string) {
    |part| <= |s| && (s[..|part|] == part || (s != "" && Contains(s[1..], part)))
  }

  // What follows the last slash.
  function BaseName(path: string): string {
    if path == "" || path[|path|-1] == '/' then "" else BaseName(path[..|path|-1]) + [path[|path|-1]]
  }

  const MARKERS := ["adapter", "draft", "lora", "mmproj", "mtp", "projector"]
  const OTHER_WEIGHTS := [".bin", ".ckpt", ".engine", ".h5", ".onnx", ".pt", ".pth", ".safetensors", ".tflite"]

  predicate IsDependency(path: string) {
    exists m :: m in MARKERS && Contains(Lower(BaseName(path)), m)
  }

  predicate IsOtherWeight(path: string) {
    exists s :: s in OTHER_WEIGHTS && EndsWith(Lower(path), s)
  }

  predicate IsWeight(path: string) {
    EndsWith(Lower(path), ".gguf") && !IsDependency(path)
  }

  // ---- the shard pattern ------------------------------------------------------------------

  datatype Shard = Shard(prefix: string, index: nat, total: nat)

  // `-ddddd-of-ddddd.gguf` at the end, any case; no newline before it.
  predicate HasShardTail(path: string) {
    && |path| >= 20
    && var tail := path[|path|-20..];
       && tail[0] == '-' && (forall i :: 1 <= i < 6 ==> IsDigit(tail[i]))
       && Lower(tail[6..10]) == "-of-" && (forall i :: 10 <= i < 15 ==> IsDigit(tail[i]))
       && Lower(tail[15..]) == ".gguf" && '\n' !in path[..|path|-20]
  }

  // The client's pattern allows an empty prefix ...
  function ClientShard(path: string): Option<Shard> {
    if !HasShardTail(path) then None
    else Some(Shard(path[..|path|-20], Value(path[|path|-19..|path|-14]), Value(path[|path|-10..|path|-5])))
  }

  // ... the server's does not.
  function ServerShard(path: string): Option<Shard> {
    if |path| == 20 then None else ClientShard(path)
  }

  // ---- the server ------------------------------------------------------------------------------

  datatype Member = Member(index: nat, total: nat, path: string)
  datatype Variant = Variant(name: string, paths: seq<string>)

  // `split_groups` with its insertion order, and `labels`.
  datatype Scan = Scan(singles: seq<string>, order: seq<string>, labels: map<string, string>, groups: map<string, seq<Member>>)

  function ShardLabel(path: string, s: Shard): string {
    s.prefix + (if |path| >= 5 then path[|path|-5..] else "")
  }

  function ScanOne(s: Scan, path: string): Scan {
    var shard := ServerShard(path);
    if shard.None? then s.(singles := s.singles + [path])
    else
      var key, m := Lower(ShardLabel(path, shard.value)), Member(shard.value.index, shard.value.total, path);
      if key in s.groups
      then s.(groups := s.groups[key := s.groups[key] + [m]])
      else s.(order := s.order + [key], labels := s.labels[key := ShardLabel(path, shard.value)], groups := s.groups[key := [m]])
  }

  function ScanAll(paths: seq<string>): Scan {
    if paths == [] then Scan([], [], map[], map[]) else ScanOne(ScanAll(paths[..|paths|-1]), paths[|paths|-1])
  }

  predicate LowerIndex(a: Member, b: Member) { a.index < b.index }

  function SortMembers(q: seq<Member>): seq<Member> {
    SortBy(q, LowerIndex)
  }

  function PathsOf(q: seq<Member>): seq<string> {
    seq(|q|, i requires 0 <= i < |q| => q[i].path)
  }

  // All totals agree, and the indexes are exactly 1 to that total.
  predicate IsComplete(members: seq<Member>) {
    && members != []
    && (forall m :: m in members ==> m.total == members[0].total)
    && members[0].total >= 1 && members[0].total == |members|
    && (forall i :: 0 <= i < |members| ==> SortMembersAt(members, i) == i + 1)
  }

  function SortMembersAt(members: seq<Member>, i: nat): nat {
    var q := SortMembers(members); if i < |q| then q[i].index else 0
  }

  // None when some group is ambiguous.
  function GroupVariants(s: Scan, order: seq<string>): Option<seq<Variant>> {
    if order == [] then Some([])
    else
      var init, key := GroupVariants(s, order[..|order|-1]), order[|order|-1];
      if init.None? || key !in s.groups || key !in s.labels || !IsComplete(s.groups[key]) then None
      else Some(init.value + [Variant(s.labels[key], PathsOf(SortMembers(s.groups[key])))])
  }

  function SingleVariants(singles: seq<string>): seq<Variant> {
    seq(|singles|, i requires 0 <= i < |singles| => Variant(singles[i], [singles[i]]))
  }

  predicate LabelsDistinct(vs: seq<Variant>) {
    forall i, j :: 0 <= i < j < |vs| ==> Lower(vs[i].name) != Lower(vs[j].name)
  }

  predicate LowerLabel(a: Variant, b: Variant) { Less(Lower(a.name), Lower(b.name)) }

  function SortVariants(q: seq<Variant>): seq<Variant> {
    SortBy(q, LowerLabel)
  }

  function Weights(files: seq<string>): seq<string> {
    if files == [] then []
    else
      var init, last := Weights(files[..|files|-1]), files[|files|-1];
      if IsWeight(last) then init + [last] else init
  }

  function Unsorted(files: seq<string>): Option<seq<Variant>> {
    var s := ScanAll(Weights(files));
    var groups := GroupVariants(s, s.order);
    if groups.None? then None else Some(SingleVariants(s.singles) + groups.value)
  }

  function Discover(files: seq<string>): seq<Variant> {
    if files == [] || |files| > 5000 || (exists f :: f in files && IsOtherWeight(f)) then []
    else if Unsorted(files).None? || !LabelsDistinct(Unsorted(files).value) then []
    else SortVariants(Unsorted(files).value)
  }

  // ---- a complete partition ------------------------------------------------------------------------

  function AllPaths(vs: seq<Variant>): seq<string> {
    if vs == [] then [] else AllPaths(vs[..|vs|-1]) + vs[|vs|-1].paths
  }

  lemma Cancel<T>(a: multiset<T>, b: multiset<T>, x: T)
    requires a + multiset{x} == b + multiset{x}
    ensures a == b
  {
    assert a == a + multiset{x} - multiset{x} && b == b + multiset{x} - multiset{x};
  }

  // Taking the same element out of two arrangements leaves two arrangements.
  lemma OneLess<T>(p: seq<T>, q: seq<T>) returns (k: nat)
    requires multiset(p) == multiset(q) && p != []
    ensures k < |q| && q[k] == p[0] && multiset(Without(p, 0)) == multiset(Without(q, k)) && |Without(p, 0)| == |p| - 1
  {
    assert p[0] in multiset(q);
    k :| 0 <= k < |q| && q[k] == p[0];
    TakenOut(p, 0);
    TakenOut(q, k);
    Cancel(multiset(Without(p, 0)), multiset(Without(q, k)), p[0]);
  }

  lemma PathsTakenOut(q: seq<Member>, k: nat)
    requires k < |q|
    ensures multiset(PathsOf(q)) == multiset(PathsOf(Without(q, k))) + multiset{q[k].path}
  {
    TakenOut(PathsOf(q), k);
    assert PathsOf(Without(q, k)) == Without(PathsOf(q), k);
  }

  lemma {:induction false} PathsKeepContents(p: seq<Member>, q: seq<Member>)
    requires multiset(p) == multiset(q)
    ensures multiset(PathsOf(p)) == multiset(PathsOf(q))
    decreases |p|
  {
    assert |multiset(p)| == |multiset(q)|;
    if p != [] {
      var k := OneLess(p, q);
      PathsTakenOut(p, 0);
      PathsTakenOut(q, k);
      hide PathsOf, Without;
      PathsKeepContents(Without(p, 0), Without(q, k));
    }
  }

  // All paths held by the scan.
  function Grouped(order: seq<string>, groups: map<string, seq<Member>>): seq<string> {
    if order == [] then []
    else Grouped(order[..|order|-1], groups) + if order[|order|-1] in groups then PathsOf(groups[order[|order|-1]]) else []
  }

  lemma {:induction false} GroupedIgnores(order: seq<string>, groups: map<string, seq<Member>>, key: string, ms: seq<Member>)
    requires key !in order
    ensures Grouped(order, groups[key := ms]) == Grouped(order, groups)
  {
    if order != [] {
      assert order == order[..|order|-1] + [order[|order|-1]];
      GroupedIgnores(order[..|order|-1], groups, key, ms);
    }
  }

  lemma GroupedLast(order: seq<string>, groups: map<string, seq<Member>>)
    requires order != [] && order[|order|-1] in groups
    ensures multiset(Grouped(order, groups)) == multiset(Grouped(order[..|order|-1], groups)) + multiset(PathsOf(groups[order[|order|-1]]))
  {
  }

  lemma PathsGrow(ms: seq<Member>, m: Member)
    ensures multiset(PathsOf(ms + [m])) == multiset(PathsOf(ms)) + multiset{m.path}
  {
    assert PathsOf(ms + [m]) == PathsOf(ms) + [m.path];
  }

  lemma {:induction false} GroupedGrows(order: seq<string>, groups: map<string, seq<Member>>, key: string, m: Member)
    requires Distinct(order) && key in order && key in groups
    ensures multiset(Grouped(order, groups[key := groups[key] + [m]])) == multiset(Grouped(order, groups)) + multiset{m.path}
  {
    var init, last := order[..|order|-1], order[|order|-1];
    assert order == init + [last] && last !in init && Distinct(init);
    hide Distinct, PathsOf;
    if key == last {
      hide Grouped;
      GroupedIgnores(init, groups, key, groups[key] + [m]);
      GroupedLast(order, groups);
      GroupedLast(order, groups[key := groups[key] + [m]]);
      PathsGrow(groups[key], m);
    } else {
      GroupedGrows(init, groups, key, m);
    }
  }

  // What the scan has put where.
  ghost predicate Sorted(s: Scan, paths: seq<string>) {
    && Keyed(s) && multiset(s.singles) + multiset(Grouped(s.order, s.groups)) == multiset(paths)
    && (forall p :: p in s.singles ==> ServerShard(p).None?)
    && (forall k, m :: k in s.groups && m in s.groups[k] ==> Belongs(k, m))
  }

  ghost predicate Keyed(s: Scan) {
    && Distinct(s.order) && (forall k :: k in s.order <==> k in s.groups) && s.labels.Keys == s.groups.Keys
    && (forall k :: k in s.labels ==> Lower(s.labels[k]) == k)
  }

  predicate Belongs(key: string, m: Member) {
    var s := ServerShard(m.path);
    s.Some? && s.value.index == m.index && s.value.total == m.total && Lower(ShardLabel(m.path, s.value)) == key
  }

  lemma ScanOneKeyed(s: Scan, path: string)
    requires Keyed(s)
    ensures Keyed(ScanOne(s, path))
  {
    hide ServerShard, Lower, ShardLabel;
  }

  // The path joins the singles or one group.
  lemma ScanOneContents(s: Scan, path: string)
    requires Keyed(s)
    ensures var t := ScanOne(s, path);
            if ServerShard(path).None? then t.singles == s.singles + [path] && t.order == s.order && t.groups == s.groups
            else t.singles == s.singles && multiset(Grouped(t.order, t.groups)) == multiset(Grouped(s.order, s.groups)) + multiset{path}
  {
    var shard := ServerShard(path);
    hide ServerShard, Lower, ShardLabel, Grouped;
    if shard.Some? {
      var key, m := Lower(ShardLabel(path, shard.value)), Member(shard.value.index, shard.value.total, path);
      if key in s.groups { GroupedGrows(s.order, s.groups, key, m); } else { NewGroup(s.order, s.groups, key, m); }
    }
  }

  lemma Regroup<T>(a: multiset<T>, b: multiset<T>, x: T)
    ensures a + (b + multiset{x}) == a + b + multiset{x} && (a + multiset{x}) + b == a + b + multiset{x}
  {
  }

  lemma JoinsPaths(s: Scan, paths: seq<string>, path: string)
    requires Keyed(s) && multiset(s.singles) + multiset(Grouped(s.order, s.groups)) == multiset(paths)
    ensures var t := ScanOne(s, path); multiset(t.singles) + multiset(Grouped(t.order, t.groups)) == multiset(paths + [path])
  {
    ScanOneContents(s, path);
    Regroup(multiset(s.singles), multiset(Grouped(s.order, s.groups)), path);
    assert multiset(s.singles + [path]) == multiset(s.singles) + multiset{path};
    assert multiset(paths + [path]) == multiset(paths) + multiset{path};
    hide ScanOne, Grouped, ServerShard, Keyed;
  }

  lemma NewGroup(order: seq<string>, groups: map<string, seq<Member>>, key: string, m: Member)
    requires key !in order
    ensures multiset(Grouped(order + [key], groups[key := [m]])) == multiset(Grouped(order, groups)) + multiset{m.path}
  {
    GroupedIgnores(order, groups, key, [m]);
    assert (order + [key])[..|order|] == order && PathsOf([m]) == [m.path];
  }

  lemma ScanOneBelongs(s: Scan, path: string)
    requires forall k, m :: k in s.groups && m in s.groups[k] ==> Belongs(k, m)
    ensures var t := ScanOne(s, path); forall k, m :: k in t.groups && m in t.groups[k] ==> Belongs(k, m)
  {
    hide ServerShard, Lower, ShardLabel;
    var t := ScanOne(s, path);
    forall k, n | k in t.groups && n in t.groups[k] ensures Belongs(k, n) {
      if k in s.groups && n in s.groups[k] { assert Belongs(k, n); }
    }
  }

  lemma ScanOneSorted(s: Scan, paths: seq<string>, path: string)
    requires Sorted(s, paths)
    ensures Sorted(ScanOne(s, path), paths + [path])
  {
    ScanOneKeyed(s, path);
    JoinsPaths(s, paths, path);
    ScanOneBelongs(s, path);
    assert forall p :: p in ScanOne(s, path).singles ==> ServerShard(p).None?;
    hide ScanOne, ServerShard, Keyed, Grouped, Belongs;
  }

  lemma {:induction false} ScanAllSorted(paths: seq<string>)
    ensures Sorted(ScanAll(paths), paths)
  {
    if paths != [] {
      ScanAllSorted(paths[..|paths|-1]);
      hide Sorted, ScanOne;
      ScanOneSorted(ScanAll(paths[..|paths|-1]), paths[..|paths|-1], paths[|paths|-1]);
      assert paths == paths[..|paths|-1] + [paths[|paths|-1]];
    }
  }

  // A single file, or shards 1 to n of one label in order.
  ghost predicate WellFormed(v: Variant) {
    || (v.paths == [v.name] && ServerShard(v.name).None?)
    || (v.paths != [] && forall i :: 0 <= i < |v.paths| ==> IsShardOf(v.name, v.paths[i], i + 1, |v.paths|))
  }

  predicate IsShardOf(name: string, path: string, index: nat, total: nat) {
    var s := ServerShard(path);
    s.Some? && s.value.index == index && s.value.total == total && Lower(ShardLabel(path, s.value)) == Lower(name)
  }

  lemma GroupWellFormed(s: Scan, paths: seq<string>, key: string)
    requires Sorted(s, paths) && key in s.groups && IsComplete(s.groups[key])
    ensures WellFormed(Variant(s.labels[key], PathsOf(SortMembers(s.groups[key]))))
    ensures multiset(PathsOf(SortMembers(s.groups[key]))) == multiset(PathsOf(s.groups[key]))
  {
    var ms := s.groups[key];
    var q := SortMembers(ms);
    SortContents(ms, LowerIndex);
    PathsKeepContents(q, ms);
    forall i | 0 <= i < |q| ensures IsShardOf(s.labels[key], q[i].path, i + 1, |q|) {
      assert q[i] in multiset(ms) && SortMembersAt(ms, i) == i + 1;
      assert Belongs(key, q[i]);
    }
    hide ServerShard, Lower;
  }

  lemma {:induction false} GroupVariantsExact(s: Scan, paths: seq<string>, order: seq<string>)
    requires Sorted(s, paths) && GroupVariants(s, order).Some?
    ensures var vs := GroupVariants(s, order).value;
            multiset(AllPaths(vs)) == multiset(Grouped(order, s.groups)) && forall v :: v in vs ==> WellFormed(v)
  {
    if order != [] {
      var init, key := order[..|order|-1], order[|order|-1];
      GroupVariantsExact(s, paths, init);
      GroupWellFormed(s, paths, key);
      var vs := GroupVariants(s, order).value;
      assert vs[..|vs|-1] == GroupVariants(s, init).value;
      hide Sorted, WellFormed, IsComplete;
    }
  }

  lemma {:induction false} SinglesExact(singles: seq<string>)
    ensures AllPaths(SingleVariants(singles)) == singles
  {
    if singles != [] {
      SinglesExact(singles[..|singles|-1]);
      assert SingleVariants(singles)[..|singles|-1] == SingleVariants(singles[..|singles|-1]);
      assert singles == singles[..|singles|-1] + [singles[|singles|-1]];
    }
  }

  lemma AllPathsLast(q: seq<Variant>, v: Variant)
    ensures AllPaths(q + [v]) == AllPaths(q) + v.paths
  {
    assert (q + [v])[..|q|] == q;
  }

  lemma {:induction false} AllPathsConcat(p: seq<Variant>, q: seq<Variant>)
    ensures AllPaths(p + q) == AllPaths(p) + AllPaths(q)
  {
    if q == [] {
      assert p + q == p && AllPaths(q) == [];
    } else {
      var init, last := q[..|q|-1], q[|q|-1];
      assert q == init + [last] && p + q == (p + init) + [last];
      hide AllPaths;
      AllPathsConcat(p, init);
      AllPathsLast(p + init, last);
      AllPathsLast(init, last);
    }
  }

  lemma FirstPaths(q: seq<Variant>)
    requires q != []
    ensures AllPaths(q) == q[0].paths + AllPaths(q[1..])
  {
    AllPathsConcat([q[0]], q[1..]);
    assert q == [q[0]] + q[1..];
    assert AllPaths([q[0]]) == q[0].paths by { assert [q[0]][..0] == []; }
  }

  lemma VariantTakenOut(q: seq<Variant>, k: nat)
    requires k < |q|
    ensures multiset(AllPaths(q)) == multiset(AllPaths(Without(q, k))) + multiset(q[k].paths)
  {
    AllPathsConcat(q[..k], q[k..]);
    FirstPaths(q[k..]);
    AllPathsConcat(q[..k], q[k+1..]);
    assert q == q[..k] + q[k..] && q[k..][1..] == q[k+1..];
  }

  lemma {:induction false} VariantsKeepContents(p: seq<Variant>, q: seq<Variant>)
    requires multiset(p) == multiset(q)
    ensures multiset(AllPaths(p)) == multiset(AllPaths(q))
    decreases |p|
  {
    assert |multiset(p)| == |multiset(q)|;
    if p != [] {
      var k := OneLess(p, q);
      VariantTakenOut(p, 0);
      VariantTakenOut(q, k);
      hide AllPaths, Without;
      VariantsKeepContents(Without(p, 0), Without(q, k));
    }
  }

  lemma LabelsStayDistinct(p: seq<Variant>, q: seq<Variant>)
    requires LabelsDistinct(p) && multiset(p) == multiset(q)
    ensures LabelsDistinct(q)
  {
    hide Lower;
    forall i, j | 0 <= i < j < |q| ensures Lower(q[i].name) != Lower(q[j].name) {
      if Lower(q[i].name) == Lower(q[j].name) {
        assert q[i] in multiset(p) && q[j] in multiset(p);
        var k :| 0 <= k < |p| && p[k] == q[i];
        var l :| 0 <= l < |p| && p[l] == q[j];
        assert k == l;
        Twice(q, i, j);
        Once(p, k);
      }
    }
  }

  // A non-empty result holds every weight file exactly once, in well-formed
  // variants whose labels differ whatever the case.
  lemma DiscoverIsPartition(files: seq<string>)
    requires Discover(files) != []
    ensures multiset(AllPaths(Discover(files))) == multiset(Weights(files))
    ensures LabelsDistinct(Discover(files)) && forall v :: v in Discover(files) ==> WellFormed(v)
  {
    var vs := Unsorted(files).value;
    UnsortedIsPartition(files);
    SortContents(vs, LowerLabel);
    VariantsKeepContents(SortVariants(vs), vs);
    LabelsStayDistinct(vs, SortVariants(vs));
    forall v | v in SortVariants(vs) ensures WellFormed(v) { assert v in multiset(vs); }
    hide Unsorted, SortVariants, WellFormed, AllPaths, Weights, LabelsDistinct;
  }

  lemma UnsortedIsPartition(files: seq<string>)
    requires Unsorted(files).Some?
    ensures multiset(AllPaths(Unsorted(files).value)) == multiset(Weights(files)) && forall v :: v in Unsorted(files).value ==> WellFormed(v)
  {
    var s := ScanAll(Weights(files));
    ScanAllSorted(Weights(files));
    GroupVariantsExact(s, Weights(files), s.order);
    SinglesExact(s.singles);
    var singles := SingleVariants(s.singles);
    AllPathsConcat(singles, GroupVariants(s, s.order).value);
    forall v | v in singles ensures WellFormed(v) {
      assert v.paths == [v.name] && v.name in s.singles;
    }
    hide ScanAll, GroupVariants, WellFormed, AllPaths, Weights;
  }

  // ---- the loops of the server -----------------------------------------------------------------

  method DiscoverVariants(files: seq<string>) returns (variants: seq<Variant>)
    ensures variants == Discover(files)
  {
    if files == [] || |files| > 5000 || (exists f :: f in files && IsOtherWeight(f)) { return []; }
    hide IsOtherWeight, SortVariants, LabelsDistinct, SingleVariants, Weights;
    var s := ScanWeights(Weights(files));
    var groups := BuildGroups(s);
    hide ScanAll, GroupVariants;
    if groups.None? { return []; }
    var all := SingleVariants(s.singles) + groups.value;
    if !LabelsDistinct(all) { return []; }
    variants := SortVariants(all);
  }

  method ScanWeights(weights: seq<string>) returns (s: Scan)
    ensures s == ScanAll(weights)
  {
    hide ScanOne;
    s := Scan([], [], map[], map[]);
    for i := 0 to |weights|
      invariant s == ScanAll(weights[..i])
    {
      assert weights[..i+1][..i] == weights[..i];
      s := ScanOne(s, weights[i]);
    }
    assert weights[..|weights|] == weights;
  }

  method BuildGroups(s: Scan) returns (groups: Option<seq<Variant>>)
    ensures groups == GroupVariants(s, s.order)
  {
    hide IsComplete, SortMembers, PathsOf;
    var built: seq<Variant> := [];
    for i := 0 to |s.order|
      invariant GroupVariants(s, s.order[..i]) == Some(built)
    {
      assert s.order[..i+1][..i] == s.order[..i];
      var key := s.order[i];
      if key !in s.groups || key !in s.labels || !IsComplete(s.groups[key]) {
        GroupsStop(s, i + 1);
        return None;
      }
      built := built + [Variant(s.labels[key], PathsOf(SortMembers(s.groups[key])))];
    }
    assert s.order[..|s.order|] == s.order;
    groups := Some(built);
  }

  lemma {:induction false} GroupsStop(s: Scan, k: nat)
    requires k <= |s.order| && GroupVariants(s, s.order[..k]).None?
    ensures GroupVariants(s, s.order).None?
    decreases |s.order| - k
  {
    if k < |s.order| {
      assert s.order[..k+1][..k] == s.order[..k];
      GroupsStop(s, k + 1);
    } else {
      assert s.order[..k] == s.order;
    }
  }

  // ---- the client ------------------------------------------------------------------------------------

  predicate ClientWeight(path: string) {
    EndsWith(Lower(BaseName(path)), ".gguf") && !IsDependency(path)
  }

  predicate InGroup(path: string, first: Shard) {
    var s := ClientShard(path);
    s.Some? && Lower(s.value.prefix) == Lower(first.prefix) && s.value.total == first.total && 1 <= s.value.index <= first.total
  }

  function ShardIndex(path: string): nat {
    if ClientShard(path).Some? then ClientShard(path).value.index else 0
  }

  ghost predicate ClientAccepts(files: seq<string>) {
    && files != [] && (forall f :: f in files ==> ClientWeight(f))
    && match ClientShard(files[0])
       case None => |files| == 1
       case Some(first) =>
         && first.total >= 1 && |files| == first.total && (forall f :: f in files ==> InGroup(f, first)) && IndexesDiffer(files)
  }

  ghost predicate IndexesDiffer(files: seq<string>) {
    forall i, j :: 0 <= i < j < |files| ==> ShardIndex(files[i]) != ShardIndex(files[j])
  }

  method ValidateGgufVariant(files: seq<string>) returns (ok: bool)
    ensures ok <==> ClientAccepts(files)
  {
    if files == [] { return false; }
    if exists f :: f in files && !ClientWeight(f) { return false; }
    var first := ClientShard(files[0]);
    if first.None? { return |files| == 1; }
    if first.value.total < 1 || |files| != first.value.total { return false; }
    ok := CheckShards(files, first.value);
  }

  method CheckShards(files: seq<string>, first: Shard) returns (ok: bool)
    ensures ok <==> (forall f :: f in files ==> InGroup(f, first)) && IndexesDiffer(files)
  {
    hide InGroup, ShardIndex;
    var seen: set<nat> := {};
    for i := 0 to |files|
      invariant forall f :: f in files[..i] ==> InGroup(f, first)
      invariant IndexesDiffer(files[..i])
      invariant forall n :: n in seen <==> exists j :: 0 <= j < i && ShardIndex(files[j]) == n
    {
      assert files[..i+1] == files[..i] + [files[i]] && files[i] in files;
      if !InGroup(files[i], first) { return false; }
      if ShardIndex(files[i]) in seen {
        var j :| 0 <= j < i && ShardIndex(files[j]) == ShardIndex(files[i]);
        return false;
      }
      seen := seen + {ShardIndex(files[i])};
    }
    assert files[..|files|] == files;
    ok := true;
  }

  // ---- the two agree -----------------------------------------------------------------------------------

  // The base name is the longest end without a slash.
  lemma {:induction false} BaseIsTail(s: string)
    ensures var b := BaseName(s);
            |b| <= |s| && s[|s|-|b|..] == b && '/' !in b && (|b| < |s| ==> s[|s|-|b|-1] == '/')
  {
    if s != "" && s[|s|-1] != '/' { BaseIsTail(s[..|s|-1]); }
  }

  lemma NoSlashInTail(path: string, k: nat)
    requires IsWeight(path) && |path| - 5 <= k < |path|
    ensures path[k] != '/'
  {
    assert Lower(path)[|path|-5..][k - (|path| - 5)] == LowerChar(path[k]);
  }

  lemma WeightsAgree(path: string)
    requires IsWeight(path)
    ensures ClientWeight(path)
  {
    BaseIsTail(path);
    var b, l := BaseName(path), Lower(path);
    if |b| < 5 {
      NoSlashInTail(path, |path| - |b| - 1);
    } else {
      assert Lower(b) == l[|path|-|b|..];
      assert Lower(b)[|b|-5..] == l[|path|-5..];
    }
  }

  lemma {:induction false} WeightsAreWeights(files: seq<string>, path: string)
    requires path in Weights(files)
    ensures IsWeight(path)
  {
    var init, last := files[..|files|-1], files[|files|-1];
    if path != last || !IsWeight(last) { WeightsAreWeights(init, path); }
  }

  lemma LowerConcat(s: string, t: string)
    ensures Lower(s + t) == Lower(s) + Lower(t)
  {
  }

  // Shards of one label belong to one group of the client.
  lemma ShardsAgree(name: string, p: string, i: nat, q: string, j: nat, total: nat)
    requires IsShardOf(name, p, i, total) && IsShardOf(name, q, j, total) && 1 <= j <= total
    ensures ClientShard(p).Some? && InGroup(q, ClientShard(p).value)
  {
    var a, b := ClientShard(p).value, ClientShard(q).value;
    LowerConcat(a.prefix, p[|p|-5..]);
    LowerConcat(b.prefix, q[|q|-5..]);
    ShardSuffix(p);
    ShardSuffix(q);
    var x, y := Lower(a.prefix), Lower(b.prefix);
    assert x + ".gguf" == y + ".gguf";
    assert x == (x + ".gguf")[..|x + ".gguf"|-5] && y == (y + ".gguf")[..|y + ".gguf"|-5];
  }

  lemma ShardSuffix(p: string)
    requires HasShardTail(p)
    ensures Lower(p[|p|-5..]) == ".gguf"
  {
    assert p[|p|-20..][15..] == p[|p|-5..];
  }

  lemma {:induction false} VariantPaths(vs: seq<Variant>, v: Variant, p: string)
    requires v in vs && p in v.paths
    ensures p in AllPaths(vs)
  {
    if v != vs[|vs|-1] { VariantPaths(vs[..|vs|-1], v, p); }
  }

  lemma DiscoveredAreWeights(files: seq<string>, v: Variant, p: string)
    requires v in Discover(files) && p in v.paths
    ensures ClientWeight(p)
  {
    DiscoverIsPartition(files);
    VariantPaths(Discover(files), v, p);
    assert p in multiset(Weights(files));
    WeightsAreWeights(files, p);
    WeightsAgree(p);
  }

  // The client accepts a discovered variant in whatever order it holds the
  // files, except a single file that its pattern, with an empty prefix, takes
  // for one shard of several.
  lemma DiscoveredIsAccepted(files: seq<string>, v: Variant, q: seq<string>)
    requires v in Discover(files) && multiset(q) == multiset(v.paths)
    ensures ClientAccepts(q) <==> !(|v.paths| == 1 && ClientShard(v.paths[0]).Some? && ClientShard(v.paths[0]).value.(prefix := "") != Shard("", 1, 1))
  {
    DiscoverIsPartition(files);
    assert |multiset(q)| == |multiset(v.paths)|;
    hide Discover, Weights, WellFormed, ClientAccepts, ClientWeight, ClientShard, AllPaths, LabelsDistinct;
    forall f | f in q ensures ClientWeight(f) {
      assert f in multiset(v.paths);
      DiscoveredAreWeights(files, v, f);
    }
    WellFormedAccepted(v, q);
  }

  lemma WellFormedAccepted(v: Variant, q: seq<string>)
    requires WellFormed(v) && multiset(q) == multiset(v.paths) && |q| == |v.paths| && forall f :: f in q ==> ClientWeight(f)
    ensures ClientAccepts(q) <==> !(|v.paths| == 1 && ClientShard(v.paths[0]).Some? && ClientShard(v.paths[0]).value.(prefix := "") != Shard("", 1, 1))
  {
    hide ClientWeight, HasShardTail, ClientAccepts, IsShardOf, ServerShard, ClientShard;
    if v.paths == [v.name] && ServerShard(v.name).None? {
      assert q[0] in multiset(v.paths) && q == v.paths;
      SingleAccepted(q);
    } else {
      ShardedAccepted(v, q);
    }
  }

  lemma SingleAccepted(q: seq<string>)
    requires |q| == 1 && ClientWeight(q[0])
    ensures ClientAccepts(q) <==> (ClientShard(q[0]).Some? ==> ClientShard(q[0]).value.(prefix := "") == Shard("", 1, 1))
  {
    hide ClientWeight, HasShardTail, Lower;
    if ClientShard(q[0]).Some? {
      var first := ClientShard(q[0]).value;
      assert (forall f :: f in q ==> InGroup(f, first)) <==> InGroup(q[0], first);
      assert first.(prefix := "") == Shard("", first.index, first.total);
    }
  }

  lemma ShardedAccepted(v: Variant, q: seq<string>)
    requires v.paths != [] && multiset(q) == multiset(v.paths) && |q| == |v.paths| && forall f :: f in q ==> ClientWeight(f)
    requires forall i :: 0 <= i < |v.paths| ==> IsShardOf(v.name, v.paths[i], i + 1, |v.paths|)
    ensures ClientAccepts(q)
    ensures |v.paths| == 1 ==> ClientShard(v.paths[0]).Some? && ClientShard(v.paths[0]).value.(prefix := "") == Shard("", 1, 1)
  {
    var n := |q|;
    forall i | 0 <= i < n ensures 1 <= ShardIndex(q[i]) <= n && v.paths[ShardIndex(q[i]) - 1] == q[i] && IsShardOf(v.name, q[i], ShardIndex(q[i]), n) {
      OwnPlace(v, q, i);
    }
    hide ClientWeight, HasShardTail, ClientShard, Lower, IsShardOf;
    OwnIndexes(v, q);
    forall f | f in q ensures ClientShard(q[0]).Some? && InGroup(f, ClientShard(q[0]).value) {
      var j :| 0 <= j < n && q[j] == f;
      ShardsAgree(v.name, q[0], ShardIndex(q[0]), q[j], ShardIndex(q[j]), n);
    }
    FirstOf(v.name, q[0], ShardIndex(q[0]), n);
    if n == 1 { FirstOf(v.name, v.paths[0], 1, 1); }
    hide InGroup;
  }

  lemma OwnPlace(v: Variant, q: seq<string>, i: nat)
    requires multiset(q) == multiset(v.paths) && |q| == |v.paths| && i < |q|
    requires forall i :: 0 <= i < |v.paths| ==> IsShardOf(v.name, v.paths[i], i + 1, |v.paths|)
    ensures 1 <= ShardIndex(q[i]) <= |q| && v.paths[ShardIndex(q[i]) - 1] == q[i] && IsShardOf(v.name, q[i], ShardIndex(q[i]), |q|)
  {
    assert q[i] in multiset(v.paths);
    var k :| 0 <= k < |q| && v.paths[k] == q[i];
    FirstOf(v.name, v.paths[k], k + 1, |q|);
    hide IsShardOf, ClientShard;
  }

  lemma FirstOf(name: string, p: string, i: nat, total: nat)
    requires IsShardOf(name, p, i, total)
    ensures ClientShard(p).Some? && ClientShard(p).value.total == total && ClientShard(p).value.index == i
  {
    hide HasShardTail, Lower;
  }

  // Each file is the shard its index says, so no index comes twice.
  lemma OwnIndexes(v: Variant, q: seq<string>)
    requires multiset(q) == multiset(v.paths) && |q| == |v.paths|
    requires forall i :: 0 <= i < |q| ==> 1 <= ShardIndex(q[i]) <= |q| && v.paths[ShardIndex(q[i]) - 1] == q[i]
    requires forall i :: 0 <= i < |v.paths| ==> IsShardOf(v.name, v.paths[i], i + 1, |v.paths|)
    ensures IndexesDiffer(q)
  {
    hide ShardIndex, IsShardOf;
    forall i, j | 0 <= i < j < |q| ensures ShardIndex(q[i]) != ShardIndex(q[j]) {
      if ShardIndex(q[i]) == ShardIndex(q[j]) {
        var k := ShardIndex(q[i]) - 1;
        Twice(q, i, j);
        forall l | 0 <= l < |q| && l != k ensures v.paths[l] != v.paths[k] {
          FirstOf(v.name, v.paths[l], l + 1, |q|);
          FirstOf(v.name, v.paths[k], k + 1, |q|);
        }
        Once(v.paths, k);
      }
    }
  }

  // ---- the file the two disagree on --------------------------------------------------------------------

  lemma {:induction false} ContainsFirst(s: string, part: string)
    requires part != "" && Contains(s, part)
    ensures part[0] in s
  {
    if s[..|part|] == part {
      assert s[0] == part[0];
    } else {
      ContainsFirst(s[1..], part);
    }
  }

  lemma {:induction false} BaseWhole(s: string)
    requires '/' !in s
    ensures BaseName(s) == s
  {
    if s != "" { BaseWhole(s[..|s|-1]); }
  }

  lemma OneScanned(file: string)
    requires ServerShard(file).None?
    ensures ScanAll([file]) == Scan([file], [], map[], map[])
  {
    assert [file][..0] == [] && ScanAll([]) == Scan([], [], map[], map[]);
    hide ServerShard;
  }

  lemma OneUnsorted(file: string)
    requires IsWeight(file) && ServerShard(file).None?
    ensures Unsorted([file]) == Some([Variant(file, [file])])
  {
    assert [file][..0] == [] && Weights([]) == [];
    assert Weights([file]) == [file];
    OneScanned(file);
    var s := Scan([file], [], map[], map[]);
    assert GroupVariants(s, []) == Some([]);
    assert SingleVariants([file]) == [Variant(file, [file])];
    assert SingleVariants([file]) + [] == [Variant(file, [file])];
    hide ScanAll, IsWeight, ServerShard, Weights, GroupVariants, SingleVariants;
  }

  lemma OneSorted(v: Variant)
    ensures SortVariants([v]) == [v] && LabelsDistinct([v])
  {
    assert [v][..0] == [];
    assert SortBy<Variant>([], LowerLabel) == [];
    assert InsertBy([], v, LowerLabel) == [v];
    assert SortBy([v], LowerLabel) == InsertBy(SortBy([v][..0], LowerLabel), v, LowerLabel);
    hide LowerLabel;
  }

  lemma OneFile(file: string)
    requires IsWeight(file) && !IsOtherWeight(file) && ServerShard(file).None?
    ensures Discover([file]) == [Variant(file, [file])]
  {
    OneUnsorted(file);
    OneSorted(Variant(file, [file]));
    assert forall f :: f in [file] ==> !IsOtherWeight(f);
    hide Unsorted, SortVariants, LabelsDistinct, IsOtherWeight, IsWeight, ServerShard;
  }

  lemma NoMarker(file: string)
    requires file == "-00001-of-00002.gguf"
    ensures !IsDependency(file)
  {
    assert Lower(file) == file;
    BaseWhole(file);
    forall m | m in MARKERS ensures !Contains(file, m) {
      assert m[0] !in file;
      if Contains(file, m) { ContainsFirst(file, m); }
      hide Contains;
    }
    hide Contains, BaseName, Lower;
  }

  lemma NotOther(file: string)
    requires file == "-00001-of-00002.gguf"
    ensures !IsOtherWeight(file) && EndsWith(Lower(file), ".gguf")
  {
    assert Lower(file) == file && file[15..] == ".gguf";
    forall t | t in OTHER_WEIGHTS ensures !EndsWith(file, t) {
      assert t != "" && t[|t|-1] != 'f' && file[|file|-1] == 'f';
      hide Lower;
    }
  }

  // A file whose whole name is a shard tail: the server offers it as a single
  // file, the client takes it for the first of two.
  lemma EmptyPrefixRefused(file: string)
    requires file == "-00001-of-00002.gguf"
    ensures Discover([file]) == [Variant(file, [file])] && !ClientAccepts([file])
  {
    NoMarker(file);
    NotOther(file);
    assert |file| == 20;
    hide Discover, ClientAccepts, Lower, EndsWith, IsOtherWeight, IsDependency;
    OneFile(file);
    TakenForShard(file);
  }

  lemma TakenForShard(file: string)
    requires file == "-00001-of-00002.gguf"
    ensures !ClientAccepts([file])
  {
    var total := file[10..15];
    assert file[..0] == "" && file[0..] == file && HasShardTail(file);
    assert Value(total) == Value(total[..4]) * 10 + 2;
    assert ClientShard([file][0]).value.total == Value(total);
  }
}
