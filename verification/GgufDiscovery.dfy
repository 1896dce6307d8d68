// When the server offers variants at all, and what it calls them: the groups
// of the scan are compared with any list of variants that holds the files.
module GgufDiscovery {
  import opened Sequences
  import opened Strings
  import opened TaskTypes
  import opened Gguf

  // ---- parts of names ------------------------------------------------------------------

  // The part stands somewhere in the text.
  lemma {:induction false} ContainsExact(s: string, part: string)
    ensures Contains(s, part) <==> exists i :: StandsAt(s, part, i)
  {
    if |part| <= |s| {
      if s[..|part|] == part {
        assert StandsAt(s, part, 0);
      } else if s != "" {
        ContainsExact(s[1..], part);
        if i :| StandsAt(s[1..], part, i) { LaterInWhole(s, part, i); }
        if i :| StandsAt(s, part, i) { LaterInRest(s, part, i); }
        hide StandsAt;
      }
    }
  }

  predicate StandsAt(s: string, part: string, i: int) {
    0 <= i <= |s| - |part| && s[i..i + |part|] == part
  }

  lemma LaterInWhole(s: string, part: string, i: int)
    requires s != "" && StandsAt(s[1..], part, i)
    ensures StandsAt(s, part, i + 1)
  {
    assert s[1..][i..i + |part|] == s[i + 1..i + 1 + |part|];
  }

  lemma LaterInRest(s: string, part: string, i: int)
    requires StandsAt(s, part, i) && |part| <= |s| && s[..|part|] != part
    ensures StandsAt(s[1..], part, i - 1)
  {
    assert i > 0;
    assert s[1..][i - 1..i - 1 + |part|] == s[i..i + |part|];
  }

  // A projector, adapter or draft model by its base name.
  lemma DependencyExact(path: string)
    ensures IsDependency(path) <==> exists m, i :: MarkedAt(path, m, i)
  {
    var name := Lower(BaseName(path));
    if IsDependency(path) {
      var m :| m in MARKERS && Contains(name, m);
      ContainsExact(name, m);
      var i :| StandsAt(name, m, i);
      hide StandsAt, BaseName, Lower;
      assert MarkedAt(path, m, i);
    }
    if m, i :| MarkedAt(path, m, i) {
      ContainsExact(name, m);
      Marked(path, m);
    }
  }

  predicate MarkedAt(path: string, m: string, i: int) {
    m in {"adapter", "draft", "lora", "mmproj", "mtp", "projector"} && StandsAt(Lower(BaseName(path)), m, i)
  }

  lemma Marked(path: string, m: string)
    requires m in {"adapter", "draft", "lora", "mmproj", "mtp", "projector"} && Contains(Lower(BaseName(path)), m)
    ensures IsDependency(path)
  {
    InMarkers(m);
  }

  lemma InMarkers(m: string)
    requires m in {"adapter", "draft", "lora", "mmproj", "mtp", "projector"}
    ensures m in MARKERS
  {
    assert MARKERS[0] == "adapter" && MARKERS[1] == "draft" && MARKERS[2] == "lora" && MARKERS[3] == "mmproj"
      && MARKERS[4] == "mtp" && MARKERS[5] == "projector";
  }

  // A weight file of another format by its extension.
  lemma OtherWeightExact(path: string)
    ensures IsOtherWeight(path) <==>
              exists s :: s in {".bin", ".ckpt", ".engine", ".h5", ".onnx", ".pt", ".pth", ".safetensors", ".tflite"} && EndsWith(Lower(path), s)
  {
    hide Lower, EndsWith;
    if IsOtherWeight(path) {
      var s :| s in OTHER_WEIGHTS && EndsWith(Lower(path), s);
      assert s in {".bin", ".ckpt", ".engine", ".h5", ".onnx", ".pt", ".pth", ".safetensors", ".tflite"};
    }
    if s :| s in {".bin", ".ckpt", ".engine", ".h5", ".onnx", ".pt", ".pth", ".safetensors", ".tflite"} && EndsWith(Lower(path), s) {
      InOtherWeights(s);
    }
  }

  lemma InOtherWeights(s: string)
    requires s in {".bin", ".ckpt", ".engine", ".h5", ".onnx", ".pt", ".pth", ".safetensors", ".tflite"}
    ensures s in OTHER_WEIGHTS
  {
    assert OTHER_WEIGHTS[0] == ".bin" && OTHER_WEIGHTS[1] == ".ckpt" && OTHER_WEIGHTS[2] == ".engine" && OTHER_WEIGHTS[3] == ".h5"
      && OTHER_WEIGHTS[4] == ".onnx" && OTHER_WEIGHTS[5] == ".pt" && OTHER_WEIGHTS[6] == ".pth" && OTHER_WEIGHTS[7] == ".safetensors"
      && OTHER_WEIGHTS[8] == ".tflite";
  }

  // A prefix without a newline, five digits, "-of-" and five digits before the
  // extension, in any case.
  predicate Spells(path: string, prefix: string, index: string, of: string, total: string, suffix: string) {
    && path == prefix + ['-'] + index + of + total + suffix
    && '\n' !in prefix && |index| == 5 && AllDigits(index) && |total| == 5 && AllDigits(total)
    && Lower(of) == "-of-" && Lower(suffix) == ".gguf"
  }

  lemma SpelledTail(path: string, prefix: string, index: string, of: string, total: string, suffix: string)
    requires Spells(path, prefix, index, of, total, suffix)
    ensures |path| == |prefix| + 20 && path[..|prefix|] == prefix
    ensures path[|prefix| + 1..|prefix| + 6] == index && path[|prefix| + 10..|prefix| + 15] == total
    ensures path[|prefix| + 6..|prefix| + 10] == of && path[|prefix| + 15..] == suffix
  {
    assert |of| == |Lower(of)| && |suffix| == |Lower(suffix)|;
    hide Lower;
  }

  // The client reads a shard exactly from such a spelling.
  lemma ShardIsSpelled(path: string, prefix: string, index: string, of: string, total: string, suffix: string)
    requires Spells(path, prefix, index, of, total, suffix)
    ensures ClientShard(path) == Some(Shard(prefix, Value(index), Value(total)))
    ensures FileLabel(path) == if prefix == "" then path else prefix + suffix
  {
    SpelledTail(path, prefix, index, of, total, suffix);
    var n := |prefix|;
    var tail := path[n..];
    assert path[|path|-20..] == tail && tail[1..6] == index && tail[6..10] == of && tail[10..15] == total && tail[15..] == suffix;
    assert forall i :: 1 <= i < 6 ==> tail[i] == index[i - 1] && tail[i] in index;
    assert forall i :: 10 <= i < 15 ==> tail[i] == total[i - 10] && tail[i] in total;
    hide Lower;
    assert HasShardTail(path);
    hide HasShardTail;
  }

  lemma ShardSpells(path: string)
    requires ClientShard(path).Some?
    ensures var n := |path| - 20;
            && n >= 0 && Spells(path, path[..n], path[n + 1..n + 6], path[n + 6..n + 10], path[n + 10..n + 15], path[n + 15..])
  {
    var n := |path| - 20;
    var tail := path[n..];
    assert tail[6..10] == path[n + 6..n + 10] && tail[15..] == path[n + 15..];
    var index, total := path[n + 1..n + 6], path[n + 10..n + 15];
    assert forall i :: 0 <= i < 5 ==> index[i] == tail[i + 1];
    assert forall i :: 0 <= i < 5 ==> total[i] == tail[i + 10];
    hide Lower;
  }

  // ---- files by label -----------------------------------------------------------------

  // The name of a single file, or of the group a shard belongs to.
  function FileLabel(path: string): string {
    if ServerShard(path).None? then path else ShardLabel(path, ServerShard(path).value)
  }

  function FileKey(path: string): string { Lower(FileLabel(path)) }

  function Keyed(paths: seq<string>, key: string): seq<string> {
    if paths == [] then []
    else
      var init, last := Keyed(paths[..|paths|-1], key), paths[|paths|-1];
      if FileKey(last) == key then init + [last] else init
  }

  lemma {:induction false} KeyedConcat(p: seq<string>, q: seq<string>, key: string)
    ensures Keyed(p + q, key) == Keyed(p, key) + Keyed(q, key)
  {
    if q == [] {
      assert p + q == p;
    } else {
      var init, last := q[..|q|-1], q[|q|-1];
      assert (p + q)[..|p + q|-1] == p + init;
      hide FileKey;
      KeyedConcat(p, init, key);
    }
  }

  lemma {:induction false} KeyedCounts(paths: seq<string>, key: string, p: string)
    ensures multiset(Keyed(paths, key))[p] == if FileKey(p) == key then multiset(paths)[p] else 0
  {
    if paths != [] {
      hide FileKey;
      KeyedCounts(paths[..|paths|-1], key, p);
      LastTaken(paths);
      assert multiset(Keyed(paths, key)) == multiset(Keyed(paths[..|paths|-1], key))
        + if FileKey(paths[|paths|-1]) == key then multiset{paths[|paths|-1]} else multiset{};
    }
  }

  lemma KeyedContents(p: seq<string>, q: seq<string>, key: string)
    requires multiset(p) == multiset(q)
    ensures multiset(Keyed(p, key)) == multiset(Keyed(q, key))
  {
    forall x ensures multiset(Keyed(p, key))[x] == multiset(Keyed(q, key))[x] {
      KeyedCounts(p, key, x);
      KeyedCounts(q, key, x);
    }
  }

  ghost predicate AllOf(paths: seq<string>, key: string) {
    forall i :: 0 <= i < |paths| ==> FileKey(paths[i]) == key
  }

  lemma AllOfLast(paths: seq<string>, key: string)
    requires paths != [] && AllOf(paths, key)
    ensures AllOf(paths[..|paths|-1], key) && FileKey(paths[|paths|-1]) == key
  {
    hide FileKey;
  }

  lemma {:induction false} KeyedAll(paths: seq<string>, key: string)
    requires AllOf(paths, key)
    ensures Keyed(paths, key) == paths
  {
    if paths != [] {
      var init, last := paths[..|paths|-1], paths[|paths|-1];
      AllOfLast(paths, key);
      assert paths == init + [last];
      hide FileKey, AllOf;
      KeyedAll(init, key);
    }
  }

  lemma {:induction false} KeyedNone(paths: seq<string>, key: string)
    requires forall i :: 0 <= i < |paths| ==> FileKey(paths[i]) != key
    ensures Keyed(paths, key) == []
  {
    if paths != [] {
      hide FileKey;
      KeyedNone(paths[..|paths|-1], key);
    }
  }

  // ---- a list of variants that holds the files -----------------------------------------

  ghost predicate AllWellFormed(vs: seq<Variant>) {
    forall v :: v in vs ==> WellFormed(v)
  }

  // Every variant is well formed, and no label comes twice.
  ghost predicate Offers(vs: seq<Variant>, weights: seq<string>) {
    AllWellFormed(vs) && LabelsDistinct(vs) && multiset(AllPaths(vs)) == multiset(weights)
  }

  // The files of a variant share its label, and are all shards or one single.
  lemma OneLabel(v: Variant, p: string)
    requires WellFormed(v) && p in v.paths
    ensures FileKey(p) == Lower(v.name)
    ensures ServerShard(p).None? ==> v.paths == [p]
    ensures ServerShard(p).Some? ==> forall i :: 0 <= i < |v.paths| ==> IsShardOf(v.name, v.paths[i], i + 1, |v.paths|)
  {
    hide ServerShard, Lower, ShardLabel;
    var i :| 0 <= i < |v.paths| && v.paths[i] == p;
  }

  lemma {:induction false} VariantHolding(vs: seq<Variant>, p: string) returns (i: nat)
    requires p in AllPaths(vs)
    ensures i < |vs| && p in vs[i].paths
  {
    if p in vs[|vs|-1].paths { i := |vs| - 1; } else { i := VariantHolding(vs[..|vs|-1], p); }
  }

  lemma LastLabel(vs: seq<Variant>, key: string)
    requires vs != [] && WellFormed(vs[|vs|-1])
    ensures Keyed(AllPaths(vs), key) == Keyed(AllPaths(vs[..|vs|-1]), key) + if Lower(vs[|vs|-1].name) == key then vs[|vs|-1].paths else []
  {
    var last := vs[|vs|-1];
    KeyedConcat(AllPaths(vs[..|vs|-1]), last.paths, key);
    forall i | 0 <= i < |last.paths| ensures FileKey(last.paths[i]) == Lower(last.name) { OneLabel(last, last.paths[i]); }
    hide WellFormed, Lower, FileKey, Keyed;
    if Lower(last.name) == key { KeyedAll(last.paths, key); } else { KeyedNone(last.paths, key); }
  }

  lemma AllButLast(vs: seq<Variant>)
    requires vs != [] && AllWellFormed(vs)
    ensures AllWellFormed(vs[..|vs|-1]) && WellFormed(vs[|vs|-1]) && (LabelsDistinct(vs) ==> LabelsDistinct(vs[..|vs|-1]))
  {
    hide WellFormed, Lower;
  }

  lemma {:induction false} OtherLabels(vs: seq<Variant>, key: string)
    requires AllWellFormed(vs) && forall i :: 0 <= i < |vs| ==> Lower(vs[i].name) != key
    ensures Keyed(AllPaths(vs), key) == []
  {
    if vs != [] {
      AllButLast(vs);
      LastLabel(vs, key);
      hide WellFormed, AllWellFormed, Lower, Keyed, AllPaths;
      OtherLabels(vs[..|vs|-1], key);
    } else {
      assert Keyed([], key) == [];
    }
  }

  // The files with one label are those of its variant.
  lemma {:induction false} LabelIsVariant(vs: seq<Variant>, i: nat)
    requires AllWellFormed(vs) && LabelsDistinct(vs) && i < |vs|
    ensures Keyed(AllPaths(vs), Lower(vs[i].name)) == vs[i].paths
  {
    var init := vs[..|vs|-1];
    AllButLast(vs);
    LastLabel(vs, Lower(vs[i].name));
    hide WellFormed, AllWellFormed, Lower, Keyed, AllPaths;
    if i == |vs| - 1 {
      assert forall j :: 0 <= j < |init| ==> Lower(init[j].name) != Lower(vs[i].name);
      OtherLabels(init, Lower(vs[i].name));
    } else {
      assert Lower(vs[i].name) != Lower(vs[|vs|-1].name);
      hide LabelsDistinct;
      LabelIsVariant(init, i);
    }
  }

  // ---- the groups of the scan ------------------------------------------------------------

  lemma GroupKeyed(k: string, ms: seq<Member>, key: string)
    requires forall m :: m in ms ==> Belongs(k, m)
    ensures Keyed(PathsOf(ms), key) == if k == key then PathsOf(ms) else []
  {
    forall i | 0 <= i < |ms| ensures FileKey(ms[i].path) == k { BelongsKey(k, ms[i]); }
    hide Belongs, FileKey;
    if k == key { KeyedAll(PathsOf(ms), key); } else { KeyedNone(PathsOf(ms), key); }
  }

  lemma LastGroup(order: seq<string>, groups: map<string, seq<Member>>, key: string)
    requires order != [] && forall k, m :: k in groups && m in groups[k] ==> Belongs(k, m)
    ensures Keyed(Grouped(order, groups), key) == Keyed(Grouped(order[..|order|-1], groups), key)
              + if order[|order|-1] in groups && order[|order|-1] == key then PathsOf(groups[key]) else []
  {
    var init, last := order[..|order|-1], order[|order|-1];
    hide Belongs, PathsOf, Keyed;
    if last in groups {
      KeyedConcat(Grouped(init, groups), PathsOf(groups[last]), key);
      GroupKeyed(last, groups[last], key);
    } else {
      assert Grouped(order, groups) == Grouped(init, groups);
    }
  }

  lemma {:induction false} GroupedKeyed(order: seq<string>, groups: map<string, seq<Member>>, key: string)
    requires Distinct(order) && forall k, m :: k in groups && m in groups[k] ==> Belongs(k, m)
    ensures Keyed(Grouped(order, groups), key) == if key in order && key in groups then PathsOf(groups[key]) else []
  {
    if order != [] {
      var init, last := order[..|order|-1], order[|order|-1];
      assert order == init + [last] && last !in init && Distinct(init);
      LastGroup(order, groups, key);
      hide Distinct, Belongs, PathsOf, Keyed, Grouped;
      GroupedKeyed(init, groups, key);
    } else {
      assert Keyed([], key) == [];
    }
  }

  lemma BelongsKey(key: string, m: Member)
    requires Belongs(key, m)
    ensures FileKey(m.path) == key && ServerShard(m.path) == Some(Shard(ServerShard(m.path).value.prefix, m.index, m.total))
  {
    hide Lower, ShardLabel;
  }

  // What the scan and the variants have in common, label by label.
  lemma SameLabel(s: Scan, weights: seq<string>, vs: seq<Variant>, key: string)
    requires Sorted(s, weights) && Offers(vs, weights)
    ensures multiset(Keyed(s.singles, key)) + multiset(if key in s.groups then PathsOf(s.groups[key]) else []) == multiset(Keyed(AllPaths(vs), key))
  {
    var grouped := Grouped(s.order, s.groups);
    assert multiset(s.singles + grouped) == multiset(s.singles) + multiset(grouped);
    KeyedContents(s.singles + grouped, AllPaths(vs), key);
    KeyedConcat(s.singles, grouped, key);
    GroupedKeyed(s.order, s.groups, key);
    hide Grouped, Keyed, Belongs, ServerShard, WellFormed, LabelsDistinct;
  }

  // Each label of the scan is a variant, with the same files: one single, or
  // the members of one group.
  lemma FilesOfLabel(s: Scan, weights: seq<string>, vs: seq<Variant>, p: string) returns (v: Variant)
    requires Sorted(s, weights) && Offers(vs, weights) && p in weights
    ensures v in vs && WellFormed(v) && p in v.paths && Lower(v.name) == FileKey(p)
    ensures multiset(Keyed(s.singles, FileKey(p))) + multiset(if FileKey(p) in s.groups then PathsOf(s.groups[FileKey(p)]) else []) == multiset(v.paths)
  {
    assert p in multiset(AllPaths(vs));
    var i := VariantHolding(vs, p);
    v := vs[i];
    OneLabel(v, p);
    LabelIsVariant(vs, i);
    SameLabel(s, weights, vs, FileKey(p));
    hide Sorted, WellFormed, Lower, Keyed, FileKey, AllPaths, LabelsDistinct;
  }

  lemma HeldInScan(s: Scan, weights: seq<string>, p: string)
    requires Sorted(s, weights) && (p in s.singles || exists k :: k in s.groups && p in PathsOf(s.groups[k]))
    ensures p in weights
  {
    if p in s.singles {
      assert p in multiset(weights);
    } else {
      var k :| k in s.groups && p in PathsOf(s.groups[k]);
      InGrouped(s.order, s.groups, k, p);
      assert p in multiset(Grouped(s.order, s.groups)) && p in multiset(weights);
    }
    hide Belongs, ServerShard;
  }

  lemma {:induction false} InGrouped(order: seq<string>, groups: map<string, seq<Member>>, key: string, p: string)
    requires key in order && key in groups && p in PathsOf(groups[key])
    ensures p in Grouped(order, groups)
  {
    if order[|order|-1] != key { InGrouped(order[..|order|-1], groups, key, p); }
  }

  // ---- a group that some variant holds is complete ------------------------------------------

  // Two arrangements of the shards 1 to n, one in order of the index.
  ghost predicate ShardsInOrder(name: string, b: seq<string>, n: nat) {
    |b| <= n && forall i :: 0 <= i < |b| ==> IsShardOf(name, b[i], i + 1, n)
  }

  ghost predicate IndexesRise(a: seq<string>) {
    forall i, j :: 0 <= i < j < |a| ==> ShardIndex(a[i]) <= ShardIndex(a[j])
  }

  lemma LastIndexes(name: string, a: seq<string>, b: seq<string>, n: nat, k: nat, l: nat)
    requires |a| == |b| > 0 && ShardsInOrder(name, b, n) && IndexesRise(a) && k < |a| && a[k] == b[|b|-1] && l < |b| && b[l] == a[|a|-1]
    ensures l == |b| - 1
  {
    FirstOf(name, b[|b|-1], |b|, n);
    FirstOf(name, b[l], l + 1, n);
    hide ClientShard, IsShardOf;
  }

  lemma Position(a: seq<string>, b: seq<string>, x: string) returns (k: nat)
    requires multiset(a) == multiset(b) && x in b
    ensures k < |a| && a[k] == x
  {
    assert x in multiset(a);
    k :| 0 <= k < |a| && a[k] == x;
  }

  lemma LastShard(name: string, a: seq<string>, b: seq<string>, n: nat)
    requires multiset(a) == multiset(b) && |a| == |b| > 0 && ShardsInOrder(name, b, n) && IndexesRise(a)
    ensures a[|a|-1] == b[|a|-1]
  {
    var last := |a| - 1;
    var k := Position(a, b, b[last]);
    var l := Position(b, a, a[last]);
    hide ShardsInOrder, IndexesRise;
    LastIndexes(name, a, b, n, k, l);
  }

  lemma WithoutLast(name: string, a: seq<string>, b: seq<string>, n: nat)
    requires a != [] && b != [] && ShardsInOrder(name, b, n) && IndexesRise(a)
    ensures ShardsInOrder(name, b[..|b|-1], n) && IndexesRise(a[..|a|-1])
  {
    hide IsShardOf, ShardIndex;
  }

  lemma SameLast(a: seq<string>, b: seq<string>)
    requires multiset(a) == multiset(b) && |a| == |b| > 0 && a[|a|-1] == b[|b|-1]
    ensures multiset(a[..|a|-1]) == multiset(b[..|b|-1]) && (a[..|a|-1] == b[..|b|-1] ==> a == b)
  {
    var last := |a| - 1;
    LastTaken(a);
    LastTaken(b);
    Cancel(multiset(a[..last]), multiset(b[..last]), a[last]);
    assert a == a[..last] + [a[last]] && b == b[..last] + [b[last]];
  }

  lemma {:induction false} SortedIsShards(name: string, a: seq<string>, b: seq<string>, n: nat)
    requires multiset(a) == multiset(b) && ShardsInOrder(name, b, n) && IndexesRise(a)
    ensures a == b
  {
    assert |multiset(a)| == |multiset(b)|;
    if a != [] {
      LastShard(name, a, b, n);
      WithoutLast(name, a, b, n);
      SameLast(a, b);
      hide ShardsInOrder, IndexesRise;
      SortedIsShards(name, a[..|a|-1], b[..|b|-1], n);
    }
  }

  lemma IndexOf(key: string, m: Member)
    requires Belongs(key, m)
    ensures ShardIndex(m.path) == m.index
  {
    hide Lower, ShardLabel, HasShardTail;
  }

  lemma LowerIndexRanks()
    ensures Ranks((m: Member) => true, LowerIndex)
  {
  }

  lemma SortedMembers(key: string, ms: seq<Member>, v: Variant)
    requires (forall m :: m in ms ==> Belongs(key, m)) && multiset(PathsOf(ms)) == multiset(v.paths)
    requires forall i :: 0 <= i < |v.paths| ==> IsShardOf(v.name, v.paths[i], i + 1, |v.paths|)
    ensures PathsOf(SortMembers(ms)) == v.paths
  {
    var q := SortMembers(ms);
    SortContents(ms, LowerIndex);
    LowerIndexRanks();
    SortInOrder((m: Member) => true, ms, LowerIndex);
    PathsKeepContents(q, ms);
    var a := PathsOf(q);
    hide SortBy, Ranks, Belongs, IsShardOf, ShardIndex;
    forall i, j | 0 <= i < j < |a| ensures ShardIndex(a[i]) <= ShardIndex(a[j]) {
      assert q[i] in multiset(ms) && q[j] in multiset(ms) && !LowerIndex(q[j], q[i]);
      IndexOf(key, q[i]);
      IndexOf(key, q[j]);
    }
    SortedIsShards(v.name, a, v.paths, |v.paths|);
  }

  lemma ShardsComplete(key: string, ms: seq<Member>, v: Variant)
    requires (forall m :: m in ms ==> Belongs(key, m)) && ms != [] && multiset(PathsOf(ms)) == multiset(v.paths)
    requires forall i :: 0 <= i < |v.paths| ==> IsShardOf(v.name, v.paths[i], i + 1, |v.paths|)
    ensures IsComplete(ms)
  {
    SortedMembers(key, ms, v);
    SortContents(ms, LowerIndex);
    assert |multiset(PathsOf(ms))| == |multiset(v.paths)|;
    var q := SortMembers(ms);
    hide SortBy;
    forall m | m in ms ensures m.total == |v.paths| { TotalOf(key, ms, v, m); }
    forall i | 0 <= i < |ms| ensures SortMembersAt(ms, i) == i + 1 {
      assert q[i] in multiset(ms) && PathsOf(q)[i] == v.paths[i];
      IndexOf(key, q[i]);
      FirstOf(v.name, v.paths[i], i + 1, |v.paths|);
      hide Belongs, IsShardOf;
    }
    hide Belongs, IsShardOf;
  }

  lemma TotalOf(key: string, ms: seq<Member>, v: Variant, m: Member)
    requires Belongs(key, m) && m in ms && multiset(PathsOf(ms)) == multiset(v.paths)
    requires forall i :: 0 <= i < |v.paths| ==> IsShardOf(v.name, v.paths[i], i + 1, |v.paths|)
    ensures m.total == |v.paths|
  {
    var k :| 0 <= k < |ms| && ms[k] == m;
    assert PathsOf(ms)[k] == m.path && m.path in multiset(v.paths);
    var i :| 0 <= i < |v.paths| && v.paths[i] == m.path;
    hide ServerShard, Lower, ShardLabel;
    assert IsShardOf(v.name, v.paths[i], i + 1, |v.paths|);
  }

  // Members of a group are shards, so a label with a group has no singles.
  lemma GroupIsVariant(s: Scan, weights: seq<string>, vs: seq<Variant>, key: string) returns (v: Variant)
    requires Sorted(s, weights) && Offers(vs, weights) && key in s.groups && s.groups[key] != []
    ensures v in vs && Lower(v.name) == key && multiset(PathsOf(s.groups[key])) == multiset(v.paths) && IsComplete(s.groups[key])
    ensures Keyed(s.singles, key) == []
  {
    var ms := s.groups[key];
    var m := ms[0];
    assert m in ms && Belongs(key, m) && PathsOf(ms)[0] == m.path;
    BelongsKey(key, m);
    HeldInScan(s, weights, m.path);
    v := FilesOfLabel(s, weights, vs, m.path);
    OneLabel(v, m.path);
    var singles := Keyed(s.singles, key);
    if singles != [] {
      assert singles[0] in multiset(v.paths);
      KeyedCounts(s.singles, key, singles[0]);
      assert singles[0] in multiset(singles) && singles[0] in multiset(s.singles) && singles[0] in s.singles;
      OneLabel(v, singles[0]);
      assert false;
    }
    hide Keyed, ServerShard;
    ShardsComplete(key, ms, v);
  }

  // ---- the whole result ------------------------------------------------------------------------

  lemma {:induction false} ScanAllFilled(paths: seq<string>)
    ensures forall k :: k in ScanAll(paths).groups ==> ScanAll(paths).groups[k] != []
  {
    if paths != [] {
      ScanAllFilled(paths[..|paths|-1]);
      hide ServerShard, ShardLabel, Lower;
    }
  }

  lemma {:induction false} GroupsFound(s: Scan, order: seq<string>)
    requires forall k :: k in order ==> k in s.groups && k in s.labels && IsComplete(s.groups[k])
    ensures GroupVariants(s, order).Some? && |GroupVariants(s, order).value| == |order|
    ensures forall i :: 0 <= i < |order| ==> GroupVariants(s, order).value[i] == Variant(s.labels[order[i]], PathsOf(SortMembers(s.groups[order[i]])))
  {
    if order != [] {
      hide IsComplete, SortMembers, PathsOf;
      GroupsFound(s, order[..|order|-1]);
    }
  }

  lemma SingleOnce(s: Scan, weights: seq<string>, vs: seq<Variant>, i: nat)
    requires Sorted(s, weights) && Offers(vs, weights) && i < |s.singles|
    ensures |Keyed(s.singles, FileKey(s.singles[i]))| == 1
  {
    var p := s.singles[i];
    HeldInScan(s, weights, p);
    var v := FilesOfLabel(s, weights, vs, p);
    assert p in s.singles && ServerShard(p).None?;
    OneLabel(v, p);
    KeyedCounts(s.singles, FileKey(p), p);
    var q := Keyed(s.singles, FileKey(p));
    hide Keyed, Sorted, Offers, ServerShard, FileKey;
    assert p in multiset(s.singles) && p in multiset(q);
    assert multiset(q)[p] <= multiset(v.paths)[p];
    assert multiset(q) <= multiset([p]) && |multiset(q)| == |q|;
    assert multiset(q) == multiset{p};
  }

  lemma {:induction false} TwoKeyed(paths: seq<string>, key: string, i: nat, j: nat)
    requires i < j < |paths| && FileKey(paths[i]) == key == FileKey(paths[j])
    ensures |Keyed(paths, key)| >= 2
  {
    var a, b := paths[..j], paths[j..];
    assert paths == a + b;
    KeyedConcat(a, b, key);
    KeyedAt(a, i);
    KeyedAt(b, 0);
    hide Keyed, FileKey;
  }

  lemma KeyedAt(paths: seq<string>, i: nat)
    requires i < |paths|
    ensures |Keyed(paths, FileKey(paths[i]))| >= 1
  {
    KeyedCounts(paths, FileKey(paths[i]), paths[i]);
    hide Keyed, FileKey;
    assert paths[i] in multiset(paths);
  }

  // The labels of what was found are those of the variants.
  lemma SinglesDiffer(s: Scan, weights: seq<string>, vs: seq<Variant>, i: nat, j: nat)
    requires Sorted(s, weights) && Offers(vs, weights) && i < j < |s.singles|
    ensures Lower(s.singles[i]) != Lower(s.singles[j])
  {
    assert s.singles[i] in s.singles && s.singles[j] in s.singles;
    assert FileKey(s.singles[i]) == Lower(s.singles[i]) && FileKey(s.singles[j]) == Lower(s.singles[j]);
    SingleOnce(s, weights, vs, i);
    hide Sorted, Offers, Lower, ServerShard, FileKey, Keyed;
    if Lower(s.singles[i]) == Lower(s.singles[j]) { TwoKeyed(s.singles, FileKey(s.singles[i]), i, j); }
  }

  lemma SingleNotGroup(s: Scan, weights: seq<string>, vs: seq<Variant>, i: nat, key: string)
    requires Sorted(s, weights) && Offers(vs, weights) && i < |s.singles| && key in s.groups && s.groups[key] != []
    ensures Lower(s.singles[i]) != key
  {
    assert s.singles[i] in s.singles;
    assert FileKey(s.singles[i]) == Lower(s.singles[i]);
    SingleOnce(s, weights, vs, i);
    hide Sorted, Offers, Lower, ServerShard, FileKey, Keyed;
    var v := GroupIsVariant(s, weights, vs, key);
  }

  // The labels of what was found are those of the variants.
  lemma FoundLabelsDistinct(s: Scan, weights: seq<string>, vs: seq<Variant>, found: seq<Variant>)
    requires Sorted(s, weights) && Offers(vs, weights) && (forall k :: k in s.groups ==> s.groups[k] != [])
    requires |found| == |s.order|
    requires forall i :: 0 <= i < |found| ==> s.order[i] in s.labels && found[i].name == s.labels[s.order[i]]
    ensures LabelsDistinct(SingleVariants(s.singles) + found)
  {
    var singles := SingleVariants(s.singles);
    forall i | 0 <= i < |found| ensures Lower(found[i].name) == s.order[i] && s.order[i] in s.groups { FoundLabel(s, weights, found, i); }
    forall i, j | 0 <= i < j < |found| ensures Lower(found[i].name) != Lower(found[j].name) {
      assert Distinct(s.order) && s.order[i] != s.order[j];
    }
    hide Lower, Sorted, Offers;
    forall i, j | 0 <= i < j < |singles| ensures Lower(singles[i].name) != Lower(singles[j].name) { SinglesDiffer(s, weights, vs, i, j); }
    forall i, j | 0 <= i < |singles| && 0 <= j < |found| ensures Lower(singles[i].name) != Lower(found[j].name) {
      SingleNotGroup(s, weights, vs, i, s.order[j]);
    }
    BothDistinct(singles, found);
  }

  lemma FoundLabel(s: Scan, weights: seq<string>, found: seq<Variant>, i: nat)
    requires Sorted(s, weights) && i < |found| == |s.order| && s.order[i] in s.labels && found[i].name == s.labels[s.order[i]]
    ensures Lower(found[i].name) == s.order[i] && s.order[i] in s.groups
  {
    assert s.order[i] in s.order;
  }

  lemma BothDistinct(a: seq<Variant>, b: seq<Variant>)
    requires forall i, j :: 0 <= i < j < |a| ==> Lower(a[i].name) != Lower(a[j].name)
    requires forall i, j :: 0 <= i < j < |b| ==> Lower(b[i].name) != Lower(b[j].name)
    requires forall i, j :: 0 <= i < |a| && 0 <= j < |b| ==> Lower(a[i].name) != Lower(b[j].name)
    ensures LabelsDistinct(a + b)
  {
    hide Lower;
    forall i, j | 0 <= i < j < |a + b| ensures Lower((a + b)[i].name) != Lower((a + b)[j].name) {
      if j < |a| {
        assert Lower(a[i].name) != Lower(a[j].name);
      } else if i < |a| {
        assert Lower(a[i].name) != Lower(b[j - |a|].name);
      } else {
        assert Lower(b[i - |a|].name) != Lower(b[j - |a|].name);
      }
    }
  }

  lemma OfferedIsFound(files: seq<string>, vs: seq<Variant>)
    requires Offers(vs, Weights(files))
    ensures Unsorted(files).Some? && LabelsDistinct(Unsorted(files).value)
  {
    var w := Weights(files);
    var s := ScanAll(w);
    ScanAllSorted(w);
    ScanAllFilled(w);
    forall k | k in s.order ensures k in s.groups && k in s.labels && IsComplete(s.groups[k]) {
      var v := GroupIsVariant(s, w, vs, k);
    }
    GroupsFound(s, s.order);
    forall i | 0 <= i < |s.order| ensures s.order[i] in s.labels { assert s.order[i] in s.order; }
    FoundLabelsDistinct(s, w, vs, GroupVariants(s, s.order).value);
    hide ScanAll, Weights, GroupVariants, LabelsDistinct, Sorted, Offers, IsComplete;
  }

  // The weight files, as often as they are listed.
  lemma {:induction false} WeightsExact(files: seq<string>, p: string)
    ensures multiset(Weights(files))[p] == if IsWeight(p) then multiset(files)[p] else 0
  {
    if files != [] {
      hide IsWeight;
      WeightsExact(files[..|files|-1], p);
      LastTaken(files);
      assert multiset(Weights(files)) == multiset(Weights(files[..|files|-1]))
        + if IsWeight(files[|files|-1]) then multiset{files[|files|-1]} else multiset{};
    }
  }

  // Variants are offered exactly when the weight files can be divided into
  // well-formed variants with different labels at all.
  lemma DiscoverExists(files: seq<string>)
    ensures Discover(files) != [] <==>
              |files| <= 5000 && (forall f :: f in files ==> !IsOtherWeight(f)) && exists vs :: vs != [] && Offers(vs, Weights(files))
  {
    if Discover(files) != [] {
      DiscoverIsPartition(files);
      assert Offers(Discover(files), Weights(files));
    }
    hide Weights, IsOtherWeight, Offers;
    if vs :| vs != [] && Offers(vs, Weights(files)) {
      OfferedIsFound(files, vs);
      OfferedHasFiles(files, vs);
      SortContents(Unsorted(files).value, LowerLabel);
      hide Unsorted, LabelsDistinct, SortBy;
    }
  }

  lemma OfferedHasFiles(files: seq<string>, vs: seq<Variant>)
    requires vs != [] && Offers(vs, Weights(files)) && Unsorted(files).Some?
    ensures files != [] && Unsorted(files).value != []
  {
    var last := vs[|vs|-1];
    assert last in vs && WellFormed(last) && last.paths != [];
    assert last.paths[0] in multiset(AllPaths(vs));
    UnsortedIsPartition(files);
    hide Unsorted, WellFormed, LabelsDistinct;
  }

  // There is only one such division: every other one has the same files under
  // the same labels.
  lemma DivisionIsUnique(files: seq<string>, vs: seq<Variant>)
    requires vs != [] && Offers(vs, Weights(files)) && Discover(files) != []
    ensures forall v :: v in vs ==> exists w :: w in Discover(files) && w.paths == v.paths && Lower(w.name) == Lower(v.name)
    ensures forall w :: w in Discover(files) ==> exists v :: v in vs && v.paths == w.paths && Lower(v.name) == Lower(w.name)
  {
    DiscoverIsPartition(files);
    var ws := Discover(files);
    assert Offers(ws, Weights(files));
    hide Weights, Discover, Offers;
    forall v | v in vs ensures exists w :: w in ws && w.paths == v.paths && Lower(w.name) == Lower(v.name) {
      var w := SameDivision(vs, ws, Weights(files), v);
    }
    forall w | w in ws ensures exists v :: v in vs && v.paths == w.paths && Lower(v.name) == Lower(w.name) {
      var v := SameDivision(ws, vs, Weights(files), w);
    }
  }

  lemma SameDivision(vs: seq<Variant>, ws: seq<Variant>, weights: seq<string>, v: Variant) returns (w: Variant)
    requires Offers(vs, weights) && Offers(ws, weights) && v in vs
    ensures w in ws && w.paths == v.paths && Lower(w.name) == Lower(v.name)
  {
    var i :| 0 <= i < |vs| && vs[i] == v;
    LabelIsVariant(vs, i);
    assert WellFormed(v);
    var p := v.paths[0];
    VariantPaths(vs, v, p);
    assert p in multiset(AllPaths(ws));
    var j := VariantHolding(ws, p);
    w := ws[j];
    assert WellFormed(w);
    OneLabel(v, p);
    OneLabel(w, p);
    LabelIsVariant(ws, j);
    KeyedContents(AllPaths(vs), AllPaths(ws), Lower(v.name));
    hide WellFormed, AllWellFormed, LabelsDistinct, AllPaths, Keyed, Lower;
    SameFiles(v, w, p);
  }

  // Variants with a file in common and as many of each are the same list.
  lemma SameFiles(v: Variant, w: Variant, p: string)
    requires WellFormed(v) && WellFormed(w) && p in v.paths && p in w.paths && multiset(v.paths) == multiset(w.paths)
    ensures w.paths == v.paths
  {
    OneLabel(v, p);
    OneLabel(w, p);
    assert |multiset(v.paths)| == |multiset(w.paths)|;
    if ServerShard(p).Some? {
      var n := |v.paths|;
      forall i | 0 <= i < n ensures ShardIndex(w.paths[i]) == i + 1 { FirstOf(w.name, w.paths[i], i + 1, n); }
      hide IsShardOf, ShardIndex, ServerShard, WellFormed;
      SortedIsShards(v.name, w.paths, v.paths, n);
    }
  }

  // ---- order and names ------------------------------------------------------------------------------

  lemma LowerLabelRanks()
    ensures Ranks((v: Variant) => true, LowerLabel)
  {
    hide Lower, Less;
    forall a: Variant, b: Variant | LowerLabel(a, b) ensures !LowerLabel(b, a) {
      LessTotal(Lower(a.name), Lower(b.name));
    }
    forall a: Variant, b: Variant, c: Variant | !LowerLabel(a, b) && !LowerLabel(b, c) ensures !LowerLabel(a, c) {
      LessTotal(Lower(a.name), Lower(b.name));
      LessTotal(Lower(b.name), Lower(c.name));
      if LowerLabel(a, c) && Lower(a.name) != Lower(b.name) { LessTransitive(Lower(b.name), Lower(a.name), Lower(c.name)); }
    }
  }

  // Variants come in the order of their lower-case labels.
  lemma DiscoverIsOrdered(files: seq<string>)
    ensures forall i, j :: 0 <= i < j < |Discover(files)| ==> Less(Lower(Discover(files)[i].name), Lower(Discover(files)[j].name))
  {
    var vs := Discover(files);
    if vs != [] {
      LowerLabelRanks();
      SortInOrder((v: Variant) => true, Unsorted(files).value, LowerLabel);
      DiscoverIsPartition(files);
      hide Ranks, SortBy, Lower, Less, Unsorted;
      forall i, j | 0 <= i < j < |vs| ensures Less(Lower(vs[i].name), Lower(vs[j].name)) {
        assert !LowerLabel(vs[j], vs[i]);
        LessTotal(Lower(vs[i].name), Lower(vs[j].name));
      }
    }
  }

  // Before the first of its files nothing is listed under the label.
  ghost predicate FirstOfLabel(paths: seq<string>, key: string, i: int) {
    && 0 <= i < |paths| && ServerShard(paths[i]).Some? && FileKey(paths[i]) == key
    && forall j :: 0 <= j < i ==> ServerShard(paths[j]).None? || FileKey(paths[j]) != key
  }

  lemma ScansLabel(s: Scan, path: string, key: string)
    requires s.labels.Keys == s.groups.Keys
    ensures var t := ScanOne(s, path);
            && t.labels.Keys == t.groups.Keys
            && (key in t.labels <==> key in s.labels || (ServerShard(path).Some? && FileKey(path) == key))
            && (key in t.labels ==> t.labels[key] == if key in s.labels then s.labels[key] else FileLabel(path))
  {
    hide ServerShard, Lower, ShardLabel;
  }

  lemma FirstStaysFirst(paths: seq<string>, key: string, i: int)
    requires paths != [] && FirstOfLabel(paths[..|paths|-1], key, i)
    ensures FirstOfLabel(paths, key, i) && paths[i] == paths[..|paths|-1][i]
  {
    hide ServerShard, FileKey;
  }

  ghost predicate Unlabelled(paths: seq<string>, key: string) {
    forall j :: 0 <= j < |paths| ==> ServerShard(paths[j]).None? || FileKey(paths[j]) != key
  }

  lemma LastLabelled(paths: seq<string>, key: string)
    requires paths != [] && Unlabelled(paths[..|paths|-1], key)
    ensures if ServerShard(paths[|paths|-1]).Some? && FileKey(paths[|paths|-1]) == key then FirstOfLabel(paths, key, |paths| - 1)
            else Unlabelled(paths, key)
  {
    hide ServerShard, FileKey;
  }

  lemma {:induction false} LabelsAreFirst(paths: seq<string>, key: string) returns (i: int)
    ensures ScanAll(paths).labels.Keys == ScanAll(paths).groups.Keys
    ensures if key in ScanAll(paths).labels then FirstOfLabel(paths, key, i) && ScanAll(paths).labels[key] == FileLabel(paths[i])
            else Unlabelled(paths, key)
  {
    i := 0;
    if paths != [] {
      var init, last := paths[..|paths|-1], paths[|paths|-1];
      i := LabelsAreFirst(init, key);
      ScansLabel(ScanAll(init), last, key);
      hide ServerShard, FileKey, FileLabel, ScanOne, FirstOfLabel, Unlabelled;
      if key in ScanAll(init).labels {
        FirstStaysFirst(paths, key, i);
      } else {
        LastLabelled(paths, key);
        i := |paths| - 1;
      }
    }
  }

  // A variant has the label of the file listed first, in that file's spelling.
  lemma VariantNamed(files: seq<string>, v: Variant) returns (i: int)
    requires v in Discover(files)
    ensures var w := Weights(files);
            && 0 <= i < |w| && w[i] in v.paths && (forall j :: 0 <= j < i ==> w[j] !in v.paths) && v.name == FileLabel(w[i])
  {
    var w := Weights(files);
    var s := ScanAll(w);
    ScanAllSorted(w);
    ScanAllFilled(w);
    var found := Unsorted(files).value;
    SortContents(found, LowerLabel);
    assert v in multiset(found);
    if v in SingleVariants(s.singles) {
      assert v.name in s.singles && v.paths == [v.name];
      HeldInScan(s, w, v.name);
      i := FirstAt(w, v.name);
      hide ServerShard, Weights, Discover;
    } else {
      var key := GroupOf(s, s.order, v);
      DiscoverIsPartition(files);
      i := LabelsAreFirst(w, key);
      hide Weights, Discover, ScanAll, IsComplete;
      GroupFirst(s, w, key, v, i);
    }
  }

  lemma {:induction false} FirstAt(paths: seq<string>, p: string) returns (i: int)
    requires p in paths
    ensures 0 <= i < |paths| && paths[i] == p && forall j :: 0 <= j < i ==> paths[j] != p
  {
    if p in paths[..|paths|-1] { i := FirstAt(paths[..|paths|-1], p); } else { i := |paths| - 1; }
  }

  lemma {:induction false} GroupOf(s: Scan, order: seq<string>, v: Variant) returns (key: string)
    requires GroupVariants(s, order).Some? && v in GroupVariants(s, order).value
    ensures key in order && key in s.groups && key in s.labels && IsComplete(s.groups[key])
    ensures v == Variant(s.labels[key], PathsOf(SortMembers(s.groups[key])))
  {
    hide IsComplete, SortMembers, PathsOf;
    var init, last := order[..|order|-1], order[|order|-1];
    if v in GroupVariants(s, init).value { key := GroupOf(s, init, v); } else { key := last; }
  }

  lemma GroupFirst(s: Scan, w: seq<string>, key: string, v: Variant, i: int)
    requires Sorted(s, w) && key in s.groups && v.paths == PathsOf(SortMembers(s.groups[key])) && FirstOfLabel(w, key, i)
    ensures w[i] in v.paths && forall j :: 0 <= j < i ==> w[j] !in v.paths
  {
    var ms := s.groups[key];
    SortContents(ms, LowerIndex);
    PathsKeepContents(SortMembers(ms), ms);
    ShardIsMember(s, w, key, w[i]);
    forall j | 0 <= j < i ensures w[j] !in v.paths {
      if w[j] in v.paths {
        assert w[j] in multiset(PathsOf(ms));
        MemberIsShard(s, w, key, w[j]);
      }
    }
    hide Sorted, ServerShard, FileKey, SortBy;
    assert w[i] in multiset(PathsOf(ms)) && w[i] in multiset(v.paths);
  }

  lemma ShardIsMember(s: Scan, w: seq<string>, key: string, p: string)
    requires Sorted(s, w) && key in s.groups && p in w && ServerShard(p).Some? && FileKey(p) == key
    ensures p in PathsOf(s.groups[key])
  {
    var grouped := Grouped(s.order, s.groups);
    assert p in multiset(w) && p !in s.singles;
    assert p in multiset(grouped);
    GroupedKeyed(s.order, s.groups, key);
    KeyedCounts(grouped, key, p);
    hide FileKey, ServerShard, Grouped, Keyed;
    assert p in multiset(PathsOf(s.groups[key]));
  }

  lemma MemberIsShard(s: Scan, w: seq<string>, key: string, p: string)
    requires Sorted(s, w) && key in s.groups && p in PathsOf(s.groups[key])
    ensures ServerShard(p).Some? && FileKey(p) == key
  {
    var k :| 0 <= k < |s.groups[key]| && PathsOf(s.groups[key])[k] == p;
    assert s.groups[key][k] in s.groups[key] && Belongs(key, s.groups[key][k]);
    BelongsKey(key, s.groups[key][k]);
  }
}
