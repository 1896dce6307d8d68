// Lock files of the client: keys, order and equality (lockfile.go).
module LockFiles {
  import opened TaskTypes
  import opened Identity
  import opened Sequences
  import opened Strings

  // nil and empty lists differ in memory.
  datatype Model = Model(
    alias: string, provider: string, id: string, revision: string, artifact: string, path: string,
    files: Option<seq<string>>, resolvedRevision: string, artifactId: string, relativePath: string, lockedAt: int)

  // Times count from Go's zero time.
  const ZERO_TIME: int := 0

  const CURRENT_SCHEMA := 2

  datatype Desired = Desired(
    alias: string, provider: string, id: string, revision: string, artifact: string, path: string, files: Option<seq<string>>)

  // ---- keys ---------------------------------------------------------------------------

  function InsertString(q: seq<string>, s: string): seq<string> {
    if q == [] then [s] else if Less(s, q[0]) then [s] + q else if s == q[0] then q else [q[0]] + InsertString(q[1..], s)
  }

  // `CanonicalFiles`: sorted, without repetitions.
  function Canonical(files: seq<string>): seq<string> {
    if files == [] then [] else InsertString(Canonical(files[1..]), files[0])
  }

  function FilesKey(files: Option<seq<string>>): string {
    if files.None? then "" else Join(Canonical(files.value), '\0')
  }

  function DeclarationKey(alias: string, provider: string, id: string, revision: string, files: Option<seq<string>>): string {
    if alias != "" then "alias\0" + alias
    else "selector\0" + (provider + "\0" + (id + "\0" + (revision + "\0" + FilesKey(files))))
  }

  function Key(m: Model): string {
    DeclarationKey(m.alias, m.provider, m.id, m.revision, m.files)
  }

  function DesiredKey(d: Desired): string {
    DeclarationKey(d.alias, d.provider, d.id, d.revision, d.files)
  }

  predicate NoNul(s: string) { '\0' !in s }

  lemma SplitAtNul(a: string, b: string, x: string, y: string)
    requires NoNul(a) && NoNul(b) && a + "\0" + x == b + "\0" + y
    ensures a == b && x == y
  {
    SplitFirst(a, x, '\0');
    SplitFirst(b, y, '\0');
    assert a + "\0" + x == a + ['\0'] + x && b + "\0" + y == b + ['\0'] + y;
    assert ([a] + Split(x, '\0'))[0] == ([b] + Split(y, '\0'))[0];
    assert x == (a + "\0" + x)[|a|+1..] && y == (b + "\0" + y)[|b|+1..];
  }

  // Unlike sources or unlike aliases never share a key.
  lemma KeysDiffer(m: Model, n: Model)
    requires Key(m) == Key(n)
    requires NoNul(m.provider) && NoNul(n.provider) && NoNul(m.id) && NoNul(n.id)
    ensures m.alias == n.alias && (m.alias == "" ==> m.provider == n.provider && m.id == n.id)
  {
    assert Key(m)[0] == (if m.alias != "" then 'a' else 's') && Key(n)[0] == (if n.alias != "" then 'a' else 's');
    if m.alias != "" && n.alias != "" {
      assert m.alias == ("alias\0" + m.alias)[6..] && n.alias == ("alias\0" + n.alias)[6..];
    } else if m.alias == "" && n.alias == "" {
      var x, y := Key(m)[9..], Key(n)[9..];
      assert x == m.provider + "\0" + (m.id + "\0" + (m.revision + "\0" + FilesKey(m.files)));
      assert y == n.provider + "\0" + (n.id + "\0" + (n.revision + "\0" + FilesKey(n.files)));
      SplitAtNul(m.provider, n.provider, m.id + "\0" + (m.revision + "\0" + FilesKey(m.files)), n.id + "\0" + (n.revision + "\0" + FilesKey(n.files)));
      SplitAtNul(m.id, n.id, m.revision + "\0" + FilesKey(m.files), n.revision + "\0" + FilesKey(n.files));
    }
  }

  // ---- keys by what they stand for ----------------------------------------------------------

  ghost predicate Ascending(q: seq<string>) {
    forall i, j :: 0 <= i < j < |q| ==> Less(q[i], q[j])
  }

  lemma {:induction false} InsertExact(q: seq<string>, s: string)
    requires Ascending(q)
    ensures Ascending(InsertString(q, s)) && forall x :: x in InsertString(q, s) <==> x in q || x == s
  {
    if q != [] {
      LessTotal(s, q[0]);
      var rest := InsertString(q[1..], s);
      InsertExact(q[1..], s);
      assert forall x :: x in q <==> x == q[0] || x in q[1..];
      if Less(s, q[0]) {
        forall i | 0 < i < |q| ensures Less(s, q[i]) { LessTransitive(s, q[0], q[i]); }
      } else {
        forall i | 0 <= i < |rest| ensures rest[i] == s || rest[i] in q[1..] { assert rest[i] in rest; }
      }
    }
  }

  // Sorted, each name once, and the names of the list.
  lemma {:induction false} CanonicalExact(files: seq<string>)
    ensures Ascending(Canonical(files)) && forall x :: x in Canonical(files) <==> x in files
  {
    if files != [] {
      CanonicalExact(files[1..]);
      InsertExact(Canonical(files[1..]), files[0]);
      assert forall x :: x in files <==> x == files[0] || x in files[1..];
      hide InsertString;
    }
  }

  lemma LeastFirst(a: seq<string>, x: string)
    requires Ascending(a) && x in a
    ensures x == a[0] || Less(a[0], x)
  {
  }

  lemma AllButFirst(a: seq<string>, b: seq<string>, x: string)
    requires Ascending(a) && Ascending(b) && a != [] && b != [] && a[0] == b[0] && (x in a ==> x in b)
    ensures x in a[1..] ==> x in b[1..]
  {
    if x in a[1..] {
      var i :| 1 <= i < |a| && a[i] == x;
      LessTotal(a[0], x);
      assert x in a && b == [b[0]] + b[1..];
    }
  }

  lemma {:induction false} AscendingUnique(a: seq<string>, b: seq<string>)
    requires Ascending(a) && Ascending(b) && forall x :: x in a <==> x in b
    ensures a == b
  {
    assert a != [] ==> a[0] in a;
    assert b != [] ==> b[0] in b;
    if a != [] {
      assert a[0] in a && b[0] in b;
      LeastFirst(a, b[0]);
      LeastFirst(b, a[0]);
      LessTotal(a[0], b[0]);
      forall x ensures x in a[1..] <==> x in b[1..] {
        AllButFirst(a, b, x);
        AllButFirst(b, a, x);
      }
      AscendingUnique(a[1..], b[1..]);
      assert a == [a[0]] + a[1..] && b == [b[0]] + b[1..];
    }
  }

  function Listed(files: Option<seq<string>>): seq<string> {
    if files.None? then [] else files.value
  }

  predicate CleanNames(files: Option<seq<string>>) {
    forall f :: f in Listed(files) ==> f != "" && NoNul(f)
  }

  // Two file lists have one key exactly when they list the same files.
  lemma FilesKeyExact(a: Option<seq<string>>, b: Option<seq<string>>)
    requires CleanNames(a) && CleanNames(b)
    ensures FilesKey(a) == FilesKey(b) <==> forall f :: f in Listed(a) <==> f in Listed(b)
  {
    var p, q := Canonical(Listed(a)), Canonical(Listed(b));
    assert FilesKey(a) == Join(p, '\0') && FilesKey(b) == Join(q, '\0');
    CanonicalExact(Listed(a));
    CanonicalExact(Listed(b));
    JoinedNames(p);
    JoinedNames(q);
    if forall f :: f in Listed(a) <==> f in Listed(b) { AscendingUnique(p, q); }
    hide Canonical, Ascending;
    if Join(p, '\0') == Join(q, '\0') { assert p == q; }
  }

  lemma JoinedNames(q: seq<string>)
    requires forall f :: f in q ==> f != "" && NoNul(f)
    ensures q == if Join(q, '\0') == "" then [] else Split(Join(q, '\0'), '\0')
  {
    if q != [] {
      SplitJoin(q, '\0');
      assert q[0] in q && Split("", '\0') == [""];
    }
  }

  predicate CleanSelector(provider: string, id: string, revision: string, files: Option<seq<string>>) {
    NoNul(provider) && NoNul(id) && NoNul(revision) && CleanNames(files)
  }

  // Two declarations have one key exactly when they have the same alias or,
  // both without one, the same source, revision and files.
  lemma KeysExact(d: Desired, e: Desired)
    requires CleanSelector(d.provider, d.id, d.revision, d.files) && CleanSelector(e.provider, e.id, e.revision, e.files)
    ensures DesiredKey(d) == DesiredKey(e) <==>
              && d.alias == e.alias
              && (d.alias == "" ==> d.provider == e.provider && d.id == e.id && d.revision == e.revision
                                    && forall f :: f in Listed(d.files) <==> f in Listed(e.files))
  {
    FilesKeyExact(d.files, e.files);
    hide FilesKey, CleanNames;
    if DesiredKey(d) == DesiredKey(e) {
      assert DesiredKey(d)[0] == (if d.alias != "" then 'a' else 's') && DesiredKey(e)[0] == (if e.alias != "" then 'a' else 's');
      if d.alias != "" && e.alias != "" {
        assert d.alias == ("alias\0" + d.alias)[6..] && e.alias == ("alias\0" + e.alias)[6..];
      } else if d.alias == "" && e.alias == "" {
        var x, y := DesiredKey(d)[9..], DesiredKey(e)[9..];
        assert x == d.provider + "\0" + (d.id + "\0" + (d.revision + "\0" + FilesKey(d.files)));
        assert y == e.provider + "\0" + (e.id + "\0" + (e.revision + "\0" + FilesKey(e.files)));
        SplitAtNul(d.provider, e.provider, d.id + "\0" + (d.revision + "\0" + FilesKey(d.files)), e.id + "\0" + (e.revision + "\0" + FilesKey(e.files)));
        SplitAtNul(d.id, e.id, d.revision + "\0" + FilesKey(d.files), e.revision + "\0" + FilesKey(e.files));
        SplitAtNul(d.revision, e.revision, FilesKey(d.files), FilesKey(e.files));
      }
    }
  }

  // ---- sorting and equality ---------------------------------------------------------------

  predicate LowerKey(m: Model, n: Model) { Less(Key(m), Key(n)) }

  // `Sort` by declaration key.
  function Sort(q: seq<Model>): seq<Model> {
    SortBy(q, LowerKey)
  }

  ghost predicate Sorted(q: seq<Model>) {
    forall i, j :: 0 <= i < j < |q| ==> Less(Key(q[i]), Key(q[j]))
  }

  ghost predicate KeysDistinct(q: seq<Model>) {
    forall i, j :: 0 <= i < j < |q| ==> Key(q[i]) != Key(q[j])
  }

  lemma KeysSameContents(a: seq<Model>, b: seq<Model>)
    requires KeysDistinct(a) && multiset(a) == multiset(b)
    ensures KeysDistinct(b)
  {
    forall i, j | 0 <= i < j < |b| ensures Key(b[i]) != Key(b[j]) {
      if Key(b[i]) == Key(b[j]) {
        assert b[i] in multiset(a) && b[j] in multiset(a);
        var k :| 0 <= k < |a| && a[k] == b[i];
        var l :| 0 <= l < |a| && a[l] == b[j];
        assert k == l;
        Twice(b, i, j);
        Once(a, k);
      }
    }
  }

  predicate AnyModel(m: Model) { true }

  lemma KeysRank()
    ensures Ranks(AnyModel, LowerKey)
  {
    forall m: Model, n: Model | LowerKey(m, n) ensures !LowerKey(n, m) {
      LessTotal(Key(m), Key(n));
    }
    forall m: Model, n: Model, o: Model | !LowerKey(m, n) && !LowerKey(n, o) ensures !LowerKey(m, o) {
      LessTotal(Key(m), Key(n));
      LessTotal(Key(n), Key(o));
      if LowerKey(m, o) && Key(m) != Key(n) { LessTransitive(Key(n), Key(m), Key(o)); }
    }
  }

  lemma SortSorts(q: seq<Model>)
    requires KeysDistinct(q)
    ensures Sorted(Sort(q))
  {
    KeysRank();
    SortInOrder(AnyModel, q, LowerKey);
    SortContents(q, LowerKey);
    var r := Sort(q);
    KeysSameContents(q, r);
    hide SortBy, Ranks;
    forall i, j | 0 <= i < j < |r| ensures Less(Key(r[i]), Key(r[j])) {
      assert !LowerKey(r[j], r[i]);
      LessTotal(Key(r[i]), Key(r[j]));
    }
  }

  // There is one sorted arrangement of distinct keys.
  lemma {:induction false} SortedUnique(a: seq<Model>, b: seq<Model>)
    requires Sorted(a) && Sorted(b) && multiset(a) == multiset(b)
    ensures a == b
  {
    assert |multiset(a)| == |multiset(b)|;
    if a != [] {
      SameFirst(a, b);
      WithoutFirst(a);
      WithoutFirst(b);
      SortedUnique(a[1..], b[1..]);
      assert a == [a[0]] + a[1..] && b == [b[0]] + b[1..];
    }
  }

  lemma WithoutFirst(a: seq<Model>)
    requires a != []
    ensures multiset(a[1..]) == multiset(a) - multiset{a[0]}
  {
    assert a == [a[0]] + a[1..];
  }

  lemma SameFirst(a: seq<Model>, b: seq<Model>)
    requires Sorted(a) && Sorted(b) && multiset(a) == multiset(b) && a != [] && b != []
    ensures a[0] == b[0]
  {
    assert a[0] in multiset(b) && b[0] in multiset(a);
    FirstIsLeast(a, b[0]);
    FirstIsLeast(b, a[0]);
    LessTotal(Key(a[0]), Key(b[0]));
    if Key(a[0]) == Key(b[0]) { OneOfKey(a, a[0], b[0]); }
  }

  lemma FirstIsLeast(a: seq<Model>, m: Model)
    requires Sorted(a) && m in a
    ensures a[0] == m || Less(Key(a[0]), Key(m))
  {
  }

  lemma OneOfKey(a: seq<Model>, m: Model, n: Model)
    requires Sorted(a) && m in a && n in a && Key(m) == Key(n)
    ensures m == n
  {
    var i :| 0 <= i < |a| && a[i] == m;
    var j :| 0 <= j < |a| && a[j] == n;
    LessTotal(Key(m), Key(n));
  }

  // `Equal` ignores the order of the entries.
  predicate Equal(a: seq<Model>, b: seq<Model>) {
    Sort(a) == Sort(b)
  }

  lemma EqualIsSameEntries(a: seq<Model>, b: seq<Model>)
    requires KeysDistinct(a)
    ensures Equal(a, b) <==> multiset(a) == multiset(b)
  {
    SortContents(a, LowerKey);
    SortContents(b, LowerKey);
    if multiset(a) == multiset(b) {
      KeysSameContents(a, b);
      SortSorts(a);
      SortSorts(b);
      SortedUnique(Sort(a), Sort(b));
    }
  }

  // ---- find and validate -----------------------------------------------------------------------

  // What `Find` compares an entry with.
  predicate Names(m: Model, d: Desired) {
    if d.artifact != "" then m.artifact == d.artifact && m.alias == d.alias else Key(m) == DesiredKey(d)
  }

  function Find(lock: seq<Model>, d: Desired): Option<Model> {
    if lock == [] then None else if Names(lock[0], d) then Some(lock[0]) else Find(lock[1..], d)
  }

  lemma {:induction false} FindNames(lock: seq<Model>, d: Desired)
    ensures Find(lock, d).None? <==> forall m :: m in lock ==> !Names(m, d)
    ensures Find(lock, d).Some? ==> Find(lock, d).value in lock && Names(Find(lock, d).value, d)
  {
    if lock != [] { FindNames(lock[1..], d); }
  }

  // The entry found is the first the declaration names.
  lemma {:induction false} FindIsFirst(lock: seq<Model>, d: Desired) returns (k: nat)
    ensures if Find(lock, d).None? then forall j :: 0 <= j < |lock| ==> !Names(lock[j], d)
            else k < |lock| && lock[k] == Find(lock, d).value && Names(lock[k], d) && forall j :: 0 <= j < k ==> !Names(lock[j], d)
  {
    k := 0;
    if lock != [] && !Names(lock[0], d) {
      k := FindIsFirst(lock[1..], d);
      k := k + 1;
    }
  }

  method FindEntry(lock: seq<Model>, d: Desired) returns (entry: Option<Model>)
    ensures entry == Find(lock, d)
  {
    for i := 0 to |lock|
      invariant Find(lock, d) == Find(lock[i..], d)
    {
      assert lock[i..][0] == lock[i] && lock[i..][1..] == lock[i+1..];
      if Names(lock[i], d) { return Some(lock[i]); }
    }
    entry := None;
  }

  predicate Complete(m: Model) {
    ProviderNamed(m.provider).Some? && m.id != "" && m.revision != "" && m.resolvedRevision != "" && m.artifactId != "" && m.relativePath != ""
    && m.lockedAt != ZERO_TIME
  }

  ghost predicate Valid(lock: seq<Model>) {
    && (forall m :: m in lock ==> Complete(m)) && KeysDistinct(lock)
  }

  // A missing version is taken for the current one. The two seen-maps: an alias
  // is part of its key, so the second never fires.
  method Validate(schemaVersion: int, lock: seq<Model>) returns (ok: bool)
    ensures ok <==> schemaVersion in {0, CURRENT_SCHEMA} && Valid(lock)
  {
    var version := if schemaVersion == 0 then CURRENT_SCHEMA else schemaVersion;
    if version != CURRENT_SCHEMA { return false; }
    var seen: set<string>, seenAliases: set<string> := {}, {};
    for i := 0 to |lock|
      invariant KeysDistinct(lock[..i]) && forall m :: m in lock[..i] ==> Complete(m)
      invariant forall k :: k in seen <==> exists j :: 0 <= j < i && Key(lock[j]) == k
      invariant forall a :: a in seenAliases ==> exists j :: 0 <= j < i && lock[j].alias == a != ""
    {
      assert lock[..i+1] == lock[..i] + [lock[i]] && lock[i] in lock;
      if !Complete(lock[i]) { return false; }
      var key := Key(lock[i]);
      if key in seen {
        var j :| 0 <= j < i && Key(lock[j]) == key;
        return false;
      }
      seen := seen + {key};
      if lock[i].alias != "" {
        if lock[i].alias in seenAliases { assert false; }
        seenAliases := seenAliases + {lock[i].alias};
      }
    }
    assert lock[..|lock|] == lock;
    ok := true;
  }
}
