// Manifest files: what the client accepts and what it verifies before
// publishing (manifest.go).
module Manifests {
  import opened TaskTypes
  import opened Encoding
  import opened Identity
  import opened Strings
  import opened FileTree

  datatype Entry = Entry(path: string, size: int, sha256: string)

  datatype Origin = Origin(provider: string, id: string, requestedRevision: string, resolvedRevision: string, selectedPaths: Option<seq<string>>)

  // `createdAt` is None for Go's zero time, `files` for a missing list.
  datatype Manifest = Manifest(
    schemaVersion: int, artifactId: string, name: string, version: string, source: Origin, createdAt: Option<int>,
    contentSha256: string, totalSize: int, fileCount: int, listed: Option<seq<Entry>>)
  {
    function Files(): seq<Entry> { if listed.None? then [] else listed.value }
  }

  const CURRENT_SCHEMA := 2

  const MAX_INT64: int := 0x7FFF_FFFF_FFFF_FFFF

  // ---- validation --------------------------------------------------------------------

  // A POSIX relative path without empty, dot or dot-dot components.
  predicate SafePath(value: string) {
    value != "" && value != "." && '\\' !in value && forall part :: part in Split(value, '/') ==> part != "" && part != "." && part != ".."
  }

  predicate ValidEntry(e: Entry) {
    SafePath(e.path) && e.size >= 0 && IsDigest(e.sha256)
  }

  ghost predicate UniquePaths(files: seq<Entry>) {
    forall j, k :: 0 <= j < k < |files| ==> files[j].path != files[k].path
  }

  function PathsOf(files: seq<Entry>): set<string> {
    set e | e in files :: e.path
  }

  ghost predicate ValidFiles(files: seq<Entry>) {
    (forall e :: e in files ==> ValidEntry(e)) && UniquePaths(files)
  }

  predicate ValidSelection(selected: Option<seq<string>>, files: seq<Entry>) {
    selected.Some? ==> selected.value != [] && (set p | p in selected.value) == PathsOf(files)
  }

  predicate ValidOrigin(o: Origin) {
    ProviderNamed(o.provider).Some? && o.id != "" && o.requestedRevision != "" && o.resolvedRevision != ""
  }

  ghost predicate Valid(m: Manifest) {
    && 1 <= m.schemaVersion <= CURRENT_SCHEMA && m.artifactId != "" && m.name != "" && m.version != "" && ValidOrigin(m.source)
    && IsDigest(m.contentSha256) && m.totalSize >= 0 && m.fileCount >= 0 && m.createdAt.Some? && m.listed.Some?
    && ValidFiles(m.Files()) && ValidSelection(m.source.selectedPaths, m.Files())
  }

  method ValidateManifest(m: Manifest) returns (ok: bool)
    ensures ok <==> Valid(m)
  {
    if m.schemaVersion < 1 || m.schemaVersion > CURRENT_SCHEMA { return false; }
    if m.artifactId == "" || m.name == "" || m.version == "" || !ValidOrigin(m.source) || !IsDigest(m.contentSha256)
       || m.totalSize < 0 || m.fileCount < 0 || m.createdAt.None? || m.listed.None? { return false; }
    var seen;
    ok, seen := ValidateFiles(m.Files());
    if ok && m.source.selectedPaths.Some? { ok := ValidateSelection(m.source.selectedPaths.value, m.Files(), seen); }
  }

  method ValidateFiles(files: seq<Entry>) returns (ok: bool, seen: set<string>)
    ensures ok <==> ValidFiles(files)
    ensures ok ==> seen == PathsOf(files)
  {
    seen := {};
    for i := 0 to |files|
      invariant seen == PathsOf(files[..i]) && UniquePaths(files[..i])
      invariant forall e :: e in files[..i] ==> ValidEntry(e)
    {
      var e := files[i];
      assert files[..i+1] == files[..i] + [e] && e in files;
      if !ValidEntry(e) { return false, {}; }
      if e.path in seen {
        var d :| d in files[..i] && d.path == e.path;
        var k :| 0 <= k < i && files[k] == d;
        return false, {};
      }
      seen := seen + {e.path};
    }
    assert files[..|files|] == files;
    ok := true;
  }

  // `domain.CanonicalFiles` sorts and deduplicates; then sizes and members
  // are compared.
  method ValidateSelection(paths: seq<string>, files: seq<Entry>, seen: set<string>) returns (ok: bool)
    requires seen == PathsOf(files)
    ensures ok <==> ValidSelection(Some(paths), files)
  {
    hide PathsOf;
    if paths == [] { return false; }
    var selected := set p | p in paths;
    if |selected| != |seen| { return false; }
    var rest := selected;
    while rest != {}
      invariant rest <= selected && forall p :: p in selected && p !in rest ==> p in seen
      decreases |rest|
    {
      var p :| p in rest;
      if p !in seen { return false; }
      rest := rest - {p};
    }
    SameSize(selected, seen);
    ok := true;
  }

  lemma {:induction false} SameSize<T>(a: set<T>, b: set<T>)
    requires a <= b && |a| == |b|
    ensures a == b
  {
    assert |b - a| == |b| - |a|;
  }

  // ---- verification ---------------------------------------------------------------------

  function Target(root: Place, e: Entry): Place {
    root + Split(e.path, '/')
  }

  predicate Matches(sha: Content -> string, fs: Fs, p: Place, e: Entry) {
    var c := ContentAt(fs, p);
    c.Some? && |c.value| == e.size && sha(c.value) == e.sha256
  }

  function TotalSize(files: seq<Entry>): int {
    if files == [] then 0 else TotalSize(files[..|files|-1]) + files[|files|-1].size
  }

  // What the client computes with: the content digest, and the digest of a
  // list of selected paths.
  datatype Digests = Digests(content: seq<Entry> -> string, selection: seq<string> -> string)

  // `SelectionDigest`, empty for a missing list.
  function SelectionDigest(digests: Digests, paths: Option<seq<string>>): string {
    if paths.None? then "" else digests.selection(paths.value)
  }

  // The identity the manifest's own source has.
  function ExpectedId(digests: Digests, o: Origin): string {
    var d := SelectionDigest(digests, o.selectedPaths);
    o.provider + ":" + EncodeSegment(o.id) + ":" + EncodeSegment(o.resolvedRevision) + if d == "" then "" else ":files:" + d
  }

  // It is the identity the server gives that source.
  lemma ExpectedIsIdentity(digests: Digests, o: Origin, p: Provider)
    requires ProviderNamed(o.provider) == Some(p) && (o.selectedPaths.Some? ==> SelectionDigest(digests, o.selectedPaths) != "")
    ensures ExpectedId(digests, o) == ArtifactIdentity(Source(p, o.id, o.resolvedRevision,
              if o.selectedPaths.None? then None else Some(SelectionDigest(digests, o.selectedPaths))))
  {
    var base, revision, d := o.provider + ":" + EncodeSegment(o.id) + ":", EncodeSegment(o.resolvedRevision), SelectionDigest(digests, o.selectedPaths);
    NamedProvider(o.provider, p);
    assert base + revision + "" == base + revision;
    assert base + revision + (":files:" + d) == base + (revision + ":files:" + d);
  }

  lemma NamedProvider(name: string, p: Provider)
    requires ProviderNamed(name) == Some(p)
    ensures ProviderName(p) == name
  {
  }

  // The complete check: every file, and the manifest against itself.
  ghost predicate Verified(sha: Content -> string, digests: Digests, fs: Fs, root: Place, m: Manifest) {
    (forall e :: e in m.Files() ==> Matches(sha, fs, Target(root, e), e)) && OwnSums(digests, m)
  }

  // What the manifest says of itself is true.
  predicate OwnSums(digests: Digests, m: Manifest) {
    && m.fileCount == |m.Files()| && m.totalSize == TotalSize(m.Files()) <= MAX_INT64
    && digests.content(m.Files()) == m.contentSha256
    && m.artifactId == ExpectedId(digests, m.source)
  }

  datatype Failure = Missing(path: string) | WrongType(path: string) | WrongSize(path: string) | WrongSha(path: string)
    | WrongCount | Overflow | WrongTotal | WrongDigest | WrongIdentity

  // What is wrong with the file at the place of an entry.
  predicate FileFault(sha: Content -> string, fs: Fs, p: Place, e: Entry, f: Failure) {
    var content := ContentAt(fs, p);
    match f
    case Missing(path) => path == e.path && p !in fs.names
    case WrongType(path) => path == e.path && p in fs.names && content.None?
    case WrongSize(path) => path == e.path && content.Some? && |content.value| != e.size
    case WrongSha(path) => path == e.path && content.Some? && |content.value| == e.size && sha(content.value) != e.sha256
    case _ => false
  }

  // What is wrong with the manifest itself.
  predicate SumFault(digests: Digests, m: Manifest, f: Failure) {
    match f
    case WrongCount => m.fileCount != |m.Files()|
    case Overflow => TotalSize(m.Files()) > MAX_INT64
    case WrongTotal => TotalSize(m.Files()) > MAX_INT64 || m.totalSize != TotalSize(m.Files())
    case WrongDigest => digests.content(m.Files()) != m.contentSha256
    case WrongIdentity => m.artifactId != ExpectedId(digests, m.source)
    case _ => false
  }

  ghost predicate AnyFileFault(sha: Content -> string, fs: Fs, root: Place, files: seq<Entry>, f: Failure) {
    exists e :: e in files && FileFault(sha, fs, Target(root, e), e, f)
  }

  lemma OneMoreFault(sha: Content -> string, fs: Fs, root: Place, files: seq<Entry>, i: nat, f: Failure)
    requires i < |files|
    ensures AnyFileFault(sha, fs, root, files[..i+1], f) <==> AnyFileFault(sha, fs, root, files[..i], f) || FileFault(sha, fs, Target(root, files[i]), files[i], f)
  {
    assert files[..i+1] == files[..i] + [files[i]];
    hide FileFault;
  }

  // No fault is the same as matching.
  lemma FaultOrMatch(sha: Content -> string, fs: Fs, p: Place, e: Entry)
    ensures Matches(sha, fs, p, e) <==> forall f :: !FileFault(sha, fs, p, e, f)
  {
    if !Matches(sha, fs, p, e) {
      assert FileFault(sha, fs, p, e, Missing(e.path)) || FileFault(sha, fs, p, e, WrongType(e.path))
        || FileFault(sha, fs, p, e, WrongSize(e.path)) || FileFault(sha, fs, p, e, WrongSha(e.path));
    }
  }

  // Nothing is at fault exactly when the manifest is verified.
  lemma NoFaultIsVerified(sha: Content -> string, digests: Digests, fs: Fs, root: Place, m: Manifest)
    requires Valid(m)
    ensures Verified(sha, digests, fs, root, m) <==>
              (forall f :: !AnyFileFault(sha, fs, root, m.Files(), f) && !SumFault(digests, m, f))
  {
    forall e | e in m.Files() ensures Matches(sha, fs, Target(root, e), e) <==> forall f :: !FileFault(sha, fs, Target(root, e), e, f) {
      FaultOrMatch(sha, fs, Target(root, e), e);
    }
    hide FileFault, Matches, ExpectedId, Valid;
    if e :| e in m.Files() && !Matches(sha, fs, Target(root, e), e) {
      var f :| FileFault(sha, fs, Target(root, e), e, f);
      assert AnyFileFault(sha, fs, root, m.Files(), f);
    } else if !OwnSums(digests, m) {
      assert SumFault(digests, m, WrongCount) || SumFault(digests, m, WrongTotal) || SumFault(digests, m, WrongDigest) || SumFault(digests, m, WrongIdentity);
    }
  }

  method CheckFile(sha: Content -> string, fs: Fs, p: Place, e: Entry) returns (failures: seq<Failure>)
    ensures forall f :: f in failures <==> FileFault(sha, fs, p, e, f)
  {
    if p !in fs.names { return [Missing(e.path)]; }
    var content := ContentAt(fs, p);
    if content.None? { return [WrongType(e.path)]; }
    if |content.value| != e.size { return [WrongSize(e.path)]; }
    if sha(content.value) != e.sha256 { return [WrongSha(e.path)]; }
    failures := [];
  }

  // The total is guarded against overflow entry by entry; -1 stands for it.
  method SumSizes(files: seq<Entry>) returns (total: int, overflow: bool)
    requires forall e :: e in files ==> e.size >= 0
    ensures overflow <==> TotalSize(files) > MAX_INT64
    ensures total == if overflow then -1 else TotalSize(files)
  {
    total := 0;
    for i := 0 to |files|
      invariant total == TotalSize(files[..i]) <= MAX_INT64
    {
      assert files[..i+1][..i] == files[..i] && files[i] in files;
      if files[i].size > MAX_INT64 - total {
        TotalGrows(files, i + 1);
        return -1, true;
      }
      total := total + files[i].size;
    }
    assert files[..|files|] == files;
    overflow := false;
  }

  lemma {:induction false} TotalGrows(files: seq<Entry>, k: nat)
    requires k <= |files| && forall e :: e in files ==> e.size >= 0
    ensures TotalSize(files) >= TotalSize(files[..k])
    decreases |files| - k
  {
    if k < |files| {
      assert files[..k+1][..k] == files[..k] && files[k] in files;
      TotalGrows(files, k + 1);
    } else {
      assert files[..k] == files;
    }
  }

  method Verify(sha: Content -> string, digests: Digests, fs: Fs, root: Place, m: Manifest) returns (failures: seq<Failure>)
    requires Valid(m)
    ensures forall f :: f in failures <==> AnyFileFault(sha, fs, root, m.Files(), f) || SumFault(digests, m, f)
    ensures failures == [] <==> Verified(sha, digests, fs, root, m)
  {
    failures := CheckFiles(sha, fs, root, m.Files());
    var more := CheckSums(digests, m);
    failures := failures + more;
    NoFaultIsVerified(sha, digests, fs, root, m);
    hide AnyFileFault, SumFault, Verified, Valid;
    assert failures != [] ==> failures[0] in failures;
  }

  method CheckSums(digests: Digests, m: Manifest) returns (failures: seq<Failure>)
    requires Valid(m)
    ensures forall f :: f in failures <==> SumFault(digests, m, f)
  {
    var totals := CheckTotal(m);
    hide Valid, ExpectedId, TotalSize;
    var count := if m.fileCount != |m.Files()| then [WrongCount] else [];
    var digest := if digests.content(m.Files()) != m.contentSha256 then [WrongDigest] else [];
    var identity := if m.artifactId != ExpectedId(digests, m.source) then [WrongIdentity] else [];
    failures := count + totals + digest + identity;
  }

  method CheckTotal(m: Manifest) returns (failures: seq<Failure>)
    requires Valid(m)
    ensures forall f :: f in failures <==>
              || (f == Overflow && TotalSize(m.Files()) > MAX_INT64)
              || (f == WrongTotal && (TotalSize(m.Files()) > MAX_INT64 || m.totalSize != TotalSize(m.Files())))
  {
    assert (forall e :: e in m.Files() ==> e.size >= 0) && m.totalSize >= 0;
    hide Valid;
    var total, overflow := SumSizes(m.Files());
    hide TotalSize;
    failures := if overflow then [Overflow] else [];
    if m.totalSize != total { failures := failures + [WrongTotal]; }
  }

  method CheckFiles(sha: Content -> string, fs: Fs, root: Place, files: seq<Entry>) returns (failures: seq<Failure>)
    ensures forall f :: f in failures <==> AnyFileFault(sha, fs, root, files, f)
  {
    failures := [];
    hide FileFault;
    for i := 0 to |files|
      invariant forall f :: f in failures <==> AnyFileFault(sha, fs, root, files[..i], f)
    {
      var more := CheckFile(sha, fs, Target(root, files[i]), files[i]);
      forall f ensures f in failures + more <==> AnyFileFault(sha, fs, root, files[..i+1], f) {
        OneMoreFault(sha, fs, root, files, i, f);
      }
      failures := failures + more;
    }
    assert files[..|files|] == files;
  }

  // ---- paths and places --------------------------------------------------------------------

  lemma TargetsDiffer(root: Place, d: Entry, e: Entry)
    requires Target(root, d) == Target(root, e)
    ensures d.path == e.path
  {
    assert Split(d.path, '/') == Target(root, d)[|root|..] && Split(e.path, '/') == Target(root, e)[|root|..];
    JoinSplit(d.path, '/');
    JoinSplit(e.path, '/');
  }
}
