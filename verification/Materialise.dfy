// Building an artifact in staging and publishing it (sync.go), one system
// call at a time. The ghost log holds the filesystem after every call.
module Materialise {
  import opened TaskTypes
  import opened Strings
  import opened FileTree
  import opened CopyJobs
  import opened CopyPool
  import opened Manifests

  // ---- what a stretch of calls may do ------------------------------------------------

  // Every state of the stretch keeps old inodes and works under `root` only.
  ghost predicate Confined(before: Fs, states: seq<Fs>, root: Place) {
    forall h :: h in states ==> Preserves(before, h) && OnlyUnder(before, h, root)
  }

  // From `before` through `states` to `now`, the log being kept.
  ghost predicate Stretch(before: Fs, oldLog: seq<Fs>, now: Fs, log: seq<Fs>, root: Place) {
    && |oldLog| <= |log| && log[..|oldLog|] == oldLog
    && Confined(before, log[|oldLog|..], root)
    && Preserves(before, now) && OnlyUnder(before, now, root)
    && (Sane(before) ==> Sane(now))
  }

  lemma StretchesJoin(a: Fs, la: seq<Fs>, b: Fs, lb: seq<Fs>, c: Fs, lc: seq<Fs>, root: Place)
    requires Stretch(a, la, b, lb, root) && Stretch(b, lb, c, lc, root)
    ensures Stretch(a, la, c, lc, root)
  {
    assert lc[..|la|] == lb[..|la|];
    forall h | h in lc[|la|..] ensures Preserves(a, h) && OnlyUnder(a, h, root) {
      var i :| |la| <= i < |lc| && lc[i] == h;
      if i < |lb| {
        assert lb[i] == lc[..|lb|][i] && lb[i] in lb[|la|..];
      } else {
        assert h in lc[|lb|..];
        assert Preserves(b, h) && OnlyUnder(b, h, root);
      }
    }
  }

  lemma OneCall(a: Fs, la: seq<Fs>, b: Fs, lb: seq<Fs>, root: Place)
    requires lb == la + [b] && Preserves(a, b) && OnlyUnder(a, b, root) && (Sane(a) ==> Sane(b))
    ensures Stretch(a, la, b, lb, root)
  {
    assert lb[|la|..] == [b];
  }

  lemma NoCall(a: Fs, la: seq<Fs>, root: Place)
    ensures Stretch(a, la, a, la, root)
  {
  }

  // ---- the plan ---------------------------------------------------------------------------

  function PartName(p: Place): Place
    requires p != []
  {
    p[..|p|-1] + [p[|p|-1] + ".modelshelf-part"]
  }

  function JobFor(root: Place, e: Entry): Job {
    Job(Target(root, e), PartName(Target(root, e)), e.sha256)
  }

  // The content has the hash the manifest names.
  predicate HasSha(sha: Content -> string, fs: Fs, root: Place, e: Entry) {
    var c := ContentAt(fs, Target(root, e)); c.Some? && sha(c.value) == e.sha256
  }

  // Distinct paths, none the part name of another.
  ghost predicate Plannable(root: Place, files: seq<Entry>) {
    UniquePaths(files) && forall d, e :: d in files && e in files ==> Target(root, d) != PartName(Target(root, e))
  }

  lemma PartUnder(root: Place, e: Entry)
    ensures Under(Target(root, e), root) && Under(PartName(Target(root, e)), root)
  {
  }

  lemma PartsDiffer(p: Place, q: Place)
    requires p != [] && q != [] && PartName(p) == PartName(q)
    ensures p == q
  {
    var a, b := p[|p|-1], q[|q|-1];
    assert PartName(p)[|p|-1] == a + ".modelshelf-part" && PartName(q)[|q|-1] == b + ".modelshelf-part";
    assert (a + ".modelshelf-part")[..|a|] == a && (b + ".modelshelf-part")[..|b|] == b;
    assert p == PartName(p)[..|p|-1] + [a] && q == PartName(q)[..|q|-1] + [b];
  }

  lemma JobsSeparate(root: Place, files: seq<Entry>, jobs: seq<Job>, of: seq<nat>)
    requires Plannable(root, files) && |of| == |jobs|
    requires forall k :: 0 <= k < |of| ==> of[k] < |files| && jobs[k] == JobFor(root, files[of[k]])
    requires forall j, k :: 0 <= j < k < |of| ==> of[j] < of[k]
    ensures Separate(jobs)
  {
    forall j, k | 0 <= j < |jobs| && 0 <= k < |jobs| ensures jobs[j].dest != jobs[k].part {
      assert files[of[j]] in files && files[of[k]] in files;
    }
    forall j, k | 0 <= j < k < |jobs| ensures jobs[j].dest != jobs[k].dest && jobs[j].part != jobs[k].part {
      if jobs[j].part == jobs[k].part { PartsDiffer(jobs[j].dest, jobs[k].dest); }
      if jobs[j].dest == jobs[k].dest { TargetsDiffer(root, files[of[j]], files[of[k]]); }
    }
  }

  // Equal hashes mean equal contents.
  ghost predicate CollisionFree(sha: Content -> string) {
    forall c, d :: sha(c) == sha(d) ==> c == d
  }

  // Some content has the size and the hash the entry declares.
  ghost predicate Truthful(sha: Content -> string, e: Entry) {
    exists c :: |c| == e.size && sha(c) == e.sha256
  }

  // Then a file with the hash has the size.
  lemma HashFixesSize(sha: Content -> string, fs: Fs, root: Place, e: Entry)
    requires HasSha(sha, fs, root, e) && CollisionFree(sha) && Truthful(sha, e)
    ensures Matches(sha, fs, Target(root, e), e)
  {
    var c :| |c| == e.size && sha(c) == e.sha256;
  }

  // ---- frames ----------------------------------------------------------------------------

  // Only names that did not exist appear.
  ghost predicate OnlyAdds(f: Fs, g: Fs) {
    g.contents == f.contents && forall n :: n in f.names ==> n in g.names && g.names[n] == f.names[n]
  }

  ghost predicate OnlyAt(f: Fs, g: Fs, p: Place) {
    g.contents == f.contents && forall n :: n != p ==> NodeAt(g, n) == NodeAt(f, n)
  }

  lemma HasShaKept(sha: Content -> string, f: Fs, g: Fs, root: Place, e: Entry)
    requires HasSha(sha, f, root, e) && Preserves(f, g) && NodeAt(g, Target(root, e)) == NodeAt(f, Target(root, e))
    ensures HasSha(sha, g, root, e)
  {
  }

  lemma OnlyAtConfined(f: Fs, g: Fs, p: Place, root: Place)
    requires OnlyAt(f, g, p) && Under(p, root)
    ensures Preserves(f, g) && OnlyUnder(f, g, root)
  {
  }

  predicate FileAt(f: Fs, p: Place) {
    p in f.names && f.names[p].File?
  }

  // From `root` down to `p`.
  predicate OnWay(n: Place, root: Place, p: Place) {
    Under(n, root) && Under(p, n)
  }

  // Directories appear on the way, and nothing else.
  ghost predicate Deepens(f: Fs, g: Fs, root: Place, p: Place) {
    OnlyAdds(f, g) && forall n :: n in g.names && n !in f.names ==> OnWay(n, root, p) && g.names[n] == Other
  }

  ghost predicate Dirs(f: Fs, root: Place, p: Place) {
    forall n :: OnWay(n, root, p) ==> NodeAt(f, n) == Some(Other)
  }

  // A file stands where a directory is needed.
  ghost predicate InTheWay(f: Fs, root: Place, p: Place) {
    exists n :: OnWay(n, root, p) && FileAt(f, n)
  }

  // Nothing lies below the name, so that it can be removed.
  ghost predicate Bare(f: Fs, p: Place) {
    p in f.names ==> forall q :: q in f.names && Under(q, p) ==> q == p
  }

  // ---- one entry ----------------------------------------------------------------------------

  datatype Placement = Present | NeedsCopy | Unavailable

  // The export shows a regular file of the entry's size.
  predicate Exported(exported: map<string, nat>, e: Entry) {
    e.path in exported && exported[e.path] == e.size
  }

  // Another artifact's file has the hash, and the place can be had.
  ghost predicate Linkable(sha: Content -> string, f: Fs, target: Place, e: Entry, reusable: map<Entry, Place>) {
    && e in reusable && reusable[e] != target && Bare(f, target)
    && var c := ContentAt(f, reusable[e]); c.Some? && sha(c.value) == e.sha256
  }

  // What becomes of one entry when no call is refused.
  ghost predicate PlacementDecided(sha: Content -> string, f: Fs, g: Fs, root: Place, e: Entry, reusable: map<Entry, Place>,
                                   exported: map<string, nat>, placement: Placement) {
    var target := Target(root, e);
    if Matches(sha, f, target, e) then placement == Present && g == f
    else if Linkable(sha, f, target, e, reusable) then placement == Present && NodeAt(g, target) == NodeAt(f, reusable[e])
    else placement == (if Exported(exported, e) then NeedsCopy else Unavailable) && (Bare(f, target) ==> target !in g.names)
  }

  // ---- the staging tree ------------------------------------------------------------------------

  ghost predicate IsTarget(root: Place, files: seq<Entry>, n: Place) {
    exists e :: e in files && n == Target(root, e)
  }

  ghost predicate IsPart(root: Place, files: seq<Entry>, n: Place) {
    exists e :: e in files && n == PartName(Target(root, e))
  }

  // A listed file or one of its directories.
  ghost predicate Listed(root: Place, files: seq<Entry>, n: Place) {
    exists e :: e in files && OnWay(n, root, Target(root, e))
  }

  // One entry: its directories and its file appear, other names stay.
  ghost predicate EntryStaged(f: Fs, g: Fs, root: Place, e: Entry) {
    && (forall n :: n in g.names ==> n in f.names || OnWay(n, root, Target(root, e)))
    && (forall n :: FileAt(g, n) ==> FileAt(f, n) || n == Target(root, e))
    && (forall n :: n in f.names && n != Target(root, e) ==> NodeAt(g, n) == NodeAt(f, n))
  }

  // The same for a list of entries, up to the copies.
  ghost predicate Staged(f: Fs, g: Fs, root: Place, files: seq<Entry>) {
    && (forall n :: n in g.names ==> n in f.names || Listed(root, files, n))
    && (forall n :: FileAt(g, n) ==> FileAt(f, n) || IsTarget(root, files, n))
    && (forall n :: n in f.names && !IsTarget(root, files, n) ==> NodeAt(g, n) == NodeAt(f, n))
  }

  // With the copies.
  ghost predicate Filled(f: Fs, g: Fs, root: Place, files: seq<Entry>) {
    && (forall n :: n in g.names ==> n in f.names || Listed(root, files, n))
    && (forall n :: n in f.names && !IsTarget(root, files, n) && !IsPart(root, files, n) ==> NodeAt(g, n) == NodeAt(f, n))
  }

  lemma StagedJoin(f: Fs, g: Fs, h: Fs, root: Place, files: seq<Entry>, e: Entry)
    requires Staged(f, g, root, files) && EntryStaged(g, h, root, e) && e in files
    ensures Staged(f, h, root, files)
  {
    hide OnWay;
    forall n | n in f.names && !IsTarget(root, files, n) ensures NodeAt(h, n) == NodeAt(f, n) {
      assert NodeAt(g, n) == NodeAt(f, n) && n != Target(root, e);
    }
  }

  lemma NothingStaged(f: Fs, root: Place, files: seq<Entry>)
    ensures Staged(f, f, root, files)
  {
    hide IsTarget, Listed;
  }

  lemma CopiedFill(f: Fs, g: Fs, h: Fs, root: Place, files: seq<Entry>, jobs: seq<Job>, of: seq<nat>)
    requires Staged(f, g, root, files) && |of| == |jobs|
    requires forall k :: 0 <= k < |of| ==> of[k] < |files| && jobs[k] == JobFor(root, files[of[k]])
    requires (forall n :: !Touches(jobs, n) ==> NodeAt(h, n) == NodeAt(g, n)) && forall k :: 0 <= k < |jobs| ==> jobs[k].part !in h.names
    ensures Filled(f, h, root, files)
  {
    forall n | Touches(jobs, n) ensures (n in h.names ==> Listed(root, files, n)) && (IsTarget(root, files, n) || IsPart(root, files, n)) {
      TouchedIsListed(h, root, files, jobs, of, n);
    }
    hide Listed, IsTarget, IsPart, Touches, JobFor;
    forall n | n in h.names && n !in f.names ensures Listed(root, files, n) {
      assert !Touches(jobs, n) ==> NodeAt(h, n) == NodeAt(g, n);
    }
  }

  lemma TouchedIsListed(h: Fs, root: Place, files: seq<Entry>, jobs: seq<Job>, of: seq<nat>, n: Place)
    requires |of| == |jobs| && forall k :: 0 <= k < |of| ==> of[k] < |files| && jobs[k] == JobFor(root, files[of[k]])
    requires Touches(jobs, n) && forall k :: 0 <= k < |jobs| ==> jobs[k].part !in h.names
    ensures (n in h.names ==> Listed(root, files, n)) && (IsTarget(root, files, n) || IsPart(root, files, n))
  {
    var k :| 0 <= k < |jobs| && (n == jobs[k].dest || n == jobs[k].part);
    assert files[of[k]] in files;
    PartUnder(root, files[of[k]]);
    hide Target;
    assert n == jobs[k].dest ==> OnWay(n, root, Target(root, files[of[k]]));
  }

  // Something stands where a directory of the entry is needed.
  ghost predicate EntryBlocked(f: Fs, root: Place, files: seq<Entry>, e: Entry) {
    exists n :: OnWay(n, root, ParentOf(Target(root, e))) && (FileAt(f, n) || IsTarget(root, files, n))
  }

  function ParentOf(p: Place): Place {
    if p == [] then [] else p[..|p|-1]
  }

  predicate Reserved(e: Entry) { ".modelshelf" in Split(e.path, '/') }

  ghost predicate Undeliverable(f: Fs, exported: map<string, nat>, root: Place, files: seq<Entry>) {
    exists e :: e in files && (Reserved(e) || !Exported(exported, e) || EntryBlocked(f, root, files, e))
  }

  lemma BlockedLater(f: Fs, g: Fs, root: Place, files: seq<Entry>, e: Entry)
    requires Staged(f, g, root, files) && InTheWay(g, root, ParentOf(Target(root, e)))
    ensures EntryBlocked(f, root, files, e)
  {
    hide OnWay, IsTarget;
    var n :| OnWay(n, root, ParentOf(Target(root, e))) && FileAt(g, n);
  }

  lemma EntryJoin(f: Fs, g: Fs, h: Fs, root: Place, e: Entry)
    requires Deepens(f, g, root, ParentOf(Target(root, e))) && OnlyAt(g, h, Target(root, e))
    ensures EntryStaged(f, h, root, e)
  {
    var target := Target(root, e);
    forall n | n in h.names && n !in f.names ensures OnWay(n, root, target) {
      if n != target { assert NodeAt(h, n) == NodeAt(g, n); }
    }
    hide OnWay;
    forall n | FileAt(h, n) && n != target ensures FileAt(f, n) { assert NodeAt(h, n) == NodeAt(g, n); }
    forall n | n in f.names && n != target ensures NodeAt(h, n) == NodeAt(f, n) { assert NodeAt(h, n) == NodeAt(g, n); }
  }

  // ---- the client -------------------------------------------------------------------------

  // `faults` counts the calls that were refused or interrupted.
  class Client {
    var fs: Fs
    ghost var log: seq<Fs>
    ghost var faults: nat
    const sha: Content -> string
    const digests: Digests

    constructor (fs: Fs, sha: Content -> string, digests: Digests)
      ensures this.fs == fs && log == [] && faults == 0 && this.sha == sha && this.digests == digests
    {
      this.fs, this.sha, this.digests := fs, sha, digests;
      log, faults := [], 0;
    }

    // Whether the environment goes along with a call.
    method Granted() returns (granted: bool)
      modifies this`faults
      ensures faults == old(faults) + if granted then 0 else 1
    {
      granted := *;
      if !granted { faults := faults + 1; }
    }

    // ---- single calls: any of them may fail -------------------------------------------

    method Remove(p: Place) returns (removed: bool)
      modifies this
      ensures fs == (if removed then Removed(old(fs), p) else old(fs)) && log == old(log) + [fs]
      ensures faults >= old(faults) && (!removed && faults == old(faults) ==> !Bare(old(fs), p)) && (removed ==> Bare(old(fs), p))
    {
      var granted := Granted();
      var busy := p in fs.names && exists q :: q in fs.names && Under(q, p) && q != p;
      removed := granted && !busy;
      if removed { fs := Removed(fs, p); }
      log := log + [fs];
    }

    // `os.Link`: never over an existing name.
    method Link(from: Place, to: Place) returns (linked: bool)
      modifies this
      ensures linked ==> FileAt(old(fs), from) && to !in old(fs).names
      ensures fs == (if linked then WithName(old(fs), to, old(fs).names[from]) else old(fs)) && log == old(log) + [fs]
      ensures faults >= old(faults) && (!linked && faults == old(faults) ==> !FileAt(old(fs), from) || to in old(fs).names)
    {
      var granted := Granted();
      linked := granted && FileAt(fs, from) && to !in fs.names;
      if linked { fs := WithName(fs, to, fs.names[from]); }
      log := log + [fs];
    }

    method Mkdir(p: Place) returns (made: bool)
      modifies this
      ensures made ==> p !in old(fs).names
      ensures fs == (if made then WithName(old(fs), p, Other) else old(fs)) && log == old(log) + [fs]
      ensures faults >= old(faults) && (!made && faults == old(faults) ==> p in old(fs).names)
    {
      var granted := Granted();
      made := granted && p !in fs.names;
      if made { fs := WithName(fs, p, Other); }
      log := log + [fs];
    }

    // Creates the missing directories from `root` down to `p`.
    method MkdirAll(root: Place, p: Place) returns (ok: bool)
      requires Under(p, root)
      modifies this
      ensures Stretch(old(fs), old(log), fs, log, root) && Deepens(old(fs), fs, root, p)
      ensures ok ==> Dirs(fs, root, p)
      ensures faults >= old(faults) && (!ok && faults == old(faults) ==> InTheWay(old(fs), root, p))
    {
      NoCall(fs, log, root);
      hide Stretch;
      for n := |root| to |p| + 1
        invariant Stretch(old(fs), old(log), fs, log, root) && Deepens(old(fs), fs, root, p) && faults >= old(faults)
        invariant forall k :: |root| <= k < n ==> NodeAt(fs, p[..k]) == Some(Other)
      {
        assert OnWay(p[..n], root, p);
        if p[..n] !in fs.names {
          ghost var f, l := fs, log;
          var made := Mkdir(p[..n]);
          OneCall(f, l, fs, log, root);
          StretchesJoin(old(fs), old(log), f, l, fs, log, root);
          if !made { return false; }
        } else if fs.names[p[..n]].File? {
          return false;
        }
      }
      forall n | OnWay(n, root, p) ensures NodeAt(fs, n) == Some(Other) { assert n == p[..|n|]; }
      ok := true;
    }

    // ---- one entry of the manifest ---------------------------------------------------------

    // Keeps a staged file that checks out, else links a reusable one, else
    // leaves the entry to be copied.
    method PlaceEntry(root: Place, e: Entry, reusable: map<Entry, Place>, exported: map<string, nat>)
      returns (placement: Placement, rest: map<Entry, Place>)
      modifies this
      ensures Stretch(old(fs), old(log), fs, log, root) && OnlyAt(old(fs), fs, Target(root, e))
      ensures placement.Present? ==> HasSha(sha, fs, root, e)
      ensures rest == reusable || (rest == reusable - {e} && !placement.Present?)
      ensures faults >= old(faults)
      ensures faults == old(faults) ==> PlacementDecided(sha, old(fs), fs, root, e, reusable, exported, placement)
    {
      var target := Target(root, e);
      rest := reusable;
      NoCall(fs, log, root);
      hide Stretch;
      if target in fs.names {
        var readable := Granted();
        if readable && Matches(sha, fs, target, e) { return Present, rest; }
        Discard(root, target);
      }
      if e in rest {
        var candidate := ContentAt(fs, rest[e]);
        if candidate.None? || sha(candidate.value) != e.sha256 {
          rest := rest - {e};
        } else {
          var linked := LinkTarget(root, e, rest[e]);
          if linked { return Present, rest; }
          Discard(root, target);
        }
      }
      var readable := Granted();
      placement := if readable && Exported(exported, e) then NeedsCopy else Unavailable;
    }

    // A removal whose outcome is not looked at.
    method Discard(root: Place, p: Place)
      requires Under(p, root)
      modifies this
      ensures forall f, l :: Stretch(f, l, old(fs), old(log), root) ==> Stretch(f, l, fs, log, root)
      ensures OnlyAt(old(fs), fs, p) && fs in {old(fs), Removed(old(fs), p)} && (p !in fs.names ==> Bare(old(fs), p))
      ensures faults >= old(faults) && (faults == old(faults) && Bare(old(fs), p) ==> fs == Removed(old(fs), p))
    {
      ghost var f0, l0 := fs, log;
      var _ := Remove(p);
      OnlyAtConfined(f0, fs, p, root);
      OneCall(f0, l0, fs, log, root);
      forall f, l | Stretch(f, l, f0, l0, root) ensures Stretch(f, l, fs, log, root) {
        StretchesJoin(f, l, f0, l0, fs, log, root);
      }
    }

    method LinkTarget(root: Place, e: Entry, from: Place) returns (linked: bool)
      requires ContentAt(fs, from).Some? && sha(ContentAt(fs, from).value) == e.sha256
      modifies this
      ensures forall f, l :: Stretch(f, l, old(fs), old(log), root) ==> Stretch(f, l, fs, log, root)
      ensures OnlyAt(old(fs), fs, Target(root, e)) && (linked ==> HasSha(sha, fs, root, e))
      ensures if linked then Target(root, e) !in old(fs).names && NodeAt(fs, Target(root, e)) == NodeAt(old(fs), from) else fs == old(fs)
      ensures faults >= old(faults) && (faults == old(faults) && !linked ==> Target(root, e) in old(fs).names)
    {
      ghost var f0, l0 := fs, log;
      linked := Link(from, Target(root, e));
      OnlyAtConfined(f0, fs, Target(root, e), root);
      OneCall(f0, l0, fs, log, root);
      forall f, l | Stretch(f, l, f0, l0, root) ensures Stretch(f, l, fs, log, root) {
        StretchesJoin(f, l, f0, l0, fs, log, root);
      }
    }

    // ---- the copies ----------------------------------------------------------------------------

    // Any schedule of the send loop, the workers and their calls.
    method RunCopyJobs(root: Place, jobs: seq<Job>) returns (ok: bool)
      requires Sane(fs) && Separate(jobs)
      requires forall j :: 0 <= j < |jobs| ==> Under(jobs[j].dest, root) && Under(jobs[j].part, root)
      modifies this
      ensures Stretch(old(fs), old(log), fs, log, root)
      ensures forall n :: !Touches(jobs, n) ==> NodeAt(fs, n) == NodeAt(old(fs), n)
      ensures ok ==> forall j :: 0 <= j < |jobs| ==>
                && ContentAt(fs, jobs[j].dest).Some? && sha(ContentAt(fs, jobs[j].dest).value) == jobs[j].expected
                && jobs[j].part !in fs.names
      ensures faults >= old(faults) && (!ok ==> faults > old(faults))
    {
      var workers: nat :| 1 <= workers <= MAX_WORKERS;
      CanFinish(sha, jobs, fs, workers);
      var steps: seq<PoolStep> :| Finished(jobs, PoolRun(sha, jobs, Begun(fs, jobs, workers), steps));
      var pool := Begun(fs, jobs, workers);
      NoCall(fs, log, root);
      hide PoolRun, Begun;
      PoolStarts(sha, jobs, fs, workers);
      for n := 0 to |steps|
        invariant pool == PoolRun(sha, jobs, Begun(old(fs), jobs, workers), steps[..n]) && fs == pool.copying.fs
        invariant Stretch(old(fs), old(log), fs, log, root) && faults == old(faults)
      {
        ghost var f, l := fs, log;
        pool := PoolNext(sha, jobs, pool, steps[n]);
        fs := pool.copying.fs;
        log := log + [fs];
        PoolGoesOn(sha, jobs, Begun(old(fs), jobs, workers), steps, n);
        PoolConfined(sha, jobs, old(fs), workers, steps[..n+1], root);
        Extend(old(fs), old(log), f, l, fs, log, root);
      }
      assert steps[..|steps|] == steps;
      PoolIsExact(sha, jobs, old(fs), workers, steps);
      OutcomeHasCause(sha, jobs, old(fs), pool);
      if pool.outer || exists j :: 0 <= j < |jobs| && pool.copying.phases[j].GivenUp? { faults := faults + 1; }
      ok := Succeeded(pool);
    }

    // ---- materializeManifest ----------------------------------------------------------------------

    method MaterializeManifest(root: Place, files: seq<Entry>, reusable: map<Entry, Place>, exported: map<string, nat>) returns (ok: bool)
      requires Plannable(root, files) && Sane(fs)
      modifies this
      ensures Stretch(old(fs), old(log), fs, log, root)
      ensures ok ==> forall e :: e in files ==> HasSha(sha, fs, root, e) && !Reserved(e)
      ensures ok && CollisionFree(sha) ==> forall e :: e in files && Truthful(sha, e) ==> Matches(sha, fs, Target(root, e), e)
      ensures ok ==> Filled(old(fs), fs, root, files)
      ensures faults >= old(faults) && (!ok && faults == old(faults) ==> Undeliverable(old(fs), exported, root, files))
    {
      hide Stretch, Plannable, HasSha, JobFor, Truthful, CollisionFree, Matches, Staged, Filled, EntryStaged, Reserved, EntryBlocked;
      var jobs: seq<Job> := [];
      ghost var of: seq<nat> := [];
      var rest := reusable;
      NoCall(fs, log, root);
      assert Staged(fs, fs, root, files) by { NothingStaged(fs, root, files); }
      for i := 0 to |files|
        invariant Stretch(old(fs), old(log), fs, log, root) && Staged(old(fs), fs, root, files) && faults >= old(faults)
        invariant |of| == |jobs| && forall k :: 0 <= k < |of| ==> of[k] < i && jobs[k] == JobFor(root, files[of[k]])
        invariant forall j, k :: 0 <= j < k < |of| ==> of[j] < of[k]
        invariant forall k :: 0 <= k < i ==> k in of || HasSha(sha, fs, root, files[k])
        invariant forall k :: 0 <= k < i ==> !Reserved(files[k])
      {
        var going := Granted();
        if !going || Reserved(files[i]) {
          assert files[i] in files;
          return false;
        }
        ghost var f, l := fs, log;
        var placement;
        placement, rest := PrepareEntry(root, files[i], rest, exported);
        StretchesJoin(old(fs), old(log), f, l, fs, log, root);
        assert files[i] in files;
        if placement.Unavailable? {
          if InTheWay(f, root, ParentOf(Target(root, files[i]))) { BlockedLater(old(fs), f, root, files, files[i]); }
          return false;
        }
        StagedJoin(old(fs), f, fs, root, files, files[i]);
        forall k | 0 <= k < i && HasSha(sha, f, root, files[k]) ensures HasSha(sha, fs, root, files[k]) {
          TargetsApart(root, files, k, i);
          KeptElsewhere(sha, f, l, fs, log, root, files[k], files[i]);
        }
        if placement.NeedsCopy? {
          jobs := jobs + [JobFor(root, files[i])];
          of := of + [i];
        }
      }
      StaysSane(old(fs), old(log), fs, log, root);
      ghost var f, l := fs, log;
      ok := CopyPlanned(root, files, jobs, of);
      StretchesJoin(old(fs), old(log), f, l, fs, log, root);
      if ok {
        CopiedFill(old(fs), f, fs, root, files, jobs, of);
        forall k | 0 <= k < |files| && k !in of ensures HasSha(sha, fs, root, files[k]) {
          UnplannedKept(sha, f, l, fs, log, root, files, jobs, of, k);
        }
        if CollisionFree(sha) {
          forall e | e in files && Truthful(sha, e) ensures Matches(sha, fs, Target(root, e), e) { HashFixesSize(sha, fs, root, e); }
        }
      }
    }

    // `MkdirAll` of the parent, then the entry itself.
    method PrepareEntry(root: Place, e: Entry, reusable: map<Entry, Place>, exported: map<string, nat>)
      returns (placement: Placement, rest: map<Entry, Place>)
      modifies this
      ensures Stretch(old(fs), old(log), fs, log, root)
      ensures EntryStaged(old(fs), fs, root, e)
      ensures placement.Present? ==> HasSha(sha, fs, root, e)
      ensures faults >= old(faults)
      ensures placement.Unavailable? && faults == old(faults) ==> !Exported(exported, e) || InTheWay(old(fs), root, ParentOf(Target(root, e)))
    {
      var target := Target(root, e);
      assert Under(ParentOf(target), root) by { assert |target| > |root|; }
      var made := MkdirAll(root, ParentOf(target));
      ghost var f, l := fs, log;
      if !made {
        EntryJoin(old(fs), f, f, root, e);
        return Unavailable, reusable;
      }
      hide Stretch, HasSha, Linkable, Deepens, InTheWay, OnlyAt, EntryStaged;
      placement, rest := PlaceEntry(root, e, reusable, exported);
      StretchesJoin(old(fs), old(log), f, l, fs, log, root);
      EntryJoin(old(fs), f, fs, root, e);
    }

    method CopyPlanned(root: Place, files: seq<Entry>, jobs: seq<Job>, ghost of: seq<nat>) returns (ok: bool)
      requires Plannable(root, files) && Sane(fs) && |of| == |jobs|
      requires forall k :: 0 <= k < |of| ==> of[k] < |files| && jobs[k] == JobFor(root, files[of[k]])
      requires forall j, k :: 0 <= j < k < |of| ==> of[j] < of[k]
      modifies this
      ensures Stretch(old(fs), old(log), fs, log, root)
      ensures forall n :: !Touches(jobs, n) ==> NodeAt(fs, n) == NodeAt(old(fs), n)
      ensures ok ==> (forall k :: k in of ==> HasSha(sha, fs, root, files[k])) && forall k :: 0 <= k < |jobs| ==> jobs[k].part !in fs.names
      ensures faults >= old(faults) && (!ok ==> faults > old(faults))
    {
      JobsSeparate(root, files, jobs, of);
      forall j | 0 <= j < |jobs| ensures Under(jobs[j].dest, root) && Under(jobs[j].part, root) {
        PartUnder(root, files[of[j]]);
      }
      hide Separate, Stretch;
      ok := RunCopyJobs(root, jobs);
      if ok {
        forall k | k in of ensures HasSha(sha, fs, root, files[k]) {
          var j :| 0 <= j < |of| && of[j] == k;
          assert jobs[j] == JobFor(root, files[k]);
        }
      }
    }

    // ---- writing metadata ---------------------------------------------------------------------

    // `writeAtomicJSON`: a new file in the same directory, renamed into place.
    method WriteAtomic(root: Place, p: Place, data: Content) returns (ok: bool)
      requires Under(p, root) && |p| > |root|
      modifies this
      ensures Stretch(old(fs), old(log), fs, log, root)
      ensures forall n :: n != p && n in old(fs).names ==> NodeAt(fs, n) == NodeAt(old(fs), n)
      ensures ok ==> ContentAt(fs, p) == Some(data) && forall n :: n != p ==> NodeAt(fs, n) == NodeAt(old(fs), n)
      ensures faults >= old(faults)
      ensures !ok && faults == old(faults) ==> NodeAt(old(fs), p) == Some(Other) || NodeAt(old(fs), ParentOf(p)) != Some(Other)
    {
      NoCall(fs, log, root);
      if NodeAt(fs, ParentOf(p)) != Some(Other) { return false; }
      var temporary, ino;
      ok, temporary, ino := CreateTemp(root, p);
      if !ok { return; }
      hide Stretch;
      var written := Append(root, ino, data, old(fs), old(log));
      if !written || NodeAt(fs, p) == Some(Other) {
        Discard(root, temporary);
        return false;
      }
      ghost var f, l := fs, log;
      fs := Renamed(fs, temporary, p);
      log := log + [fs];
      RenamedOver(old(fs), old(log), f, l, fs, log, root, temporary, p, ino);
      ok := Granted();
    }

    // `os.CreateTemp` in the directory of `p`.
    method CreateTemp(root: Place, p: Place) returns (ok: bool, temporary: Place, ino: Ino)
      requires Under(p, root) && |p| > |root|
      modifies this
      ensures Stretch(old(fs), old(log), fs, log, root)
      ensures Under(temporary, root) && |temporary| > |root|
      ensures if ok then temporary !in old(fs).names && ino !in old(fs).contents && fs == Created(old(fs), temporary, ino) else fs == old(fs)
      ensures faults >= old(faults) && (!ok ==> faults > old(faults))
    {
      var name: string := *;
      ino := *;
      temporary := ParentOf(p) + [name];
      NoCall(fs, log, root);
      assert temporary[..|root|] == p[..|root|];
      ok := Granted();
      if !ok { return; }
      if temporary in fs.names || ino in fs.contents {
        faults := faults + 1;
        return false, temporary, ino;
      }
      fs := Created(fs, temporary, ino);
      log := log + [fs];
      Extend(old(fs), old(log), old(fs), old(log), fs, log, root);
    }

    // Writes the new inode in one piece, since the earlier state `f0`.
    method Append(root: Place, ino: Ino, data: Content, ghost f0: Fs, ghost l0: seq<Fs>) returns (written: bool)
      requires Stretch(f0, l0, fs, log, root) && ino in fs.contents && fs.contents[ino] == "" && ino !in f0.contents
      modifies this
      ensures Stretch(f0, l0, fs, log, root) && fs.names == old(fs).names && ino in fs.contents && (written ==> fs.contents[ino] == data)
      ensures faults >= old(faults) && (!written ==> faults > old(faults))
    {
      written := Granted();
      if !written { return; }
      ghost var f, l := fs, log;
      fs := Appended(fs, ino, data);
      assert "" + data == data;
      log := log + [fs];
      Extend(f0, l0, f, l, fs, log, root);
    }

    // A staging tree of another artifact or content is set aside, never reused.
    // A staging tree of another artifact or content is set aside, never reused.
    method PrepareStaging(workspace: Place, staging: Place, wanted: Content) returns (ok: bool)
      requires Under(staging, workspace) && |staging| > |workspace|
      modifies this
      ensures Stretch(old(fs), old(log), fs, log, workspace)
      ensures ok ==> ContentAt(fs, StatePath(staging)) == Some(wanted)
      ensures ok && ContentAt(old(fs), StatePath(staging)) == Some(wanted) ==> fs == old(fs) && log == old(log)
      ensures ok && ContentAt(old(fs), StatePath(staging)) != Some(wanted) && Tree(old(fs)) ==> Fresh(fs, staging) && Retained(old(fs), fs, staging)
      ensures faults >= old(faults) && (!ok && faults == old(faults) && Tree(old(fs)) ==> Unprepared(old(fs), workspace, staging))
    {
      var state, metadata := StatePath(staging), MetaPath(staging);
      NoCall(fs, log, workspace);
      MetaUnder(workspace, staging);
      hide Stretch;
      var readable := Granted();
      if !readable { return false; }
      if state in fs.names {
        var content := ContentAt(fs, state);
        if content.None? { return false; }
        if content.value == wanted { return true; }
      } else if FileAt(fs, staging) || FileAt(fs, metadata) {
        return false;
      }
      ghost var retained := staging;
      if staging in fs.names {
        ok, retained := Quarantine(workspace, staging);
        if !ok { return; }
      }
      ghost var g, l := fs, log;
      hide InTheWay, Deepens, Dirs, RenamedTree;
      ok := MkdirAll(workspace, metadata);
      StretchesJoin(old(fs), old(log), g, l, fs, log, workspace);
      if !ok {
        if InTheWay(g, workspace, metadata) { AsideInTheWay(old(fs), g, workspace, staging, retained); }
        return;
      }
      ghost var h, m := fs, log;
      ok := WriteAtomic(workspace, state, wanted);
      StretchesJoin(old(fs), old(log), h, m, fs, log, workspace);
      if Tree(old(fs)) { PreparedTree(old(fs), g, h, fs, workspace, staging, retained, ok); }
    }

    method Quarantine(workspace: Place, staging: Place) returns (ok: bool, ghost retained: Place)
      requires Under(staging, workspace) && |staging| > |workspace| && staging in fs.names
      modifies this
      ensures Stretch(old(fs), old(log), fs, log, workspace)
      ensures ok ==> Beside(retained, staging) && retained !in old(fs).names && fs == MovedAside(old(fs), staging, retained)
      ensures faults >= old(faults) && (!ok ==> faults > old(faults))
    {
      var name: string := *;
      var aside := ParentOf(staging) + [name];
      retained := aside;
      assert Under(aside, workspace) by { assert aside[..|workspace|] == staging[..|workspace|]; }
      NoCall(fs, log, workspace);
      if aside == staging || aside in fs.names {
        faults := faults + 1;
        return false, retained;
      }
      ok := Mkdir(aside);
      OneCall(old(fs), old(log), fs, log, workspace);
      if !ok { return; }
      ok := Granted();
      if !ok { return; }
      ghost var f, l := fs, log;
      fs := RenamedTree(fs, staging, aside + ["data"]);
      log := log + [fs];
      RenameConfined(f, staging, aside + ["data"], workspace);
      Extend(old(fs), old(log), f, l, fs, log, workspace);
    }

    // ---- publication ---------------------------------------------------------------------------

    // One rename when nothing is published there yet, one exchange otherwise.
    // `switch` is the length of the log before that call.
    method AtomicPublish(staging: Place, destination: Place) returns (ok: bool, ghost switch: nat)
      requires Apart(staging, destination) && Sane(fs)
      modifies this
      ensures |old(log)| <= switch <= |log| && log[..|old(log)|] == old(log) && (ok ==> switch < |log|)
      ensures forall i :: |old(log)| <= i < switch ==> OldState(old(fs), log[i], staging, destination)
      ensures forall i :: switch <= i < |log| ==> NewState(old(fs), log[i], staging, destination)
      ensures fs == if |log| == |old(log)| then old(fs) else log[|log|-1]
      ensures ok ==> NothingUnder(fs, staging)
      ensures faults >= old(faults) && (!ok && faults == old(faults) ==> staging !in old(fs).names || Barred(old(fs), destination))
    {
      hide OldState, NewState, NothingUnder, Barred;
      ok := MkdirParents(staging, destination);
      switch := |log|;
      forall i | |old(log)| <= i < switch ensures OldState(old(fs), log[i], staging, destination) {
        AddedIsOld(old(fs), log[i], staging, destination);
      }
      assert NodeAt(fs, staging) == NodeAt(old(fs), staging) by { assert staging + [] == staging; }
      if !ok || staging !in fs.names { return false, switch; }
      ok := Granted();
      if !ok { return; }
      ghost var f, l := fs, log;
      var replaced := destination in fs.names;
      SwapTrees(staging, destination);
      SwappedIsNew(old(fs), f, fs, staging, destination, replaced);
      ghost var m := log;
      if replaced { ok := RemoveReplaced(old(fs), staging, destination); } else { RenamedAway(f, staging, destination); }
      assert forall i :: 0 <= i < |m| ==> log[i] == log[..|m|][i] == m[i];
      assert forall i :: 0 <= i < |l| ==> log[i] == l[i];
    }

    // The exchanged tree is removed without touching the new one.
    method RemoveReplaced(ghost f0: Fs, staging: Place, destination: Place) returns (ok: bool)
      requires Apart(staging, destination) && NewState(f0, fs, staging, destination)
      modifies this
      ensures |old(log)| <= |log| && log[..|old(log)|] == old(log)
      ensures forall i :: |old(log)| <= i < |log| ==> NewState(f0, log[i], staging, destination)
      ensures fs == if |log| == |old(log)| then old(fs) else log[|log|-1]
      ensures ok ==> NothingUnder(fs, staging)
      ensures faults >= old(faults) && (!ok ==> faults > old(faults))
    {
      hide NewState, NothingUnder;
      ok := RemoveTree(staging);
      forall i | |old(log)| <= i < |log| ensures NewState(f0, log[i], staging, destination) {
        RemovedOnly(f0, old(fs), log[i], staging, destination);
      }
    }

    method SwapTrees(staging: Place, destination: Place)
      modifies this
      ensures fs == if destination in old(fs).names then Exchanged(old(fs), staging, destination) else RenamedTree(old(fs), staging, destination)
      ensures log == old(log) + [fs] && faults == old(faults)
    {
      fs := if destination in fs.names then Exchanged(fs, staging, destination) else RenamedTree(fs, staging, destination);
      log := log + [fs];
    }

    // Missing parents of the destination; nothing under it or in staging.
    method MkdirParents(staging: Place, destination: Place) returns (ok: bool)
      requires Apart(staging, destination)
      modifies this
      ensures |old(log)| <= |log| && log[..|old(log)|] == old(log)
      ensures forall i :: |old(log)| <= i < |log| ==> OnlyAdds(old(fs), log[i]) && SameNodes(old(fs), log[i], staging) && SameNodes(old(fs), log[i], destination)
      ensures OnlyAdds(old(fs), fs) && SameNodes(old(fs), fs, staging) && SameNodes(old(fs), fs, destination)
      ensures fs == if |log| == |old(log)| then old(fs) else log[|log|-1]
      ensures faults >= old(faults) && (!ok && faults == old(faults) ==> Barred(old(fs), destination))
    {
      for n := 1 to |destination|
        invariant |old(log)| <= |log| && log[..|old(log)|] == old(log)
        invariant forall i :: |old(log)| <= i < |log| ==> OnlyAdds(old(fs), log[i]) && SameNodes(old(fs), log[i], staging) && SameNodes(old(fs), log[i], destination)
        invariant OnlyAdds(old(fs), fs) && SameNodes(old(fs), fs, staging) && SameNodes(old(fs), fs, destination)
        invariant fs == if |log| == |old(log)| then old(fs) else log[|log|-1]
        invariant faults >= old(faults) && forall p :: FileAt(fs, p) ==> FileAt(old(fs), p)
      {
        var parent := destination[..n];
        if parent !in fs.names {
          ghost var f, l := fs, log;
          ParentOutside(staging, destination, n);
          var made := Mkdir(parent);
          SameNodesElsewhere(old(fs), f, fs, parent, staging);
          SameNodesElsewhere(old(fs), f, fs, parent, destination);
          assert forall i :: |old(log)| <= i < |l| ==> log[i] == l[i];
          if !made { return false; }
        } else if fs.names[parent].File? {
          assert FileAt(fs, parent);
          return false;
        }
      }
      ok := true;
    }

    // Removes the names under the tree, the deepest first, as far as it gets.
    method RemoveTree(root: Place) returns (ok: bool)
      modifies this
      ensures |old(log)| <= |log| && log[..|old(log)|] == old(log)
      ensures forall i :: |old(log)| <= i < |log| ==> OnlyUnder(old(fs), log[i], root) && log[i].contents == old(fs).contents
      ensures OnlyUnder(old(fs), fs, root) && fs.contents == old(fs).contents
      ensures fs == if |log| == |old(log)| then old(fs) else log[|log|-1]
      ensures ok ==> NothingUnder(fs, root)
      ensures faults >= old(faults) && (!ok ==> faults > old(faults))
    {
      var rest := set p | p in fs.names && Under(p, root);
      ok := true;
      while rest != {}
        invariant |old(log)| <= |log| && log[..|old(log)|] == old(log)
        invariant forall i :: |old(log)| <= i < |log| ==> OnlyUnder(old(fs), log[i], root) && log[i].contents == old(fs).contents
        invariant OnlyUnder(old(fs), fs, root) && fs.contents == old(fs).contents
        invariant fs == if |log| == |old(log)| then old(fs) else log[|log|-1]
        invariant forall p :: p in rest ==> Under(p, root)
        invariant faults >= old(faults) && (!ok ==> faults > old(faults))
        invariant ok ==> forall p :: p in fs.names && Under(p, root) ==> p in rest
        decreases |rest|
      {
        LongestIn(rest);
        var p :| p in rest && forall q :: q in rest ==> |q| <= |p|;
        ghost var l := log;
        var removed := Remove(p);
        assert forall i :: |old(log)| <= i < |l| ==> log[i] == l[i];
        if !removed { ok := false; }
        rest := rest - {p};
      }
    }

    // ---- SyncArtifact --------------------------------------------------------------------------------

    // `current` is what reading the manifest at the destination gives,
    // `manifest` what the export shows, `wanted` the artifact asked for.
    // Nothing is published, or the whole artifact at once; and it is published
    // unless a call was refused or one of the named obstacles was there before.
    method SyncArtifact(workspace: Place, staging: Place, destination: Place, wanted: string, current: Option<Manifest>,
                        manifest: Manifest, plan: Plan) returns (ok: bool, ghost switch: nat)
      requires Apart(workspace, destination) && Under(staging, workspace) && |staging| > |workspace| && Sane(fs)
      requires (current.Some? ==> Valid(current.value)) && Valid(manifest) && Plannable(staging, manifest.Files())
      modifies this
      ensures |old(log)| <= switch <= |log| && log[..|old(log)|] == old(log)
      ensures forall i :: |old(log)| <= i < switch ==> Unpublished(old(fs), log[i], workspace, destination)
      ensures forall i :: switch <= i < |log| ==> Installed(sha, old(fs), log[i], workspace, staging, destination, manifest, plan)
      ensures forall i :: |old(log)| <= i < |log| ==> OthersRead(old(fs), log[i], workspace, destination)
      ensures UpToDate(sha, digests, old(fs), destination, wanted, current) ==> ok && fs == old(fs) && log == old(log) && faults == old(faults)
      ensures Mistaken(wanted, current, manifest) && !UpToDate(sha, digests, old(fs), destination, wanted, current) ==>
                !ok && fs == old(fs) && log == old(log)
      ensures ok && !UpToDate(sha, digests, old(fs), destination, wanted, current) ==>
                switch < |log| && fs == log[|log|-1] && Verified(sha, digests, fs, destination, manifest) && NothingUnder(fs, staging)
      ensures !ok && faults == old(faults) && Tree(old(fs)) ==>
                || Mistaken(wanted, current, manifest) || Barred(old(fs), destination)
                || Hindered(sha, digests, old(fs), workspace, staging, manifest, plan)
    {
      hide Unpublished, Installed, OthersRead, Verified, Stretch, Valid, Plannable, Built, Hindered, Barred, Tree, NothingUnder;
      switch := |log|;
      NoCall(fs, log, workspace);
      if current.Some? {
        if current.value.artifactId != wanted { return false, switch; }
        var failures := Verify(sha, digests, fs, destination, current.value);
        if failures == [] { return true, switch; }
      }
      if manifest.artifactId != wanted { return false, switch; }
      ok := BuildStaging(workspace, staging, manifest, plan);
      switch := |log|;
      StretchIsUnpublished(old(fs), old(log), fs, log, workspace, destination);
      LogOthersRead(sha, old(fs), old(log), log, switch, workspace, staging, destination, manifest, plan);
      if !ok { return; }
      ghost var f, l := fs, log;
      StagingApart(workspace, staging, destination);
      StaysSane(old(fs), old(log), fs, log, workspace);
      ok, switch := AtomicPublish(staging, destination);
      PublishedAtOnce(sha, digests, old(fs), old(log), f, l, log, switch, workspace, staging, destination, manifest, plan);
      LogOthersRead(sha, old(fs), old(log), log, switch, workspace, staging, destination, manifest, plan);
      if ok {
        PublishedVerified(sha, digests, f, fs, staging, destination, manifest);
      } else {
        PublicationBarred(old(fs), old(log), f, l, workspace, staging, destination, manifest, plan);
      }
    }

    // Everything up to the publication happens in the workspace.
    method BuildStaging(workspace: Place, staging: Place, manifest: Manifest, plan: Plan) returns (ok: bool)
      requires Under(staging, workspace) && |staging| > |workspace| && Sane(fs) && Valid(manifest) && Plannable(staging, manifest.Files())
      modifies this
      ensures Stretch(old(fs), old(log), fs, log, workspace)
      ensures ok ==> Verified(sha, digests, fs, staging, manifest) && Built(old(fs), fs, staging, manifest, plan)
      ensures faults >= old(faults)
      ensures !ok && faults == old(faults) && Tree(old(fs)) ==> Hindered(sha, digests, old(fs), workspace, staging, manifest, plan)
    {
      hide Stretch, Verified, Valid, Plannable, Tree, Unprepared, Undeliverable, Filled, Reserved, HasSha, Built;
      var files := manifest.Files();
      ghost var f0, l0 := fs, log;
      ok := PrepareStaging(workspace, staging, plan.state);
      if !ok { return; }
      ghost var f1, l1 := fs, log;
      assert Prepared(f0, f1, staging, plan);
      hide Prepared, Fresh, Retained;
      StaysSane(f0, l0, fs, log, workspace);
      ok := MaterializeManifest(staging, files, plan.reusable, plan.exported);
      ghost var f2, l2 := fs, log;
      StretchWider(f1, l1, fs, log, staging, workspace);
      StretchesJoin(f0, l0, f1, l1, fs, log, workspace);
      if !ok {
        if Tree(f0) && Undeliverable(f1, plan.exported, staging, files) { LaterUndeliverable(sha, digests, f0, f1, workspace, staging, manifest, plan); }
        return;
      }
      hide Hindered;
      ok := FinishStaging(workspace, staging, manifest, plan, f0, f1);
      StretchesJoin(f0, l0, f2, l2, fs, log, workspace);
    }

    // The manifest, the complete check, the note of the sync.
    method FinishStaging(workspace: Place, staging: Place, manifest: Manifest, plan: Plan, ghost f0: Fs, ghost f1: Fs) returns (ok: bool)
      requires Under(staging, workspace) && |staging| > |workspace| && Valid(manifest)
      requires Prepared(f0, f1, staging, plan) && Filled(f1, fs, staging, manifest.Files())
      requires forall e :: e in manifest.Files() ==> HasSha(sha, fs, staging, e) && !Reserved(e)
      modifies this
      ensures Stretch(old(fs), old(log), fs, log, workspace)
      ensures ok ==> Verified(sha, digests, fs, staging, manifest) && Built(f0, fs, staging, manifest, plan)
      ensures faults >= old(faults)
      ensures !ok && faults == old(faults) && Tree(f0) ==> Hindered(sha, digests, f0, workspace, staging, manifest, plan)
    {
      hide Stretch, Verified, Valid, Tree, Filled, Reserved, HasSha, Bare, Prepared, Hindered;
      MetaUnder(workspace, staging);
      MetaNames(staging);
      ghost var f2, l2 := fs, log;
      ok := WriteManifest(workspace, staging, manifest, plan, f0, f1);
      if !ok { return; }
      ghost var f3, l3 := fs, log;
      var failures := Verify(sha, digests, fs, staging, manifest);
      hide AnyFileFault, SumFault;
      if failures != [] {
        NotVerified(sha, digests, f0, f3, workspace, staging, manifest, plan);
        return false;
      }
      ok := WriteAtomic(workspace, SyncPath(staging), plan.note);
      ghost var f4, l4 := fs, log;
      StretchesJoin(f2, l2, f3, l3, fs, log, workspace);
      VerifiedKept(sha, digests, f3, l3, fs, log, workspace, staging, manifest, "sync.json");
      if !ok {
        if Tree(f0) { SyncUnwritable(sha, digests, f0, f1, f2, f3, workspace, staging, manifest, plan); }
        return;
      }
      ok := RemoveState(workspace, staging);
      StretchesJoin(f2, l2, f4, l4, fs, log, workspace);
      VerifiedKept(sha, digests, f4, l4, fs, log, workspace, staging, manifest, "staging.json");
      if !ok {
        if Tree(f0) { StateIsBare(f0, f1, f2, f3, f4, staging, manifest, plan); }
        return;
      }
      StretchPreserves(f3, l3, f4, l4, workspace);
      BuiltInStaging(f0, f1, f2, f3, f4, fs, staging, manifest, plan);
    }

    method WriteManifest(workspace: Place, staging: Place, manifest: Manifest, plan: Plan, ghost f0: Fs, ghost f1: Fs) returns (ok: bool)
      requires Under(staging, workspace) && |staging| > |workspace|
      requires Prepared(f0, f1, staging, plan) && Filled(f1, fs, staging, manifest.Files())
      requires forall e :: e in manifest.Files() ==> HasSha(sha, fs, staging, e) && !Reserved(e)
      modifies this
      ensures Stretch(old(fs), old(log), fs, log, workspace)
      ensures ok ==> ContentAt(fs, ManifestPath(staging)) == Some(plan.text) && forall n :: n != ManifestPath(staging) ==> NodeAt(fs, n) == NodeAt(old(fs), n)
      ensures ok ==> forall e :: e in manifest.Files() ==> HasSha(sha, fs, staging, e)
      ensures faults >= old(faults)
      ensures !ok && faults == old(faults) && Tree(f0) ==> Hindered(sha, digests, f0, workspace, staging, manifest, plan)
    {
      hide Stretch, Tree, Filled, Reserved, HasSha, Prepared, Hindered;
      MetaUnder(workspace, staging);
      ghost var f2, l2 := fs, log;
      ok := WriteAtomic(workspace, ManifestPath(staging), plan.text);
      if ok {
        WrittenKeepsFiles(sha, f2, l2, fs, log, workspace, staging, manifest.Files(), ManifestPath(staging));
      } else if Tree(f0) && Unwritable(f2, staging, ManifestPath(staging)) {
        LaterUnwritable(sha, digests, f0, f1, f2, f2, workspace, staging, manifest, plan, ManifestPath(staging));
      }
    }

    // The record of what was wanted goes last.
    method RemoveState(workspace: Place, staging: Place) returns (ok: bool)
      requires Under(staging, workspace)
      modifies this
      ensures Stretch(old(fs), old(log), fs, log, workspace)
      ensures fs == if ok then Removed(old(fs), StatePath(staging)) else old(fs)
      ensures faults >= old(faults) && (!ok && faults == old(faults) ==> !Bare(old(fs), StatePath(staging)))
    {
      MetaUnder(workspace, staging);
      ok := Remove(StatePath(staging));
      OnlyAtConfined(old(fs), fs, StatePath(staging), workspace);
      OneCall(old(fs), old(log), fs, log, workspace);
    }
  }

  function MetaPath(staging: Place): Place { staging + [".modelshelf"] }

  function StatePath(staging: Place): Place { staging + [".modelshelf", "staging.json"] }

  function ManifestPath(staging: Place): Place { staging + [".modelshelf", "manifest.json"] }

  function SyncPath(staging: Place): Place { staging + [".modelshelf", "sync.json"] }

  lemma MetaUnder(workspace: Place, staging: Place)
    requires Under(staging, workspace)
    ensures Under(MetaPath(staging), workspace) && Under(StatePath(staging), workspace)
    ensures Under(ManifestPath(staging), workspace) && Under(SyncPath(staging), workspace)
    ensures ParentOf(StatePath(staging)) == ParentOf(ManifestPath(staging)) == ParentOf(SyncPath(staging)) == MetaPath(staging)
  {
    assert forall n :: Under(n, staging) ==> n[..|workspace|] == staging[..|workspace|];
  }

  // Nothing but the record of what is wanted.
  ghost predicate Fresh(f: Fs, staging: Place) {
    && NodeAt(f, staging) == Some(Other) && NodeAt(f, MetaPath(staging)) == Some(Other)
    && forall n :: n in f.names && Under(n, staging) ==> n in {staging, MetaPath(staging), StatePath(staging)}
  }

  // Another name in the same directory.
  predicate Beside(p: Place, q: Place) {
    p != [] && q != [] && p != q && ParentOf(p) == ParentOf(q)
  }

  // The tree that was in staging is shown in a new directory beside it.
  ghost predicate Retained(f: Fs, g: Fs, staging: Place) {
    staging in f.names ==> exists retained :: Beside(retained, staging) && retained !in f.names && ShownIn(f, g, staging, retained)
  }

  ghost predicate ShownIn(f: Fs, g: Fs, staging: Place, retained: Place) {
    && (forall rel :: NodeAt(g, retained + ["data"] + rel) == NodeAt(f, staging + rel))
    && (Sane(f) ==> forall rel :: ContentAt(g, retained + ["data"] + rel) == ContentAt(f, staging + rel))
    && (forall n :: n in f.names && !Under(n, staging) && !Under(n, retained) ==> NodeAt(g, n) == NodeAt(f, n))
  }

  // The record cannot be read, or a file stands where a directory is needed.
  ghost predicate Unprepared(f: Fs, workspace: Place, staging: Place) {
    (StatePath(staging) in f.names && ContentAt(f, StatePath(staging)).None?) || InTheWay(f, workspace, MetaPath(staging))
  }

  function MovedAside(f: Fs, staging: Place, retained: Place): Fs {
    RenamedTree(WithName(f, retained, Other), staging, retained + ["data"])
  }

  lemma BesideApart(staging: Place, retained: Place)
    requires Beside(retained, staging)
    ensures Apart(staging, retained) && Apart(staging, retained + ["data"])
  {
    assert retained == ParentOf(retained) + [retained[|retained|-1]] && staging == ParentOf(staging) + [staging[|staging|-1]];
    assert (retained + ["data"])[..|staging|] == retained;
  }

  lemma MovedAsideExact(f: Fs, staging: Place, retained: Place)
    requires Beside(retained, staging) && retained !in f.names
    ensures var g := MovedAside(f, staging, retained);
            && g.contents == f.contents
            && (forall rel :: NodeAt(g, retained + ["data"] + rel) == NodeAt(f, staging + rel))
            && (forall n :: Under(n, staging) ==> n !in g.names)
            && (forall n :: !Under(n, staging) && !Under(n, retained) ==> NodeAt(g, n) == NodeAt(f, n))
  {
    var g, b, to := MovedAside(f, staging, retained), WithName(f, retained, Other), retained + ["data"];
    BesideApart(staging, retained);
    hide RenamedTree;
    forall rel ensures NodeAt(g, to + rel) == NodeAt(f, staging + rel) {
      RenamedTreeExact(b, staging, to, rel, []);
      assert Under(staging + rel, staging) && Under(retained, retained);
      ApartTrees(staging, retained, staging + rel);
    }
    forall n | Under(n, staging) ensures n !in g.names {
      RenamedTreeExact(b, staging, to, n[|staging|..], []);
      assert staging + n[|staging|..] == n;
    }
    forall n | !Under(n, staging) && !Under(n, retained) ensures NodeAt(g, n) == NodeAt(f, n) {
      assert to[..|retained|] == retained;
      InsideTree(n, to, retained);
      RenamedTreeExact(b, staging, to, [], n);
    }
  }

  // Setting the tree aside puts nothing in the way.
  lemma AsideInTheWay(f: Fs, g: Fs, workspace: Place, staging: Place, retained: Place)
    requires InTheWay(g, workspace, MetaPath(staging))
    requires if staging in f.names then Beside(retained, staging) && retained !in f.names && g == MovedAside(f, staging, retained) else g == f
    ensures InTheWay(f, workspace, MetaPath(staging))
  {
    if staging in f.names {
      MovedAsideExact(f, staging, retained);
      BesideApart(staging, retained);
      var n :| OnWay(n, workspace, MetaPath(staging)) && FileAt(g, n);
      NotAside(staging, retained, n);
      hide MovedAside;
      assert NodeAt(g, n) == NodeAt(f, n);
    }
  }

  // What leads to the metadata is not in the directory beside.
  lemma NotAside(staging: Place, retained: Place, n: Place)
    requires Beside(retained, staging) && Under(MetaPath(staging), n)
    ensures !Under(n, retained)
  {
    BesideApart(staging, retained);
    assert |retained| == |staging| && MetaPath(staging)[..|retained|] == staging;
    assert |retained| <= |n| ==> MetaPath(staging)[..|n|][..|retained|] == MetaPath(staging)[..|retained|];
  }

  lemma DeepensKeeps(g: Fs, h: Fs, workspace: Place, staging: Place, retained: Place, n: Place)
    requires Deepens(g, h, workspace, MetaPath(staging)) && Beside(retained, staging) && Under(n, retained)
    ensures NodeAt(h, n) == NodeAt(g, n)
  {
    if n in h.names && n !in g.names { NotAside(staging, retained, n); }
  }

  lemma PreparedFresh(g: Fs, h: Fs, k: Fs, workspace: Place, staging: Place)
    requires Under(staging, workspace) && forall n :: Under(n, staging) ==> n !in g.names
    requires Deepens(g, h, workspace, MetaPath(staging)) && Dirs(h, workspace, MetaPath(staging))
    requires forall n :: n != StatePath(staging) ==> NodeAt(k, n) == NodeAt(h, n)
    ensures Fresh(k, staging)
  {
    var meta := MetaPath(staging);
    MetaUnder(workspace, staging);
    assert OnWay(staging, workspace, meta) && OnWay(meta, workspace, meta);
    assert NodeAt(h, staging) == Some(Other) && NodeAt(h, meta) == Some(Other);
    forall n | n in k.names && Under(n, staging) ensures n in {staging, meta, StatePath(staging)} {
      if n != StatePath(staging) {
        assert NodeAt(k, n) == NodeAt(h, n) && n !in g.names;
        assert Under(meta, n);
        assert n == meta[..|n|] && (|n| == |staging| || |n| == |meta|);
      }
    }
  }

  lemma PreparedRetains(f: Fs, g: Fs, h: Fs, k: Fs, workspace: Place, staging: Place, retained: Place)
    requires Beside(retained, staging) && retained !in f.names && g == MovedAside(f, staging, retained)
    requires Deepens(g, h, workspace, MetaPath(staging)) && Preserves(h, k)
    requires forall n :: n != StatePath(staging) ==> NodeAt(k, n) == NodeAt(h, n)
    ensures ShownIn(f, k, staging, retained)
  {
    MovedAsideExact(f, staging, retained);
    BesideApart(staging, retained);
    var to, state := retained + ["data"], StatePath(staging);
    assert Under(state, staging) && !Under(state, retained) by { ApartTrees(staging, retained, state); }
    hide MovedAside;
    forall rel ensures NodeAt(k, to + rel) == NodeAt(f, staging + rel) {
      assert Under(to + rel, retained) by { assert (to + rel)[..|retained|] == retained; }
      DeepensKeeps(g, h, workspace, staging, retained, to + rel);
    }
    forall n | n in f.names && !Under(n, staging) && !Under(n, retained) ensures NodeAt(k, n) == NodeAt(f, n) {
      assert NodeAt(g, n) == NodeAt(f, n) && NodeAt(h, n) == NodeAt(g, n);
    }
  }

  lemma PreparedTree(f: Fs, g: Fs, h: Fs, k: Fs, workspace: Place, staging: Place, retained: Place, ok: bool)
    requires Under(staging, workspace) && Preserves(h, k) && Tree(f)
    requires if staging in f.names then Beside(retained, staging) && retained !in f.names && g == MovedAside(f, staging, retained) else g == f
    requires Deepens(g, h, workspace, MetaPath(staging)) && Dirs(h, workspace, MetaPath(staging))
    requires ok ==> forall n :: n != StatePath(staging) ==> NodeAt(k, n) == NodeAt(h, n)
    ensures ok ==> Fresh(k, staging) && Retained(f, k, staging)
    ensures NodeAt(h, MetaPath(staging)) == Some(Other) && StatePath(staging) !in h.names
  {
    var meta, state := MetaPath(staging), StatePath(staging);
    if staging in f.names { MovedAsideExact(f, staging, retained); }
    assert forall n :: Under(n, staging) ==> n !in g.names;
    MetaUnder(workspace, staging);
    assert OnWay(meta, workspace, meta) && Under(state, staging) && !Under(meta, state);
    hide Tree, MovedAside;
    if ok {
      PreparedFresh(g, h, k, workspace, staging);
      if staging in f.names { PreparedRetains(f, g, h, k, workspace, staging, retained); }
    }
    hide Fresh, Retained, ShownIn, Beside;
  }

  // ---- what a sync sets out to do -----------------------------------------------------------

  // The records it writes and where files come from: the record of what is
  // wanted, the manifest and the note of the sync as they are encoded, the
  // sizes the export shows, and files of other artifacts.
  datatype Plan = Plan(state: Content, text: Content, note: Content, exported: map<string, nat>, reusable: map<Entry, Place>)

  // The staging tree is that of an earlier attempt at the same content.
  predicate Resumed(f: Fs, staging: Place, plan: Plan) {
    ContentAt(f, StatePath(staging)) == Some(plan.state)
  }

  ghost predicate Prepared(f: Fs, g: Fs, staging: Place, plan: Plan) {
    Resumed(g, staging, plan) && (Resumed(f, staging, plan) ==> g == f) && (!Resumed(f, staging, plan) && Tree(f) ==> Fresh(g, staging))
  }

  // The manifest and the note are there, the record of the attempt is not.
  ghost predicate Recorded(f: Fs, root: Place, plan: Plan) {
    && ContentAt(f, ManifestPath(root)) == Some(plan.text) && ContentAt(f, SyncPath(root)) == Some(plan.note)
    && StatePath(root) !in f.names
  }

  // No name but those of the listed files, their directories and the metadata.
  ghost predicate Clean(f: Fs, root: Place, files: seq<Entry>) {
    forall n :: n in f.names && Under(n, root) ==> n in {root, MetaPath(root), ManifestPath(root), SyncPath(root)} || Listed(root, files, n)
  }

  // The staging tree as it is published. One that was not resumed is clean.
  ghost predicate Built(f: Fs, g: Fs, staging: Place, m: Manifest, plan: Plan) {
    && Recorded(g, staging, plan) && (Tree(f) ==> staging in g.names)
    && (Tree(f) && !Resumed(f, staging, plan) ==> Clean(g, staging, m.Files()))
  }

  // What the destination shows is verified already.
  ghost predicate UpToDate(sha: Content -> string, digests: Digests, f: Fs, destination: Place, wanted: string, current: Option<Manifest>) {
    current.Some? && current.value.artifactId == wanted && Verified(sha, digests, f, destination, current.value)
  }

  // Another artifact is at the destination or in the export.
  predicate Mistaken(wanted: string, current: Option<Manifest>, m: Manifest) {
    (current.Some? && current.value.artifactId != wanted) || m.artifactId != wanted
  }

  // An entry that cannot be delivered: its path is reserved, the export does
  // not have it, or a file stands where a directory is needed.
  ghost predicate Hampered(f: Fs, staging: Place, files: seq<Entry>, plan: Plan, e: Entry) {
    || Reserved(e) || !Exported(plan.exported, e)
    || exists n :: OnWay(n, staging, ParentOf(Target(staging, e))) && (IsTarget(staging, files, n) || (Resumed(f, staging, plan) && FileAt(f, n)))
  }

  // A content has the hash of the entry, but not its size.
  ghost predicate Missized(sha: Content -> string, e: Entry) {
    exists c :: sha(c) == e.sha256 && |c| != e.size
  }

  // The obstacles that were there before the staging tree was built.
  ghost predicate Hindered(sha: Content -> string, digests: Digests, f: Fs, workspace: Place, staging: Place, m: Manifest, plan: Plan) {
    || Unprepared(f, workspace, staging)
    || (exists e :: e in m.Files() && (Hampered(f, staging, m.Files(), plan, e) || Missized(sha, e)))
    || (Resumed(f, staging, plan) && (NodeAt(f, ManifestPath(staging)) == Some(Other) || NodeAt(f, SyncPath(staging)) == Some(Other)))
    || !OwnSums(digests, m)
  }

  ghost predicate Unwritable(f: Fs, staging: Place, p: Place) {
    NodeAt(f, p) == Some(Other) || NodeAt(f, MetaPath(staging)) != Some(Other)
  }

  ghost predicate NoneReserved(files: seq<Entry>) {
    forall e :: e in files ==> !Reserved(e)
  }

  // No entry has to do with the metadata.
  lemma EntryNotMeta(root: Place, e: Entry, n: Place)
    requires !Reserved(e) && Under(n, MetaPath(root))
    ensures !OnWay(n, root, Target(root, e)) && n != Target(root, e) && n != PartName(Target(root, e))
  {
    var parts := Split(e.path, '/');
    var target := Target(root, e);
    assert target[|root|] == parts[0] && n[|root|] == MetaPath(root)[|root|] == ".modelshelf";
    if |parts| > 1 {
      assert PartName(target)[|root|] == parts[0];
    } else {
      assert PartName(target)[|root|] == parts[0] + ".modelshelf-part" && |parts[0] + ".modelshelf-part"| > |".modelshelf"|;
    }
  }

  lemma MetaUntouched(f: Fs, g: Fs, root: Place, files: seq<Entry>, n: Place)
    requires Filled(f, g, root, files) && NoneReserved(files) && Under(n, MetaPath(root))
    ensures NodeAt(g, n) == NodeAt(f, n)
  {
    forall e | e in files ensures !OnWay(n, root, Target(root, e)) && n != Target(root, e) && n != PartName(Target(root, e)) {
      EntryNotMeta(root, e, n);
    }
    hide OnWay, Target, Reserved;
  }

  lemma LaterUndeliverable(sha: Content -> string, digests: Digests, f0: Fs, f1: Fs, workspace: Place, staging: Place, m: Manifest, plan: Plan)
    requires Tree(f0) && Prepared(f0, f1, staging, plan) && Undeliverable(f1, plan.exported, staging, m.Files())
    ensures Hindered(sha, digests, f0, workspace, staging, m, plan)
  {
    var files := m.Files();
    var e :| e in files && (Reserved(e) || !Exported(plan.exported, e) || EntryBlocked(f1, staging, files, e));
    hide Unprepared, OwnSums, Tree;
    if !Reserved(e) && Exported(plan.exported, e) {
      var n :| OnWay(n, staging, ParentOf(Target(staging, e))) && (FileAt(f1, n) || IsTarget(staging, files, n));
      if !IsTarget(staging, files, n) && !Resumed(f0, staging, plan) {
        assert n == StatePath(staging) && Under(Target(staging, e), n);
        EntryNotMeta(staging, e, n);
        assert false;
      }
      assert Hampered(f0, staging, files, plan, e);
    }
    hide Resumed;
  }

  lemma MetaIsThere(f0: Fs, f1: Fs, f2: Fs, staging: Place, files: seq<Entry>, plan: Plan)
    requires Tree(f0) && Prepared(f0, f1, staging, plan) && Filled(f1, f2, staging, files) && NoneReserved(files)
    ensures NodeAt(f2, MetaPath(staging)) == Some(Other)
  {
    MetaUntouched(f1, f2, staging, files, MetaPath(staging));
    hide Filled;
    assert Under(StatePath(staging), MetaPath(staging));
  }

  lemma LaterUnwritable(sha: Content -> string, digests: Digests, f0: Fs, f1: Fs, f2: Fs, f: Fs, workspace: Place, staging: Place,
                        m: Manifest, plan: Plan, p: Place)
    requires Tree(f0) && Prepared(f0, f1, staging, plan) && Filled(f1, f2, staging, m.Files()) && NoneReserved(m.Files())
    requires p in {ManifestPath(staging), SyncPath(staging)} && Unwritable(f, staging, p)
    requires NodeAt(f, p) == NodeAt(f2, p) && NodeAt(f, MetaPath(staging)) == NodeAt(f2, MetaPath(staging))
    ensures Hindered(sha, digests, f0, workspace, staging, m, plan)
  {
    MetaIsThere(f0, f1, f2, staging, m.Files(), plan);
    assert Under(p, MetaPath(staging)) && Under(p, staging) && p !in {staging, MetaPath(staging), StatePath(staging)} by {
      assert |p| == |staging| + 2 && p[|staging| + 1] != "staging.json";
    }
    MetaUntouched(f1, f2, staging, m.Files(), p);
    hide Tree, Filled, Unprepared, Hampered, OwnSums, Missized;
  }

  lemma MetaNames(staging: Place)
    ensures ManifestPath(staging) != SyncPath(staging) && ManifestPath(staging) != StatePath(staging) && SyncPath(staging) != StatePath(staging)
    ensures MetaPath(staging) != ManifestPath(staging) && MetaPath(staging) != SyncPath(staging)
    ensures ManifestPath(staging) == staging + [".modelshelf", "manifest.json"]
  {
    assert ManifestPath(staging)[|staging| + 1] == "manifest.json" && SyncPath(staging)[|staging| + 1] == "sync.json"
      && StatePath(staging)[|staging| + 1] == "staging.json";
  }

  lemma SyncUnwritable(sha: Content -> string, digests: Digests, f0: Fs, f1: Fs, f2: Fs, f3: Fs, workspace: Place, staging: Place, m: Manifest, plan: Plan)
    requires Tree(f0) && Prepared(f0, f1, staging, plan) && Filled(f1, f2, staging, m.Files()) && NoneReserved(m.Files())
    requires forall n :: n != ManifestPath(staging) ==> NodeAt(f3, n) == NodeAt(f2, n)
    ensures Unwritable(f3, staging, SyncPath(staging)) ==> Hindered(sha, digests, f0, workspace, staging, m, plan)
  {
    MetaNames(staging);
    if Unwritable(f3, staging, SyncPath(staging)) {
      hide Hindered, Tree, Prepared, Filled, NoneReserved;
      LaterUnwritable(sha, digests, f0, f1, f2, f3, workspace, staging, m, plan, SyncPath(staging));
    }
  }

  lemma StretchPreserves(f: Fs, l: seq<Fs>, g: Fs, m: seq<Fs>, root: Place)
    requires Stretch(f, l, g, m, root)
    ensures Preserves(f, g)
  {
  }

  lemma WrittenKeepsFiles(sha: Content -> string, f: Fs, l: seq<Fs>, g: Fs, m: seq<Fs>, workspace: Place, staging: Place,
                          files: seq<Entry>, p: Place)
    requires (forall e :: e in files ==> HasSha(sha, f, staging, e) && !Reserved(e)) && Stretch(f, l, g, m, workspace)
    requires Under(p, MetaPath(staging)) && forall n :: n != p ==> NodeAt(g, n) == NodeAt(f, n)
    ensures forall e :: e in files ==> HasSha(sha, g, staging, e)
  {
    StretchPreserves(f, l, g, m, workspace);
    forall e | e in files ensures HasSha(sha, g, staging, e) {
      EntryNotMeta(staging, e, p);
      HasShaKept(sha, f, g, staging, e);
    }
  }

  lemma NotVerified(sha: Content -> string, digests: Digests, f0: Fs, f: Fs, workspace: Place, staging: Place, m: Manifest, plan: Plan)
    requires !Verified(sha, digests, f, staging, m) && forall e :: e in m.Files() ==> HasSha(sha, f, staging, e)
    ensures Hindered(sha, digests, f0, workspace, staging, m, plan)
  {
    hide Unprepared, Hampered, OwnSums, Resumed;
    if OwnSums(digests, m) {
      var e :| e in m.Files() && !Matches(sha, f, Target(staging, e), e);
      assert HasSha(sha, f, staging, e);
      var c := ContentAt(f, Target(staging, e)).value;
      assert sha(c) == e.sha256 && |c| != e.size;
      assert Missized(sha, e);
    }
  }

  // Nothing lies below the record, so it can be removed.
  lemma BelowState(staging: Place, q: Place)
    requires Under(q, StatePath(staging))
    ensures Under(q, MetaPath(staging)) && Under(q, staging) && q != ManifestPath(staging) && q != SyncPath(staging)
  {
    var state := StatePath(staging);
    assert q[|staging| + 1] == state[|staging| + 1] == "staging.json";
    assert ManifestPath(staging)[|staging| + 1] == "manifest.json" && SyncPath(staging)[|staging| + 1] == "sync.json";
    assert q[..|staging|] == state[..|staging|] == staging && q[..|staging|+1] == state[..|staging|+1] == MetaPath(staging);
  }

  lemma StateIsBare(f0: Fs, f1: Fs, f2: Fs, f3: Fs, f4: Fs, staging: Place, m: Manifest, plan: Plan)
    requires Tree(f0) && Prepared(f0, f1, staging, plan) && Filled(f1, f2, staging, m.Files()) && NoneReserved(m.Files())
    requires forall n :: n != ManifestPath(staging) ==> NodeAt(f3, n) == NodeAt(f2, n)
    requires forall n :: n != SyncPath(staging) ==> NodeAt(f4, n) == NodeAt(f3, n)
    ensures Bare(f4, StatePath(staging))
  {
    var state := StatePath(staging);
    forall q | q in f4.names && Under(q, state) ensures q == state {
      BelowState(staging, q);
      assert NodeAt(f2, q) == NodeAt(f3, q) == NodeAt(f4, q);
      MetaUntouched(f1, f2, staging, m.Files(), q);
      hide Filled, NoneReserved, ManifestPath, SyncPath;
      assert q in f1.names;
    }
  }

  lemma RecordsWritten(f3: Fs, f4: Fs, f5: Fs, staging: Place, plan: Plan)
    requires ContentAt(f3, ManifestPath(staging)) == Some(plan.text)
    requires ContentAt(f4, SyncPath(staging)) == Some(plan.note) && forall n :: n != SyncPath(staging) ==> NodeAt(f4, n) == NodeAt(f3, n)
    requires Preserves(f3, f4) && f5 == Removed(f4, StatePath(staging))
    ensures Recorded(f5, staging, plan)
  {
    MetaNames(staging);
    assert NodeAt(f4, ManifestPath(staging)) == NodeAt(f3, ManifestPath(staging));
    hide ManifestPath, SyncPath, StatePath;
  }

  lemma OnlyRecordsChange(f2: Fs, f3: Fs, f4: Fs, f5: Fs, staging: Place)
    requires forall n :: n != ManifestPath(staging) ==> NodeAt(f3, n) == NodeAt(f2, n)
    requires forall n :: n != SyncPath(staging) ==> NodeAt(f4, n) == NodeAt(f3, n)
    requires f5 == Removed(f4, StatePath(staging))
    ensures forall n :: n !in {ManifestPath(staging), SyncPath(staging), StatePath(staging)} ==> NodeAt(f5, n) == NodeAt(f2, n)
    ensures staging !in {ManifestPath(staging), SyncPath(staging), StatePath(staging)}
  {
    assert |staging| < |ManifestPath(staging)| == |SyncPath(staging)| == |StatePath(staging)|;
    hide ManifestPath, SyncPath, StatePath;
    forall n | n !in {ManifestPath(staging), SyncPath(staging), StatePath(staging)} ensures NodeAt(f5, n) == NodeAt(f2, n) {
      assert NodeAt(f5, n) == NodeAt(f4, n) == NodeAt(f3, n) == NodeAt(f2, n);
    }
  }

  lemma BuiltInStaging(f0: Fs, f1: Fs, f2: Fs, f3: Fs, f4: Fs, f5: Fs, staging: Place, m: Manifest, plan: Plan)
    requires Prepared(f0, f1, staging, plan) && Filled(f1, f2, staging, m.Files()) && NoneReserved(m.Files())
    requires ContentAt(f3, ManifestPath(staging)) == Some(plan.text) && forall n :: n != ManifestPath(staging) ==> NodeAt(f3, n) == NodeAt(f2, n)
    requires ContentAt(f4, SyncPath(staging)) == Some(plan.note) && forall n :: n != SyncPath(staging) ==> NodeAt(f4, n) == NodeAt(f3, n)
    requires Preserves(f3, f4) && f5 == Removed(f4, StatePath(staging))
    ensures Built(f0, f5, staging, m, plan)
  {
    RecordsWritten(f3, f4, f5, staging, plan);
    OnlyRecordsChange(f2, f3, f4, f5, staging);
    assert StatePath(staging) !in f5.names;
    if Tree(f0) {
      StagingStays(f0, f1, f2, staging, m.Files(), plan);
      assert NodeAt(f5, staging) == NodeAt(f2, staging);
    }
    assert Tree(f0) && !Resumed(f0, staging, plan) ==> Fresh(f1, staging);
    hide Tree, Prepared, Recorded, Resumed, Fresh, Filled, NoneReserved, ManifestPath, SyncPath, StatePath, Clean;
    if Tree(f0) && !Resumed(f0, staging, plan) { BuiltClean(f0, f1, f2, f5, staging, m.Files(), plan); }
  }

  lemma StagingStays(f0: Fs, f1: Fs, f2: Fs, staging: Place, files: seq<Entry>, plan: Plan)
    requires Tree(f0) && Prepared(f0, f1, staging, plan) && Filled(f1, f2, staging, files)
    ensures staging in f2.names
  {
    assert Under(StatePath(staging), staging);
    assert NodeAt(f1, staging) == Some(Other);
    forall e | e in files ensures staging != Target(staging, e) && staging != PartName(Target(staging, e)) {
      assert |Target(staging, e)| > |staging|;
    }
  }

  lemma BuiltClean(f0: Fs, f1: Fs, f2: Fs, f5: Fs, staging: Place, files: seq<Entry>, plan: Plan)
    requires Fresh(f1, staging) && Filled(f1, f2, staging, files) && StatePath(staging) !in f5.names
    requires forall n :: n !in {ManifestPath(staging), SyncPath(staging), StatePath(staging)} ==> NodeAt(f5, n) == NodeAt(f2, n)
    ensures Clean(f5, staging, files)
  {
    hide Listed;
    forall n | n in f5.names && Under(n, staging)
      ensures n in {staging, MetaPath(staging), ManifestPath(staging), SyncPath(staging)} || Listed(staging, files, n)
    {
      assert n !in {ManifestPath(staging), SyncPath(staging), StatePath(staging)} ==> NodeAt(f5, n) == NodeAt(f2, n);
    }
  }

  // At its new place the tree is as clean and as complete.
  lemma MovedBuilt(f0: Fs, f: Fs, h: Fs, staging: Place, destination: Place, m: Manifest, plan: Plan)
    requires Built(f0, f, staging, m, plan) && TreeMoved(f, h, staging, destination)
    ensures Recorded(h, destination, plan) && (Tree(f0) && !Resumed(f0, staging, plan) ==> Clean(h, destination, m.Files()))
  {
    assert ManifestPath(staging) == staging + [".modelshelf", "manifest.json"] && ManifestPath(destination) == destination + [".modelshelf", "manifest.json"];
    assert SyncPath(staging) == staging + [".modelshelf", "sync.json"] && SyncPath(destination) == destination + [".modelshelf", "sync.json"];
    assert StatePath(staging) == staging + [".modelshelf", "staging.json"] && StatePath(destination) == destination + [".modelshelf", "staging.json"];
    assert NodeAt(h, StatePath(destination)) == NodeAt(f, StatePath(staging));
    hide Tree;
    if Tree(f0) && !Resumed(f0, staging, plan) {
      forall n | n in h.names && Under(n, destination)
        ensures n in {destination, MetaPath(destination), ManifestPath(destination), SyncPath(destination)} || Listed(destination, m.Files(), n)
      {
        MovedName(f, h, staging, destination, m.Files(), n);
      }
    }
  }

  lemma MovedListed(staging: Place, destination: Place, files: seq<Entry>, rel: Place)
    requires Listed(staging, files, staging + rel)
    ensures Listed(destination, files, destination + rel)
  {
    var e :| e in files && OnWay(staging + rel, staging, Target(staging, e));
    var parts := Split(e.path, '/');
    assert |rel| <= |parts| && Target(staging, e)[..|staging| + |rel|] == staging + parts[..|rel|];
    assert (staging + rel)[|staging|..] == rel && (staging + parts[..|rel|])[|staging|..] == parts[..|rel|];
    assert Target(destination, e)[..|destination| + |rel|] == destination + parts[..|rel|];
    assert OnWay(destination + rel, destination, Target(destination, e));
  }

  lemma MovedName(f: Fs, h: Fs, staging: Place, destination: Place, files: seq<Entry>, n: Place)
    requires Clean(f, staging, files) && TreeMoved(f, h, staging, destination) && n in h.names && Under(n, destination)
    ensures n in {destination, MetaPath(destination), ManifestPath(destination), SyncPath(destination)} || Listed(destination, files, n)
  {
    var rel := n[|destination|..];
    assert n == destination + rel && NodeAt(h, destination + rel) == NodeAt(f, staging + rel) && Under(staging + rel, staging);
    assert rel == (staging + rel)[|staging|..];
    assert MetaPath(staging)[|staging|..] == [".modelshelf"];
    assert ManifestPath(staging)[|staging|..] == [".modelshelf", "manifest.json"] && SyncPath(staging)[|staging|..] == [".modelshelf", "sync.json"];
    assert rel == [] ==> n == destination;
    hide Listed;
    if Listed(staging, files, staging + rel) { MovedListed(staging, destination, files, rel); }
  }

  // Names have directories above them.
  ghost predicate Tree(f: Fs) {
    forall p, n :: p in f.names && Under(p, n) && n != p ==> NodeAt(f, n) == Some(Other)
  }

  ghost predicate NothingUnder(f: Fs, root: Place) {
    forall n :: n in f.names ==> !Under(n, root)
  }

  // A file stands where a parent of the destination is needed.
  ghost predicate Barred(f: Fs, destination: Place) {
    exists n :: 0 < n < |destination| && FileAt(f, destination[..n])
  }

  // The staging tree was there, so a parent was barred before.
  lemma PublicationBarred(f0: Fs, l0: seq<Fs>, f: Fs, l: seq<Fs>, workspace: Place, staging: Place, destination: Place, m: Manifest, plan: Plan)
    requires Stretch(f0, l0, f, l, workspace) && Apart(workspace, destination) && Built(f0, f, staging, m, plan)
    ensures Tree(f0) ==> staging in f.names
    ensures Barred(f, destination) ==> Barred(f0, destination)
  {
    if Barred(f, destination) {
      var n :| 0 < n < |destination| && FileAt(f, destination[..n]);
      ParentOutside(workspace, destination, n);
      assert NodeAt(f, destination[..n]) == NodeAt(f0, destination[..n]);
    }
  }

  lemma {:induction false} LongestIn(s: set<Place>)
    requires s != {}
    ensures exists p :: p in s && forall q :: q in s ==> |q| <= |p|
  {
    var p :| p in s;
    if s - {p} != {} {
      LongestIn(s - {p});
      var q :| q in s - {p} && forall r :: r in s - {p} ==> |r| <= |q|;
      var longest := if |p| >= |q| then p else q;
      assert longest in s && forall r :: r in s ==> |r| <= |longest|;
    } else {
      assert s == {p};
    }
  }

  lemma RenamedAway(f: Fs, staging: Place, destination: Place)
    requires Apart(staging, destination)
    ensures NothingUnder(RenamedTree(f, staging, destination), staging)
  {
    forall n | Under(n, staging) ensures n !in RenamedTree(f, staging, destination).names {
      RenamedTreeExact(f, staging, destination, n[|staging|..], []);
      assert staging + n[|staging|..] == n;
    }
  }

  // The destination shows the same tree.
  ghost predicate SameTree(f: Fs, g: Fs, root: Place) {
    forall rel :: NodeAt(g, root + rel) == NodeAt(f, root + rel) && ContentAt(g, root + rel) == ContentAt(f, root + rel)
  }

  ghost predicate SameNodes(f: Fs, g: Fs, root: Place) {
    forall rel :: NodeAt(g, root + rel) == NodeAt(f, root + rel)
  }

  lemma SameNodesElsewhere(f0: Fs, f: Fs, g: Fs, p: Place, root: Place)
    requires SameNodes(f0, f, root) && !Under(p, root) && forall n :: n != p ==> NodeAt(g, n) == NodeAt(f, n)
    ensures SameNodes(f0, g, root)
  {
    forall rel ensures NodeAt(g, root + rel) == NodeAt(f0, root + rel) {
      assert Under(root + rel, root);
    }
  }

  lemma ParentOutside(staging: Place, destination: Place, n: nat)
    requires Apart(staging, destination) && 0 < n < |destination|
    ensures !Under(destination[..n], destination) && !Under(destination[..n], staging)
  {
    assert |staging| <= n ==> destination[..n][..|staging|] == destination[..|staging|];
  }

  lemma RemovedOnly(f0: Fs, g: Fs, h: Fs, staging: Place, destination: Place)
    requires Apart(staging, destination) && OnlyUnder(g, h, staging) && h.contents == g.contents && NewState(f0, g, staging, destination)
    ensures NewState(f0, h, staging, destination)
  {
    forall rel ensures NodeAt(h, destination + rel) == NodeAt(g, destination + rel) {
      ApartTrees(destination, staging, destination + rel);
    }
  }

  // The destination shows what was in staging.
  ghost predicate TreeMoved(f: Fs, g: Fs, staging: Place, destination: Place) {
    forall rel :: NodeAt(g, destination + rel) == NodeAt(f, staging + rel) && ContentAt(g, destination + rel) == ContentAt(f, staging + rel)
  }

  // Names in neither tree are as before.
  ghost predicate OthersStay(f: Fs, g: Fs, staging: Place, destination: Place) {
    forall p :: p in f.names && !Under(p, staging) && !Under(p, destination) ==> NodeAt(g, p) == NodeAt(f, p)
  }

  // Nothing published yet: the destination is what it was.
  ghost predicate OldState(f: Fs, g: Fs, staging: Place, destination: Place) {
    Preserves(f, g) && SameTree(f, g, destination) && OthersStay(f, g, staging, destination)
  }

  // Published: the destination is what staging was.
  ghost predicate NewState(f: Fs, g: Fs, staging: Place, destination: Place) {
    Preserves(f, g) && TreeMoved(f, g, staging, destination) && OthersStay(f, g, staging, destination)
  }

  lemma AddedIsOld(f: Fs, g: Fs, staging: Place, destination: Place)
    requires OnlyAdds(f, g) && SameNodes(f, g, destination)
    ensures OldState(f, g, staging, destination)
  {
  }

  lemma SwappedIsNew(f0: Fs, f: Fs, g: Fs, staging: Place, destination: Place, replaced: bool)
    requires Apart(staging, destination) && Sane(f0) && OnlyAdds(f0, f) && SameNodes(f0, f, staging)
    requires g == if replaced then Exchanged(f, staging, destination) else RenamedTree(f, staging, destination)
    ensures NewState(f0, g, staging, destination)
  {
    assert g.contents == f.contents;
    hide Exchanged, RenamedTree;
    forall rel ensures NodeAt(g, destination + rel) == NodeAt(f, staging + rel) {
      if replaced { ExchangedExact(f, staging, destination, rel, []); } else { RenamedTreeExact(f, staging, destination, rel, []); }
    }
    forall p | p in f0.names && !Under(p, staging) && !Under(p, destination) ensures NodeAt(g, p) == NodeAt(f0, p) {
      if replaced { ExchangedExact(f, staging, destination, [], p); } else { RenamedTreeExact(f, staging, destination, [], p); }
    }
  }

  lemma StaysSane(f: Fs, l: seq<Fs>, g: Fs, m: seq<Fs>, root: Place)
    requires Stretch(f, l, g, m, root) && Sane(f)
    ensures Sane(g)
  {
  }

  lemma TargetsApart(root: Place, files: seq<Entry>, j: nat, k: nat)
    requires Plannable(root, files) && j < k < |files|
    ensures Target(root, files[j]) != Target(root, files[k])
  {
    if Target(root, files[j]) == Target(root, files[k]) { TargetsDiffer(root, files[j], files[k]); }
  }

  lemma KeptElsewhere(sha: Content -> string, f: Fs, l: seq<Fs>, g: Fs, m: seq<Fs>, root: Place, d: Entry, e: Entry)
    requires HasSha(sha, f, root, d) && Stretch(f, l, g, m, root) && Target(root, d) != Target(root, e) && EntryStaged(f, g, root, e)
    ensures HasSha(sha, g, root, d)
  {
    hide OnWay;
    HasShaKept(sha, f, g, root, d);
  }

  lemma UnplannedKept(sha: Content -> string, f: Fs, l: seq<Fs>, g: Fs, m: seq<Fs>, root: Place,
                      files: seq<Entry>, jobs: seq<Job>, of: seq<nat>, k: nat)
    requires Plannable(root, files) && k < |files| && k !in of && HasSha(sha, f, root, files[k]) && Stretch(f, l, g, m, root)
    requires |of| == |jobs| && forall j :: 0 <= j < |of| ==> of[j] < |files| && jobs[j] == JobFor(root, files[of[j]])
    requires forall n :: !Touches(jobs, n) ==> NodeAt(g, n) == NodeAt(f, n)
    ensures HasSha(sha, g, root, files[k])
  {
    var target := Target(root, files[k]);
    if Touches(jobs, target) {
      var j :| 0 <= j < |jobs| && (target == jobs[j].dest || target == jobs[j].part);
      assert files[k] in files && files[of[j]] in files && of[j] != k;
      if of[j] < k { TargetsApart(root, files, of[j], k); } else { TargetsApart(root, files, k, of[j]); }
    }
    HasShaKept(sha, f, g, root, files[k]);
  }

  lemma Extend(a: Fs, la: seq<Fs>, f: Fs, l: seq<Fs>, g: Fs, m: seq<Fs>, root: Place)
    requires Stretch(a, la, f, l, root) && m == l + [g] && Preserves(a, g) && OnlyUnder(a, g, root) && (Sane(a) ==> Sane(g))
    ensures Stretch(a, la, g, m, root)
  {
    assert m[|la|..] == l[|la|..] + [g];
  }

  // The new file takes its place.
  lemma RenamedOver(f0: Fs, l0: seq<Fs>, f: Fs, l: seq<Fs>, g: Fs, m: seq<Fs>, root: Place, temporary: Place, p: Place, ino: Ino)
    requires Stretch(f0, l0, f, l, root) && m == l + [g] && temporary !in f0.names && Under(temporary, root) && Under(p, root)
    requires temporary in f.names && f.names[temporary] == File(ino) && g == Renamed(f, temporary, p)
    ensures Stretch(f0, l0, g, m, root)
  {
    Extend(f0, l0, f, l, g, m, root);
  }

  lemma PoolStarts(sha: Content -> string, jobs: seq<Job>, fs: Fs, workers: nat)
    ensures PoolRun(sha, jobs, Begun(fs, jobs, workers), []) == Begun(fs, jobs, workers) && Begun(fs, jobs, workers).copying.fs == fs
  {
  }

  lemma PoolGoesOn(sha: Content -> string, jobs: seq<Job>, p: Pool, steps: seq<PoolStep>, n: nat)
    requires n < |steps|
    ensures PoolRun(sha, jobs, p, steps[..n+1]) == PoolNext(sha, jobs, PoolRun(sha, jobs, p, steps[..n]), steps[n])
  {
    assert steps[..n+1][..n] == steps[..n];
  }

  lemma PoolConfined(sha: Content -> string, jobs: seq<Job>, start: Fs, workers: nat, steps: seq<PoolStep>, root: Place)
    requires Separate(jobs) && Sane(start)
    requires forall j :: 0 <= j < |jobs| ==> Under(jobs[j].dest, root) && Under(jobs[j].part, root)
    ensures var fs := PoolRun(sha, jobs, Begun(start, jobs, workers), steps).copying.fs;
            Preserves(start, fs) && OnlyUnder(start, fs, root) && Sane(fs)
  {
    PoolIsExact(sha, jobs, start, workers, steps);
    var p := PoolRun(sha, jobs, Begun(start, jobs, workers), steps);
    hide PoolRun, Begun;
    forall n | !Under(n, root) ensures NodeAt(p.copying.fs, n) == NodeAt(start, n) {
      assert !Touches(jobs, n);
    }
  }

  lemma RenameConfined(f: Fs, from: Place, to: Place, root: Place)
    requires Under(from, root) && Under(to, root) && 0 < |from| < |to| && to[|from|-1] != from[|from|-1]
    ensures var g := RenamedTree(f, from, to); Preserves(f, g) && OnlyUnder(f, g, root) && (Sane(f) ==> Sane(g))
  {
    var g := RenamedTree(f, from, to);
    assert Apart(from, to) by { assert to[..|from|][|from|-1] == to[|from|-1]; }
    forall p | !Under(p, root) ensures NodeAt(g, p) == NodeAt(f, p) {
      InsideTree(p, from, root);
      InsideTree(p, to, root);
      RenamedTreeExact(f, from, to, [], p);
    }
    forall p | p in g.names && g.names[p].File? ensures exists q :: q in f.names && f.names[q] == g.names[p] {
      RenamedFrom(f, from, to, p);
    }
  }

  lemma InsideTree(p: Place, a: Place, root: Place)
    requires Under(a, root) && !Under(p, root)
    ensures !Under(p, a)
  {
    assert a[..|root|] == root;
  }

  // Every node of a renamed tree was somewhere before.
  lemma RenamedFrom(f: Fs, from: Place, to: Place, p: Place)
    requires Apart(from, to) && p in RenamedTree(f, from, to).names
    ensures exists q :: q in f.names && f.names[q] == RenamedTree(f, from, to).names[p]
  {
    if Under(p, to) {
      assert p == to + p[|to|..];
      RenamedTreeExact(f, from, to, p[|to|..], p);
      assert NodeAt(f, from + p[|to|..]).Some?;
    } else {
      RenamedTreeExact(f, from, to, [], p);
    }
  }

  // ---- from staging to the destination -----------------------------------------------------------

  ghost predicate OutsideStays(f: Fs, h: Fs, workspace: Place, destination: Place) {
    forall p :: p in f.names && !Under(p, workspace) && !Under(p, destination) ==> NodeAt(h, p) == NodeAt(f, p)
  }

  // The destination still shows the old tree, or nothing.
  ghost predicate Unpublished(f: Fs, h: Fs, workspace: Place, destination: Place) {
    Preserves(f, h) && SameTree(f, h, destination) && OutsideStays(f, h, workspace, destination)
  }

  // The destination shows every file of the manifest, checked, and its records;
  // and nothing else, unless an earlier attempt was resumed.
  ghost predicate Installed(sha: Content -> string, f: Fs, h: Fs, workspace: Place, staging: Place, destination: Place, m: Manifest, plan: Plan) {
    && Preserves(f, h) && OutsideStays(f, h, workspace, destination)
    && (forall e :: e in m.Files() ==> Matches(sha, h, Target(destination, e), e))
    && Recorded(h, destination, plan) && (Tree(f) && !Resumed(f, staging, plan) ==> Clean(h, destination, m.Files()))
  }

  // Every file elsewhere reads as before, whoever shares its inode.
  ghost predicate OthersRead(f: Fs, h: Fs, workspace: Place, destination: Place) {
    forall p :: p in f.names && !Under(p, workspace) && !Under(p, destination) ==> ContentAt(h, p) == ContentAt(f, p)
  }

  lemma OthersUntouched(f: Fs, h: Fs, workspace: Place, destination: Place)
    requires Sane(f) && Preserves(f, h) && OutsideStays(f, h, workspace, destination)
    ensures OthersRead(f, h, workspace, destination)
  {
    forall p | p in f.names && !Under(p, workspace) && !Under(p, destination) ensures ContentAt(h, p) == ContentAt(f, p) {
      assert NodeAt(h, p) == NodeAt(f, p);
    }
  }

  lemma LogOthersRead(sha: Content -> string, f: Fs, l: seq<Fs>, log: seq<Fs>, switch: nat, workspace: Place, staging: Place, destination: Place,
                      m: Manifest, plan: Plan)
    requires Sane(f) && |l| <= switch <= |log|
    requires forall i :: |l| <= i < switch ==> Unpublished(f, log[i], workspace, destination)
    requires forall i :: switch <= i < |log| ==> Installed(sha, f, log[i], workspace, staging, destination, m, plan)
    ensures forall i :: |l| <= i < |log| ==> OthersRead(f, log[i], workspace, destination)
  {
    forall i | |l| <= i < |log| ensures OthersRead(f, log[i], workspace, destination) {
      assert if i < switch then Unpublished(f, log[i], workspace, destination) else Installed(sha, f, log[i], workspace, staging, destination, m, plan);
      OthersUntouched(f, log[i], workspace, destination);
    }
  }

  lemma StagingApart(workspace: Place, staging: Place, destination: Place)
    requires Apart(workspace, destination) && Under(staging, workspace)
    ensures Apart(staging, destination)
  {
    assert |destination| <= |workspace| ==> staging[..|workspace|][..|destination|] == staging[..|destination|];
    assert |staging| <= |destination| ==> destination[..|staging|][..|workspace|] == destination[..|workspace|];
    assert |destination| <= |staging| && |workspace| <= |destination| ==> staging[..|destination|][..|workspace|] == staging[..|workspace|];
  }

  lemma StretchWider(f: Fs, l: seq<Fs>, g: Fs, m: seq<Fs>, root: Place, wide: Place)
    requires Stretch(f, l, g, m, root) && Under(root, wide)
    ensures Stretch(f, l, g, m, wide)
  {
    forall p | !Under(p, wide) ensures !Under(p, root) { InsideTree(p, root, wide); }
  }

  lemma ConfinedIsUnpublished(f: Fs, h: Fs, workspace: Place, destination: Place)
    requires Preserves(f, h) && OnlyUnder(f, h, workspace) && Apart(workspace, destination) && Sane(f)
    ensures Unpublished(f, h, workspace, destination)
  {
    forall rel ensures NodeAt(h, destination + rel) == NodeAt(f, destination + rel) {
      ApartTrees(destination, workspace, destination + rel);
    }
  }

  lemma StretchIsUnpublished(f: Fs, l: seq<Fs>, g: Fs, m: seq<Fs>, workspace: Place, destination: Place)
    requires Stretch(f, l, g, m, workspace) && Apart(workspace, destination) && Sane(f)
    ensures |l| <= |m| && m[..|l|] == l && forall i :: |l| <= i < |m| ==> Unpublished(f, m[i], workspace, destination)
  {
    hide Unpublished;
    forall i | |l| <= i < |m| ensures Unpublished(f, m[i], workspace, destination) {
      assert m[i] in m[|l|..];
      ConfinedIsUnpublished(f, m[i], workspace, destination);
    }
  }

  lemma VerifiedKept(sha: Content -> string, digests: Digests, f: Fs, l: seq<Fs>, g: Fs, k: seq<Fs>, workspace: Place,
                     staging: Place, m: Manifest, name: string)
    requires Verified(sha, digests, f, staging, m) && Stretch(f, l, g, k, workspace)
    requires forall n :: n != staging + [".modelshelf", name] && n in f.names ==> NodeAt(g, n) == NodeAt(f, n)
    requires forall e :: e in m.Files() ==> !Reserved(e)
    ensures Verified(sha, digests, g, staging, m)
  {
    forall e | e in m.Files() ensures Matches(sha, g, Target(staging, e), e) {
      var meta := staging + [".modelshelf", name];
      assert Matches(sha, f, Target(staging, e), e);
      assert Target(staging, e)[|staging|..] == Split(e.path, '/') && meta[|staging|] == ".modelshelf";
    }
    hide ExpectedId;
  }

  lemma MovedMatches(sha: Content -> string, f: Fs, h: Fs, staging: Place, destination: Place, e: Entry)
    requires TreeMoved(f, h, staging, destination) && Matches(sha, f, Target(staging, e), e)
    ensures Matches(sha, h, Target(destination, e), e)
  {
    assert ContentAt(h, destination + Split(e.path, '/')) == ContentAt(f, staging + Split(e.path, '/'));
  }

  lemma PublishedVerified(sha: Content -> string, digests: Digests, f: Fs, h: Fs, staging: Place, destination: Place, m: Manifest)
    requires Verified(sha, digests, f, staging, m) && NewState(f, h, staging, destination)
    ensures Verified(sha, digests, h, destination, m)
  {
    forall e | e in m.Files() ensures Matches(sha, h, Target(destination, e), e) {
      MovedMatches(sha, f, h, staging, destination, e);
    }
    hide ExpectedId;
  }

  lemma OldIsUnpublished(f0: Fs, f: Fs, h: Fs, workspace: Place, staging: Place, destination: Place)
    requires Preserves(f0, f) && OnlyUnder(f0, f, workspace) && Unpublished(f0, f, workspace, destination) && OldState(f, h, staging, destination)
    requires Under(staging, workspace)
    ensures Unpublished(f0, h, workspace, destination)
  {
    forall p | p in f0.names && !Under(p, workspace) && !Under(p, destination) ensures NodeAt(h, p) == NodeAt(f0, p) {
      InsideTree(p, staging, workspace);
      assert NodeAt(f, p) == NodeAt(f0, p);
    }
  }

  lemma NewIsInstalled(sha: Content -> string, digests: Digests, f0: Fs, f: Fs, h: Fs, workspace: Place, staging: Place,
                   destination: Place, m: Manifest, plan: Plan)
    requires Preserves(f0, f) && OnlyUnder(f0, f, workspace) && NewState(f, h, staging, destination) && Under(staging, workspace)
    requires Verified(sha, digests, f, staging, m) && Built(f0, f, staging, m, plan)
    ensures Installed(sha, f0, h, workspace, staging, destination, m, plan)
  {
    forall p | p in f0.names && !Under(p, workspace) && !Under(p, destination) ensures NodeAt(h, p) == NodeAt(f0, p) {
      InsideTree(p, staging, workspace);
      assert NodeAt(f, p) == NodeAt(f0, p);
    }
    forall e | e in m.Files() ensures Matches(sha, h, Target(destination, e), e) {
      MovedMatches(sha, f, h, staging, destination, e);
    }
    MovedBuilt(f0, f, h, staging, destination, m, plan);
    hide Recorded, Clean, Tree, Resumed, Built;
  }

  lemma PublishedAtOnce(sha: Content -> string, digests: Digests, f0: Fs, l0: seq<Fs>, f: Fs, l: seq<Fs>, log: seq<Fs>, switch: nat,
                  workspace: Place, staging: Place, destination: Place, m: Manifest, plan: Plan)
    requires Stretch(f0, l0, f, l, workspace) && Apart(workspace, destination) && Under(staging, workspace) && Sane(f0)
    requires Verified(sha, digests, f, staging, m) && Built(f0, f, staging, m, plan)
    requires |l| <= switch <= |log| && log[..|l|] == l
    requires forall i :: |l| <= i < switch ==> OldState(f, log[i], staging, destination)
    requires forall i :: switch <= i < |log| ==> NewState(f, log[i], staging, destination)
    ensures |l0| <= |l| && log[..|l0|] == l0
    ensures forall i :: |l0| <= i < switch ==> Unpublished(f0, log[i], workspace, destination)
    ensures forall i :: switch <= i < |log| ==> Installed(sha, f0, log[i], workspace, staging, destination, m, plan)
  {
    StretchIsUnpublished(f0, l0, f, l, workspace, destination);
    ConfinedIsUnpublished(f0, f, workspace, destination);
    assert log[..|l0|] == l[..|l0|];
    hide Unpublished, Installed, OldState, NewState, Verified, Built;
    forall i | |l0| <= i < switch ensures Unpublished(f0, log[i], workspace, destination) {
      if i < |l| { assert log[i] == log[..|l|][i] == l[i]; } else { OldIsUnpublished(f0, f, log[i], workspace, staging, destination); }
    }
    forall i | switch <= i < |log| ensures Installed(sha, f0, log[i], workspace, staging, destination, m, plan) {
      NewIsInstalled(sha, digests, f0, f, log[i], workspace, staging, destination, m, plan);
    }
  }
}
