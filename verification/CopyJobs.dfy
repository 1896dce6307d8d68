// `runCopyJobs`: up to eight workers copy files at the same time. Whatever the
// interleaving of their system calls, no older inode is written and every
// finished copy stays what it was checked to be.
module CopyJobs {
  import opened TaskTypes
  import opened FileTree

  datatype Job = Job(dest: Place, part: Place, expected: string)

  // Where `copyFile` stands on one job.
  datatype Phase =
    | Ready
    | Cleared                                // a stale part file was removed, if possible
    | Writing(ino: Ino, written: Content)    // the part file is open
    | Copied
    | GivenUp

  datatype Copying = Copying(fs: Fs, phases: seq<Phase>)

  datatype Step =
    | Clear(job: nat, removed: bool)
    | Open(job: nat, ino: Ino)
    | Write(job: nat, data: Content)
    | Publish(job: nat)
    | Abort(job: nat, removed: bool)

  // A failure after the part file was opened removes it, if it can.
  function Cleaned(fs: Fs, job: Job, p: Phase, removed: bool): Fs {
    if p.Writing? && removed then Removed(fs, job.part) else fs
  }

  function At(s: Copying, j: nat, fs: Fs, p: Phase): Copying
    requires j < |s.phases|
  {
    Copying(fs, s.phases[j := p])
  }

  function Next(sha: Content -> string, jobs: seq<Job>, s: Copying, step: Step): Copying {
    var j := step.job;
    if j >= |jobs| || j >= |s.phases| then s else
    var job, p := jobs[j], s.phases[j];
    match step
    case Clear(_, removed) =>
      if p.Ready? then At(s, j, if removed then Removed(s.fs, job.part) else s.fs, Cleared) else s
    case Open(_, ino) =>
      if !p.Cleared? || ino in s.fs.contents then s
      else if job.part in s.fs.names then At(s, j, s.fs, GivenUp)
      else At(s, j, Created(s.fs, job.part, ino), Writing(ino, ""))
    case Write(_, data) =>
      if p.Writing? then At(s, j, Appended(s.fs, p.ino, data), Writing(p.ino, p.written + data)) else s
    case Publish(_) =>
      if !p.Writing? || sha(p.written) != job.expected || job.part !in s.fs.names || NodeAt(s.fs, job.dest) == Some(Other) then s
      else At(s, j, Renamed(s.fs, job.part, job.dest), Copied)
    case Abort(_, removed) =>
      if p.Copied? then s else At(s, j, Cleaned(s.fs, job, p, removed), GivenUp)
  }

  function Run(sha: Content -> string, jobs: seq<Job>, s: Copying, steps: seq<Step>): Copying {
    if steps == [] then s else Next(sha, jobs, Run(sha, jobs, s, steps[..|steps|-1]), steps[|steps|-1])
  }

  // ---- the invariant ------------------------------------------------------------------

  // No destination is another one, or anybody's part file.
  ghost predicate Separate(jobs: seq<Job>) {
    && (forall j, k :: 0 <= j < |jobs| && 0 <= k < |jobs| ==> jobs[j].dest != jobs[k].part)
    && (forall j, k :: 0 <= j < k < |jobs| ==> jobs[j].dest != jobs[k].dest && jobs[j].part != jobs[k].part)
  }

  // The open part file is a new inode with no other name.
  ghost predicate Owns(start: Fs, fs: Fs, job: Job, p: Phase) {
    p.Writing? ==>
      && NodeAt(fs, job.part) == Some(File(p.ino)) && p.ino !in start.contents
      && p.ino in fs.contents && fs.contents[p.ino] == p.written
      && (forall n :: n in fs.names && n != job.part ==> fs.names[n] != File(p.ino))
  }

  ghost predicate Settled(sha: Content -> string, start: Fs, fs: Fs, job: Job, p: Phase) {
    if p.Copied? then ContentAt(fs, job.dest).Some? && sha(ContentAt(fs, job.dest).value) == job.expected && job.part !in fs.names
    else NodeAt(fs, job.dest) == NodeAt(start, job.dest)
  }

  ghost predicate Touches(jobs: seq<Job>, n: Place) {
    exists j :: 0 <= j < |jobs| && (n == jobs[j].dest || n == jobs[j].part)
  }

  ghost predicate Safe(sha: Content -> string, jobs: seq<Job>, start: Fs, s: Copying) {
    && |s.phases| == |jobs| && Sane(s.fs) && Preserves(start, s.fs)
    && (forall j :: 0 <= j < |jobs| ==> Owns(start, s.fs, jobs[j], s.phases[j]))
    && (forall j :: 0 <= j < |jobs| ==> Settled(sha, start, s.fs, jobs[j], s.phases[j]))
    && (forall n :: !Touches(jobs, n) ==> NodeAt(s.fs, n) == NodeAt(start, n))
  }

  // ---- one step at a time -------------------------------------------------------------------

  // Job `j` replaces the node at its part file, another job is not disturbed.
  lemma OthersOwn(start: Fs, fs: Fs, gs: Fs, mine: Job, other: Job, p: Phase)
    requires Owns(start, fs, other, p) && mine.part != other.part && mine.dest != other.part
    requires forall n :: n != mine.part && n != mine.dest ==> NodeAt(gs, n) == NodeAt(fs, n)
    requires forall n :: n in {mine.part, mine.dest} && n in gs.names && gs.names[n].File? && p.Writing? ==> gs.names[n].ino != p.ino
    requires p.Writing? ==> p.ino in gs.contents && gs.contents[p.ino] == fs.contents[p.ino]
    ensures Owns(start, gs, other, p)
  {
    if p.Writing? {
      assert NodeAt(gs, other.part) == NodeAt(fs, other.part);
      forall n | n in gs.names && n != other.part ensures gs.names[n] != File(p.ino) {
        if n != mine.part && n != mine.dest { assert NodeAt(gs, n) == NodeAt(fs, n); }
      }
    }
  }

  lemma ClearSafe(sha: Content -> string, jobs: seq<Job>, start: Fs, s: Copying, step: Step)
    requires Separate(jobs) && Safe(sha, jobs, start, s) && (step.Clear? || step.Abort?)
    ensures Safe(sha, jobs, start, Next(sha, jobs, s, step))
  {
    var j, t := step.job, Next(sha, jobs, s, step);
    if j < |jobs| && t != s {
      assert t.fs == s.fs || t.fs == Removed(s.fs, jobs[j].part);
      assert Touches(jobs, jobs[j].part);
      assert forall n :: n != jobs[j].part ==> NodeAt(t.fs, n) == NodeAt(s.fs, n);
      forall k | 0 <= k < |jobs|
        ensures Owns(start, t.fs, jobs[k], t.phases[k]) && Settled(sha, start, t.fs, jobs[k], t.phases[k])
      {
        assert Owns(start, s.fs, jobs[k], s.phases[k]) && Settled(sha, start, s.fs, jobs[k], s.phases[k]);
        assert NodeAt(t.fs, jobs[k].dest) == NodeAt(s.fs, jobs[k].dest);
        assert k != j ==> NodeAt(t.fs, jobs[k].part) == NodeAt(s.fs, jobs[k].part);
      }
    }
  }

  lemma OpenSafe(sha: Content -> string, jobs: seq<Job>, start: Fs, s: Copying, step: Step)
    requires Separate(jobs) && Safe(sha, jobs, start, s) && step.Open?
    ensures Safe(sha, jobs, start, Next(sha, jobs, s, step))
  {
    var j, t := step.job, Next(sha, jobs, s, step);
    if j < |jobs| && t != s {
      assert Touches(jobs, jobs[j].part);
      assert forall n :: n != jobs[j].part ==> NodeAt(t.fs, n) == NodeAt(s.fs, n);
      forall k | 0 <= k < |jobs|
        ensures Owns(start, t.fs, jobs[k], t.phases[k]) && Settled(sha, start, t.fs, jobs[k], t.phases[k])
      {
        assert Owns(start, s.fs, jobs[k], s.phases[k]) && Settled(sha, start, s.fs, jobs[k], s.phases[k]);
        assert NodeAt(t.fs, jobs[k].dest) == NodeAt(s.fs, jobs[k].dest);
        if k != j {
          assert NodeAt(t.fs, jobs[k].part) == NodeAt(s.fs, jobs[k].part);
          OthersOwn(start, s.fs, t.fs, jobs[j].(dest := jobs[j].part), jobs[k], s.phases[k]);
        }
      }
    }
  }

  lemma WriteSafe(sha: Content -> string, jobs: seq<Job>, start: Fs, s: Copying, step: Step)
    requires Separate(jobs) && Safe(sha, jobs, start, s) && step.Write?
    ensures Safe(sha, jobs, start, Next(sha, jobs, s, step))
  {
    var j, t := step.job, Next(sha, jobs, s, step);
    if j < |jobs| && t != s {
      assert Owns(start, s.fs, jobs[j], s.phases[j]);
      assert t.fs.names == s.fs.names;
      forall k | 0 <= k < |jobs|
        ensures Owns(start, t.fs, jobs[k], t.phases[k]) && Settled(sha, start, t.fs, jobs[k], t.phases[k])
      {
        assert Owns(start, s.fs, jobs[k], s.phases[k]) && Settled(sha, start, s.fs, jobs[k], s.phases[k]);
        if jobs[k].dest in s.fs.names { assert s.fs.names[jobs[k].dest] != File(s.phases[j].ino); }
      }
    }
  }

  lemma PublishSafe(sha: Content -> string, jobs: seq<Job>, start: Fs, s: Copying, step: Step)
    requires Separate(jobs) && Safe(sha, jobs, start, s) && step.Publish?
    ensures Safe(sha, jobs, start, Next(sha, jobs, s, step))
  {
    var j, t := step.job, Next(sha, jobs, s, step);
    if j < |jobs| && t != s {
      assert Owns(start, s.fs, jobs[j], s.phases[j]);
      assert Touches(jobs, jobs[j].part) && Touches(jobs, jobs[j].dest);
      assert forall n :: n != jobs[j].part && n != jobs[j].dest ==> NodeAt(t.fs, n) == NodeAt(s.fs, n);
      forall k | 0 <= k < |jobs|
        ensures Owns(start, t.fs, jobs[k], t.phases[k]) && Settled(sha, start, t.fs, jobs[k], t.phases[k])
      {
        assert Owns(start, s.fs, jobs[k], s.phases[k]) && Settled(sha, start, s.fs, jobs[k], s.phases[k]);
        if k != j {
          assert NodeAt(t.fs, jobs[k].dest) == NodeAt(s.fs, jobs[k].dest) && NodeAt(t.fs, jobs[k].part) == NodeAt(s.fs, jobs[k].part);
          OthersOwn(start, s.fs, t.fs, jobs[j], jobs[k], s.phases[k]);
        }
      }
    }
  }

  lemma CallSafe(sha: Content -> string, jobs: seq<Job>, start: Fs, s: Copying, step: Step)
    requires Separate(jobs) && Safe(sha, jobs, start, s)
    ensures Safe(sha, jobs, start, Next(sha, jobs, s, step))
  {
    hide Next, Safe, Separate;
    match step
    case Clear(_, _) => ClearSafe(sha, jobs, start, s, step);
    case Abort(_, _) => ClearSafe(sha, jobs, start, s, step);
    case Open(_, _) => OpenSafe(sha, jobs, start, s, step);
    case Write(_, _) => WriteSafe(sha, jobs, start, s, step);
    case Publish(_) => PublishSafe(sha, jobs, start, s, step);
  }

  lemma {:induction false} EveryInterleavingIsSafe(sha: Content -> string, jobs: seq<Job>, start: Fs, s: Copying, steps: seq<Step>)
    requires Separate(jobs) && Safe(sha, jobs, start, s)
    ensures Safe(sha, jobs, start, Run(sha, jobs, s, steps))
  {
    if steps != [] {
      EveryInterleavingIsSafe(sha, jobs, start, s, steps[..|steps|-1]);
      hide Next, Safe, Separate;
      CallSafe(sha, jobs, start, Run(sha, jobs, s, steps[..|steps|-1]), steps[|steps|-1]);
    }
  }

  // From a fresh pool of jobs: each copied destination has the expected content
  // and its part file is gone, and every other name and every older inode is
  // untouched.
  lemma CopiesAreExact(sha: Content -> string, jobs: seq<Job>, start: Fs, steps: seq<Step>)
    requires Separate(jobs) && Sane(start)
    ensures var s := Run(sha, jobs, Copying(start, seq(|jobs|, _ => Ready)), steps);
            && Preserves(start, s.fs)
            && (forall n :: !Touches(jobs, n) ==> NodeAt(s.fs, n) == NodeAt(start, n))
            && |s.phases| == |jobs|
            && (forall j :: 0 <= j < |jobs| && s.phases[j].Copied? ==>
                  && ContentAt(s.fs, jobs[j].dest).Some? && sha(ContentAt(s.fs, jobs[j].dest).value) == jobs[j].expected
                  && jobs[j].part !in s.fs.names)
            && (forall j :: 0 <= j < |jobs| && !s.phases[j].Copied? ==> NodeAt(s.fs, jobs[j].dest) == NodeAt(start, jobs[j].dest))
  {
    var s0 := Copying(start, seq(|jobs|, _ => Ready));
    assert Safe(sha, jobs, start, s0);
    EveryInterleavingIsSafe(sha, jobs, start, s0, steps);
    var s := Run(sha, jobs, s0, steps);
    hide Run;
    forall j | 0 <= j < |jobs| ensures Settled(sha, start, s.fs, jobs[j], s.phases[j]) {
    }
  }
}
