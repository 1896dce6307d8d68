// The pool can do its work: where every source has the expected hash and
// nothing stands in the way, some schedule copies every job.
module CopyProgress {
  import opened TaskTypes
  import opened FileTree
  import opened CopyJobs
  import opened CopyPool

  // The first `n` jobs are copied, the workers are idle, nothing went wrong.
  ghost predicate Done(sha: Content -> string, jobs: seq<Job>, start: Fs, p: Pool, n: nat) {
    && PoolSafe(sha, jobs, start, p) && p.sent == n <= |jobs| && !p.stopped && !p.outer && !p.cancelled && !p.firstError
    && (forall w :: 0 <= w < |p.workers| ==> p.workers[w] == Idle)
    && (forall j :: n <= j < |jobs| ==> p.copying.phases[j] == Ready)
  }

  // The sources have the expected hashes, and no destination is a directory.
  ghost predicate Copyable(sha: Content -> string, jobs: seq<Job>, start: Fs, contents: seq<Content>) {
    |contents| == |jobs| && forall j :: 0 <= j < |jobs| ==> sha(contents[j]) == jobs[j].expected && NodeAt(start, jobs[j].dest) != Some(Other)
  }

  // The worker receives the next job and copies it in one piece.
  function CopyOne(n: nat, ino: Ino, data: Content): seq<PoolStep> {
    [Send(0), Take(0), Work(Clear(n, true)), Work(Open(n, ino)), Work(Write(n, data)), Work(Publish(n)), Return(0)]
  }

  lemma RunOne(sha: Content -> string, jobs: seq<Job>, p: Pool, step: PoolStep)
    ensures PoolRun(sha, jobs, p, [step]) == PoolNext(sha, jobs, p, step)
  {
    assert [step][..0] == [];
    hide PoolNext;
  }

  lemma {:induction false} RunConcat(sha: Content -> string, jobs: seq<Job>, p: Pool, a: seq<PoolStep>, b: seq<PoolStep>)
    ensures PoolRun(sha, jobs, p, a + b) == PoolRun(sha, jobs, PoolRun(sha, jobs, p, a), b)
  {
    if b == [] {
      assert a + b == a;
    } else {
      assert (a + b)[..|a + b|-1] == a + b[..|b|-1];
      hide PoolNext;
      RunConcat(sha, jobs, p, a, b[..|b|-1]);
    }
  }

  lemma RunMore(sha: Content -> string, jobs: seq<Job>, p: Pool, a: seq<PoolStep>, step: PoolStep)
    ensures PoolRun(sha, jobs, p, a + [step]) == PoolNext(sha, jobs, PoolRun(sha, jobs, p, a), step)
  {
    RunConcat(sha, jobs, p, a, [step]);
    RunOne(sha, jobs, PoolRun(sha, jobs, p, a), step);
    hide PoolRun, PoolNext;
  }

  lemma {:induction false} FreshIno(s: set<Ino>) returns (i: Ino)
    ensures forall k :: k in s ==> k < i
  {
    i := 0;
    if s != {} {
      var k :| k in s;
      var rest := FreshIno(s - {k});
      i := if rest <= k then k + 1 else rest;
      assert forall j :: j in s ==> j == k || j in s - {k};
    }
  }

  // The states of one job on worker 0.
  lemma OneReceived(sha: Content -> string, jobs: seq<Job>, start: Fs, p: Pool, n: nat) returns (q: Pool)
    requires Separate(jobs) && Done(sha, jobs, start, p, n) && n < |jobs| && |p.workers| > 0
    ensures PoolRun(sha, jobs, p, [Send(0), Take(0)]) == q && PoolSafe(sha, jobs, start, q)
    ensures q == p.(sent := n + 1, workers := p.workers[0 := Busy(n)]) && q.copying == p.copying
  {
    var a := PoolNext(sha, jobs, p, Send(0));
    q := PoolNext(sha, jobs, a, Take(0));
    RunOne(sha, jobs, p, Send(0));
    assert [Send(0)] + [Take(0)] == [Send(0), Take(0)];
    RunMore(sha, jobs, p, [Send(0)], Take(0));
    assert a == p.(sent := n + 1, workers := p.workers[0 := Received(n)]);
    assert q == p.(sent := n + 1, workers := p.workers[0 := Busy(n)]);
    hide PoolNext, PoolSafe, PoolRun;
    StepSafe(sha, jobs, start, p, Send(0));
    StepSafe(sha, jobs, start, a, Take(0));
  }

  lemma OneWorks(sha: Content -> string, jobs: seq<Job>, start: Fs, p: Pool, n: nat, call: Step)
    requires Separate(jobs) && PoolSafe(sha, jobs, start, p) && n < |jobs| && |p.workers| > 0 && p.workers[0] == Busy(n) && call.job == n
    ensures PoolNext(sha, jobs, p, Work(call)) == p.(copying := CopyJobs.Next(sha, jobs, p.copying, call))
    ensures PoolSafe(sha, jobs, start, p.(copying := CopyJobs.Next(sha, jobs, p.copying, call)))
  {
    assert BusyWith(p, n);
    StepSafe(sha, jobs, start, p, Work(call));
    hide CopyJobs.Next, PoolSafe;
  }

  // The calls of one job, all of which go well.
  lemma OneCopied(sha: Content -> string, jobs: seq<Job>, start: Fs, s: Copying, n: nat, ino: Ino, data: Content) returns (t: Copying)
    requires Separate(jobs) && n < |jobs| && CopyJobs.Safe(sha, jobs, start, s) && s.phases[n] == Ready && ino !in s.fs.contents
    requires sha(data) == jobs[n].expected && NodeAt(s.fs, jobs[n].dest) != Some(Other)
    ensures var a := CopyJobs.Next(sha, jobs, s, Clear(n, true));
            var b := CopyJobs.Next(sha, jobs, a, Open(n, ino));
            var c := CopyJobs.Next(sha, jobs, b, Write(n, data));
            t == CopyJobs.Next(sha, jobs, c, Publish(n)) && t.phases == s.phases[n := Copied]
  {
    var a := CopyJobs.Next(sha, jobs, s, Clear(n, true));
    assert a == At(s, n, Removed(s.fs, jobs[n].part), Cleared);
    var b := CopyJobs.Next(sha, jobs, a, Open(n, ino));
    assert b == At(a, n, Created(a.fs, jobs[n].part, ino), Writing(ino, ""));
    var c := CopyJobs.Next(sha, jobs, b, Write(n, data));
    assert c == At(b, n, Appended(b.fs, ino, data), Writing(ino, "" + data));
    assert "" + data == data;
    t := CopyJobs.Next(sha, jobs, c, Publish(n));
    assert jobs[n].dest != jobs[n].part;
    assert NodeAt(c.fs, jobs[n].dest) == NodeAt(s.fs, jobs[n].dest);
    assert t.phases == s.phases[n := Copied];
  }

  // The four calls as steps of the pool.
  lemma OneDone(sha: Content -> string, jobs: seq<Job>, start: Fs, r: Pool, n: nat, ino: Ino, data: Content) returns (q: Pool)
    requires Separate(jobs) && PoolSafe(sha, jobs, start, r) && n < |jobs| && |r.workers| > 0 && r.workers[0] == Busy(n)
    requires r.copying.phases[n] == Ready && ino !in r.copying.fs.contents
    requires sha(data) == jobs[n].expected && NodeAt(r.copying.fs, jobs[n].dest) != Some(Other)
    ensures q == PoolNext(sha, jobs, PoolNext(sha, jobs, PoolNext(sha, jobs, PoolNext(sha, jobs, r,
                   Work(Clear(n, true))), Work(Open(n, ino))), Work(Write(n, data))), Work(Publish(n)))
    ensures PoolSafe(sha, jobs, start, q) && q == r.(copying := q.copying) && q.copying.phases == r.copying.phases[n := Copied]
  {
    var t := OneCopied(sha, jobs, start, r.copying, n, ino, data);
    q := r.(copying := t);
    hide PoolNext, CopyJobs.Next, PoolSafe, Separate;
    var a := CopyJobs.Next(sha, jobs, r.copying, Clear(n, true));
    var b := CopyJobs.Next(sha, jobs, a, Open(n, ino));
    var c := CopyJobs.Next(sha, jobs, b, Write(n, data));
    OneWorks(sha, jobs, start, r, n, Clear(n, true));
    OneWorks(sha, jobs, start, r.(copying := a), n, Open(n, ino));
    OneWorks(sha, jobs, start, r.(copying := b), n, Write(n, data));
    OneWorks(sha, jobs, start, r.(copying := c), n, Publish(n));
  }

  lemma OneReturned(sha: Content -> string, jobs: seq<Job>, start: Fs, p: Pool, q: Pool, n: nat)
    requires Separate(jobs) && Done(sha, jobs, start, p, n) && n < |jobs| && |p.workers| > 0
    requires PoolSafe(sha, jobs, start, q) && q == p.(sent := n + 1, workers := p.workers[0 := Busy(n)], copying := q.copying)
    requires q.copying.phases == p.copying.phases[n := Copied]
    ensures Done(sha, jobs, start, PoolNext(sha, jobs, q, Return(0)), n + 1) && |PoolNext(sha, jobs, q, Return(0)).workers| == |p.workers|
  {
    var z := PoolNext(sha, jobs, q, Return(0));
    assert z == q.(workers := q.workers[0 := Idle]);
    StepSafe(sha, jobs, start, q, Return(0));
    hide PoolNext, PoolSafe, Separate;
  }

  lemma CopyNext(sha: Content -> string, jobs: seq<Job>, start: Fs, p: Pool, n: nat, data: Content) returns (steps: seq<PoolStep>)
    requires Separate(jobs) && Done(sha, jobs, start, p, n) && n < |jobs| && |p.workers| > 0
    requires sha(data) == jobs[n].expected && NodeAt(start, jobs[n].dest) != Some(Other)
    ensures Done(sha, jobs, start, PoolRun(sha, jobs, p, steps), n + 1) && |PoolRun(sha, jobs, p, steps).workers| == |p.workers|
  {
    var ino := FreshIno(p.copying.fs.contents.Keys);
    var r := OneReceived(sha, jobs, start, p, n);
    assert Settled(sha, start, p.copying.fs, jobs[n], p.copying.phases[n]);
    assert p.copying.phases[n] == Ready && NodeAt(p.copying.fs, jobs[n].dest) != Some(Other);
    hide PoolNext, CopyJobs.Next, PoolSafe, PoolRun, Separate, Done;
    var q := OneDone(sha, jobs, start, r, n, ino, data);
    OneReturned(sha, jobs, start, p, q, n);
    steps := CopyOne(n, ino, data);
    RunSeven(sha, jobs, p, r, Work(Clear(n, true)), Work(Open(n, ino)), Work(Write(n, data)), Work(Publish(n)), Return(0));
  }

  lemma RunSeven(sha: Content -> string, jobs: seq<Job>, p: Pool, r: Pool, a: PoolStep, b: PoolStep, c: PoolStep, d: PoolStep, e: PoolStep)
    requires PoolRun(sha, jobs, p, [Send(0), Take(0)]) == r
    ensures PoolRun(sha, jobs, p, [Send(0), Take(0), a, b, c, d, e])
         == PoolNext(sha, jobs, PoolNext(sha, jobs, PoolNext(sha, jobs, PoolNext(sha, jobs, PoolNext(sha, jobs, r, a), b), c), d), e)
  {
    hide PoolRun, PoolNext;
    var two := [Send(0), Take(0)];
    RunMore(sha, jobs, p, two, a);
    RunMore(sha, jobs, p, two + [a], b);
    RunMore(sha, jobs, p, two + [a] + [b], c);
    RunMore(sha, jobs, p, two + [a] + [b] + [c], d);
    RunMore(sha, jobs, p, two + [a] + [b] + [c] + [d], e);
    assert two + [a] + [b] + [c] + [d] + [e] == [Send(0), Take(0), a, b, c, d, e];
  }

  lemma {:induction false} CopyFirst(sha: Content -> string, jobs: seq<Job>, start: Fs, contents: seq<Content>, workers: nat, n: nat)
    returns (steps: seq<PoolStep>)
    requires Separate(jobs) && Sane(start) && Copyable(sha, jobs, start, contents) && workers > 0 && n <= |jobs|
    ensures Done(sha, jobs, start, PoolRun(sha, jobs, Begun(start, jobs, workers), steps), n)
    ensures |PoolRun(sha, jobs, Begun(start, jobs, workers), steps).workers| == workers
  {
    var p := Begun(start, jobs, workers);
    if n == 0 {
      BegunSafe(sha, jobs, start, workers);
      steps := [];
    } else {
      var init := CopyFirst(sha, jobs, start, contents, workers, n - 1);
      var more := CopyNext(sha, jobs, start, PoolRun(sha, jobs, p, init), n - 1, contents[n - 1]);
      hide Done, PoolRun, Begun;
      RunConcat(sha, jobs, p, init, more);
      steps := init + more;
    }
  }

  // With any number of workers some schedule ends with every job copied.
  lemma CanSucceed(sha: Content -> string, jobs: seq<Job>, start: Fs, contents: seq<Content>, workers: nat) returns (steps: seq<PoolStep>)
    requires Separate(jobs) && Sane(start) && Copyable(sha, jobs, start, contents) && workers > 0
    ensures var p := PoolRun(sha, jobs, Begun(start, jobs, workers), steps);
            Finished(jobs, p) && Succeeded(p) && |p.copying.phases| == |jobs| && forall j :: 0 <= j < |jobs| ==> p.copying.phases[j].Copied?
  {
    steps := CopyFirst(sha, jobs, start, contents, workers, |jobs|);
    var p := PoolRun(sha, jobs, Begun(start, jobs, workers), steps);
    assert forall w :: w in p.workers ==> w.Idle?;
    SuccessMeansCopied(sha, jobs, start, p);
  }
}
