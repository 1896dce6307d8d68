// The worker pool of `runCopyJobs` (sync.go): a send loop, workers that skip
// jobs once the context is done, and the first error, which cancels it.
module CopyPool {
  import opened FileTree
  import opened CopyJobs

  datatype Worker = Idle | Received(job: nat) | Busy(job: nat)

  // `cancelled` is the workers' context, done with the caller's or by an error.
  datatype Pool = Pool(
    copying: Copying, sent: nat, stopped: bool, outer: bool, cancelled: bool, firstError: bool, workers: seq<Worker>)

  datatype PoolStep =
    | CancelOuter               // the caller's context is done
    | Send(worker: nat)         // the send loop hands over the next job
    | StopSending               // the send loop sees the context done
    | Take(worker: nat)         // a worker starts its job, or skips it
    | Work(call: Step)          // one system call of a busy worker
    | Return(worker: nat)       // `copyFile` returns to the worker

  const MAX_WORKERS: nat := 8

  function Begun(fs: Fs, jobs: seq<Job>, workers: nat): Pool {
    Pool(Copying(fs, seq(|jobs|, _ => Ready)), 0, false, false, false, false, seq(workers, _ => Idle))
  }

  predicate BusyWith(p: Pool, j: nat) {
    exists w :: 0 <= w < |p.workers| && p.workers[w] == Busy(j)
  }

  function SetWorker(p: Pool, w: nat, state: Worker): Pool
    requires w < |p.workers|
  {
    p.(workers := p.workers[w := state])
  }

  function PoolNext(sha: Content -> string, jobs: seq<Job>, p: Pool, step: PoolStep): Pool {
    match step
    case CancelOuter => p.(outer := true, cancelled := true)
    case Send(w) =>
      if w < |p.workers| && p.workers[w].Idle? && p.sent < |jobs| && !p.stopped
      then SetWorker(p, w, Received(p.sent)).(sent := p.sent + 1) else p
    case StopSending => if p.cancelled && p.sent < |jobs| then p.(stopped := true) else p
    case Take(w) =>
      if w < |p.workers| && p.workers[w].Received?
      then SetWorker(p, w, if p.cancelled then Idle else Busy(p.workers[w].job)) else p
    case Work(call) => if BusyWith(p, call.job) then p.(copying := CopyJobs.Next(sha, jobs, p.copying, call)) else p
    case Return(w) =>
      if w >= |p.workers| || !p.workers[w].Busy? || p.workers[w].job >= |p.copying.phases| then p else
      match p.copying.phases[p.workers[w].job]
      case Copied => SetWorker(p, w, Idle)
      case GivenUp => SetWorker(p, w, Idle).(firstError := true, cancelled := true)
      case _ => p
  }

  function PoolRun(sha: Content -> string, jobs: seq<Job>, p: Pool, steps: seq<PoolStep>): Pool {
    if steps == [] then p else PoolNext(sha, jobs, PoolRun(sha, jobs, p, steps[..|steps|-1]), steps[|steps|-1])
  }

  // `close(jobChannel)` and `waitGroup.Wait()` are through.
  predicate Finished(jobs: seq<Job>, p: Pool) {
    (p.sent >= |jobs| || p.stopped) && forall w :: w in p.workers ==> w.Idle?
  }

  // What the call returns then: nil without a first error and with the
  // caller's context not done.
  predicate Succeeded(p: Pool) {
    !p.firstError && !p.outer
  }

  // ---- the invariant ------------------------------------------------------------------

  // A job handed over is copied, with a worker, or lost to the cancellation.
  ghost predicate Accounted(p: Pool, j: nat) {
    || p.cancelled || (j < |p.copying.phases| && p.copying.phases[j].Copied?)
    || exists w :: 0 <= w < |p.workers| && !p.workers[w].Idle? && p.workers[w].job == j
  }

  ghost predicate PoolSafe(sha: Content -> string, jobs: seq<Job>, start: Fs, p: Pool) {
    && CopyJobs.Safe(sha, jobs, start, p.copying) && p.sent <= |jobs|
    && (p.stopped ==> p.cancelled) && (p.cancelled ==> p.outer || p.firstError)
    && (p.outer ==> p.cancelled) && ErrorsReported(p)
    && forall j: nat :: j < p.sent ==> Accounted(p, j)
  }

  // The first error is that of a job given up, and a job given up is reported
  // or still with its worker.
  ghost predicate ErrorsReported(p: Pool) {
    && (p.firstError ==> exists j :: 0 <= j < |p.copying.phases| && p.copying.phases[j].GivenUp?)
    && (forall j :: 0 <= j < |p.copying.phases| && p.copying.phases[j].GivenUp? ==> p.firstError || BusyWith(p, j))
  }

  lemma WorkReports(sha: Content -> string, jobs: seq<Job>, p: Pool, call: Step)
    requires ErrorsReported(p) && BusyWith(p, call.job)
    ensures ErrorsReported(p.(copying := CopyJobs.Next(sha, jobs, p.copying, call)))
  {
    var q := p.(copying := CopyJobs.Next(sha, jobs, p.copying, call));
    assert |q.copying.phases| == |p.copying.phases|;
    assert forall j :: 0 <= j < |p.copying.phases| && p.copying.phases[j].GivenUp? ==> q.copying.phases[j].GivenUp?;
    assert forall j :: 0 <= j < |q.copying.phases| && j != call.job ==> q.copying.phases[j] == p.copying.phases[j];
    hide CopyJobs.Next;
    forall j | 0 <= j < |q.copying.phases| && q.copying.phases[j].GivenUp? ensures q.firstError || BusyWith(q, j) {
      assert BusyWith(p, j) ==> BusyWith(q, j);
    }
  }

  lemma StaysBusy(p: Pool, w: nat, state: Worker, j: nat)
    requires w < |p.workers| && BusyWith(p, j) && p.workers[w] != Busy(j)
    ensures BusyWith(SetWorker(p, w, state), j)
  {
    var v :| 0 <= v < |p.workers| && p.workers[v] == Busy(j);
    assert SetWorker(p, w, state).workers[v] == Busy(j);
  }

  lemma StepReports(sha: Content -> string, jobs: seq<Job>, p: Pool, step: PoolStep)
    requires ErrorsReported(p)
    ensures ErrorsReported(PoolNext(sha, jobs, p, step))
  {
    var q := PoolNext(sha, jobs, p, step);
    if step.Work? {
      if q != p { WorkReports(sha, jobs, p, step.call); }
    } else {
      assert q.copying == p.copying;
      forall j | 0 <= j < |q.copying.phases| && q.copying.phases[j].GivenUp? ensures q.firstError || BusyWith(q, j) {
        if !q.firstError && (step.Send? || step.Take? || step.Return?) && q != p {
          StaysBusy(p, step.worker, q.workers[step.worker], j);
        }
      }
    }
  }

  lemma SetAccounted(p: Pool, w: nat, state: Worker, j: nat)
    requires w < |p.workers| && Accounted(p, j)
    requires p.workers[w].Idle? || p.workers[w].job != j || p.cancelled || (!state.Idle? && state.job == j)
             || (j < |p.copying.phases| && p.copying.phases[j].Copied?)
    ensures Accounted(SetWorker(p, w, state), j)
  {
    var q := SetWorker(p, w, state);
    if !p.cancelled && !(j < |p.copying.phases| && p.copying.phases[j].Copied?) {
      var v :| 0 <= v < |p.workers| && !p.workers[v].Idle? && p.workers[v].job == j;
      assert q.workers[v] == if v == w then state else p.workers[v];
    }
  }

  lemma WorkAccounted(sha: Content -> string, jobs: seq<Job>, p: Pool, call: Step, j: nat)
    requires Accounted(p, j)
    ensures Accounted(p.(copying := CopyJobs.Next(sha, jobs, p.copying, call)), j)
  {
    var q := p.(copying := CopyJobs.Next(sha, jobs, p.copying, call));
    assert j < |p.copying.phases| && p.copying.phases[j].Copied? ==> j < |q.copying.phases| && q.copying.phases[j].Copied?;
    hide CopyJobs.Next;
    if !p.cancelled && !(j < |p.copying.phases| && p.copying.phases[j].Copied?) {
      var v :| 0 <= v < |p.workers| && !p.workers[v].Idle? && p.workers[v].job == j;
      assert q.workers[v] == p.workers[v];
    }
  }

  lemma StepAccounted(sha: Content -> string, jobs: seq<Job>, p: Pool, step: PoolStep, j: nat)
    requires j < PoolNext(sha, jobs, p, step).sent && (j < p.sent ==> Accounted(p, j))
    ensures Accounted(PoolNext(sha, jobs, p, step), j)
  {
    var q := PoolNext(sha, jobs, p, step);
    match step
    case Send(w) =>
      if q != p {
        if j < p.sent {
          SetAccounted(p, w, Received(p.sent), j);
          assert Accounted(SetWorker(p, w, Received(p.sent)), j);
        } else {
          assert q.workers[w] == Received(j);
        }
      }
    case Take(w) =>
      if q != p { SetAccounted(p, w, q.workers[w], j); }
    case Work(call) => WorkAccounted(sha, jobs, p, call, j);
    case Return(w) =>
      if q != p && !q.cancelled { SetAccounted(p, w, Idle, j); }
    case _ =>
  }

  lemma StepSafe(sha: Content -> string, jobs: seq<Job>, start: Fs, p: Pool, step: PoolStep)
    requires Separate(jobs) && PoolSafe(sha, jobs, start, p)
    ensures PoolSafe(sha, jobs, start, PoolNext(sha, jobs, p, step))
  {
    var q := PoolNext(sha, jobs, p, step);
    hide CopyJobs.Safe, Separate, Accounted;
    forall j: nat | j < q.sent ensures Accounted(q, j) {
      StepAccounted(sha, jobs, p, step, j);
    }
    if step.Work? { CallSafe(sha, jobs, start, p.copying, step.call); }
    StepReports(sha, jobs, p, step);
    hide ErrorsReported;
    hide CopyJobs.Next;
  }

  lemma {:induction false} EveryScheduleIsSafe(sha: Content -> string, jobs: seq<Job>, start: Fs, p: Pool, steps: seq<PoolStep>)
    requires Separate(jobs) && PoolSafe(sha, jobs, start, p)
    ensures PoolSafe(sha, jobs, start, PoolRun(sha, jobs, p, steps))
  {
    if steps != [] {
      EveryScheduleIsSafe(sha, jobs, start, p, steps[..|steps|-1]);
      hide PoolSafe, PoolNext;
      StepSafe(sha, jobs, start, PoolRun(sha, jobs, p, steps[..|steps|-1]), steps[|steps|-1]);
    }
  }

  lemma BegunSafe(sha: Content -> string, jobs: seq<Job>, fs: Fs, workers: nat)
    requires Sane(fs)
    ensures PoolSafe(sha, jobs, fs, Begun(fs, jobs, workers))
  {
  }

  // A nil result means every job was copied.
  lemma SuccessMeansCopied(sha: Content -> string, jobs: seq<Job>, start: Fs, p: Pool)
    requires PoolSafe(sha, jobs, start, p) && Finished(jobs, p) && Succeeded(p)
    ensures forall j :: 0 <= j < |jobs| ==> p.copying.phases[j].Copied?
  {
    forall j | 0 <= j < |jobs| ensures p.copying.phases[j].Copied? {
      assert Accounted(p, j);
      assert forall w :: 0 <= w < |p.workers| ==> p.workers[w] in p.workers;
    }
  }

  // A pool that has come to its end succeeds exactly when the caller's context
  // is not done and no job was given up.
  lemma OutcomeHasCause(sha: Content -> string, jobs: seq<Job>, start: Fs, p: Pool)
    requires PoolSafe(sha, jobs, start, p) && Finished(jobs, p)
    ensures Succeeded(p) <==> !p.outer && forall j :: 0 <= j < |jobs| ==> !p.copying.phases[j].GivenUp?
  {
    assert forall w :: 0 <= w < |p.workers| ==> p.workers[w] in p.workers;
  }

  // Over every schedule: the pool keeps older inodes and unrelated names, and
  // returns nil only with every destination holding the expected content.
  lemma PoolIsExact(sha: Content -> string, jobs: seq<Job>, start: Fs, workers: nat, steps: seq<PoolStep>)
    requires Separate(jobs) && Sane(start)
    ensures var p := PoolRun(sha, jobs, Begun(start, jobs, workers), steps);
            && PoolSafe(sha, jobs, start, p)
            && Preserves(start, p.copying.fs) && (forall n :: !Touches(jobs, n) ==> NodeAt(p.copying.fs, n) == NodeAt(start, n))
            && (Finished(jobs, p) && Succeeded(p) ==> forall j :: 0 <= j < |jobs| ==>
                  && ContentAt(p.copying.fs, jobs[j].dest).Some? && sha(ContentAt(p.copying.fs, jobs[j].dest).value) == jobs[j].expected
                  && jobs[j].part !in p.copying.fs.names)
  {
    BegunSafe(sha, jobs, start, workers);
    EveryScheduleIsSafe(sha, jobs, start, Begun(start, jobs, workers), steps);
    var p := PoolRun(sha, jobs, Begun(start, jobs, workers), steps);
    hide PoolRun, Begun;
    if Finished(jobs, p) && Succeeded(p) {
      SuccessMeansCopied(sha, jobs, start, p);
      forall j | 0 <= j < |jobs|
        ensures ContentAt(p.copying.fs, jobs[j].dest).Some? && sha(ContentAt(p.copying.fs, jobs[j].dest).value) == jobs[j].expected
        ensures jobs[j].part !in p.copying.fs.names
      {
        assert Settled(sha, start, p.copying.fs, jobs[j], p.copying.phases[j]);
      }
    }
  }

  // The pool can always return: a cancelled context ends it.
  lemma CanFinish(sha: Content -> string, jobs: seq<Job>, fs: Fs, workers: nat)
    ensures Finished(jobs, PoolRun(sha, jobs, Begun(fs, jobs, workers), [CancelOuter, StopSending]))
  {
    var p := Begun(fs, jobs, workers);
    assert [CancelOuter, StopSending][..1] == [CancelOuter] && [CancelOuter][..0] == [];
    assert PoolRun(sha, jobs, p, []) == p;
    assert PoolRun(sha, jobs, p, [CancelOuter]) == PoolNext(sha, jobs, p, CancelOuter);
  }
}
