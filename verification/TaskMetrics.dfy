// Download metrics: elapsed time and average speed across pauses, in real
// arithmetic.
module TaskMetrics {
  import opened TaskTypes

  type Timing = Option<(real, real)>
  type Baseline = Option<(nat, real)>

  // What is stored of one task, and its entries in the timing dictionaries.
  datatype Meter = Meter(
    bytes: nat, elapsed: real, average: real, percent: int,
    timing: Timing, baseline: Baseline, written: Option<real>)

  datatype Event =
    | Begin(now: real)
    | Report(now: real, downloaded: nat, total: Option<nat>)
    | Capture                                               // `pause` or `cancel` reads the dictionaries
    | Stop(now: real, timing: Timing, baseline: Baseline)   // `_stop_metrics`, with what such a call captured
    | Leave                                                 // the `finally` of the run

  function Max(a: real, b: real): real { if a < b then b else a }

  function Gain(start: nat, last: nat): real {
    if last > start then (last - start) as real else 0.0
  }

  // `min(89, 2 + int(downloaded / total * 87))`
  function Percent(downloaded: nat, total: Option<nat>): int {
    if total.None? || total.value == 0 then 20 else
    var p := 2 + (downloaded as real / total.value as real * 87.0).Floor;
    if p < 89 then p else 89
  }

  predicate Throttled(m: Meter, now: real, downloaded: nat, total: Option<nat>) {
    now - (if m.written.Some? then m.written.value else 0.0) < 0.5 && (total.None? || downloaded < total.value)
  }

  function ElapsedAt(timing: Timing, now: real): real {
    if timing.Some? then timing.value.1 + (now - timing.value.0) else 0.0
  }

  function Measured(timing: Timing, baseline: Baseline, bytes: nat): real {
    if timing.Some? && baseline.Some? then baseline.value.1 * timing.value.1 + Gain(baseline.value.0, bytes) else bytes as real
  }

  function Speed(measured: real, elapsed: real): real {
    if elapsed > 0.0 then measured / elapsed else 0.0
  }

  // `timing or self._download_timing.pop(task_id, None)`
  function Given<T>(given: Option<T>, held: Option<T>): Option<T> {
    if given.Some? then given else held
  }

  function AfterStop(m: Meter, now: real, timing: Timing, baseline: Baseline): Meter {
    var elapsed := if timing.Some? then Max(m.elapsed, ElapsedAt(timing, now)) else m.elapsed;
    m.(elapsed := elapsed,
       average := if timing.Some? && baseline.Some? then Speed(Measured(timing, baseline, m.bytes), elapsed) else m.average)
  }

  function Apply(m: Meter, e: Event): Meter {
    match e
    case Begin(now) => m.(written := None, timing := Some((now, m.elapsed)), baseline := Some((m.bytes, m.average)))
    case Report(now, downloaded, total) =>
      if Throttled(m, now, downloaded, total) then m else
      m.(written := Some(now), bytes := downloaded, percent := Percent(downloaded, total), elapsed := ElapsedAt(m.timing, now),
         average := Speed(Measured(m.timing, m.baseline, downloaded), ElapsedAt(m.timing, now)))
    case Capture => m
    case Stop(now, timing, baseline) =>
      AfterStop(m, now, Given(timing, m.timing), Given(baseline, m.baseline))
      .(timing := if timing.Some? then m.timing else None, baseline := None)
    case Leave => m.(timing := None, baseline := None)
  }

  function Play(m: Meter, events: seq<Event>): Meter {
    if events == [] then m else Apply(Play(m, events[..|events|-1]), events[|events|-1])
  }

  // ---- the reference: what happened, session by session ---------------------------

  // What a pending `pause` or `cancel` has captured.
  function Held(m: Meter, events: seq<Event>): Option<(Timing, Baseline)> {
    if events == [] then None else
    match events[|events|-1]
    case Capture => Some((Play(m, events[..|events|-1]).timing, Play(m, events[..|events|-1]).baseline))
    case Stop(_, _, _) => None
    case _ => Held(m, events[..|events|-1])
  }

  // Recorded times and byte counts of one download session. It stays open
  // until its metrics are stopped, or its run leaves with nobody to stop them.
  datatype Session = Session(from: real, to: real, start: nat, last: nat, open: bool)

  function Sessions(m: Meter, events: seq<Event>): seq<Session> {
    if events == [] then [] else
    var past, before := Sessions(m, events[..|events|-1]), Play(m, events[..|events|-1]);
    match events[|events|-1]
    case Begin(now) => past + [Session(now, now, before.bytes, before.bytes, true)]
    case Report(now, downloaded, total) =>
      if past == [] || Throttled(before, now, downloaded, total) then past
      else Ended(past, past[|past|-1].(to := now, last := downloaded))
    case Capture => past
    case Stop(now, _, _) => if !InSession(past) then past else Ended(past, past[|past|-1].(to := now, open := false))
    case Leave => if !InSession(past) || Held(m, events[..|events|-1]).Some? then past else Ended(past, past[|past|-1].(open := false))
  }

  function Ended(past: seq<Session>, last: Session): seq<Session>
    requires past != []
  {
    past[..|past|-1] + [last]
  }

  predicate InSession(past: seq<Session>) {
    past != [] && past[|past|-1].open
  }

  predicate LaterThan(past: seq<Session>, now: real) {
    past != [] && now > past[|past|-1].from && now >= past[|past|-1].to
  }

  // Sessions do not overlap, the clock advances within each, and a stop is
  // either the run's own or that of the pending call, after the run has left.
  predicate Orderly(m: Meter, events: seq<Event>) {
    events == [] ||
    (&& Orderly(m, events[..|events|-1])
     && var past, held := Sessions(m, events[..|events|-1]), Held(m, events[..|events|-1]);
        match events[|events|-1]
        case Begin(_) => !InSession(past) && held.None?
        case Report(now, _, _) => InSession(past) && held.None? && LaterThan(past, now)
        case Capture => held.None?
        case Stop(now, timing, baseline) =>
          && (timing, baseline) == (if held.Some? then held.value else (None, None))
          && (held.Some? ==> Play(m, events[..|events|-1]).timing == None && Play(m, events[..|events|-1]).baseline == None)
          && (InSession(past) ==> LaterThan(past, now))
        case Leave => true)
  }

  function Time(past: seq<Session>): real {
    if past == [] then 0.0 else Time(past[..|past|-1]) + (past[|past|-1].to - past[|past|-1].from)
  }

  function Bytes(past: seq<Session>): real {
    if past == [] then 0.0 else Bytes(past[..|past|-1]) + Gain(past[|past|-1].start, past[|past|-1].last)
  }

  // ---- conservation ------------------------------------------------------------------

  // The record before the current session began.
  ghost predicate Accounts(m: Meter, past: seq<Session>, now: Meter) {
    && now.elapsed == m.elapsed + Time(past) && now.elapsed >= 0.0
    && now.average * now.elapsed == m.average * m.elapsed + Bytes(past)
  }

  // The entries made at the start of the session hold the record as it was.
  ghost predicate Running(m: Meter, past: seq<Session>, now: Meter, timing: Timing, baseline: Baseline)
    requires past != []
  {
    var init, last := past[..|past|-1], past[|past|-1];
    && timing.Some? && baseline.Some?
    && timing.value.0 == last.from && baseline.value.0 == last.start
    && timing.value.1 == m.elapsed + Time(init) && timing.value.1 >= 0.0
    && baseline.value.1 * timing.value.1 == m.average * m.elapsed + Bytes(init)
    && now.bytes == last.last && last.from <= last.to
  }

  ghost predicate InHand(m: Meter, past: seq<Session>, now: Meter, held: Option<(Timing, Baseline)>) {
    if !InSession(past) then now.timing == None && now.baseline == None && (held.Some? ==> held.value == (None, None))
    else if held.None? then Running(m, past, now, now.timing, now.baseline)
    else Running(m, past, now, held.value.0, held.value.1)
  }

  ghost predicate Balanced(m: Meter, past: seq<Session>, now: Meter, held: Option<(Timing, Baseline)>) {
    Accounts(m, past, now) && InHand(m, past, now, held)
  }

  lemma SpeedTimesElapsed(measured: real, elapsed: real)
    requires elapsed > 0.0
    ensures Speed(measured, elapsed) * elapsed == measured
  {
  }

  lemma EndedSums(past: seq<Session>, last: Session)
    requires past != []
    ensures Ended(past, last)[..|past|-1] == past[..|past|-1]
    ensures Time(Ended(past, last)) == Time(past[..|past|-1]) + (last.to - last.from)
    ensures Bytes(Ended(past, last)) == Bytes(past[..|past|-1]) + Gain(last.start, last.last)
  {
  }

  lemma BeginBalanced(m: Meter, past: seq<Session>, now: Meter, at: real)
    requires Balanced(m, past, now, None) && !InSession(past)
    ensures Balanced(m, past + [Session(at, at, now.bytes, now.bytes, true)], Apply(now, Begin(at)), None)
  {
    var next := past + [Session(at, at, now.bytes, now.bytes, true)];
    assert next[..|next|-1] == past;
  }

  lemma ReportBalanced(m: Meter, past: seq<Session>, now: Meter, e: Event)
    requires Balanced(m, past, now, None) && InSession(past) && e.Report? && !Throttled(now, e.now, e.downloaded, e.total)
    requires LaterThan(past, e.now)
    ensures Balanced(m, Ended(past, past[|past|-1].(to := e.now, last := e.downloaded)), Apply(now, e), None)
    ensures Apply(now, e).elapsed >= now.elapsed
  {
    EndedSums(past, past[|past|-1].(to := e.now, last := e.downloaded));
    EndedSums(past, past[|past|-1]);
    assert ElapsedAt(now.timing, e.now) >= now.elapsed && ElapsedAt(now.timing, e.now) > 0.0;
    SpeedTimesElapsed(Measured(now.timing, now.baseline, e.downloaded), ElapsedAt(now.timing, e.now));
    hide Speed, Percent;
  }

  // By the run itself, or by the call that captured the entries.
  lemma StopBalanced(m: Meter, past: seq<Session>, now: Meter, held: Option<(Timing, Baseline)>, e: Event)
    requires Balanced(m, past, now, held) && InSession(past) && e.Stop? && LaterThan(past, e.now)
    requires (e.timing, e.baseline) == (if held.Some? then held.value else (None, None))
    requires held.Some? ==> now.timing == None
    ensures Balanced(m, Ended(past, past[|past|-1].(to := e.now, open := false)), Apply(now, e), None)
    ensures Apply(now, e).elapsed >= now.elapsed
  {
    EndedSums(past, past[|past|-1].(to := e.now, open := false));
    EndedSums(past, past[|past|-1]);
    var timing, baseline := Given(e.timing, now.timing), Given(e.baseline, now.baseline);
    assert Running(m, past, now, timing, baseline);
    assert ElapsedAt(timing, e.now) >= now.elapsed && ElapsedAt(timing, e.now) > 0.0;
    SpeedTimesElapsed(Measured(timing, baseline, now.bytes), ElapsedAt(timing, e.now));
    hide Speed;
  }

  lemma StopOutside(m: Meter, past: seq<Session>, now: Meter, held: Option<(Timing, Baseline)>, e: Event)
    requires Balanced(m, past, now, held) && !InSession(past) && e.Stop?
    requires (e.timing, e.baseline) == (if held.Some? then held.value else (None, None))
    ensures Balanced(m, past, Apply(now, e), None) && Apply(now, e).elapsed == now.elapsed
  {
  }

  lemma LeaveBalanced(m: Meter, past: seq<Session>, now: Meter, held: Option<(Timing, Baseline)>)
    requires Balanced(m, past, now, held)
    ensures var rest := if !InSession(past) || held.Some? then past else Ended(past, past[|past|-1].(open := false));
            Balanced(m, rest, Apply(now, Leave), held)
  {
    var t, rest := Apply(now, Leave), if !InSession(past) || held.Some? then past else Ended(past, past[|past|-1].(open := false));
    if InSession(past) {
      EndedSums(past, past[|past|-1].(open := false));
      EndedSums(past, past[|past|-1]);
      assert Ended(past, past[|past|-1]) == past;
      if held.Some? { SameRunning(m, past, now, t, held.value.0, held.value.1); }
    }
    hide Accounts, Running, Time, Bytes;
    SameAccounts(m, past, rest, now, t);
  }

  lemma SameAccounts(m: Meter, past: seq<Session>, rest: seq<Session>, now: Meter, t: Meter)
    requires Accounts(m, past, now) && t.elapsed == now.elapsed && t.average == now.average && Time(rest) == Time(past) && Bytes(rest) == Bytes(past)
    ensures Accounts(m, rest, t)
  {
  }

  lemma SameRunning(m: Meter, past: seq<Session>, now: Meter, t: Meter, timing: Timing, baseline: Baseline)
    requires past != [] && Running(m, past, now, timing, baseline) && t.bytes == now.bytes
    ensures Running(m, past, t, timing, baseline)
  {
  }

  lemma ThrottledKeeps(now: Meter, e: Event)
    requires e.Report? && Throttled(now, e.now, e.downloaded, e.total)
    ensures Apply(now, e) == now
  {
  }

  // Stored time counts exactly the sessions, and speed times time exactly the
  // bytes they gained, whatever pauses, failures and restarts lie between.
  lemma {:induction false} Conserved(m: Meter, events: seq<Event>)
    requires m.timing == None && m.baseline == None && m.elapsed >= 0.0 && Orderly(m, events)
    ensures Balanced(m, Sessions(m, events), Play(m, events), Held(m, events))
  {
    if events != [] {
      var init, e := events[..|events|-1], events[|events|-1];
      var past, now, held := Sessions(m, init), Play(m, init), Held(m, init);
      Conserved(m, init);
      hide Balanced, Apply, Throttled, Ended;
      match e
      case Begin(at) => BeginBalanced(m, past, now, at);
      case Report(at, downloaded, total) =>
        if Throttled(now, at, downloaded, total) { ThrottledKeeps(now, e); } else { ReportBalanced(m, past, now, e); }
      case Capture => CaptureBalanced(m, past, now);
      case Stop(at, _, _) =>
        if InSession(past) { StopBalanced(m, past, now, held, e); } else { StopOutside(m, past, now, held, e); }
      case Leave => LeaveBalanced(m, past, now, held);
    }
  }

  lemma CaptureBalanced(m: Meter, past: seq<Session>, now: Meter)
    requires Balanced(m, past, now, None)
    ensures Balanced(m, past, Apply(now, Capture), Some((now.timing, now.baseline)))
  {
  }

  // Stored time never goes back, and moves only while a session is open.
  lemma ElapsedGrows(m: Meter, events: seq<Event>)
    requires m.timing == None && m.baseline == None && m.elapsed >= 0.0 && events != [] && Orderly(m, events)
    ensures var before, after := Play(m, events[..|events|-1]), Play(m, events);
            && after.elapsed >= before.elapsed
            && (after.elapsed != before.elapsed ==>
                  (events[|events|-1].Report? || events[|events|-1].Stop?) && InSession(Sessions(m, events[..|events|-1])))
  {
    var init, e := events[..|events|-1], events[|events|-1];
    var past, now, held := Sessions(m, init), Play(m, init), Held(m, init);
    Conserved(m, init);
    match e
    case Report(at, downloaded, total) =>
      if !Throttled(now, at, downloaded, total) { ReportBalanced(m, past, now, e); }
    case Stop(at, _, _) =>
      if InSession(past) { StopBalanced(m, past, now, held, e); } else { StopOutside(m, past, now, held, e); }
    case _ =>
  }

  // Without an advancing clock the bytes of a first session are forgotten: a
  // stop keeps them exactly when time has passed or nothing was gained.
  lemma StopKeepsBytes(now: Meter, e: Event)
    requires e.Stop? && now.elapsed >= 0.0
    requires Given(e.timing, now.timing).Some? && Given(e.baseline, now.baseline).Some?
    ensures var t, measured := Apply(now, e), Measured(Given(e.timing, now.timing), Given(e.baseline, now.baseline), now.bytes);
            t.average * t.elapsed == measured <==> t.elapsed > 0.0 || measured == 0.0
  {
    var t, measured := Apply(now, e), Measured(Given(e.timing, now.timing), Given(e.baseline, now.baseline), now.bytes);
    if t.elapsed > 0.0 { SpeedTimesElapsed(measured, t.elapsed); }
  }

  // A pause that captures the entries, lets the run leave and stops the metrics
  // records what the run's own stop would have.
  lemma PausedLikeStopped(m: Meter, now: real)
    requires m.timing.Some? && m.baseline.Some?
    ensures Apply(Apply(Apply(m, Capture), Leave), Stop(now, m.timing, m.baseline)) == Apply(m, Stop(now, None, None))
  {
  }

  lemma PercentInRange(downloaded: nat, total: Option<nat>)
    requires total.Some? ==> downloaded <= total.value
    ensures 2 <= Percent(downloaded, total) <= 89
    ensures total.Some? && total.value > 0 ==> (Percent(downloaded, total) == 89 <==> downloaded == total.value)
  {
    if total.Some? && total.value > 0 {
      var d, t := downloaded as real, total.value as real;
      assert d / t <= 1.0;
      if downloaded == total.value { assert d / t == 1.0; } else { assert d / t < 1.0; }
    }
  }

  // 87 hundredths of the download from 2 on, rounded down; 20 when the size is
  // not known.
  lemma PercentExact(downloaded: nat, total: Option<nat>)
    ensures var p := Percent(downloaded, total);
            if total.None? || total.value == 0 then p == 20
            else if downloaded >= total.value then p == 89
            else (p - 2) * total.value <= 87 * downloaded < (p - 1) * total.value
  {
    if total.Some? && total.value > 0 {
      var d, t := downloaded as real, total.value as real;
      var k := (d / t * 87.0).Floor;
      FloorBetween(downloaded, total.value, k);
      if downloaded >= total.value {
        assert d / t >= 1.0;
      } else {
        assert d / t < 1.0;
        assert Percent(downloaded, total) == k + 2;
      }
    }
  }

  lemma FloorBetween(d: nat, t: nat, k: int)
    requires t > 0 && k == (d as real / t as real * 87.0).Floor
    ensures k * t <= 87 * d < (k + 1) * t
  {
    Ratio(d as real, t as real);
    Between(d as real, t as real, k as real, d as real / t as real * 87.0, (k + 1) as real);
    Product(k, t);
    Product(k + 1, t);
    AsIntegers(k * t, 87 * d, (k + 1) * t, (k + 1) as real * t as real);
  }

  lemma Between(d: real, t: real, k: real, q: real, u: real)
    requires t > 0.0 && k <= q < u && q * t == 87.0 * d
    ensures k * t <= 87.0 * d < u * t
  {
    Scaled(k, q, t);
    Scaled(q, u, t);
  }

  lemma Ratio(d: real, t: real)
    requires t > 0.0
    ensures d / t * 87.0 * t == 87.0 * d
  {
    assert d / t * t == d;
  }

  lemma Scaled(a: real, b: real, t: real)
    requires t > 0.0
    ensures (a <= b ==> a * t <= b * t) && (a < b ==> a * t < b * t)
  {
  }

  lemma AsIntegers(a: int, b: int, c: int, limit: real)
    requires a as real <= b as real < limit && c as real == limit
    ensures a <= b < c
  {
  }

  lemma {:induction false} Product(a: int, b: nat)
    ensures (a * b) as real == a as real * b as real
  {
    if b > 0 {
      Product(a, b - 1);
      assert a * b == a * (b - 1) + a;
    }
  }

  // A report is recorded when it is the last one or half a second after the one
  // before it, and otherwise forgotten.
  lemma ReportRecords(m: Meter, now: real, downloaded: nat, total: Option<nat>)
    ensures var t, before := Apply(m, Report(now, downloaded, total)), if m.written.Some? then m.written.value else 0.0;
            if (total.Some? && downloaded >= total.value) || now - before >= 0.5
            then && t.bytes == downloaded && t.percent == Percent(downloaded, total) && t.written == Some(now)
                 && t.timing == m.timing && t.baseline == m.baseline
                 && t.elapsed == (if m.timing.None? then 0.0 else m.timing.value.1 + now - m.timing.value.0)
            else t == m
  {
    hide Percent, Speed, Measured;
  }

  // A new session does not wait for the reports of the one before.
  lemma FirstReportRecords(m: Meter, start: real, now: real, downloaded: nat, total: Option<nat>)
    requires now >= 0.5
    ensures var t := Apply(Apply(m, Begin(start)), Report(now, downloaded, total));
            t.bytes == downloaded && t.elapsed == m.elapsed + now - start
  {
    ReportRecords(Apply(m, Begin(start)), now, downloaded, total);
  }

  // ---- the dictionaries of the manager ------------------------------------------------

  // The stored part of a task record.
  datatype Record = Record(bytes: nat, elapsed: real, average: real, percent: int)

  class DownloadMetrics {
    var records: map<TaskId, Record>
    var timing: map<TaskId, (real, real)>
    var baselines: map<TaskId, (nat, real)>
    var written: map<TaskId, real>

    function At<V>(m: map<TaskId, V>, id: TaskId): Option<V> {
      if id in m then Some(m[id]) else None
    }

    ghost function MeterOf(id: TaskId): Meter
      requires id in records
      reads this
    {
      var r := records[id];
      Meter(r.bytes, r.elapsed, r.average, r.percent, At(timing, id), At(baselines, id), At(written, id))
    }

    // Nobody else's record or dictionary entry has changed.
    twostate predicate OnlyFor(id: TaskId)
      reads this
    {
      && records.Keys == old(records).Keys
      && (forall i :: i in records && i != id ==> records[i] == old(records)[i])
      && (forall i :: i != id ==> At(timing, i) == At(old(timing), i) && At(baselines, i) == At(old(baselines), i))
      && (forall i :: i != id ==> At(written, i) == At(old(written), i))
    }

    method StartMetrics(id: TaskId, now: real)
      requires id in records
      modifies this
      ensures OnlyFor(id) && MeterOf(id) == Apply(old(MeterOf(id)), Begin(now))
    {
      written := written - {id};
      timing := timing[id := (now, records[id].elapsed)];
      baselines := baselines[id := (records[id].bytes, records[id].average)];
    }

    method Progress(id: TaskId, now: real, downloaded: nat, total: Option<nat>)
      requires id in records
      modifies this
      ensures OnlyFor(id) && MeterOf(id) == Apply(old(MeterOf(id)), Report(now, downloaded, total))
    {
      var previous := if id in written then written[id] else 0.0;
      if now - previous < 0.5 && (total.None? || downloaded < total.value) { return; }
      written := written[id := now];
      var elapsed := if id in timing then timing[id].1 + (now - timing[id].0) else 0.0;
      var measured := downloaded as real;
      if id in timing && id in baselines {
        measured := baselines[id].1 * timing[id].1 + Gain(baselines[id].0, downloaded);
      }
      records := records[id := Record(downloaded, elapsed, Speed(measured, elapsed), Percent(downloaded, total))];
    }

    // `pause` and `cancel` pass what they captured before the run left.
    method StopMetrics(id: TaskId, now: real, timing: Timing, baseline: Baseline)
      requires id in records
      modifies this
      ensures OnlyFor(id) && MeterOf(id) == Apply(old(MeterOf(id)), Stop(now, timing, baseline))
    {
      hide Speed, Max;
      var t, b := timing, baseline;
      if t.None? {
        t := At(this.timing, id);
        this.timing := this.timing - {id};
      }
      if b.None? { b := At(baselines, id); }
      baselines := baselines - {id};
      var r := records[id];
      if t.Some? {
        var elapsed, average := Max(r.elapsed, t.value.1 + (now - t.value.0)), r.average;
        if b.Some? {
          var measured := b.value.1 * t.value.1 + Gain(b.value.0, r.bytes);
          assert measured == Measured(t, b, r.bytes);
          average := Speed(measured, elapsed);
        }
        assert AfterStop(old(MeterOf(id)), now, t, b) == old(MeterOf(id)).(elapsed := elapsed, average := average);
        r := r.(elapsed := elapsed, average := average);
      }
      records := records[id := r];
    }

    // The `finally` of a run.
    method DropMetrics(id: TaskId)
      requires id in records
      modifies this
      ensures OnlyFor(id) && MeterOf(id) == Apply(old(MeterOf(id)), Leave)
    {
      timing, baselines := timing - {id}, baselines - {id};
    }
  }
}
