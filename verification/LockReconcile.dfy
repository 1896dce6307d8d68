// `reconcileAndSync` up to the lock save (cli.go): a lock file computed from
// the configuration, the catalog and the previous lock file.
module LockReconcile {
  import opened TaskTypes
  import opened Encoding
  import opened Identity
  import opened LockFiles
  import opened Sequences

  datatype Artifact = Artifact(
    artifactId: string, alias: string, provider: string, sourceId: string, requestedRevision: string, resolvedRevision: string,
    createdAt: int, relativePath: string, selectionDigest: string, selectedPaths: Option<seq<string>>)

  // ---- selecting an artifact --------------------------------------------------------------

  // `digest` is the selection digest of a list of files.
  predicate Fits(digest: Option<seq<string>> -> string, a: Artifact, d: Desired) {
    && a.provider == d.provider && a.sourceId == d.id
    && if d.artifact != "" then a.artifactId == d.artifact || a.alias == d.artifact
       else (a.requestedRevision == d.revision || a.resolvedRevision == d.revision) && a.selectionDigest == digest(d.files)
  }

  // The index of the first fitting artifact, or of the newest one.
  function SelectIndex(digest: Option<seq<string>> -> string, artifacts: seq<Artifact>, d: Desired): (r: Option<nat>)
    ensures r.Some? ==> r.value < |artifacts| && Fits(digest, artifacts[r.value], d)
  {
    if artifacts == [] then None
    else
      var n := |artifacts| - 1;
      var r := SelectIndex(digest, artifacts[..n], d);
      if Fits(digest, artifacts[n], d) && (r.None? || (d.artifact == "" && artifacts[n].createdAt > artifacts[r.value].createdAt))
      then Some(n) else r
  }

  function SelectArtifact(digest: Option<seq<string>> -> string, artifacts: seq<Artifact>, d: Desired): Option<Artifact> {
    var r := SelectIndex(digest, artifacts, d);
    if r.None? then None else Some(artifacts[r.value])
  }

  // Nothing fits, or the choice is the first fitting one (by name), or the
  // newest and among equally new the first.
  lemma {:induction false} SelectIsBest(digest: Option<seq<string>> -> string, artifacts: seq<Artifact>, d: Desired, k: nat)
    requires k < |artifacts| && Fits(digest, artifacts[k], d)
    ensures var r := SelectIndex(digest, artifacts, d);
            && r.Some?
            && (d.artifact != "" ==> r.value <= k)
            && (d.artifact == "" ==> artifacts[k].createdAt <= artifacts[r.value].createdAt)
            && (d.artifact == "" && artifacts[k].createdAt == artifacts[r.value].createdAt ==> r.value <= k)
  {
    if k < |artifacts| - 1 { SelectIsBest(digest, artifacts[..|artifacts|-1], d, k); }
  }

  // The scan of the source: by name it returns at the first match.
  method Select(digest: Option<seq<string>> -> string, artifacts: seq<Artifact>, d: Desired) returns (selected: Option<Artifact>)
    ensures selected == SelectArtifact(digest, artifacts, d)
  {
    if d.artifact != "" {
      for i := 0 to |artifacts|
        invariant SelectIndex(digest, artifacts[..i], d) == None
      {
        assert artifacts[..i+1][..i] == artifacts[..i];
        if Fits(digest, artifacts[i], d) {
          FirstStays(digest, artifacts, d, i, i + 1);
          return Some(artifacts[i]);
        }
      }
      assert artifacts[..|artifacts|] == artifacts;
      return None;
    }
    ghost var at: Option<nat> := None;
    selected := None;
    for i := 0 to |artifacts|
      invariant SelectIndex(digest, artifacts[..i], d) == at && (at.Some? ==> at.value < i)
      invariant selected == if at.None? then None else Some(artifacts[at.value])
    {
      assert artifacts[..i+1][..i] == artifacts[..i];
      if Fits(digest, artifacts[i], d) && (selected.None? || artifacts[i].createdAt > selected.value.createdAt) {
        selected := Some(artifacts[i]);
        at := Some(i);
      }
    }
    assert artifacts[..|artifacts|] == artifacts;
  }

  lemma {:induction false} FirstStays(digest: Option<seq<string>> -> string, artifacts: seq<Artifact>, d: Desired, i: nat, n: nat)
    requires d.artifact != "" && i < n <= |artifacts| && SelectIndex(digest, artifacts[..n], d) == Some(i)
    ensures SelectIndex(digest, artifacts, d) == Some(i)
    decreases |artifacts| - n
  {
    if n < |artifacts| {
      assert artifacts[..n+1][..n] == artifacts[..n];
      FirstStays(digest, artifacts, d, i, n + 1);
    } else {
      assert artifacts[..n] == artifacts;
    }
  }

  function ById(artifacts: seq<Artifact>, id: string): Option<Artifact> {
    if artifacts == [] then None else if artifacts[0].artifactId == id then Some(artifacts[0]) else ById(artifacts[1..], id)
  }

  // ---- one entry -----------------------------------------------------------------------------

  predicate EntryMatches(m: Model, d: Desired) {
    && m.alias == d.alias && m.provider == d.provider && m.id == d.id && m.revision == d.revision && m.path == d.path
    && if d.artifact != "" then m.artifact == d.artifact else FilesKey(m.files) == FilesKey(d.files)
  }

  // The usable entry of the previous lock.
  function Entry(lock: seq<Model>, d: Desired): Option<Model> {
    var e := Find(lock, d);
    if e.Some? && EntryMatches(e.value, d) then e else None
  }

  function Locked(d: Desired, a: Artifact, lockedAt: int): Model {
    Model(d.alias, d.provider, d.id, d.revision, d.artifact, d.path, if d.artifact != "" then a.selectedPaths else d.files,
          a.resolvedRevision, a.artifactId, a.relativePath, lockedAt)
  }

  // The artifact an entry pins, or the one the configuration selects.
  function Choose(digest: Option<seq<string>> -> string, artifacts: seq<Artifact>, e: Option<Model>, d: Desired, update: bool): Option<Artifact> {
    if e.Some? && !update then
      var a := ById(artifacts, e.value.artifactId);
      if a.None? || a.value.resolvedRevision != e.value.resolvedRevision then None else a
    else SelectArtifact(digest, artifacts, d)
  }

  function LockOne(digest: Option<seq<string>> -> string, artifacts: seq<Artifact>, lock: seq<Model>, d: Desired, update: bool, now: int): Option<Model> {
    var e := Entry(lock, d);
    var a := Choose(digest, artifacts, e, d, update);
    if a.None? then None
    else Some(Locked(d, a.value, if e.Some? && e.value.artifactId == a.value.artifactId then e.value.lockedAt else now))
  }

  // None when some artifact is unavailable.
  function Candidate(digest: Option<seq<string>> -> string, artifacts: seq<Artifact>, lock: seq<Model>, config: seq<Desired>, update: bool, now: int):
    Option<seq<Model>>
  {
    if config == [] then Some([])
    else
      var n := |config| - 1;
      var init, m := Candidate(digest, artifacts, lock, config[..n], update, now), LockOne(digest, artifacts, lock, config[n], update, now);
      if init.None? || m.None? then None else Some(init.value + [m.value])
  }

  predicate LockMatchesConfig(lock: seq<Model>, config: seq<Desired>) {
    |lock| == |config| && forall d :: d in config ==> Entry(lock, d).Some?
  }

  // ---- the command ------------------------------------------------------------------------------

  // A saved list is sorted, and empty lists are omitted from the file.
  function Stored(m: Model): Model {
    if m.files == Some([]) then m.(files := None) else m
  }

  function Saved(candidate: seq<Model>): seq<Model> {
    Sort(seq(|candidate|, i requires 0 <= i < |candidate| => Stored(candidate[i])))
  }

  datatype Outcome = LockMissing | Differs | Unavailable | Unchanged | Rewritten(candidate: seq<Model>)

  // `migrated` marks a lock read from an older schema.
  function Reconcile(digest: Option<seq<string>> -> string, artifacts: seq<Artifact>, config: seq<Desired>, lock: seq<Model>,
                     exists_: bool, migrated: bool, update: bool, frozen: bool, now: int): Outcome
  {
    if frozen && !exists_ then LockMissing
    else if frozen && !LockMatchesConfig(lock, config) then Differs
    else
      var candidate := Candidate(digest, artifacts, lock, config, update, now);
      if candidate.None? then Unavailable
      else if !migrated && Equal(lock, candidate.value) then Unchanged
      else if frozen then Differs
      else Rewritten(candidate.value)
  }

  // ---- what a run decides, from the contents of its inputs ------------------------------------------

  // The first entry the declaration names, if it still says the same.
  ghost predicate Usable(lock: seq<Model>, d: Desired, k: int) {
    && 0 <= k < |lock| && Names(lock[k], d) && (forall j :: 0 <= j < k ==> !Names(lock[j], d))
    && lock[k].alias == d.alias && lock[k].provider == d.provider && lock[k].id == d.id && lock[k].revision == d.revision
    && lock[k].path == d.path && (d.artifact == "" ==> FilesKey(lock[k].files) == FilesKey(d.files))
  }

  // The artifact has what the declaration asks for.
  predicate Answers(digest: Option<seq<string>> -> string, a: Artifact, d: Desired) {
    && a.provider == d.provider && a.sourceId == d.id
    && (d.artifact != "" ==> d.artifact in {a.artifactId, a.alias})
    && (d.artifact == "" ==> d.revision in {a.requestedRevision, a.resolvedRevision} && a.selectionDigest == digest(d.files))
  }

  // The first that answers by name; else the newest, and the first of those.
  ghost predicate Selected(digest: Option<seq<string>> -> string, artifacts: seq<Artifact>, d: Desired, i: int) {
    && 0 <= i < |artifacts| && Answers(digest, artifacts[i], d)
    && forall k :: 0 <= k < |artifacts| && k != i && Answers(digest, artifacts[k], d) ==>
         if d.artifact != "" || artifacts[k].createdAt == artifacts[i].createdAt then i < k else artifacts[k].createdAt < artifacts[i].createdAt
  }

  // The one the entry pins, with the revision it was locked at.
  ghost predicate Pinned(artifacts: seq<Artifact>, m: Model, i: int) {
    && 0 <= i < |artifacts| && artifacts[i].artifactId == m.artifactId && artifacts[i].resolvedRevision == m.resolvedRevision
    && forall k :: 0 <= k < i ==> artifacts[k].artifactId != m.artifactId
  }

  // The artifact an entry or an update leads to.
  ghost predicate Picked(digest: Option<seq<string>> -> string, artifacts: seq<Artifact>, lock: seq<Model>, d: Desired, update: bool, i: int) {
    if !update && exists k :: Usable(lock, d, k) then exists k :: Usable(lock, d, k) && Pinned(artifacts, lock[k], i)
    else Selected(digest, artifacts, d, i)
  }

  // The time of the usable entry, if it is for the same artifact.
  ghost predicate Timed(lock: seq<Model>, d: Desired, m: Model, now: int) {
    && (forall k :: Usable(lock, d, k) && lock[k].artifactId == m.artifactId ==> m.lockedAt == lock[k].lockedAt)
    && ((forall k :: Usable(lock, d, k) ==> lock[k].artifactId != m.artifactId) ==> m.lockedAt == now)
  }

  // The entry shows the declaration, the picked artifact and the time.
  ghost predicate EntryDecided(digest: Option<seq<string>> -> string, artifacts: seq<Artifact>, lock: seq<Model>, d: Desired, update: bool,
                               now: int, m: Model) {
    && m.alias == d.alias && m.provider == d.provider && m.id == d.id && m.revision == d.revision && m.artifact == d.artifact && m.path == d.path
    && Timed(lock, d, m, now)
    && exists i :: Picked(digest, artifacts, lock, d, update, i)
         && m.artifactId == artifacts[i].artifactId && m.resolvedRevision == artifacts[i].resolvedRevision
         && m.relativePath == artifacts[i].relativePath
         && m.files == if d.artifact == "" then d.files else artifacts[i].selectedPaths
  }

  ghost predicate EntriesDecided(digest: Option<seq<string>> -> string, artifacts: seq<Artifact>, lock: seq<Model>, config: seq<Desired>,
                                 update: bool, now: int, entries: seq<Model>) {
    |entries| == |config| && forall i :: 0 <= i < |config| ==> EntryDecided(digest, artifacts, lock, config[i], update, now, entries[i])
  }

  ghost predicate Complains(digest: Option<seq<string>> -> string, artifacts: seq<Artifact>, lock: seq<Model>, d: Desired, update: bool) {
    forall i :: !Picked(digest, artifacts, lock, d, update, i)
  }

  ghost predicate RunDecided(digest: Option<seq<string>> -> string, artifacts: seq<Artifact>, config: seq<Desired>, lock: seq<Model>,
                             exists_: bool, migrated: bool, update: bool, frozen: bool, now: int, outcome: Outcome)
  {
    if frozen && !exists_ then outcome == LockMissing
    else if frozen && (|lock| != |config| || exists d :: d in config && forall k :: !Usable(lock, d, k)) then outcome == Differs
    else if exists d :: d in config && Complains(digest, artifacts, lock, d, update) then outcome == Unavailable
    else
      exists entries :: EntriesDecided(digest, artifacts, lock, config, update, now, entries)
        && outcome == if !migrated && multiset(entries) == multiset(lock) then Unchanged else if frozen then Differs else Rewritten(entries)
  }

  lemma EntryIsUsable(lock: seq<Model>, d: Desired) returns (k: nat)
    ensures if Entry(lock, d).None? then forall j :: !Usable(lock, d, j)
            else Usable(lock, d, k) && lock[k] == Entry(lock, d).value && forall j :: Usable(lock, d, j) ==> j == k
  {
    k := FindIsFirst(lock, d);
    hide Find, FilesKey;
  }

  lemma SelectIsSelected(digest: Option<seq<string>> -> string, artifacts: seq<Artifact>, d: Desired)
    ensures var r := SelectIndex(digest, artifacts, d);
            if r.Some? then Selected(digest, artifacts, d, r.value) else forall i :: !Selected(digest, artifacts, d, i)
  {
    var r := SelectIndex(digest, artifacts, d);
    forall k | 0 <= k < |artifacts| && Fits(digest, artifacts[k], d) ensures r.Some? {
      SelectIsBest(digest, artifacts, d, k);
    }
    if r.Some? {
      forall k | 0 <= k < |artifacts| && k != r.value && Answers(digest, artifacts[k], d)
        ensures if d.artifact != "" || artifacts[k].createdAt == artifacts[r.value].createdAt then r.value < k
                else artifacts[k].createdAt < artifacts[r.value].createdAt
      {
        assert Fits(digest, artifacts[k], d);
        SelectIsBest(digest, artifacts, d, k);
      }
    } else {
      forall i ensures !Selected(digest, artifacts, d, i) {
        if Selected(digest, artifacts, d, i) { assert Fits(digest, artifacts[i], d); }
      }
    }
  }

  lemma {:induction false} ByIdIsFirst(artifacts: seq<Artifact>, id: string) returns (i: nat)
    ensures if ById(artifacts, id).None? then forall k :: 0 <= k < |artifacts| ==> artifacts[k].artifactId != id
            else i < |artifacts| && artifacts[i] == ById(artifacts, id).value && artifacts[i].artifactId == id
                 && forall k :: 0 <= k < i ==> artifacts[k].artifactId != id
  {
    i := 0;
    if artifacts != [] && artifacts[0].artifactId != id {
      i := ByIdIsFirst(artifacts[1..], id);
      i := i + 1;
    }
  }

  lemma ChooseIsPicked(digest: Option<seq<string>> -> string, artifacts: seq<Artifact>, lock: seq<Model>, d: Desired, update: bool) returns (i: nat)
    ensures var a := Choose(digest, artifacts, Entry(lock, d), d, update);
            if a.None? then Complains(digest, artifacts, lock, d, update)
            else i < |artifacts| && artifacts[i] == a.value && Picked(digest, artifacts, lock, d, update, i)
  {
    var k := EntryIsUsable(lock, d);
    var e := Entry(lock, d);
    i := 0;
    if e.Some? && !update {
      i := ByIdIsFirst(artifacts, e.value.artifactId);
      hide Entry, Usable, ById;
      if Choose(digest, artifacts, e, d, update).None? {
        forall j ensures !Pinned(artifacts, e.value, j) {}
      }
    } else {
      SelectIsSelected(digest, artifacts, d);
      var r := SelectIndex(digest, artifacts, d);
      if r.Some? { i := r.value; }
      hide Entry, Usable, SelectIndex, Selected;
    }
  }

  lemma EntryDecides(digest: Option<seq<string>> -> string, artifacts: seq<Artifact>, lock: seq<Model>, d: Desired, update: bool, now: int)
    ensures var m := LockOne(digest, artifacts, lock, d, update, now);
            if m.None? then Complains(digest, artifacts, lock, d, update)
            else EntryDecided(digest, artifacts, lock, d, update, now, m.value) && !Complains(digest, artifacts, lock, d, update)
  {
    var i := ChooseIsPicked(digest, artifacts, lock, d, update);
    var k := EntryIsUsable(lock, d);
    hide Choose, Entry, Usable, Picked;
  }

  // Every answer of a run, and every entry it writes.
  lemma RunDecides(digest: Option<seq<string>> -> string, artifacts: seq<Artifact>, config: seq<Desired>, lock: seq<Model>,
                   exists_: bool, migrated: bool, update: bool, frozen: bool, now: int)
    requires KeysDistinct(lock)
    ensures RunDecided(digest, artifacts, config, lock, exists_, migrated, update, frozen, now,
                       Reconcile(digest, artifacts, config, lock, exists_, migrated, update, frozen, now))
  {
    MatchIsUsable(lock, config);
    CandidateDecides(digest, artifacts, config, lock, update, now);
    var candidate := Candidate(digest, artifacts, lock, config, update, now);
    if candidate.Some? { EqualIsSameEntries(lock, candidate.value); }
    hide Candidate, EntriesDecided, Complains, Usable, LockMatchesConfig, Equal;
  }

  lemma CandidateDecides(digest: Option<seq<string>> -> string, artifacts: seq<Artifact>, config: seq<Desired>, lock: seq<Model>, update: bool, now: int)
    ensures var candidate := Candidate(digest, artifacts, lock, config, update, now);
            && (candidate.None? <==> exists d :: d in config && Complains(digest, artifacts, lock, d, update))
            && (candidate.Some? ==> EntriesDecided(digest, artifacts, lock, config, update, now, candidate.value))
  {
    var candidate := Candidate(digest, artifacts, lock, config, update, now);
    CandidateAt(digest, artifacts, lock, config, update, now);
    forall i | 0 <= i < |config|
      ensures var m := LockOne(digest, artifacts, lock, config[i], update, now);
              && (m.None? <==> Complains(digest, artifacts, lock, config[i], update))
              && (m.Some? ==> EntryDecided(digest, artifacts, lock, config[i], update, now, m.value))
    {
      EntryDecides(digest, artifacts, lock, config[i], update, now);
    }
    hide Candidate, LockOne, EntryDecided, Complains;
    if candidate.None? {
      var i :| 0 <= i < |config| && LockOne(digest, artifacts, lock, config[i], update, now).None?;
      assert config[i] in config;
    }
  }

  lemma MatchIsUsable(lock: seq<Model>, config: seq<Desired>)
    ensures LockMatchesConfig(lock, config) <==> |lock| == |config| && forall d :: d in config ==> exists k :: Usable(lock, d, k)
  {
    forall d ensures Entry(lock, d).Some? <==> exists k :: Usable(lock, d, k) {
      var k := EntryIsUsable(lock, d);
    }
    hide Entry, Usable;
  }

  method ReconcileLock(digest: Option<seq<string>> -> string, artifacts: seq<Artifact>, config: seq<Desired>, lock: seq<Model>,
                       exists_: bool, migrated: bool, update: bool, frozen: bool, now: int) returns (outcome: Outcome)
    ensures outcome == Reconcile(digest, artifacts, config, lock, exists_, migrated, update, frozen, now)
    ensures KeysDistinct(lock) ==> RunDecided(digest, artifacts, config, lock, exists_, migrated, update, frozen, now, outcome)
  {
    if KeysDistinct(lock) { RunDecides(digest, artifacts, config, lock, exists_, migrated, update, frozen, now); }
    hide RunDecided, Names, Equal, LockMatchesConfig, KeysDistinct, EntryMatches;
    if frozen && !exists_ { return LockMissing; }
    if frozen && !LockMatchesConfig(lock, config) { return Differs; }
    var candidate: seq<Model> := [];
    for i := 0 to |config|
      invariant Candidate(digest, artifacts, lock, config[..i], update, now) == Some(candidate)
    {
      assert config[..i+1][..i] == config[..i];
      var d := config[i];
      var entry := FindEntry(lock, d);
      if entry.Some? && !EntryMatches(entry.value, d) { entry := None; }
      var artifact;
      if entry.Some? && !update {
        artifact := ById(artifacts, entry.value.artifactId);
        if artifact.None? || artifact.value.resolvedRevision != entry.value.resolvedRevision { artifact := None; }
      } else {
        artifact := Select(digest, artifacts, d);
      }
      if artifact.None? {
        CandidateStops(digest, artifacts, lock, config, update, now, i + 1);
        return Unavailable;
      }
      var lockedAt := now;
      if entry.Some? && entry.value.artifactId == artifact.value.artifactId { lockedAt := entry.value.lockedAt; }
      candidate := candidate + [Locked(d, artifact.value, lockedAt)];
    }
    assert config[..|config|] == config;
    if !migrated && Equal(lock, candidate) { return Unchanged; }
    outcome := if frozen then Differs else Rewritten(candidate);
  }

  lemma {:induction false} CandidateStops(digest: Option<seq<string>> -> string, artifacts: seq<Artifact>, lock: seq<Model>, config: seq<Desired>,
                                          update: bool, now: int, n: nat)
    requires n <= |config| && Candidate(digest, artifacts, lock, config[..n], update, now).None?
    ensures Candidate(digest, artifacts, lock, config, update, now).None?
    decreases |config| - n
  {
    if n < |config| {
      assert config[..n+1][..n] == config[..n];
      CandidateStops(digest, artifacts, lock, config, update, now, n + 1);
    } else {
      assert config[..n] == config;
    }
  }

  lemma {:induction false} CandidateAt(digest: Option<seq<string>> -> string, artifacts: seq<Artifact>, lock: seq<Model>, config: seq<Desired>,
                                       update: bool, now: int)
    ensures var c := Candidate(digest, artifacts, lock, config, update, now);
            && (c.Some? <==> forall i :: 0 <= i < |config| ==> LockOne(digest, artifacts, lock, config[i], update, now).Some?)
            && (c.Some? ==> |c.value| == |config| && forall i :: 0 <= i < |config| ==>
                  LockOne(digest, artifacts, lock, config[i], update, now) == Some(c.value[i]))
  {
    if config != [] { CandidateAt(digest, artifacts, lock, config[..|config|-1], update, now); }
  }

  // ---- --frozen-lockfile is exact ------------------------------------------------------------------

  lemma KeptHasEntry(digest: Option<seq<string>> -> string, artifacts: seq<Artifact>, lock: seq<Model>, d: Desired, now: int)
    requires LockOne(digest, artifacts, lock, d, false, now).Some? && LockOne(digest, artifacts, lock, d, false, now).value.lockedAt != now
    ensures Entry(lock, d).Some?
  {
    hide Entry, Choose;
  }

  lemma EqualMembers(a: seq<Model>, b: seq<Model>)
    requires Equal(a, b)
    ensures |a| == |b| && forall m :: m in a <==> m in b
  {
    SortContents(a, LowerKey);
    SortContents(b, LowerKey);
    SameMembers(a, b);
    hide SortBy;
  }

  lemma UnchangedMatches(digest: Option<seq<string>> -> string, artifacts: seq<Artifact>, config: seq<Desired>, lock: seq<Model>, now: int)
    requires forall m :: m in lock ==> m.lockedAt != now
    requires Candidate(digest, artifacts, lock, config, false, now).Some?
    requires Equal(lock, Candidate(digest, artifacts, lock, config, false, now).value)
    ensures LockMatchesConfig(lock, config)
  {
    var entries := Candidate(digest, artifacts, lock, config, false, now).value;
    CandidateAt(digest, artifacts, lock, config, false, now);
    EqualMembers(lock, entries);
    hide Candidate, Equal, LockOne, Entry;
    forall d | d in config ensures Entry(lock, d).Some? {
      var i :| 0 <= i < |config| && config[i] == d;
      assert entries[i] in entries;
      KeptHasEntry(digest, artifacts, lock, d, now);
    }
  }

  // A frozen run accepts an existing lock exactly when an ordinary run would
  // leave it as it is (the clock has moved on since the lock was written).
  lemma FrozenIsExact(digest: Option<seq<string>> -> string, artifacts: seq<Artifact>, config: seq<Desired>, lock: seq<Model>, migrated: bool, now: int)
    requires forall m :: m in lock ==> m.lockedAt != now
    ensures Reconcile(digest, artifacts, config, lock, true, migrated, false, true, now) == Unchanged
       <==> Reconcile(digest, artifacts, config, lock, true, migrated, false, false, now) == Unchanged
  {
    var candidate := Candidate(digest, artifacts, lock, config, false, now);
    if candidate.Some? && Equal(lock, candidate.value) { UnchangedMatches(digest, artifacts, config, lock, now); }
    hide Candidate, Equal, LockMatchesConfig;
  }

  // ---- running again on the saved lock --------------------------------------------------------------

  // What `config.Validate` guarantees, for names without NUL.
  ghost predicate ValidConfig(config: seq<Desired>) {
    && (forall i, j :: 0 <= i < |config| && 0 <= j < |config| && i != j && config[i].alias != "" ==> config[i].alias != config[j].alias)
    && (forall i, j :: 0 <= i < |config| && 0 <= j < |config| && i != j && config[i].alias == "" ==> !SameSource(config[i], config[j]))
    && (forall d :: d in config ==> d.files != Some([]) && NoNul(d.provider) && NoNul(d.id))
  }

  predicate SameSource(d: Desired, e: Desired) {
    d.provider == e.provider && d.id == e.id
  }

  // What the server guarantees of its list.
  ghost predicate ValidCatalog(artifacts: seq<Artifact>) {
    && (forall i, j :: 0 <= i < j < |artifacts| ==> artifacts[i].artifactId != artifacts[j].artifactId)
    && (forall a :: a in artifacts ==> a.selectedPaths != Some([]))
  }

  // No two declarations with the same alias, or without one, name the same
  // artifact.
  ghost predicate NamesDistinct(config: seq<Desired>) {
    forall i, j :: 0 <= i < j < |config| && config[i].artifact != "" ==>
      config[i].artifact != config[j].artifact || config[i].alias != config[j].alias
  }

  lemma {:induction false} ByIdFinds(artifacts: seq<Artifact>, a: Artifact)
    requires ValidCatalog(artifacts) && a in artifacts
    ensures ById(artifacts, a.artifactId) == Some(a)
  {
    if artifacts[0] != a {
      assert a in artifacts[1..];
      var k :| 1 <= k < |artifacts| && artifacts[k] == a;
      ByIdFinds(artifacts[1..], a);
    }
  }

  lemma {:induction false} ByIdListed(artifacts: seq<Artifact>, id: string)
    ensures ById(artifacts, id).Some? ==> ById(artifacts, id).value in artifacts && ById(artifacts, id).value.artifactId == id
  {
    if artifacts != [] { ByIdListed(artifacts[1..], id); }
  }

  // The artifact a run chose for one declaration.
  ghost predicate Chosen(digest: Option<seq<string>> -> string, artifacts: seq<Artifact>, d: Desired, update: bool, m: Model, a: Artifact) {
    a in artifacts && m == Locked(d, a, m.lockedAt) && (update ==> SelectArtifact(digest, artifacts, d) == Some(a))
  }

  lemma LockOneChoice(digest: Option<seq<string>> -> string, artifacts: seq<Artifact>, lock: seq<Model>, d: Desired, update: bool, now: int)
    requires LockOne(digest, artifacts, lock, d, update, now).Some?
    ensures HasChoice(digest, artifacts, d, update, LockOne(digest, artifacts, lock, d, update, now).value)
  {
    var e := Entry(lock, d);
    var a := Choose(digest, artifacts, e, d, update).value;
    if e.Some? { ByIdListed(artifacts, e.value.artifactId); }
    assert Chosen(digest, artifacts, d, update, LockOne(digest, artifacts, lock, d, update, now).value, a);
  }

  // A list of entries that locks a configuration.
  ghost predicate Locks(digest: Option<seq<string>> -> string, artifacts: seq<Artifact>, config: seq<Desired>, update: bool, entries: seq<Model>) {
    |entries| == |config| && forall i :: 0 <= i < |config| ==> HasChoice(digest, artifacts, config[i], update, entries[i])
  }

  ghost predicate HasChoice(digest: Option<seq<string>> -> string, artifacts: seq<Artifact>, d: Desired, update: bool, m: Model) {
    exists a :: Chosen(digest, artifacts, d, update, m, a)
  }

  lemma LockedKeysDistinct(digest: Option<seq<string>> -> string, artifacts: seq<Artifact>, config: seq<Desired>, update: bool, entries: seq<Model>)
    requires ValidConfig(config) && Locks(digest, artifacts, config, update, entries)
    ensures KeysDistinct(entries)
  {
    forall i, j | 0 <= i < j < |entries| ensures Key(entries[i]) != Key(entries[j]) {
      assert config[i] in config && config[j] in config;
      EntryOf(digest, artifacts, config, update, entries, i);
      EntryOf(digest, artifacts, config, update, entries, j);
      if Key(entries[i]) == Key(entries[j]) { KeysDiffer(entries[i], entries[j]); }
    }
  }

  lemma EntryOf(digest: Option<seq<string>> -> string, artifacts: seq<Artifact>, config: seq<Desired>, update: bool, entries: seq<Model>, i: nat)
    requires Locks(digest, artifacts, config, update, entries) && i < |config|
    ensures var m, d := entries[i], config[i];
            && m.alias == d.alias && m.provider == d.provider && m.id == d.id && m.revision == d.revision && m.path == d.path
            && m.artifact == d.artifact && (d.artifact == "" ==> m.files == d.files)
  {
    assert HasChoice(digest, artifacts, config[i], update, entries[i]);
    var a :| Chosen(digest, artifacts, config[i], update, entries[i], a);
  }

  // What is saved are the entries themselves, in the order of their keys.
  lemma SavedKeeps(digest: Option<seq<string>> -> string, artifacts: seq<Artifact>, config: seq<Desired>, update: bool, entries: seq<Model>)
    requires ValidConfig(config) && ValidCatalog(artifacts) && Locks(digest, artifacts, config, update, entries)
    ensures multiset(Saved(entries)) == multiset(entries) && Sorted(Saved(entries))
  {
    forall i | 0 <= i < |entries| ensures Stored(entries[i]) == entries[i] {
      assert config[i] in config && HasChoice(digest, artifacts, config[i], update, entries[i]);
      var a :| Chosen(digest, artifacts, config[i], update, entries[i], a);
    }
    var stored := seq(|entries|, i requires 0 <= i < |entries| => Stored(entries[i]));
    assert stored == entries;
    SortContents(stored, LowerKey);
    LockedKeysDistinct(digest, artifacts, config, update, entries);
    SortSorts(stored);
  }

  // On the saved lock, a declaration finds its own entry unless another one
  // names the same artifact without an alias.
  lemma FindsOwn(digest: Option<seq<string>> -> string, artifacts: seq<Artifact>, config: seq<Desired>, update: bool, entries: seq<Model>, lock: seq<Model>, i: nat)
    requires ValidConfig(config) && Locks(digest, artifacts, config, update, entries) && multiset(lock) == multiset(entries)
    requires i < |config| && NamesDistinct(config)
    ensures Find(lock, config[i]) == Some(entries[i])
  {
    var d := config[i];
    LockedKeysDistinct(digest, artifacts, config, update, entries);
    EntryOf(digest, artifacts, config, update, entries, i);
    FindNames(lock, d);
    assert entries[i] in multiset(lock) && Names(entries[i], d);
    var e := Find(lock, d).value;
    assert e in multiset(entries);
    var k :| 0 <= k < |entries| && entries[k] == e;
    EntryOf(digest, artifacts, config, update, entries, k);
    hide Locks, ValidConfig;
  }

  // An entry found again is kept, with its time.
  lemma OwnEntryKept(digest: Option<seq<string>> -> string, artifacts: seq<Artifact>, lock: seq<Model>, d: Desired, update: bool, now: int, m: Model, a: Artifact)
    requires ValidCatalog(artifacts) && Chosen(digest, artifacts, d, update, m, a) && Find(lock, d) == Some(m)
    ensures LockOne(digest, artifacts, lock, d, update, now) == Some(m)
  {
    ByIdFinds(artifacts, a);
    hide SelectArtifact, ById;
  }

  lemma DistinctIsStable(digest: Option<seq<string>> -> string, artifacts: seq<Artifact>, config: seq<Desired>, update: bool, entries: seq<Model>,
                         lock: seq<Model>, now: int)
    requires ValidConfig(config) && ValidCatalog(artifacts) && Locks(digest, artifacts, config, update, entries)
    requires multiset(lock) == multiset(entries) && NamesDistinct(config)
    ensures Candidate(digest, artifacts, lock, config, update, now) == Some(entries)
  {
    CandidateAt(digest, artifacts, lock, config, update, now);
    forall i | 0 <= i < |config| ensures LockOne(digest, artifacts, lock, config[i], update, now) == Some(entries[i]) {
      FindsOwn(digest, artifacts, config, update, entries, lock, i);
      assert HasChoice(digest, artifacts, config[i], update, entries[i]);
      var a :| Chosen(digest, artifacts, config[i], update, entries[i], a);
      OwnEntryKept(digest, artifacts, lock, config[i], update, now, entries[i], a);
    }
    hide LockOne;
    var c := Candidate(digest, artifacts, lock, config, update, now);
    assert c.value == entries;
  }

  lemma {:induction false} FindSame(lock: seq<Model>, d: Desired, e: Desired)
    requires d.artifact != "" && e.artifact == d.artifact && e.alias == d.alias
    ensures Find(lock, d) == Find(lock, e)
  {
    if lock != [] { FindSame(lock[1..], d, e); }
  }

  // Of two declarations that name the same artifact, one never finds its entry.
  lemma OneLosesItsEntry(digest: Option<seq<string>> -> string, artifacts: seq<Artifact>, config: seq<Desired>, update: bool, entries: seq<Model>,
                         lock: seq<Model>, i: nat, j: nat) returns (x: nat)
    requires ValidConfig(config) && Locks(digest, artifacts, config, update, entries) && multiset(lock) == multiset(entries)
    requires i < j < |config| && config[i].artifact != "" && config[i].artifact == config[j].artifact && config[i].alias == config[j].alias
    ensures x < |config| && Entry(lock, config[x]).None?
  {
    FindSame(lock, config[i], config[j]);
    FindNames(lock, config[i]);
    var e := Find(lock, config[i]);
    x := i;
    if e.Some? {
      assert e.value in multiset(entries);
      var k :| 0 <= k < |entries| && entries[k] == e.value;
      EntryOf(digest, artifacts, config, update, entries, k);
      x := if k == i then j else i;
      assert k != x && config[x].alias == "" ;
    }
  }

  lemma RepeatedIsRewritten(digest: Option<seq<string>> -> string, artifacts: seq<Artifact>, config: seq<Desired>, update: bool, entries: seq<Model>,
                            lock: seq<Model>, now: int)
    requires ValidConfig(config) && Locks(digest, artifacts, config, update, entries) && multiset(lock) == multiset(entries)
    requires !NamesDistinct(config) && forall m :: m in lock ==> m.lockedAt != now
    ensures var c := Candidate(digest, artifacts, lock, config, update, now); c.Some? ==> !Equal(lock, c.value)
  {
    var i, j :| 0 <= i < j < |config| && config[i].artifact != "" && config[i].artifact == config[j].artifact && config[i].alias == config[j].alias;
    var x := OneLosesItsEntry(digest, artifacts, config, update, entries, lock, i, j);
    var c := Candidate(digest, artifacts, lock, config, update, now);
    CandidateAt(digest, artifacts, lock, config, update, now);
    hide Candidate, ValidConfig, Locks, NamesDistinct;
    if c.Some? { NewTimeDiffers(lock, c.value, x, now); }
  }

  lemma NewTimeDiffers(lock: seq<Model>, entries: seq<Model>, x: nat, now: int)
    requires x < |entries| && entries[x].lockedAt == now && forall m :: m in lock ==> m.lockedAt != now
    ensures !Equal(lock, entries)
  {
    SortContents(lock, LowerKey);
    SortContents(entries, LowerKey);
    assert entries[x] in multiset(entries);
  }

  // Running again on the saved lock, with the same configuration, artifacts
  // and update flag, changes nothing exactly when no two declarations of the
  // same alias name the same artifact.
  lemma RerunIsUnchanged(digest: Option<seq<string>> -> string, artifacts: seq<Artifact>, config: seq<Desired>, before: seq<Model>, update: bool,
                         first: int, now: int)
    requires ValidConfig(config) && ValidCatalog(artifacts) && Candidate(digest, artifacts, before, config, update, first).Some?
    requires forall m :: m in Candidate(digest, artifacts, before, config, update, first).value ==> m.lockedAt != now
    ensures var lock := Saved(Candidate(digest, artifacts, before, config, update, first).value);
            Reconcile(digest, artifacts, config, lock, true, false, update, false, now) == Unchanged <==> NamesDistinct(config)
  {
    var entries := Candidate(digest, artifacts, before, config, update, first).value;
    var lock := Saved(entries);
    CandidateAt(digest, artifacts, before, config, update, first);
    forall i | 0 <= i < |config| ensures HasChoice(digest, artifacts, config[i], update, entries[i]) {
      LockOneChoice(digest, artifacts, before, config[i], update, first);
    }
    assert Locks(digest, artifacts, config, update, entries);
    hide Candidate, Locks, ValidConfig, ValidCatalog, NamesDistinct, Saved, Equal;
    SavedKeeps(digest, artifacts, config, update, entries);
    if NamesDistinct(config) {
      DistinctIsStable(digest, artifacts, config, update, entries, lock, now);
      LockedKeysDistinct(digest, artifacts, config, update, entries);
      EqualIsSameEntries(entries, lock);
      EqualIsSymmetric(entries, lock);
    } else {
      forall m | m in lock ensures m.lockedAt != now { assert m in multiset(entries); }
      RepeatedIsRewritten(digest, artifacts, config, update, entries, lock, now);
    }
  }

  lemma EqualIsSymmetric(a: seq<Model>, b: seq<Model>)
    ensures Equal(a, b) <==> Equal(b, a)
  {
  }

  // A run without a lock can be repeated on its own output.
  lemma Repeats(digest: Option<seq<string>> -> string, artifacts: seq<Artifact>, config: seq<Desired>, first: int, now: int)
    requires ValidConfig(config) && ValidCatalog(artifacts) && Candidate(digest, artifacts, [], config, false, first).Some?
    ensures Candidate(digest, artifacts, Saved(Candidate(digest, artifacts, [], config, false, first).value), config, false, now).Some?
    ensures forall m :: m in Candidate(digest, artifacts, [], config, false, first).value ==> m.lockedAt == first
  {
    var entries := Candidate(digest, artifacts, [], config, false, first).value;
    var lock := Saved(entries);
    CandidateAt(digest, artifacts, [], config, false, first);
    CandidateAt(digest, artifacts, lock, config, false, now);
    forall i | 0 <= i < |config| ensures HasChoice(digest, artifacts, config[i], false, entries[i]) {
      LockOneChoice(digest, artifacts, [], config[i], false, first);
    }
    assert Locks(digest, artifacts, config, false, entries);
    SavedKeeps(digest, artifacts, config, false, entries);
    hide Candidate, Locks, ValidConfig, Saved;
    forall i | 0 <= i < |config| ensures LockOne(digest, artifacts, lock, config[i], false, now).Some? {
      StillAvailable(digest, artifacts, config, entries, lock, i, first, now);
    }
    hide LockOne;
  }

  lemma StillAvailable(digest: Option<seq<string>> -> string, artifacts: seq<Artifact>, config: seq<Desired>, entries: seq<Model>, lock: seq<Model>,
                       i: nat, first: int, now: int)
    requires ValidCatalog(artifacts) && Locks(digest, artifacts, config, false, entries) && multiset(lock) == multiset(entries)
    requires i < |config| && LockOne(digest, artifacts, [], config[i], false, first).Some?
    ensures LockOne(digest, artifacts, lock, config[i], false, now).Some?
  {
    var e := Entry(lock, config[i]);
    assert Entry([], config[i]).None?;
    if e.Some? {
      FindNames(lock, config[i]);
      assert e.value in multiset(entries);
      var k :| 0 <= k < |entries| && entries[k] == e.value;
      assert HasChoice(digest, artifacts, config[k], false, entries[k]);
      var a :| Chosen(digest, artifacts, config[k], false, entries[k], a);
      ByIdFinds(artifacts, a);
    }
    hide SelectArtifact, ById, Find, EntryMatches, Locks, ValidCatalog;
  }

  // Letters, digits and the signs of an identity; the server takes any alias of
  // at most 128 such characters.
  predicate PlainAlias(alias: string) {
    0 < |alias| <= 128 && forall c :: c in alias ==> Alphabet64(c) || c == ':'
  }

  lemma IdentityIsPlainAlias(s: Source)
    requires s == Source(HuggingFace, "org/one", "main", None)
    ensures PlainAlias(ArtifactIdentity(s))
  {
    Base64NoColon(Utf8String(s.id));
    Base64NoColon(Utf8String(s.revision));
    Utf8Length(s.id);
    Utf8Length(s.revision);
    hide Utf8String, Base64Url;
  }

  lemma {:induction false} Utf8Length(s: string)
    ensures |Utf8String(s)| <= 4 * |s|
  {
    if s != "" { Utf8Length(s[1..]); }
  }

  // Such a configuration is valid: one artifact has as its alias what is
  // another one's identity. Every run rewrites the lock of the run before.
  lemma RepeatedNamesExist(digest: Option<seq<string>> -> string, s: Source, t: Source, d: Desired, e: Desired, a: Artifact, b: Artifact,
                           first: int, now: int)
    requires s == Source(HuggingFace, "org/one", "main", None) && t == s.(id := "org/two") && first != now
    requires d == Desired("", "huggingface", "org/one", "main", ArtifactIdentity(s), "", None) && e == d.(id := "org/two")
    requires a == Artifact(ArtifactIdentity(s), "", "huggingface", "org/one", "main", "main", 0, "p", "", None)
    requires b == Artifact(ArtifactIdentity(t), ArtifactIdentity(s), "huggingface", "org/two", "main", "main", 0, "q", "", None)
    ensures ValidConfig([d, e]) && ValidCatalog([a, b]) && PlainAlias(b.alias)
    ensures var c := Candidate(digest, [a, b], [], [d, e], false, first);
            c.Some? && Reconcile(digest, [a, b], [d, e], Saved(c.value), true, false, false, false, now).Rewritten?
  {
    IdentityIsPlainAlias(s);
    if ArtifactIdentity(s) == ArtifactIdentity(t) { IdentityInjective(s, t); }
    assert ArtifactIdentity(s) != "" by { assert ProviderName(HuggingFace) != ""; }
    TwoNamed(digest, d, e, a, b, first);
    assert [d, e][0] == d && [d, e][1] == e;
    assert !NamesDistinct([d, e]);
    hide ArtifactIdentity, PlainAlias, Candidate, Saved, NamesDistinct, ValidConfig, ValidCatalog;
    Repeats(digest, [a, b], [d, e], first, now);
    RerunIsUnchanged(digest, [a, b], [d, e], [], false, first, now);
  }

  lemma TwoNamed(digest: Option<seq<string>> -> string, d: Desired, e: Desired, a: Artifact, b: Artifact, first: int)
    requires d.artifact != "" && e == d.(id := "org/two") && d.id == "org/one" && d.provider == "huggingface" && d.alias == "" && d.files == None
    requires a.artifactId == b.alias == d.artifact && b.artifactId != a.artifactId && a.selectedPaths == None && b.selectedPaths == None
    requires a.provider == b.provider == d.provider && a.sourceId == d.id && b.sourceId == e.id
    ensures ValidConfig([d, e]) && ValidCatalog([a, b]) && Candidate(digest, [a, b], [], [d, e], false, first).Some?
  {
    var config, artifacts := [d, e], [a, b];
    assert config[0] == d && config[1] == e && artifacts[..1] == [a] && [a][..0] == [];
    assert Entry([], d).None? && Entry([], e).None?;
    assert SelectIndex(digest, [], d) == None && SelectIndex(digest, [], e) == None;
    assert Fits(digest, a, d) && !Fits(digest, a, e) && Fits(digest, b, e);
    assert SelectIndex(digest, [a], d) == Some(0) && SelectIndex(digest, [a], e) == None;
    assert SelectIndex(digest, artifacts, e) == Some(1) && SelectIndex(digest, artifacts, d).Some?;
    CandidateAt(digest, artifacts, [], config, false, first);
    hide Candidate, SelectIndex;
  }
}
