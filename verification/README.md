# ModelShelf in Dafny

A Dafny model of the parts of ModelShelf whose correctness depends on more
than one function at a time, with proofs. ModelShelf ingests model files from
several providers on a server, publishes them as immutable artifacts, and
materialises them on clients over a lock file.

`dafny verify dfyconfig.toml` checks everything.

## The five parts

**The ingestion scheduler** (`Task*.dfy`). `TaskState` gives one total function
per atomic step: the code between two real suspensions of the asyncio event
loop. Locks are never held across a suspension, so a store transition is one
step; `pause`, `cancel` and `start_now` are split where they await another
asyncio task. A history is any finite sequence of steps: calls of users,
timers, scheduler turns, the work of runs and of HTTP confirmations. A run has
a program point, and a launched run that has not taken its first step is a
point of its own, because cancelling it there skips its `finally`.

- `TaskInvariants`, `TaskRuns`: token and counter conservation, ownership,
  no stranded work and no lost wakeup, for all limits.
- `TaskExclusion`, `TaskStatus`, `TaskTokens`, `TaskTheorems`: one run per task,
  the status machine and armed timers; always with one download per source,
  and for larger limits under an exact condition.
- `TaskEffects`: what each step does to the records and the event loop, read off
  the state before it, with the statuses spelled out.
- `TaskCapacity`: which entries a scheduler turn launches, read off the state
  before the turn, and hence when it starts a task twice.
- `TaskLost`, `TaskWitness`: runs lost before their first step, and the
  schedules that show why hypotheses are needed.
- `TaskAdmission`, `TaskQueue`, `TaskRestart`, `TaskMetrics`: deduplication, the
  pick order and its control, restart recovery, and download metrics in real
  arithmetic.
- `TaskManager`: the object with its fields and methods, loops included, each
  method proved to take its step of the state machine; its contracts carry the
  results about steps over to the object. A restarted manager meets the
  invariants the results about histories begin with.

**The catalog and its index** (`Encoding`, `Identity`, `IdentityFormats`,
`Catalog*`, `StorageStats`). Paths and identities are modelled down to characters and bytes:
UTF-8, percent escapes, base64url. Directories and the alias registry are the
truth, the table is a copy; a fingerprint lets `reconcile_index` skip reading
unchanged manifests. Failing index writes, unreadable manifests and manifests of
a future schema are part of the model. `storage_stats` is modelled on a
filesystem of names and inodes.

**Materialise, verify, publish** (`FileTree`, `CopyJobs`, `CopyPool`,
`CopyProgress`, `Manifests`, `Materialise`). A filesystem of names, inodes and contents with one function per
system call. Any call may fail, reads from the export may return anything, and
the pool of copying workers is scheduled arbitrarily. A ghost log keeps the filesystem
after every call, so the results speak of every intermediate state; a ghost
counter of refused calls lets them say when an operation must succeed.

**Lock reconciliation** (`LockFiles`, `LockReconcile`). The
candidate lock computed from configuration, catalog and previous lock, with its
keys as the strings the client builds.

**Two algorithms** (`SemVer`, `SemVerText`, `Gguf`, `GgufDiscovery`). Version precedence against
a definition written from section 11 of SemVer 2.0.0, the strings the parser
accepts, and the grouping of GGUF shards on the server: when there is one at all,
that it is the only one, and the check of the client against it.

`Sequences` and `Strings` hold what the parts share: distinct elements, stable
sorting, string order, digits, joining and splitting.

## What the proofs found

- A pause or cancel between the launch of a run and its first step skips the
  run's `finally`. Its counter is never given back; with one download per source
  that provider never runs again. Such a stop is the only way to lose a run, and
  always loses it (`TaskLost.LosesExactly`).
- With more than one download per source, pausing and resuming a queued task
  before a scheduler turn starts it twice (`TaskWitness`); when exactly a turn
  does so is `TaskTheorems.SharingExact`.
- Resuming a FAILED task whose ingestion was started again is exactly the way
  two open tasks come to share an ingestion (`TaskAdmission.DedupStep`,
  `TaskWitness.RevivedTwin`).
- A revision that ends like a file selection, or a selected revision with a
  newline, prints a path that reads back as another identity
  (`Identity.PrintedIsAccepted`, `Identity.ImitatedSelection`); the index is
  still rebuilt correctly.
- A valid configuration may give two declarations one artifact name that fits
  both, as the identity of one artifact and the alias of another. The lock is
  then rewritten on every run (`LockReconcile.RerunIsUnchanged`,
  `LockReconcile.RepeatedNamesExist`).
- Numeric prerelease identifiers beyond 64 bits compare by spelling; when that
  differs from their precedence is `SemVer.CoincidesWithSemVer`.
- The client's shard pattern allows an empty prefix, the server's does not
  (`Gguf.DiscoveredIsAccepted`, `Gguf.EmptyPrefixRefused`).

## Parameters and assumptions

- Hash functions, the digest of a file selection and Python's Unicode table are
  function parameters. Injectivity of the hash is a condition of the declared
  sizes in `Materialise.Client.MaterializeManifest` and of nothing else.
- Clocks, sizes seen on the export, storage shortage and alias conflicts on
  creation, the results of providers and the success of writes are parameters of
  steps or arbitrary values.
- Listing functions return every record once, in any order. Cleanup raises
  nothing. Manifests come from `create_manifest`, and no artifact is published
  below another one (`CatalogModel.Proper`).
- No manifest path is another one's `.modelshelf-part` name
  (`Materialise.Plannable`); the staging workspace and the destination are apart.
- Provider names and ids in a lock contain no NUL; the catalog lists each
  identity once and no empty selection.
- GGUF paths are ASCII.

## Model

| member | source | states |
|---|---|---|
| TaskTheorems.NoStrandedWork | packages/server/src/modelshelf_server/tasks.py:417-564 | In every reachable state, for all limits, each QUEUED task is in the queue, among the pending entries, worked on by a live run, or owned by a suspended start_now call. |
| TaskTheorems.NoLostWakeup | packages/server/src/modelshelf_server/tasks.py:1198-1217 | Whenever the wakeup is clear the queue is empty and either the runs are at the maximum or no pending entry is eligible. |
| TaskTheorems.Conservation | packages/server/src/modelshelf_server/tasks.py:1160-1196 | The per-source counter is exactly the number of runs of the provider, still unwinding ones and lost ones included, never above the limit and never a zero entry; the unfinished count is queue plus pending plus runs, so task_done never underflows. |
| TaskRuns.CoreAlways | packages/server/src/modelshelf_server/tasks.py:330-564 | The accounting, ownership, wakeup and record invariant holds after every finite interleaving of calls, timers, scheduler turns, runs and confirmations, for all limits. |
| TaskTheorems.SingleRun | packages/server/src/modelshelf_server/tasks.py:468-532 | With one download per source, or on careful runs with any limits, no task ever has two runs and runs never exceed max_concurrent_downloads; with the default limit even with duplicate pending ids or a resume during unwinding. |
| TaskTheorems.SharingExact | packages/server/src/modelshelf_server/tasks.py:1160-1217 | For any limits a scheduler turn from a safe state leaves one run per task if and only if, as it begins, no waiting entry that has room names a task already running or already named ahead of it. |
| TaskCapacity.TurnFillsRoom | packages/server/src/modelshelf_server/tasks.py:1160-1217 | A turn launches each task exactly as often as it has entries with room when the turn begins: its source has a free download after all entries ahead of it, and a run slot is left after the tasks ahead that take one. |
| TaskCapacity.AloneExact | packages/server/src/modelshelf_server/tasks.py:1198-1217 | No launch of a turn meets a run of its task if and only if no doubled entry has room when the turn begins, from any loop. |
| TaskTokens.UniqueStep | packages/server/src/modelshelf_server/tasks.py:397-532 | At most one queue entry, pending entry or run per task is kept by a step if and only if it does not queue (by resume, start_now, timer or creation) a task that has one; a turn then launches alone. |
| TaskTheorems.CarefulExact | packages/server/src/modelshelf_server/tasks.py:397-532 | For any limits a whole run keeps one token per task throughout if and only if no step of it puts back a task that still has one. |
| TaskTheorems.SafeAlways | packages/server/src/modelshelf_server/tasks.py:380-564 | Accounting, exclusion and armed timers hold in every state of a run, with one download per source always and for any limits on careful runs. |
| TaskWitness.TwoRunsOfOneTask | packages/server/src/modelshelf_server/tasks.py:499-532 | With two downloads per source, create, pause, resume and one scheduler turn give two runs of one task: the hypotheses above are needed. |
| TaskTheorems.SafeMoves | packages/server/src/modelshelf_server/tasks.py:895-908 | Over whole runs (one download per source, or careful with any limits) a status changes only for one named cause with its required old status, and COMPLETED or CANCELLED records never change. |
| TaskStatus.StatusStep | packages/server/src/modelshelf_server/tasks.py:1155-1158 | The same for one step from any exclusive state, although the writes of a run check nothing. |
| TaskTheorems.RunsRespectStops | packages/server/src/modelshelf_server/tasks.py:1292-1581 | A paused, cancelled or finished task keeps its status in every step of a run or a confirmation. |
| TaskTheorems.TerminalForever | packages/server/src/modelshelf_server/tasks.py:566-581 | A COMPLETED or CANCELLED record stays exactly as it is until it is deleted, and a deleted id never returns. |
| TaskTheorems.CompletedWasPublished | packages/server/src/modelshelf_server/tasks.py:149-189 | A COMPLETED record names an artifact that the catalog has held, by publication or at creation. |
| TaskTheorems.ScheduledIsArmed | packages/server/src/modelshelf_server/tasks.py:397-432 | Every SCHEDULED task has a sleeping timer whose firing queues it. |
| TaskTheorems.SafeStep | packages/server/src/modelshelf_server/tasks.py:380-564 | One step keeps accounting, exclusion and armed timers together, given that a scheduler turn launches alone. |
| TaskEffects.StepEffects | packages/server/src/modelshelf_server/tasks.py:434-564 | What every step from a safe state does, with the statuses spelled out: the record it writes and no other, the run, confirmation, call or timer it leaves with its slot, its unit of the counter and its token, the artifact it publishes, and when it changes nothing. |
| TaskEffects.PublishCompletes | packages/server/src/modelshelf_server/tasks.py:1520-1553 | The publication by a run makes its task COMPLETED with the resolved revision, the artifact of its source and selection and no resume flag; the catalog holds that artifact and the run is gone. |
| TaskExclusion.OnePerSource | packages/server/src/modelshelf_server/tasks.py:1198-1217 | With one download per source every launch of a turn meets no run of its task, whatever the pending entries are. |
| TaskLost.LostForever | packages/server/src/modelshelf_server/tasks.py:1183-1196 | Whatever the limits, a lost run skips the finally clause and is counted against its source in every later state. |
| TaskLost.LostKeepsSlot | packages/server/src/modelshelf_server/tasks.py:1183-1196 | Where runs exclude each other it also keeps its slot in the active runs for ever. |
| TaskLost.SecondRunFreesSlot | packages/server/src/modelshelf_server/tasks.py:1183-1196 | Elsewhere the slot of a lost run is taken over by a second run of the task, which gives it back. |
| TaskLost.LosesExactly | packages/server/src/modelshelf_server/tasks.py:468-564 | From a safe state a step loses a run if and only if it pauses or cancels the task of a run that was launched and has not taken its first step. |
| TaskLost.LossExact | packages/server/src/modelshelf_server/tasks.py:468-564 | A whole run of the manager loses no run if and only if none of its calls stops a task between launch and first step. |
| TaskLost.CountersReturn | packages/server/src/modelshelf_server/tasks.py:1183-1196 | Exactly then every per-source counter is the number of runs that are still on their way out. |
| TaskLost.LostBlocksSource | packages/server/src/modelshelf_server/tasks.py:1160-1217 | With one download per source nothing else of that provider ever runs after a lost run. |
| TaskWitness.LostRun | packages/server/src/modelshelf_server/tasks.py:468-497 | Create, one scheduler turn and a pause before the first step lose a run. |
| TaskWitness.RevivedTwin | packages/server/src/modelshelf_server/tasks.py:499-532 | A manager restarted on a failed task: asking again and resuming the failed task gives two open tasks for one ingestion. |
| TaskAdmission.DedupStep | packages/server/src/modelshelf_server/tasks.py:598-660 | From a deduplicated state a step keeps open ingestions distinct if and only if it is not the resume of a FAILED task whose ingestion is open again. |
| TaskAdmission.DedupAlways | packages/server/src/modelshelf_server/tasks.py:662-779 | Without such a resume no two open tasks of a provider other than HTTP ever share source, resolved revision, route and selection; for any limits on careful runs. |
| TaskAdmission.CreateDecides | packages/server/src/modelshelf_server/tasks.py:662-779 | A resolved request is queued or armed if and only if it is not refused, the catalog does not hold the artifact and no open task ingests it; for a held artifact a new record is COMPLETED and nothing is queued. |
| TaskAdmission.StepKey | packages/server/src/modelshelf_server/tasks.py:1292-1571 | No step changes provider or request of a record, nor its resolved revision while it is open, except for HTTP. |
| TaskQueue.KeptInOrder | packages/server/src/modelshelf_server/tasks.py:1160-1171 | The purge keeps exactly the QUEUED entries, each occurrence once, in their order. |
| TaskQueue.BestIsFirst | packages/server/src/modelshelf_server/tasks.py:1170-1181 | The scan ends with an eligible entry that no eligible entry precedes, the first among equals. |
| TaskInvariants.BestNone | packages/server/src/modelshelf_server/tasks.py:1177-1178 | The scan selects nothing if and only if no entry is eligible. |
| TaskQueue.PicksInOrder | packages/server/src/modelshelf_server/tasks.py:1198-1217 | The launches of one turn follow the queue order. |
| TaskQueue.NoOvertaking | packages/server/src/modelshelf_server/tasks.py:1198-1217 | A task left waiting is overtaken within a turn only when its source is full after the turn. |
| TaskQueue.TurnLaunches | packages/server/src/modelshelf_server/tasks.py:1206-1217 | The runs a turn creates are exactly its picks, in order, and older runs are unchanged. |
| TaskQueue.ReorderExact | packages/server/src/modelshelf_server/tasks.py:846-867 | A list that is exactly the waiting tasks gives the k-th task position k and writes nothing else; any other list changes no record. |
| TaskQueue.ReorderControlsPicks | packages/server/src/modelshelf_server/tasks.py:846-867 | After a reorder, launches of a turn follow the list. |
| TaskQueue.MoveQueuedExact | packages/server/src/modelshelf_server/tasks.py:869-889 | Moving a task puts it directly beside its target and keeps the relative order of every two others. |
| TaskRestart.StartExact | packages/server/src/modelshelf_server/tasks.py:330-378 | start puts QUEUED and interrupted tasks in the queue exactly once each, in the order of the positions 0..n-1 it gives out, makes exactly the RESOLVING, DOWNLOADING, VERIFYING and PUBLISHING ones QUEUED with the flags for staged resume, keeps PAUSED ones and every other record, and leaves a free next position. |
| TaskRestart.OrderSorted | packages/server/src/modelshelf_server/tasks.py:346-358 | The restart order is the interrupted tasks, oldest first, then the waiting ones in queue order. |
| TaskRestart.StartSafe | packages/server/src/modelshelf_server/tasks.py:330-378 | Whatever was persisted, the restarted manager meets every invariant the results about runs begin with. |
| TaskRestart.StartLoop | packages/server/src/modelshelf_server/tasks.py:341-345 | After start every SCHEDULED task has a sleeping timer and nothing is running. |
| TaskRestart.StartTimersExact | packages/server/src/modelshelf_server/tasks.py:341-374 | Timers sleep for exactly the SCHEDULED tasks, one each, and the next position is the larger of the number of ordered tasks and the free position. |
| TaskRestart.FreePositionExact | packages/server/src/modelshelf_server/tasks.py:284-290 | The free position is one past the largest stored one, and 0 without any. |
| TaskRestart.StartKeepsDedup | packages/server/src/modelshelf_server/tasks.py:330-378 | A restart neither creates nor resolves duplicate open ingestions. |
| TaskMetrics.Conserved | packages/server/src/modelshelf_server/tasks.py:910-1007 | Over non-overlapping sessions with an advancing clock, ended by the run or by a pause or cancel that captured its entries, stored elapsed time is the sum of the sessions' intervals and average times elapsed is the sum of the bytes each session gained. |
| TaskMetrics.ElapsedGrows | packages/server/src/modelshelf_server/tasks.py:976-1007 | Stored elapsed time never decreases and moves only by a report or a stop within a session. |
| TaskMetrics.StopKeepsBytes | packages/server/src/modelshelf_server/tasks.py:994-999 | Without an advancing clock a stop keeps the measured bytes if and only if time has passed or there are none. |
| TaskMetrics.PausedLikeStopped | packages/server/src/modelshelf_server/tasks.py:488-497 | Capturing the entries, letting the run leave and then stopping records what the run's own stop would have. |
| TaskMetrics.PercentInRange | packages/server/src/modelshelf_server/tasks.py:910-916 | Written percentages lie in 2..89 when downloaded is at most the total, and 89 means complete. |
| TaskMetrics.PercentExact | packages/server/src/modelshelf_server/tasks.py:917-923 | With a known size the percentage is 2 plus 87 hundredths of the download rounded down, below 89 until it is complete; otherwise 20. |
| TaskMetrics.ReportRecords | packages/server/src/modelshelf_server/tasks.py:910-963 | A report is recorded if and only if it is the last one or at least half a second after the one before; otherwise nothing changes. |
| TaskMetrics.FirstReportRecords | packages/server/src/modelshelf_server/tasks.py:965-974 | A new session does not wait for the reports of the one before. |
| TaskMetrics.DownloadMetrics.StartMetrics | packages/server/src/modelshelf_server/tasks.py:965-974 | Opens a session for one task and touches no other. |
| TaskMetrics.DownloadMetrics.Progress | packages/server/src/modelshelf_server/tasks.py:910-963 | Records progress unless throttled, as the reference event does, for one task only. |
| TaskMetrics.DownloadMetrics.StopMetrics | packages/server/src/modelshelf_server/tasks.py:976-1007 | Stops the metrics with what the caller captured or with the stored entries, as the reference event does, for one task only. |
| TaskMetrics.DownloadMetrics.DropMetrics | packages/server/src/modelshelf_server/tasks.py:1572-1581 | A run that ends without stopping drops its dictionary entries and keeps the record. |
| TaskManagers.TaskManager.constructor | packages/server/src/modelshelf_server/tasks.py:238-290 | A new manager is the booted state: next position one past every stored one, nothing queued. |
| TaskManagers.TaskManager.Start | packages/server/src/modelshelf_server/tasks.py:330-378 | Its loops over scheduled and ordered tasks take the restart transition; from any listed and credible store the object is then safe with at most one token per task. |
| TaskManagers.TaskManager.FindDuplicate | packages/server/src/modelshelf_server/tasks.py:598-660 | The scans find a task if and only if there is a COMPLETED one of a held artifact, else an open one of the same ingestion, and return such a task. |
| TaskManagers.TaskManager.CreateWithResult | packages/server/src/modelshelf_server/tasks.py:662-779 | Takes the admission transition and returns, unless refused, a task that answers the request: COMPLETED for a held artifact, otherwise open for the same ingestion; returning another task than the new one changes nothing. |
| TaskManagers.TaskManager.ReorderQueued | packages/server/src/modelshelf_server/tasks.py:846-867 | Renumbers exactly the listed waiting tasks in a loop, or refuses. |
| TaskManagers.TaskManager.MoveQueued | packages/server/src/modelshelf_server/tasks.py:869-889 | Sorts, moves one entry and renumbers, as the reference transition. |
| TaskManagers.TaskManager.ScanPending | packages/server/src/modelshelf_server/tasks.py:1160-1176 | The in-place scan deletes exactly the entries that are no longer QUEUED and ends with the best eligible index. |
| TaskManagers.TaskManager.NextSchedulable | packages/server/src/modelshelf_server/tasks.py:1160-1181 | Removes the best eligible entry, keeps the rest in order, and returns nothing if there is none. |
| TaskManagers.TaskManager.SchedulerTurn | packages/server/src/modelshelf_server/tasks.py:1198-1217 | Drains the queue and launches while below the maximum, as the reference turn. |
| TaskManagers.TaskManager.Perform | packages/server/src/modelshelf_server/tasks.py:238-1701 | Every step of the state machine is taken by a method with the same result, so each has exactly the effect `TaskEffects` gives for it, keeps the accounting, exclusion and timers, moves statuses only for their causes, and keeps single tokens and distinct ingestions if and only if it does not requeue or revive. |
| Encoding.EncodeSegmentInjective | packages/core/src/modelshelf_core/identity.py:13-14 | Unpadded base64url of UTF-8 is injective. |
| Encoding.Base64NoColon | packages/core/src/modelshelf_core/identity.py:13-14 | An encoded segment contains no colon. |
| IdentityFormats.Base64ByBits | packages/core/src/modelshelf_core/identity.py:13-14 | The k-th character is the base64url digit of bits 6k to 6k+5, and there are as many as the bits need. |
| IdentityFormats.Utf8Vectors | packages/core/src/modelshelf_core/identity.py:13-14 | One character of each length of UTF-8 and its bytes. |
| Identity.EscapePathSegment | packages/core/src/modelshelf_core/identity.py:17-34 | The loop over characters escapes as the reference function, refusing only the empty segment. |
| Identity.UnescapeEscape | packages/core/src/modelshelf_core/identity.py:17-40 | Unescaping inverts escaping on every non-empty segment, whatever the Unicode table says. |
| IdentityFormats.EscapeKeeps | packages/core/src/modelshelf_core/identity.py:17-34 | A segment stays as it is if and only if it is not empty, no dot component and has no unsafe character. |
| IdentityFormats.AsciiEscaped | packages/core/src/modelshelf_core/identity.py:17-34 | An unsafe ASCII character becomes a percent sign and two upper-case hexadecimal digits. |
| Identity.IdentityInjective | packages/core/src/modelshelf_core/identity.py:61-69 | Different sources have different identities. |
| IdentityFormats.IdentityVector | packages/core/src/modelshelf_core/identity.py:61-69 | The identity of one source, with and without a selection, spelled out. |
| IdentityFormats.PathLayout | packages/core/src/modelshelf_core/identity.py:72-88 | Where nothing needs an escape the path is provider, source id and revision, with the selection digest after the suffix. |
| Identity.AcceptedPathsDiffer | packages/core/src/modelshelf_core/identity.py:91-118 | An accepted path is exactly the one its source prints, and two accepted paths with the same identity are the same path. |
| Identity.PathsHaveOwnIdentity | packages/core/src/modelshelf_core/identity.py:91-118 | No other source has the identity of an accepted path. |
| Identity.PrintedIsAccepted | packages/core/src/modelshelf_core/identity.py:72-118 | Every printed path is accepted, and its identity is the artifact's own if and only if the revision neither imitates the selection suffix nor, with a selection, contains a newline. |
| Identity.ImitatedSelection | packages/core/src/modelshelf_core/identity.py:72-118 | A revision that ends like a selection prints the path of that selection and reads back as its identity. |
| CatalogIndexProofs.ReconcileExact | packages/core/src/modelshelf_core/catalog.py:513-545 | reconcile_index gives the rows the disk and the registry call for, and no others, if and only if every fingerprint it trusts is truthful. |
| CatalogIndexProofs.AccurateIsRebuilt | packages/core/src/modelshelf_core/catalog.py:513-545 | The table is accurate if and only if it is the one a rebuild from an empty table gives. |
| CatalogIndexProofs.FaithfulIsTruthful | packages/core/src/modelshelf_core/catalog.py:528-536 | Rows that differ from the disk only by a stale alias never have a misleading fingerprint. |
| CatalogHistory.ReconcileDecides | packages/core/src/modelshelf_core/catalog.py:513-545 | From any healthy catalog and a readable or unreadable table: a future schema version that has to be read leaves the table alone, and otherwise it becomes what a rebuild gives; nothing else changes. |
| CatalogHistory.IncrementalIsRebuild | packages/core/src/modelshelf_core/catalog.py:501-576 | Over every history of publish, set_alias, delete and reconcile with working index writes of publish, the table is the one a rebuild gives. |
| CatalogHistory.ReconcileRepairs | packages/core/src/modelshelf_core/catalog.py:501-545 | Whatever index writes failed on the way, one reconcile makes the table accurate. |
| CatalogHistory.StepHealthy | packages/core/src/modelshelf_core/catalog.py:420-576 | Each operation keeps the catalog genuine, unnested and its rows faithful, and accurate tables accurate. |
| CatalogHistory.PublishedForever | packages/core/src/modelshelf_core/catalog.py:420-453 | Until its own delete, what was published at a place stays there unchanged, whatever else the catalog holds. |
| CatalogHistory.PublishDecides | packages/core/src/modelshelf_core/catalog.py:420-453 | All five answers of publish: at a free place the manifest is stored with its parents and its row, so that it is found when the index write works; the same content is deduplicated, other content refused, an unreadable place or a path that does not print is an error; nothing else changes. |
| CatalogHistory.RepublishDecides | packages/core/src/modelshelf_core/catalog.py:429-435 | A second publish to a place is deduplicated when the content digest agrees and refused otherwise, changing no directory. |
| CatalogHistory.SetAliasDecides | packages/core/src/modelshelf_core/catalog.py:547-576 | An unknown artifact or a taken alias is refused by its own error and changes nothing; otherwise exactly this alias changes in the registry and the call succeeds exactly when the row shows it, always so on a readable catalog even when the first index write fails. |
| CatalogHistory.StepKeepsAliasesUnique | packages/core/src/modelshelf_core/catalog.py:547-576 | No operation gives two artifacts the same alias. |
| CatalogHistory.SamePathSameIdentity | packages/core/src/modelshelf_core/identity.py:72-88 | Two sources print the same path only if they are equal or one of them has a revision that does not read back. |
| CatalogHistory.DeleteAllOrNothing | packages/core/src/modelshelf_core/catalog.py:744-788 | delete removes directory, alias and row of one artifact and exactly the parents that led nowhere else when it is found and the writes work; otherwise it changes nothing and says whether the artifact was unknown or was put back. |
| CatalogHistory.PrunedExact | packages/core/src/modelshelf_core/catalog.py:781-788 | Removing empty parents upwards removes exactly the directories below the root that only lead to the deleted place. |
| CatalogHistory.PublishedIsFound | packages/core/src/modelshelf_core/catalog.py:631-646 | With an accurate table every published artifact is found at its place. |
| CatalogObject.CatalogIndex.Upsert | packages/core/src/modelshelf_core/catalog_index.py:178-184 | One row is inserted or replaced by its identity. |
| CatalogObject.CatalogIndex.Delete | packages/core/src/modelshelf_core/catalog_index.py:186-188 | One row is removed. |
| CatalogObject.CatalogIndex.Reconcile | packages/core/src/modelshelf_core/catalog_index.py:204-222 | One transaction: upserts, then drops unseen rows; a repeated id changes nothing. |
| CatalogObject.Catalog.ReconcileIndex | packages/core/src/modelshelf_core/catalog.py:513-545 | The loop with its shortcut and error cases is the reference reconcile. |
| CatalogObject.Catalog.Publish | packages/core/src/modelshelf_core/catalog.py:420-453 | Publishes, deduplicates or refuses as the reference transition, with the whole effect of `CatalogHistory.PublishDecides`: in particular the first publish to a free place stores the manifest and its row. |
| CatalogObject.Catalog.SetAlias | packages/core/src/modelshelf_core/catalog.py:547-576 | Writes the registry, indexes, and reconciles when the row does not show the alias. |
| CatalogObject.Catalog.Delete | packages/core/src/modelshelf_core/catalog.py:744-788 | Hides the directory first, rolls back registry and directory when a write fails, and prunes empty parents in a loop. |
| StorageStats.ComputeStats | packages/core/src/modelshelf_core/catalog.py:662-709 | The two loops of storage_stats compute the reference totals. |
| StorageStats.StatsSucceed | packages/core/src/modelshelf_core/catalog.py:664-703 | The scan succeeds if and only if every entry is a regular file of its declared size. |
| StorageStats.StatsPredictDeletion | packages/core/src/modelshelf_core/catalog.py:693-709 | Shared and exclusive bytes and files are those of the entries whose inode some other name leads to, and of the others; the allocated bytes are the blocks of their inodes, the exclusive ones exactly the blocks that unlinking the artifact's files frees; together they are the manifest's. |
| StorageStats.MetadataBytes | packages/core/src/modelshelf_core/catalog.py:711-728 | The loop over metadata paths counts the blocks of each inode once, or fails when a path is gone. |
| StorageStats.ReclaimableIsFreed | packages/core/src/modelshelf_core/catalog.py:711-742 | The reclaimable bytes are exactly the blocks freed when the files and the artifact's own metadata are unlinked. |
| Manifests.ValidateManifest | packages/client/internal/catalog/manifest.go:60-120 | Accepts a manifest if and only if its schema is supported, its required fields are there, its paths are safe and distinct, its sizes and hashes valid and its selection the set of its files. |
| Manifests.Verify | packages/client/internal/catalog/manifest.go:122-198 | Full verification reports exactly the faults there are: a missing file, a wrong type, size or hash for each entry, and a wrong count, overflow, total, content digest or identity of the manifest itself; hence none if and only if every file matches and the manifest agrees with itself. |
| Manifests.ExpectedIsIdentity | packages/client/internal/catalog/manifest.go:176-183 | The identity the client expects is the one the server gives that source and selection. |
| CopyJobs.EveryInterleavingIsSafe | packages/client/internal/syncer/sync.go:578-668 | Every interleaving of the workers' system calls keeps older inodes, unrelated names and finished copies. |
| CopyJobs.CopiesAreExact | packages/client/internal/syncer/sync.go:578-668 | A finished job's destination has the expected hash and its part file is gone, an unfinished one's destination is untouched, and so is every other name. |
| CopyPool.PoolIsExact | packages/client/internal/syncer/sync.go:578-622 | Over every schedule of the send loop, the workers and their calls, older inodes and unrelated names are kept, and a nil result means that every destination has its expected hash. |
| CopyPool.SuccessMeansCopied | packages/client/internal/syncer/sync.go:591-621 | With no first error and the caller's context alive, a finished pool has skipped no job: every one is copied. |
| CopyPool.OutcomeHasCause | packages/client/internal/syncer/sync.go:578-622 | A finished pool returns nil if and only if the caller's context is not done and no job was given up. |
| CopyProgress.CanSucceed | packages/client/internal/syncer/sync.go:578-668 | Where every source has its expected hash and no destination is a directory, some schedule of any number of workers ends with every job copied. |
| Materialise.Client.RunCopyJobs | packages/client/internal/syncer/sync.go:578-622 | The pool run to its end: a nil result means every job is copied and no part file is left, and it fails only when a call did; all calls stay in the staging tree. |
| Materialise.Client.PlaceEntry | packages/client/internal/syncer/sync.go:330-362 | Without a refused call a matching file is kept as it is, else a file of another artifact whose hash was checked is hard-linked, else the entry is left to be copied if the export has it at its size; only its own name changes and no content. |
| Materialise.Client.MaterializeManifest | packages/client/internal/syncer/sync.go:312-377 | From any staging contents and any reusable map, success means every entry has its hash, and with a collision-free hash its declared size where some content has both, and no names but listed files and their directories have appeared; it fails only for a refused call, a reserved path, an entry the export lacks or something in the way; no older inode is written and nothing outside staging changes, after any call. |
| Materialise.Client.PrepareStaging | packages/client/internal/syncer/sync.go:218-255 | A staging tree with the wanted record is left exactly as it is; any other is set aside whole into a new directory beside it, and what is then in staging is the record alone; it fails only for a refused call, a record that cannot be read or a file in the way. |
| Materialise.Client.Quarantine | packages/client/internal/syncer/sync.go:245-255 | The tree is moved into a new directory beside it, or a call was refused. |
| Materialise.Client.BuildStaging | packages/client/internal/syncer/sync.go:157-208 | Success means a tree that passed the full check and has its manifest and sync record but no staging record, and, unless an earlier attempt at the same content was resumed, no other file than the listed ones; failure means a refused call or one of the named obstacles. |
| Materialise.Client.WriteAtomic | packages/client/internal/syncer/sync.go:684-721 | A metadata file is replaced by a new inode with exactly the given content and no other name changes; without a refused call it fails only when its directory is missing or a directory has its name. |
| Materialise.Client.AtomicPublish | packages/client/internal/syncer/sync.go:749-777 | Before one call the destination shows the old tree, from it on the staging tree, and no other name changes; success means nothing is left at the staging path, and without a refused call it fails only when there is no staging tree or a file stands in place of a parent. |
| Materialise.Client.SyncArtifact | packages/client/internal/syncer/sync.go:106-216 | After every system call the destination shows either what it showed before or every verified file and its records, switching once, and nothing else unless an earlier attempt was resumed; every file elsewhere reads as before, hard links included. A verified artifact is left alone, a mistaken identity changes nothing, success means the full check was passed, and failure means a refused call or an obstacle that was there before. |
| LockFiles.EqualIsSameEntries | packages/client/internal/lockfile/lockfile.go:232-250 | Lock files with distinct keys are equal if and only if they have the same entries in some order. |
| LockFiles.KeysDiffer | packages/client/internal/lockfile/lockfile.go:189-202 | Declarations with different aliases, or without alias and with different sources, never share a key. |
| LockFiles.KeysExact | packages/client/internal/lockfile/lockfile.go:189-208 | For names without NUL two declarations have one key if and only if they have the same alias or, both without one, the same source, revision and set of files. |
| LockFiles.CanonicalExact | packages/client/internal/domain/types.go:140-156 | The canonical list is ascending, each name once, and has exactly the names of the list. |
| LockFiles.FindEntry | packages/client/internal/lockfile/lockfile.go:210-230 | The scan returns what the reference search does. |
| LockFiles.FindIsFirst | packages/client/internal/lockfile/lockfile.go:210-230 | The entry found is the first one the declaration names; there is none if and only if it names none. |
| LockFiles.FindNames | packages/client/internal/lockfile/lockfile.go:210-230 | Nothing is found if and only if no entry names the declaration; what is found is an entry that does. |
| LockFiles.Validate | packages/client/internal/lockfile/lockfile.go:111-140 | Accepts a lock if and only if its schema is the current one or missing, its entries are complete and their keys distinct; the alias check never adds anything. |
| LockReconcile.Select | packages/client/internal/syncer/sync.go:49-85 | The selection scan is the reference choice. |
| LockReconcile.SelectIsBest | packages/client/internal/syncer/sync.go:49-85 | By name the first fitting artifact is chosen, otherwise the newest fitting one, the first among equally new. |
| LockReconcile.ReconcileLock | packages/client/internal/cli/cli.go:934-1000 | The loop over the configuration computes the reference outcome, which is that of `LockReconcile.RunDecides`. |
| LockReconcile.RunDecides | packages/client/internal/cli/cli.go:934-1000 | From the contents of configuration, catalog and lock: which of the five answers a run gives, and for each entry it writes the declaration's fields, the artifact pinned by the first named and still matching entry or selected anew, and that entry's lockedAt if and only if it was for the same artifact, otherwise the time of the run. |
| LockReconcile.SavedKeeps | packages/client/internal/lockfile/lockfile.go:142-150 | The saved list holds the entries of the run, ascending by key. |
| LockReconcile.FrozenIsExact | packages/client/internal/cli/cli.go:934-1000 | For an existing lock and a clock that has moved on, a frozen run is accepted if and only if an ordinary run without update would not rewrite the lock. |
| LockReconcile.RerunIsUnchanged | packages/client/internal/cli/cli.go:948-993 | Rerunning on the saved lock with the same configuration, artifacts and update flag changes nothing if and only if no two declarations of the same alias name the same artifact. |
| LockReconcile.DistinctIsStable | packages/client/internal/cli/cli.go:948-993 | Then every entry is computed again as it was, with its lockedAt. |
| LockReconcile.RepeatedNamesExist | packages/client/internal/cli/cli.go:948-993 | An artifact whose alias is another one's identity: a valid configuration names both by it, and every rerun on the saved lock rewrites it. |
| SemVer.CheckIdentifiers | packages/client/internal/upgrade/upgrade.go:320-342 | The nested loops accept exactly lists of non-empty identifiers without forbidden characters or leading zeros. |
| SemVer.ParseVersion | packages/client/internal/upgrade/upgrade.go:283-318 | The loops parse as the reference parser, with its error cases. |
| SemVerText.ParsesExactly | packages/client/internal/upgrade/upgrade.go:283-342 | A string parses to a version if and only if it is that version printed in decimal, of numbers of at most 64 bits and valid identifiers, after an optional v and V, before an optional valid build, within spaces. |
| SemVer.CompareVersionStrings | packages/client/internal/upgrade/upgrade.go:252-281 | Compares as the reference order, or fails when either side does not parse. |
| SemVer.ComparePrerelease | packages/client/internal/upgrade/upgrade.go:344-377 | The index scan compares identifier lists as the reference order. |
| SemVer.TotalPreorder | packages/client/internal/upgrade/upgrade.go:252-377 | On all parseable versions the comparison is antisymmetric, transitive and zero if and only if numbers and prerelease agree. |
| SemVer.CoincidesWithSemVer | packages/client/internal/upgrade/upgrade.go:252-377 | The comparison is the precedence of section 11 of SemVer 2.0.0 if and only if the first different identifiers are not misordered: not two oversize numbers of which the longer is spelled first, nor an oversize number spelled after an alphanumeric identifier. |
| SemVer.FitsIsOrdered | packages/client/internal/upgrade/upgrade.go:344-377 | Numeric identifiers of 64 bits are never misordered. |
| SemVer.OversizeDiffers | packages/client/internal/upgrade/upgrade.go:344-377 | A misordered pair: twenty-one nines against a one with twenty-one zeros. |
| Gguf.DiscoverVariants | packages/server/src/modelshelf_server/providers.py:266-319 | The loops over files and groups compute the reference grouping. |
| Gguf.DiscoverIsPartition | packages/server/src/modelshelf_server/providers.py:266-319 | A non-empty result holds every non-dependency GGUF file exactly once, each variant being one file or shards 1 to n in order, with labels distinct up to case. |
| GgufDiscovery.DiscoverExists | packages/server/src/modelshelf_server/providers.py:266-319 | Variants are offered if and only if there are at most 5000 files, none is another weight format, and the weight files can be divided into well-formed variants with labels distinct up to case. |
| GgufDiscovery.DivisionIsUnique | packages/server/src/modelshelf_server/providers.py:296-319 | Any such division has the same files in the same order under the same labels as the result. |
| GgufDiscovery.DiscoverIsOrdered | packages/server/src/modelshelf_server/providers.py:315-319 | The result is ascending by case-folded label. |
| GgufDiscovery.VariantNamed | packages/server/src/modelshelf_server/providers.py:287-314 | A variant has the label of the first of its files in listing order, in that file's spelling. |
| GgufDiscovery.DependencyExact | packages/server/src/modelshelf_server/providers.py:245-282 | A dependency is a file whose base name contains one of the six markers in any case. |
| GgufDiscovery.ShardIsSpelled | packages/server/src/modelshelf_server/providers.py:241-244 | A shard is read from every spelling of prefix, number, count and extension; ShardSpells is the converse. |
| Gguf.ValidateGgufVariant | packages/client/internal/config/config.go:298-338 | The loop with its early exits accepts exactly one unsharded file or the complete shards of one prefix. |
| Gguf.DiscoveredIsAccepted | packages/client/internal/config/config.go:298-338 | The client accepts every discovered variant, in any order of its files, except exactly a single file that its pattern, with an empty prefix, takes for one shard of several. |
| Gguf.EmptyPrefixRefused | packages/client/internal/config/config.go:298-338 | A file whose whole name is a shard tail is discovered as a single file and refused by the client. |

## Left out

- Provider SDKs, HTTP, git and the isolated worker protocol: a provider is a step that returns, fails or is cancelled.
- Speed averages, remaining-time estimates and verification metrics: display values, or the same arithmetic as the download metrics.
- Alias reservation by open tasks and its check on creation: the source does not keep it for failed tasks; creation may be refused in the model.
- `stop` of the manager: histories are those before it.
- Staged provider results and inventories: whether a run fetches or reuses them is a choice of its events.
- File permissions, fsync and the race of two publishers of one path: the artifact lock orders publishers.
- Text search, sorting and paging of the index, and its schema versions.
- Symbolic-link references to artifacts, creation of the workspace itself and the scan for reusable files: `reusable` is any map.
- Loading, migrating and encoding of lock files, and the sync that follows the lock.
- Requesting a missing artifact from the server: the run ends as unavailable.
- TaskManagers.TaskManager.Perform: the writes of a run between two suspensions are one step; progress and verification counters are not part of the record.
- TaskManagers.TaskManager.CreateWithResult: does not model aliases; an alias conflict is one reason to refuse.
- TaskAdmission.DedupAlways: is about requests with a resolved revision; the source does not compare others.
- Manifests.ValidateManifest: the path check leaves out `path.Clean`, which the component check implies.
- Materialise.Client.SyncArtifact: takes the manifests at both ends as read; the JSON of manifests and records is not modelled. A tree resumed from an earlier attempt may still hold part files of that attempt, which the source does not look for.
- LockReconcile.ReconcileLock: ends with the candidate that would be saved.
- SemVer.ParseVersion: `strings.TrimSpace` removes an arbitrary set of characters.
- Gguf.DiscoverVariants: a file is its path; sizes are not modelled.
- TaskMetrics.DownloadMetrics.Progress: does not model the instantaneous speed, the remaining time and the start of local processing.
- StorageStats.ComputeStats: the filesystem does not change during the scan, so the check for a changed link count never fires.
- CatalogHistory.IncrementalIsRebuild: a manifest of a future schema stops every reconcile, so it is about catalogs without one.
