# RepoPlane: durable-state protocols in Dafny

RepoPlane is a local server whose durable state is a set of small protocols over tables, files and
processes. This project models those protocols and proves what they keep over every run.

- SQLite transactions, exclusive file creation and `rename` are atomic steps. Callers, publishers,
  maintenance and crashes interleave between steps, so the main theorems quantify over all event
  sequences from the initial state.
- Objects the program updates in place are classes whose methods are proved against specification
  functions (`RecordRepository`, `CacheTable`, `Disk`, `Repository`, `AdmissionLimiter`); loops are
  loops. The lemmas are about the specification functions.
- Hashes, HMACs and JSON encoding are taken as injective. Clocks, I/O faults and the encoded size of
  a response are parameters.

## Map

| area | files |
|---|---|
| record store, archives, merge, interleaving, fields, links | `Records`, `RecordArchives`, `RecordTransfers`, `RecordRoundTrip`, `RecordTransferMethods`, `RecordService`, `RecordSystem`, `RecordFields`, `RecordSchema`, `RecordConditions`, `RecordLinks`, `RecordWitnesses` |
| runner: state machine, single effect, recorded outcomes, directory swap | `Runs`, `RunEffects`, `RunOutcomes`, `Swap` |
| reuse cache and retention | `CacheKey`, `CacheKeyShapes`, `CacheOutputs`, `CacheStore`, `Protection`, `RetentionRules`, `Retention`, `RetentionWitnesses` |
| catalog generations, result sets, pages | `Catalog`, `CatalogRepository`, `CatalogReuse`, `Cursors`, `Pages` |
| stand-alone algorithms | `Limiter`, `LimiterRuns`, `LimiterAdmits`, `LimiterRates`, `JsonBounds`, `JsonBalance`, `Expressions`, `Glob`, `GlobText`, `PointerTokens`, `JsonPointer` |
| shared | `Wrappers`, `Clocks`, `Ordering`, `JsonValues` |

## Where the code does less than one might expect

Each with an input that shows it and the exact condition.

- A memo or checkpoint restored with a member the service does not know loses it in any update, even one
  that supplies nothing (`RecordWitnesses.RestoredMemberLost`): omitted fields are kept if and only if the
  stored payload is one the service would write (`RecordService.OmittedKeptExactly`). In runs of the
  services every payload is (`RecordFields.ReachableCanonical`), so there every field is kept
  (`RecordFields.EveryFieldKept`).
- A unique index in SQLite never collides on a NULL column, so two current memos of one identity may share
  a topic key (`RecordWitnesses.TwoCurrentMemos`): exactly when scope or configuration is missing, null or
  different in one of them (`RecordWitnesses.SharedTopicCoexists`). The services always write both
  (`RecordWitnesses.ServiceTopicsUnique`).
- Archive validation does not look at `supersedes`: restoring a hand-made archive can close a cycle
  (`RecordLinks.RestoreCanCloseCycle`); `RecordLinks.RestoreLinks` gives the exact condition, and exports
  of the services' own stores meet it (`RecordLinks.ExportAcyclic`). A memo that supersedes itself can never be
  replaced, and it is the only current memo at the expected revision that cannot (`RecordConditions.ReplaceExactly`).
- A cleanup that unlinks stream files while a call that has passed its checks has not yet opened
  `stdout.log` lets the plan start twice (`RunEffects.UntimelyCleanup`); `RunEffects.SecondStart` gives the
  exact condition.
- A run that is old enough for cleanup but still running keeps its streams, yet its artifacts do not
  protect their blobs (`RetentionWitnesses.RunningBlobRemoved`): a blob goes exactly when some finished,
  expired run has a droppable artifact with its hash (`RetentionWitnesses.BlobGoesExactly`).
- The cache key writes neither the number of arguments nor the number of checks (`CacheKey.CountsMatter`):
  two shapes can collide if and only if they differ and their argument counts have the same parity
  (`CacheKeyShapes.ShapesCollide`). For a fixed manifest it is injective (`CacheKey.ManifestDetermines`).
- `initializeCatalogRetention` leaves a retirement row that already names a current generation
  (`Catalog.StaleRowSurvives`); `Catalog.InitializeEstablishes` and `CatalogReuse.RetirementsExact` are
  if-and-only-ifs.
- The limiter reads the clock before it takes its lock. A principal can then exceed the rate because a
  reading from an earlier minute is decided late (`LimiterRates.MinuteBefore`, `LimiterRuns.RateNeedsOrder`)
  or because its entry is swept while a call of its is delayed (`LimiterRates.SweptMidMinute`). A decision
  makes that possible if and only if it is untimely (`LimiterRates.ExceedsExactly`): its reading is not
  after the minute of the principal's last admission, its entry does not remember that minute, and it is
  admitted or resets the entry. Readings in lock order are always timely (`LimiterRates.OrderedRunTimely`).
- Go's dot does not match a newline, so `**` and its regular expression differ on paths with one
  (`Glob.AgreementNeedsNoNewline`, an if-and-only-if).
- Section 4 of RFC 6901 forbids leading zeros in array indices; the resolver accepts them
  (`JsonPointer.LeadingZeroAccepted`, with the exact condition in `JsonPointer.ResolutionIsPath`).

## Model

| member | source | states |
|---|---|---|
| `Records.RecordRepository.Create` | internal/store/sqlite/records.go:616-648 | creating a row either fails with the store unchanged, or adds exactly the row and its revision 1; the store invariant holds after |
| `Records.RecordRepository.UpdateRow` | internal/store/sqlite/records.go:650-694 | the revision-checked update: every refusal leaves the tables as they were, success appends revision expected+1 |
| `Records.RecordRepository.ReplaceRow` | internal/store/sqlite/records.go:518-564 | retiring the memo at the expected revision and inserting its successor is one transaction, all or nothing |
| `Records.RecordRepository.ImportRow` | internal/store/sqlite/records.go:566-596 | an import inserts the record and its receipt together, or returns the earlier import |
| `Records.InsertKeeps` | internal/store/sqlite/records.go:616-648 | an insert keeps complete histories, unique indexes and sound receipts, and only appends |
| `Records.UpdateKeeps` | internal/store/sqlite/records.go:650-694 | an update keeps the invariant and rewrites no earlier revision |
| `Records.ReplaceKeeps` | internal/store/sqlite/records.go:518-564 | replacement keeps the invariant, rewrites no earlier revision, marks the old memo superseded with its payload intact and adds the successor under a fresh id |
| `Records.ImportKeeps` | internal/store/sqlite/records.go:566-596 | import keeps the invariant and is idempotent: importing again returns the same record and changes nothing |
| `RecordConditions.CollideExactly` | internal/store/sqlite/records.go:112-120 | two rows collide exactly when they are current memos of one owner with the same non-empty topic key, scope and configuration, or memos of one owner that supersede the same one |
| `RecordConditions.InsertExactly` | internal/store/sqlite/records.go:631-648 | in a sound store a row is created if and only if it is acceptable, its id is new and no other row holds its topic or successor link; exactly one row and one revision are added |
| `RecordConditions.UpdateExactly` | internal/store/sqlite/records.go:650-694 | an update succeeds if and only if it finds the caller's row of that kind at exactly the expected revision, its content is acceptable, the topic of a current memo stays and no other row holds its keys; it then takes revision expected to expected + 1 |
| `RecordConditions.ReplaceExactly` | internal/store/sqlite/records.go:518-564 | a replacement succeeds if and only if it finds the caller's current memo at exactly the expected revision, that memo does not supersede itself, and the successor is new and acceptable; it then takes revision expected to expected + 1, leaves revision expected alone and touches no other row |
| `RecordConditions.StaleRefused` | internal/store/sqlite/records.go:536-538 | a replacement based on another revision than the live one is a conflict |
| `RecordConditions.ImportExactly` | internal/store/sqlite/records.go:566-596 | an import is a duplicate exactly when its receipt exists, and then returns the record of that receipt; otherwise it succeeds exactly when the row can be created |
| `RecordConditions.RestoreExactly` | internal/store/sqlite/records.go:373-425 | an accepted restore has at most 100000 items, finds the identity unused and every id new, and leaves exactly the archive's rows there, all other rows unchanged |
| `RecordConditions.ExportComplete` | internal/store/sqlite/records.go:275-371 | an export holds exactly the identity's rows, revisions and receipts, the rows in id order |
| `RecordConditions.TopicStays` | internal/store/sqlite/records.go:121-137 | no step by any caller changes the topic key of a memo that stays current, nor, with a key, its scope or configuration |
| `RecordConditions.UndisturbedCommits` | internal/records/service.go:517-634 | an accepted request for the live revision is committed when nobody interferes and the store takes the merged row, and changes nothing else |
| `RecordArchives.Validate` | internal/store/sqlite/records.go:427-482 | validation accepts exactly the archives whose rows are one owner's store with revisions 1..n of every record, the last equal to the live row, and receipts of verification records |
| `RecordArchives.IndexRows` | internal/store/sqlite/records.go:428-445 | the rows loop accepts exactly well-formed rows of one owner with distinct ids, and indexes them |
| `RecordArchives.IndexRevisions` | internal/store/sqlite/records.go:446-459 | the revisions loop accepts exactly sound revisions of known records without a repeated number, and indexes them |
| `RecordArchives.CheckHistory` | internal/store/sqlite/records.go:460-474 | counting the revisions and finding each number is the same as having exactly 1..revision with the latest equal to the row |
| `RecordTransferMethods.ExportRecords` | internal/store/sqlite/records.go:275-371 | the export loops list exactly the identity's rows, histories and receipts in order, or report that the limit is exceeded |
| `RecordTransferMethods.RestoreRecords` | internal/store/sqlite/records.go:373-425 | restore commits the rebased archive whole or leaves the store unchanged, and keeps the invariant |
| `RecordTransfers.ExportValid` | internal/store/sqlite/records.go:275-371 | every export of a store satisfying the invariant passes archive validation |
| `RecordTransfers.RestoreKeeps` | internal/store/sqlite/records.go:373-425 | restoring any accepted archive keeps the invariant and only appends |
| `RecordRoundTrip.RestoreRoundTrip` | internal/store/sqlite/records.go:275-482 | an export within the item limit restores into any empty identity without clashing ids, and a second export equals the first up to ownership |
| `RecordService.MergeRecordUpdate` | internal/records/update.go:75-109 | the two overlay loops give exactly the stored fields overlaid by the supplied ones |
| `RecordService.OverlayInto` | internal/records/update.go:75-109 | ranging over the patch and assigning is the right-biased union |
| `RecordService.MergePrecedence` | internal/records/update.go:85-103 | field by field: a non-nil list, else the wire member, else the struct field, else what the record holds |
| `RecordService.MemoFieldUpdated` | internal/records/service.go:517-562 | a memo update, field by field and whatever was stored: a supplied value is written, explicit null and explicit emptiness included; an omitted field is what writing the stored payload again gives |
| `RecordService.CheckpointFieldUpdated` | internal/records/service.go:479-515 | the same for checkpoints: null gives the empty text, the empty list or an unknown dirty flag |
| `RecordSchema.WritesMemo` | internal/records/service.go:549-562 | a written memo holds memo_kind, scope, configuration, content and invalidation_condition always, each the given text or empty; title, summary, temporal_kind verbatim, topic_key in lower case and as_of in UTC only when not empty; the host in normal form unless null; and nothing else |
| `RecordSchema.WritesCheckpoint` | internal/records/service.go:509 | a written checkpoint holds goal, baseline_commit, next_action and change_summary as given, run_refs, remaining_checks, background_refs and risks as given or [], the dirty flag or null, and nothing else |
| `RecordSchema.MemoTextFits` | internal/records/update.go:105-107 | an accepted request supplies only strings or null for the texts of a memo |
| `RecordSchema.CheckpointMemberFits` | internal/records/update.go:105-107 | an accepted request supplies only values of the right type or null for a checkpoint |
| `RecordService.EvidenceUpdated` | internal/records/update.go:91-99 | evidence is the supplied list, or else what the record had |
| `RecordService.WrongTypeRefused` | internal/records/update.go:105-107 | a stored member of the wrong type refuses every update that does not replace it |
| `RecordService.WrittenCanonical` | internal/records/service.go:549-562 | writing what the service has written changes nothing |
| `RecordService.OmittedKeptExactly` | internal/records/update.go:21-23 | where an empty update is accepted, every accepted update keeps what it omits if and only if the stored payload is canonical |
| `RecordSystem.StepKeeps` | internal/records/service.go:831-872 | any single step by any caller, between the reads and the commit of others, keeps the system invariant and only appends |
| `RecordSystem.ReachableSound` | internal/store/sqlite/records.go:112-164 | in every reachable system histories are complete, topics and successors are unique, and every committed update overlays the revision it was based on |
| `RecordSystem.OneCurrentMemo` | internal/store/sqlite/records.go:112-120 | in every reachable store a scope, configuration and topic key have at most one current memo per identity |
| `RecordSystem.NoLostUpdate` | internal/records/update.go:58-109 | a commit at revision r that succeeds stores revision r overlaid by exactly the request, leaves revision r alone, and is the only one ever committed over r |
| `RecordSystem.NoLostReplacement` | internal/store/sqlite/records.go:518-564 | over every run a replacement that succeeds found its memo current at exactly the revision its caller had read, which no update or replacement had taken before, and leaves that revision alone |
| `RecordSystem.TakenOnce` | internal/store/sqlite/records.go:518-694 | over every run each revision of a record is taken by at most one service update or replacement |
| `RecordFields.ReachableCanonical` | internal/records/service.go:831-872 | in every run of the services each revision of a memo or checkpoint is a payload the service would write |
| `RecordFields.EveryFieldKept` | internal/records/update.go:21-109 | in every run of the services each committed update kept every field it omitted and wrote every field it supplied, empty and null values included, whatever other writers did in between |
| `RecordSchema.EveryMemberUpdated` | internal/records/service.go:479-562 | in every run of the services each committed memo update stored the supplied memo_kind, scope, configuration, content, invalidation_condition, title, summary and temporal_kind verbatim, topic_key in lower case, as_of in UTC and the host in normal form, and kept each of them that it omitted; likewise all nine members of a checkpoint |
| `RecordSchema.ReachableShaped` | internal/records/service.go:479-562 | in every run of the services each revision of a memo or checkpoint has exactly the members of its kind in that form |
| `RecordFields.ExportCanonical` | internal/store/sqlite/records.go:275-371 | an archive exported in such a run meets the condition under which restore keeps this |
| `RecordWitnesses.RestoredMemberLost` | internal/records/update.go:100-107 | any memo with one member more than the schema, restored and updated with nothing supplied, loses that member |
| `RecordWitnesses.SharedTopicCoexists` | internal/store/sqlite/records.go:112-120 | two current memos of one identity and one topic key can be stored together if and only if scope or configuration is missing, null or different in one of them |
| `RecordWitnesses.TwoCurrentMemos` | internal/store/sqlite/records.go:112-120 | such a pair is reachable |
| `RecordWitnesses.ServiceTopicsUnique` | internal/records/service.go:549-562 | in runs of the services two current memos with one topic key differ in scope or configuration |
| `RecordLinks.NoCycle` | internal/store/sqlite/records.go:162-164 | no walk along successor links returns to its start |
| `RecordLinks.OneSuccessor` | internal/store/sqlite/records.go:162-164 | a memo has at most one successor, so chains are disjoint |
| `RecordLinks.ReachableAcyclic` | internal/records/service.go:615-634 | in every run of the services the links are closed, stay within an identity and are acyclic |
| `RecordLinks.RestoreLinks` | internal/store/sqlite/records.go:373-425 | restore keeps the links acyclic if and only if the archive's own links are closed and acyclic |
| `RecordLinks.RestoreCanCloseCycle` | internal/store/sqlite/records.go:427-482 | an archive whose memo supersedes itself is accepted |
| `RecordLinks.ExportAcyclic` | internal/store/sqlite/records.go:275-425 | an archive exported in any run of the services has closed acyclic links, so restoring it needs no assumption |
| `Runs.HistoryIsPath` | internal/runner/execute.go:422-500 | whoever wins each revision, the states of a run record form a path of the state graph |
| `Runs.StepHistory` | internal/runner/execute.go:128-217 | every step keeps that invariant and only extends the history |
| `Runs.TerminalStays` | internal/runner/artifact.go:207-220 | once terminal, the state never changes; cleanup rewrites only terminal records |
| `RunOutcomes.RecoveryInterrupts` | internal/runner/execute.go:476-500 | from every reachable plan, a crash and an undisturbed recovery extend the history by exactly interrupted when the state was running or materializing, and change nothing otherwise |
| `RunOutcomes.RecoveryReads` | internal/runner/execute.go:483-489 | recovery takes up a record exactly when it is running or materializing |
| `RunOutcomes.RecoveryRecords` | internal/runner/execute.go:490-497 | in every reachable plan the write of a recovering call adds exactly interrupted unless the record has moved, and the record is terminal afterwards either way |
| `RunOutcomes.StartRecords` | internal/runner/execute.go:139-151 | a started process is recorded as running, or the call gives up because the record has moved |
| `RunOutcomes.StartFailureRecords` | internal/runner/execute.go:128-138 | a process that could not be started is recorded as failed unless the record has moved |
| `RunOutcomes.FinishRecords` | internal/runner/execute.go:202-221 | a waiting call records timed_out, cancelled, failed or completed by how its process ended, unless the record has moved, and leaves the table of running processes |
| `RunOutcomes.ClaimRecords` | internal/runner/cache.go:281-286 | a cache hit claims the plan by its revision or gives up |
| `RunOutcomes.CopyRecords` | internal/runner/cache.go:287-331 | a materialization ends as reused if and only if its copy was complete, otherwise as failed, unless the record has moved |
| `RunOutcomes.CleanupRecords` | internal/runner/artifact.go:211-220 | cleanup repeats the terminal state it read and gives up the streams, unless the record has moved |
| `RunOutcomes.ExecutionEnds` | internal/runner/execute.go:60-221 | an undisturbed plan without a cache hit starts once and its record goes prepared, running, outcome |
| `RunOutcomes.ReuseEnds` | internal/runner/cache.go:281-331 | an undisturbed plan with a cache hit is copied once and ends as reused exactly when the copy was complete |
| `RunOutcomes.NotReady` | internal/runner/execute.go:76-78 | a plan that is not ready never has an effect, whatever anyone does |
| `RunOutcomes.OneWaiter` | internal/runner/execute.go:152-162 | over every run at most one call waits for the process, and the table of running processes lists the plan exactly then |
| `RunEffects.AtMostOnce` | internal/runner/execute.go:73-143 | over every interleaving of calls, crashes, recovery and timely cleanup a plan has at most one effect, a start or a materialization by its own kind |
| `RunEffects.StepKeeps` | internal/runner/cache.go:281-331 | the exclusive stdout.log and the revision check leave at most one call entitled to the effect after every step |
| `RunEffects.SecondStart` | internal/runner/artifact.go:211-220 | when cleanup unlinks the stream files, a second start is still possible if and only if some call that passed its checks has not opened stdout.log |
| `RunEffects.UntimelyCleanup` | internal/runner/execute.go:73-113 | such a moment is reachable |
| `RunEffects.ReuseHappens` | internal/runner/cache.go:281-331 | an undisturbed plan with a cache hit is materialized once and ends as reused |
| `Swap.RunKeeps` | internal/runner/cache.go:449-481 | every step of a swap, a crash at any point and every step of recovery keep the disk recoverable |
| `Swap.SwapSurvives` | internal/runner/cache.go:449-517 | once nothing is in progress the root is the complete old tree or the complete new one, absent only if it was absent before, and no backup remains |
| `Swap.SwapInstalls` | internal/runner/cache.go:449-481 | a swap that runs to its end has installed the new tree |
| `Swap.SwapEnds` | internal/runner/cache.go:419-481 | from any idle state, every tree can be installed by an undisturbed swap |
| `Swap.RecoveryEnds` | internal/runner/cache.go:492-517 | from any crash, an undisturbed recovery reaches the idle state |
| `Swap.InstalledStays` | internal/runner/cache.go:492-517 | once the new tree is the root it stays so through crashes and recovery until the next swap |
| `Swap.AsideUndone` | internal/runner/cache.go:510-511 | a crash between moving the old tree aside and installing the new one is undone by recovery |
| `CacheKey.KeyInput` | internal/runner/cache.go:135-166 | the hasher loops write exactly the length-prefixed frames of the fixed fields, arguments, sorted inputs and sorted checks |
| `CacheKey.SortedKeys` | internal/runner/service.go:857-864 | the keys of a map in ascending byte order |
| `Ordering.LessExactly` | internal/runner/service.go:857-864 | the order is byte-wise: at the first difference the smaller byte, or the end, comes first |
| `CacheKey.FramesInjective` | internal/runner/cache.go:140-145 | a sequence of length-prefixed values can be read back in one way only |
| `CacheKey.KeyBytesDetermine` | internal/runner/cache.go:135-166 | with the argument and check counts fixed, equal bytes mean equal keys, field by field |
| `CacheKey.ManifestDetermines` | internal/runner/cache.go:50-68 | for one manifest the bytes determine configuration, arguments, input hashes and identities |
| `CacheKey.CountsMatter` | internal/runner/cache.go:154-160 | without the fixed argument count, two arguments and one input give the same bytes |
| `CacheKeyShapes.ShapesCollide` | internal/runner/cache.go:154-164 | different keys of two shapes (argument count, check count) can have the same bytes if and only if the shapes differ and the argument counts have the same parity |
| `CacheKey.ExpandArguments` | internal/runner/service.go:385-402 | one argument per template element with every placeholder substituted, and an error exactly when a value is missing |
| `CacheKey.SubstitutedPieces` | internal/runner/service.go:385-402 | the pieces of an argument are substituted one by one and put together in order |
| `CacheKey.KeyIdentities` | internal/runner/cache.go:50-68 | succeeds exactly when the executable and every key check are identified, with one identity for each |
| `CacheOutputs.SortCanonical` | internal/store/sqlite/cache.go:21-24 | after sorting, two reports compare equal exactly when they hold the same set of paths, hashes and sizes |
| `CacheOutputs.CheckOutputs` | internal/store/sqlite/cache.go:183-190 | comparing neighbours of the sorted list finds every repeated path |
| `CacheOutputs.SameOutputs` | internal/store/sqlite/cache.go:69-79 | the comparison loop is equality of path, hash and size lists |
| `CacheOutputs.SortOrdered` | internal/store/sqlite/cache.go:21 | sorting puts outputs in path order, whether or not paths repeat |
| `CacheStore.CacheTable.Publish` | internal/store/sqlite/cache.go:20-67 | an observation inserts or updates exactly one row as specified, or is refused with the table unchanged |
| `CacheStore.CacheTable.Observe` | internal/store/sqlite/cache.go:47-57 | the update of a stored row: counted, renewed, and quarantined for good when outputs differ |
| `CacheStore.CacheTable.Use` | internal/store/sqlite/cache.go:81-90 | only an active entry is counted as used |
| `CacheStore.CacheTable.Quarantine` | internal/store/sqlite/cache.go:92-104 | condemning an entry changes its state, reason and observation time, nothing else |
| `CacheStore.CacheTable.Expire` | internal/store/sqlite/cache.go:142-152 | deletes the oldest expired entries, at most the limit, and reports how many |
| `CacheStore.CacheTable.ProtectedHashes` | internal/store/sqlite/cache.go:106-140 | complete exactly within the limit, and then the hashes of all active unexpired entries |
| `CacheStore.RunFaithful` | internal/store/sqlite/cache.go:20-104 | after any operations every column of an entry follows from what was done to its key since insertion: outputs of the first observation, active exactly when all observations agree and nobody condemned it, expiry and time of the last one, uses counted only while active, qualifications and reason likewise |
| `CacheStore.QuarantineSticks` | internal/store/sqlite/cache.go:51-58 | quarantine is left only by deletion |
| `CacheStore.ExpiryBounds` | internal/store/sqlite/cache.go:142-152 | expiry takes only expired entries, at most the limit, and leaves the others unchanged |
| `CacheStore.ExpiryOldest` | internal/store/sqlite/cache.go:142-152 | an expired entry is kept only when the limit was reached, by entries that expired earlier, or together with a smaller key |
| `Protection.CollectRefs` | internal/runner/artifact.go:273-301 | the walk over a payload collects exactly the run and artifact ids that some string in it refers to |
| `RetentionRules.RefersExactly` | internal/runner/artifact.go:296-301 | a text refers to an id exactly when it is run_ or artifact_ and 32 lower-case hexadecimal digits, alone or after record: |
| `Protection.CollectProtected` | internal/runner/artifact.go:143-152 | an id is protected exactly when a current non-server record names it in its evidence or anywhere in its payload |
| `Protection.SortRunsOrdered` | internal/runner/artifact.go:157-159 | sorting keeps the runs and puts the newest first |
| `RetentionRules.SortedAtRank` | internal/runner/artifact.go:157-159 | each run is found at its rank: the number of runs dated later, or equally and listed earlier, where a run is dated by its finish, else its preparation, else its last write |
| `Protection.EligibleRuns` | internal/runner/artifact.go:160-168 | eligible are exactly the listed runs past the newest N, older than the cutoff, with a valid id and unreferenced |
| `RetentionRules.EligibleExactly` | internal/runner/artifact.go:160-168 | the eligible ids are those of the runs with at least N runs ahead of them, dated before the cutoff, with a valid id and not named by a current record |
| `Protection.IndexArtifacts` | internal/runner/artifact.go:169-195 | the hashes kept are exactly the cached ones and those of artifacts of staying runs or named artifacts |
| `Retention.SweepSafe` | internal/runner/artifact.go:196-253 | the pass removes only streams and blobs that may go, and its count covers every removal and never passes the limit |
| `Retention.SweepProtects` | internal/runner/artifact.go:143-253 | in the records' own fields: a stream directory is removed only for a run that ended, was finished (or else prepared, or else last written) before the cutoff, has at least N runs ahead of it and is unreferenced; a blob only if neither the cache nor a named artifact nor an artifact of a run that stays has its hash, and such a run has a stored artifact with it |
| `Retention.SweepCompletes` | internal/runner/artifact.go:196-253 | a pass that ends below the limit without a failed update has removed every such directory and blob, and the records say so |
| `Retention.SweepDone` | internal/runner/artifact.go:196-253 | a pass that ends below the limit without a failed update leaves nothing that the loops would remove |
| `Retention.Disk.SweepRuns` | internal/runner/artifact.go:196-253 | the nested loops over runs and artifacts are the specified sweep |
| `Retention.Disk.Cleanup` | internal/runner/artifact.go:131-258 | the whole pass: both guarantees over the listings as read, nothing changed without complete listings, and all removals including cache entries within the limit |
| `RetentionWitnesses.BlobGoesExactly` | internal/runner/artifact.go:221-252 | a pass that was not stopped removes a blob if and only if some ended, expired run has a stored artifact with its hash and neither a record nor the cache needs it |
| `RetentionWitnesses.DirectoryGoesExactly` | internal/runner/artifact.go:196-220 | a pass that was not stopped removes a stream directory if and only if its run ended, is dated before the cutoff, is past the newest N and is unreferenced |
| `RetentionWitnesses.RunningBlobRemoved` | internal/runner/artifact.go:188-210 | a blob named by a still-running old run is removed on account of another run |
| `Catalog.InitializeEstablishes` | internal/store/sqlite/catalog_retention.go:42-98 | initialization, including recovery of the pre-release column, makes retirement rows exist for exactly the non-current generations if and only if no row it finds names a current one |
| `Catalog.StaleRowSurvives` | internal/store/sqlite/catalog_retention.go:70-75 | the failing input: a row that names a current generation survives initialization |
| `Catalog.InitializeAgain` | internal/store/sqlite/catalog_retention.go:70-75 | initializing again changes nothing |
| `Catalog.InitializedTimes` | internal/store/sqlite/catalog_retention.go:55-75 | known retirement times are kept, unknown ones get the present time |
| `Catalog.PublishKeeps` | internal/store/sqlite/sqlite.go:313-384 | publishing, replacing and reactivating keep the invariant and make the generation current |
| `Catalog.PublishExactly` | internal/store/sqlite/sqlite.go:313-384 | publishing succeeds exactly for a valid generation whose id, if known, has its workspace and fingerprint; it retires only the replaced generation, at the creation time of the new one, and changes nothing else |
| `Catalog.PublishImmutable` | internal/store/sqlite/sqlite.go:328-355 | a stored generation is never changed by publishing |
| `Catalog.WithdrawKeeps` | internal/store/sqlite/catalog_retention.go:86-91 | the delete trigger keeps the invariant |
| `Catalog.PruneKeeps` | internal/store/sqlite/catalog_retention.go:120-143 | pruning keeps the invariant |
| `Catalog.PruneSpares` | internal/store/sqlite/catalog_retention.go:17-22 | pruning deletes at most the limit, only generations of the workspace retired at or before the cutoff that are current nowhere and have no unexpired result set, and leaves the rest as it was |
| `Catalog.PruneOldest` | internal/store/sqlite/catalog_retention.go:17-22 | a generation that meets these conditions is left only when the limit was reached, by generations retired earlier, or together with a smaller id |
| `Catalog.ReclaimOnly` | internal/store/sqlite/sqlite.go:45-48 | reclaiming deletes only expired result sets, at most the limit, and leaves the others unchanged |
| `Catalog.ReclaimOldest` | internal/store/sqlite/sqlite.go:45-48 | an expired set is left only when the limit was reached, by sets that expired earlier, or together with a smaller id |
| `Catalog.CreateReclaims` | internal/store/sqlite/sqlite.go:514-550 | creating a set reclaims at most 64 expired ones and is refused for an invalid set or an id still in use |
| `CatalogRepository.Repository.Initialize` | internal/store/sqlite/catalog_retention.go:42-98 | the two INSERT OR IGNORE statements give the specified rows |
| `CatalogRepository.Repository.Activate` | internal/store/sqlite/catalog_retention.go:77-118 | the upsert, its triggers and the explicit replacement time together are the specified activation |
| `CatalogRepository.Repository.Publish` | internal/store/sqlite/sqlite.go:313-384 | publish succeeds exactly as specified, and every refusal leaves the tables unchanged |
| `CatalogRepository.Repository.Prune` | internal/store/sqlite/catalog_retention.go:120-143 | deletes the specified batch and reports its size |
| `CatalogRepository.Repository.CreateSet` | internal/store/sqlite/sqlite.go:514-550 | reclaiming expired sets and inserting are one transaction |
| `CatalogRepository.Repository.FindSet` | internal/store/sqlite/sqlite.go:552-566 | returns a matching set that lives longest, or none exactly when none outlives the minimum |
| `CatalogRepository.Repository.Supersede` | internal/catalog/indexer.go:69-88 | comparing, publishing and re-reading on conflict, with another refresher publishing in between: success means the current generation has the built fingerprint, failure that it has not; no stored generation changes |
| `CatalogRepository.RivalMatches` | internal/catalog/indexer.go:77-86 | when a rival made the same fingerprint current, the re-read finds it |
| `CatalogRepository.Repository.Refresh` | internal/catalog/indexer.go:58-89 | a successful refresh leaves the returned generation current with the built fingerprint, changes no surviving generation, and a failed one only prunes |
| `CatalogReuse.RunKeeps` | internal/catalog/service.go:304-348 | over every interleaving of publishers, pruning, reclaiming, restarts and requests that resolve, sample and query in separate steps, live sets and pending results stay backed by an unchanged stored generation |
| `CatalogReuse.OpenedKeeps` | internal/store/sqlite/catalog_retention.go:42-98 | a new database, or one an earlier run left, is a start from which this holds |
| `CatalogReuse.RetirementsExact` | internal/store/sqlite/catalog_retention.go:42-143 | whatever tables the server comes up on, fresh, existing or recovered: over every run of publishes, reactivations, withdrawals, prunes and restarts retirement rows exist for exactly the non-current generations, if and only if no row found at the start names a current one |
| `CatalogReuse.ReuseAgrees` | internal/catalog/service.go:307-315 | a set found for a generation, key and flag holds what the query computes now from that generation, which is still stored, and lives fifteen minutes more |
| `CatalogReuse.PersistStores` | internal/catalog/service.go:316-347 | a request that finds none stores what the query computes from the generation it resolved, under the hash of that query, for thirty minutes from its clock reading |
| `CatalogReuse.PreimageInjective` | internal/catalog/service.go:309 | for one generation the hashed query determines the flag and the key |
| `Cursors.RoundTrip` | internal/cursor/codec.go:42-87 | a cursor decodes to what was encoded until the last whole second before expiry, then is reported expired |
| `Cursors.Authentic` | internal/cursor/codec.go:62-87 | every accepted cursor is one that encoding its fields with the same key produces |
| `Cursors.AcceptedExactly` | internal/cursor/codec.go:42-87 | a cursor is accepted if and only if this codec encoded it with the same key, for the demanded workspace, and its last whole second is not over |
| `Cursors.ExpiryKept` | internal/catalog/service.go:350-356 | a cursor re-encoded from a decoded one keeps its expiry |
| `Pages.ReadPage` | internal/catalog/service.go:358-399 | the shrinking loop returns the specified page |
| `Pages.ShrunkLongest` | internal/records/service.go:1674-1706 | a served page is the longest that fits the byte limit and is non-empty unless nothing is available; refusal means not even one item fits |
| `Pages.PageLongest` | internal/catalog/service.go:358-399 | a page holds as many items as the limit and the rest of the set allow, fewer only because every longer page is too large |
| `Pages.StepHolds` | internal/store/sqlite/sqlite.go:514-550 | no event removes or changes a result set before it expires |
| `Pages.WalkCovers` | internal/catalog/service.go:350-399 | following cursors with any limits and any events in between returns the remaining items exactly once in order, each page non-empty and within its own item and byte limits, stops early only on expiry or a page that cannot fit, and ends |
| `Pages.FirstPageCovers` | internal/records/service.go:1620-1652 | a first page and the walk from its cursor return the whole set from the start |
| `Limiter.StepKeeps` | internal/httptransport/server.go:326-365 | every slot, clock and table step keeps slots, per-principal counts and references consistent |
| `Limiter.AdmissionLimiter.Decide` | internal/httptransport/server.go:335-363 | the critical section with its sweep, lookup and charge gives the specified table and verdict |
| `Limiter.AdmissionLimiter.TakeSlot` | internal/httptransport/server.go:327-331 | a slot is taken exactly when one is free |
| `Limiter.AdmissionLimiter.Evict` | internal/httptransport/server.go:335-341 | the sweep of a full table removes exactly the idle entries not seen for two minutes |
| `Limiter.AdmissionLimiter.Release` | internal/httptransport/server.go:364 | releasing counts down the entry the call was given and returns its slot |
| `LimiterRuns.SlotsConserved` | internal/httptransport/server.go:326-365 | held slots are the sum of the listed principals' active calls plus calls in transit, and the global, per-principal and 1024-entry bounds hold |
| `LimiterRuns.BusyStaysListed` | internal/httptransport/server.go:335-341 | no step drops or replaces the entry of a principal with calls being served |
| `LimiterRuns.RateHolds` | internal/httptransport/server.go:334-360 | with clock readings in lock order no principal exceeds the rate in any calendar minute, evictions or not |
| `LimiterAdmits.AdmitsExactly` | internal/httptransport/server.go:326-365 | with clock readings in lock order a call is admitted if and only if its principal had fewer than the rate's admissions in this minute, has fewer than its share being served, and is listed or finds room among 1024 entries |
| `LimiterAdmits.DecidedExactly` | internal/httptransport/server.go:335-360 | whatever the readings, a decision admits exactly when there is room after the sweep of idle entries and the entry charged is below both limits |
| `LimiterRuns.RateNeedsOrder` | internal/httptransport/server.go:332-334 | an out-of-order reading lets two calls pass in a minute that allows one |
| `LimiterRates.RateHolds` | internal/httptransport/server.go:332-363 | while a principal's own decisions are timely it never exceeds the rate in any calendar minute, whatever the clock and other principals do |
| `LimiterRates.ExceedsExactly` | internal/httptransport/server.go:332-363 | after timely decisions, the next one makes a later excess possible, by timely decisions alone, if and only if it is untimely |
| `LimiterRates.OrderedRunTimely` | internal/httptransport/server.go:332-335 | clock readings in lock order make every decision timely |
| `LimiterRates.MinuteBefore` | internal/httptransport/server.go:352-354 | under any limits, a reading from the minute before an admission gives an untimely decision |
| `LimiterRates.SweptMidMinute` | internal/httptransport/server.go:335-351 | under any limits, a sweep of the full table by another principal's reading makes a delayed call of a principal whose readings all lie in one minute untimely |
| `JsonBounds.ValidateBounds` | internal/mcpserver/operations.go:290-333 | the byte loop gives the scanner's verdict |
| `JsonBounds.AcceptsExactly` | internal/mcpserver/operations.go:290-333 | on the text of any document, whatever its blanks and string contents, the scanner accepts exactly within depth 64 and 10000 openers and commas, and otherwise reports the limit |
| `JsonBalance.AcceptsTextExactly` | internal/mcpserver/operations.go:290-333 | any byte string is accepted if and only if its string literals end and outside of them the brackets balance, at most 64 deep, with at most 10000 openers and commas |
| `GlobText.CompileGlob` | internal/runner/service.go:826-855 | the text the loop returns reads as a regular expression that accepts a newline-free path if and only if the pattern matches it |
| `GlobText.PiecesRead` | internal/runner/service.go:826-855 | reading the written text character by character as a regular expression gives the pieces back |
| `GlobText.PiecesDenote` | internal/runner/service.go:826-855 | the expression so read accepts exactly what the pieces accept |
| `Glob.CompiledAgrees` | internal/runner/service.go:826-855 | on every newline-free path the pieces accept exactly what the direct matcher accepts |
| `Glob.AgreementNeedsNoNewline` | internal/runner/service.go:826-855 | a path is treated alike by all patterns if and only if it has no newline |
| `Glob.SameSlashes` | internal/runner/service.go:826-855 | without `**` a pattern accepts only paths with as many slashes as it has |
| `PointerTokens.DecodeToken` | internal/dataquery/service.go:294-312 | the decoding loop with its skipped index is the recursive decoding, refusing exactly the malformed escapes |
| `PointerTokens.SplitTokens` | internal/dataquery/service.go:269 | the splitting loop gives the tokens between slashes |
| `PointerTokens.DecodeEscape` | internal/dataquery/service.go:294-312 | decoding undoes escaping |
| `PointerTokens.SplitJoin` | internal/dataquery/service.go:269 | splitting undoes joining slash-free tokens |
| `JsonPointer.ResolvePointer` | internal/dataquery/service.go:261-292 | the loop gives the specified value or error |
| `JsonPointer.ResolvesPath` | internal/dataquery/service.go:261-292 | escaping, joining and resolving any path of a document returns the value there |
| `JsonPointer.ResolutionIsPath` | internal/dataquery/service.go:261-292 | every success is a real path with that value, written in the standard form if and only if no index has leading zeros |
| `JsonPointer.FailureHasCause` | internal/dataquery/service.go:261-292 | every refusal is for want of a leading slash or at the first token that fails, with the error that token deserves: a bad escape, a missing member, an index that is no number below the length, or a scalar |
| `JsonPointer.LeadingZeroAccepted` | internal/dataquery/service.go:281-286 | an index with leading zeros resolves |

## Left out

- SQL text, driver errors, WAL and connection handling, schema migrations other than catalog retention.
- Request validation, error-to-code mapping, public messages and limit defaults: branch tables settled by reading.
- Process launching, Git, ripgrep, HTTP serving, OAuth, path resolution, symlinks and Windows variants: foreign behaviour.
- `SearchCatalog` scoring and the manifest parsing in `Build`: a query is an arbitrary function of a generation's content, so reuse is proved for every one of them.
- The search and data-query pagers: the same loop as the modelled one.
- Runtime access, usage totals, bounded writers, text codecs and the HTTP restart rollback.
- JSON equality in SQLite between a boolean and the number it is stored as is not modelled.
- Execute, waitForRun, executeCacheHit and Recover are steps over values rather than a class, because what is proved is about their interleaving; process output and artifact observation between the steps are not part of it.
- Retention.Disk.Cleanup: takes the two record listings as it read them; writers between the listings and the removals appear only as failed updates. A missing cache behaves as an empty one.
- RunEffects.AtMostOnce: assumes that stream files are unlinked only when no call is between its checks and opening stdout.log, which the fourteen-day retention age provides in practice.
- Swap.SwapSurvives: one swap per root at a time, no I/O errors, and fewer than 64 markers; an unreadable marker and an abandoned stage directory stay behind as litter.
- CatalogReuse.ReuseAgrees: a request, and the refresh inside it, ends within the largest time limit of 30 seconds, and clock readings used for pruning are not in the future.
- Pages.WalkCovers: reading a page is one step, although the store uses two queries.
- RecordService.MergeRecordUpdate: covers the overlays up to the merged object; whether that object decodes and passes validation and the checks against the stored record is a parameter, for which only decoding by type is spelled out.
- CacheKey.ExpandArguments: takes each template element already split into literals and placeholders, as the regular expression does.
- CacheStore.CacheTable.Publish: the state and the observation count of a new entry are fixed to active and one, as its only caller passes them.
- CatalogRepository.Repository.Supersede: one rival publication at most, between the comparison and the publication.
- CatalogRepository.Repository.Refresh: prunes and supersedes without other writers in between; their interleaving is the subject of the runs in `CatalogReuse`.
- CacheStore.RunFaithful: the observation counter does not wrap at 64 bits, and one project and workspace is modelled.
- GlobText.CompileGlob: patterns are ASCII, since the compiler works byte by byte; the reader of regular expressions covers the operators it writes and refuses others.
- The Retry-After value of a refused request.
