# Goggles, modelled and proved in Dafny

Goggles ingests append-only audit logs from many recorders ("engines") and keeps several fast or
derived forms of the same evidence: incrementally projected rows, persisted rollups, a bounded remote
retrieval, timelines, bundles. Each derived form is supposed to agree with a simple definition. This
project models the code that maintains those forms and proves that it does, or exactly when it does.

`dafny verify dfyconfig.toml` checks the whole project.

## How the project is laid out

| module | what it models |
|---|---|
| `Orders` | sorting, filtering and orders shared by the other modules |
| `Convergence`, `RunMeaning` | one recorder's convergence runs: the state machine, its replay, the reconstruction of its live state from persisted rows, and what the rows mean |
| `Projection`, `ProjectionHistory`, `ExplicitRuns`, `ProjectionLimits`, `ProjectionStore`, `ProjectionProtocol`, `ProjectionInterleavings` | a group's projection rows: full rebuild, incremental append, the ordering guard, whole histories, recorders that name every run, the accepted inputs on which append and rebuild part, the projector as code over mutable state, and concurrent uploads and rebuilds as interleaved transaction steps |
| `Divergence`, `DivergenceCounts` | the divergence rule, the streaming pass, the migration's copy, the trace and matrix pages |
| `Ingest`, `IngestProtocol`, `IngestInterleavings` | deduplication and rollups of one upload, then concurrent uploads as interleaved transaction steps |
| `EvidenceLedger`, `LokiReader`, `Investigation` | the evidence ledger, tie-resolving pagination, the two-phase investigation |
| `Bundle`, `JsonScanner`, `Timeline`, `Epochs`, `ProgressInput`, `Tokens` | the smaller stateful cores |

## Main results

- **Incremental projection.** For every stored log and every upload, appending onto persisted rows equals one replay
  of both if and only if the rows reconstruct to the live state or the upload does not consult it
  (`AppendExact`); for a whole group and for whole histories, overrides and explicit runs included,
  `UploadFaithful` and `HistoryExact` say the same. Hence every history without run ids or overrides is
  faithful, whichever path each upload took (`RunIdFreeHistory`), and its rows are characterised from the
  log alone (`PersistedRunsMean`). For recorders that name every run, an upload in any order is exact if
  and only if each run's evidence, as it arrived, decides the same columns as in order
  (`ExplicitAppendExact`). Four families of accepted events on which append and rebuild part are in
  `ProjectionLimits`. Under the group locks every interleaving of uploads and rebuilds gives each group
  the rows of its serial history (`ProjectionsAreSerial`), so run-id-free evidence stays faithful in all
  of them (`InterleavingIsFaithful`). NULL wall times are allowed throughout and sort last, as in
  PostgreSQL.
- **Concurrent ingestion.** Every interleaving of uploads whose lines name an engine commits exactly what storing
  the committed uploads one at a time would, for any lock-key function, collisions included
  (`InterleavingIsSerial`), so no (line hash, engine) is stored twice, every rollup is exact, each
  file's stored rows and duplicates add up to its lines, and exactly the accepted lines are stored (`InterleavingIsSound`).
- **Bounded retrieval.** Assuming only that body digests are 64 hex digits, a normal return of `retrieve` has handed
  over exactly the matching rows of the window whose `audit_sha256` label is a digest, for any page size
  and any tie order. So nothing at all was lost if and only if every matching label is a digest; a row
  with another label can be dropped at a tie without an error (`RowGetsLost`). An unresolvable tie is
  reported only if one (timestamp, digest) pair fills a page, and a normal return means that none does
  (`LokiReader.Reader.Retrieve`). With faithful labels a successful investigation answers what loading
  the whole window and selecting afterwards would (`Investigation.Investigate`).
- **Divergence.** The streaming pass, the migration's copy, the trace page and the matrix page all compute one
  declarative rule, which ignores event order.
- **Smaller cores.** Bundle publication under arbitrary failures; the nesting scanner on every text of every JSON
  value; timeline conservation; epoch roles; chunked reading under a deadline; token rekeying.

## Model

| member | source | states |
|---|---|---|
| `Convergence.EventOrder` | forensics/projections.py:237-246 | the row order (wall time with NULL last, engine, line, id) is a total preorder, so every log has a chronological form |
| `Convergence.RowOrderMeans` | forensics/projections.py:147-157 | events are read in order of time with NULL last, then engine in code-point order, line and row id, none added or lost |
| `Convergence.FoldConcat` | forensics/projections.py:174-175 | projecting a log in two parts, carrying the live state, is projecting it whole |
| `Convergence.FoldIgnoresInert` | forensics/projections.py:620-629 | dropping every event that cannot touch convergence changes neither rows nor live state |
| `Convergence.StepInOrder` | forensics/projections.py:632-676 | one event at or after everything stored keeps: evidence of each inferred run sorted, its start the wall time of its first evidence, starts ascending over rows, and the open run the newest inferred row with no terminal evidence last |
| `Convergence.ReplayInOrder` | forensics/projections.py:327-344 | every chronological log without overrides replays into that invariant |
| `Convergence.ReconstructInOrder` | forensics/projections.py:249-285 | from such rows alone, the latest-inferred query finds the newest inferred run, and finds the live run whenever there is one |
| `Convergence.StaleIsClosedOnlyInMemory` | forensics/projections.py:295-318 | the persisted rows show a run as open that the live state has closed exactly when an explicit-run event closed it and nothing inferred came since |
| `Convergence.FoldForgetsActive` | forensics/projections.py:638-649 | live states that differ only in the open run lead to the same rows for an upload that does not consult it before an explicit run resets it |
| `Convergence.ClosedRunIsFrozen` | forensics/projections.py:659-676 | an inferred run that is not the open one never changes again, whatever follows |
| `Convergence.EvidenceOnlyGrows` | forensics/projections.py:653-654 | every run's evidence after any further events extends its evidence before |
| `Convergence.AppendExact` | forensics/projections.py:139-175 | for every stored log and upload, in any order, with any overrides: appending onto persisted rows, live state thrown away and reconstructed, equals one replay of both if and only if the rows reconstruct to the live state or the upload does not consult it |
| `Convergence.LosesLiveInOneWay` | forensics/projections.py:295-318 | a chronological log without overrides fails to reconstruct exactly when an explicit-run event closed a run only in memory |
| `Convergence.ConsultingTellsApart` | forensics/projections.py:659-676 | an upload that consults the live state ends in different rows for any two different live states |
| `Convergence.NotOpenTakesOnlyExplicit` | forensics/projections.py:638-656 | a run that is not the open one only ever takes explicit-run evidence |
| `Convergence.NoExplicitNeverStale` | forensics/projections.py:638-641 | a log without explicit run ids never closes a run only in memory |
| `RunMeaning.UpdateSummarises` | forensics/projections.py:691-737 | after each update, every column of a run is a function of its evidence: start and end are min and max, account the first non-empty one, phase the last non-empty one, each selected field and candidate the last write, rules the concatenation over decisions, the inferred flag the last override |
| `Convergence.ReplayOpenIs` | forensics/projections.py:632-688 | the machine is open exactly while the log, read by itself, has a run in flight, and holds exactly that run's evidence |
| `RunMeaning.ReplayMeans` | forensics/projections.py:620-688 | for every log in any order, explicit runs included: each row summarises its evidence; every event that is evidence, as read off the log alone, belongs to exactly one run; no inferred run holds an explicit event, starts with a bare epoch change or continues past its terminal event; explicit run ids are unique; a run is open exactly between such boundaries |
| `RunMeaning.RunIdFreeRunsTile` | forensics/projections.py:632-688 | without run ids, the runs laid end to end are the evidence log itself, and every run but the open one ends at its terminal event |
| `RunMeaning.ReportsMeans` | forensics/projections.py:701-706 | the phase an event gives its run is the first non-empty of kind phase, context phase, implied phase and outcome |
| `RunMeaning.ClosesMeans` | forensics/projections.py:683-688 | a run closes exactly at an epoch change to one of the four closing states, or at a run state when the run then shows one of the five closing phases |
| `RunMeaning.KeptMeans` | forensics/projections.py:620-635 | evidence is exactly: events that name an engine and are of a convergence type, carry a convergence context, or change the epoch while a run is open |
| `RunMeaning.BoundaryLaw` | forensics/projections.py:632-688 | for every log in any order, on event columns: every run shows the phase its evidence reported last, no inferred run continues past its close, and a run is open exactly while its last evidence does not close it and nothing named a run since |
| `RunMeaning.RunIdFreeBoundaries` | forensics/projections.py:632-688 | without run ids only a close separates two runs, and the last one is open unless it closed |
| `RunMeaning.PersistedRunsMean` | forensics/projections.py:110-175 | after any run-id-free history of uploads and rebuilds, a recorder's persisted rows laid end to end are its evidence in order, each is the function of its evidence, none continues past its close, and every row but the last ends at its close |
| `Projection.ProjectAllRecorder` | forensics/projections.py:355-368 | a recorder's runs depend only on its own events, however the file interleaves recorders |
| `Projection.RebuildRuns` | forensics/projections.py:327-344 | a rebuild gives each recorder the replay of its own sorted convergence evidence |
| `Projection.AppendRuns` | forensics/projections.py:171-175 | the incremental path gives each recorder the append of its own sorted evidence onto its own rows |
| `Projection.TouchLogAppend` | forensics/projections.py:237-246 | when no uploaded evidence sorts before stored evidence of its recorder, the sorted union is the sorted stored log followed by the sorted upload |
| `Projection.AppendMatchesRebuild` | forensics/projections.py:139-175 | for one recorder of a group, an in-order append reproduces the full rebuild if and only if it does not consult a live state that the rows no longer show |
| `Projection.GuardEnsuresOrder` | forensics/projections.py:178-234 | when the backfill guard stays silent on evidence without run ids or overrides, the upload appends in order for every recorder and loses nothing |
| `ProjectionHistory.ProjectAllOneRowEach` | forensics/projections.py:355-368 | projecting events adds exactly one NetworkObservation, StateDelta or EpochStateTransition per qualifying event and no other row |
| `ProjectionHistory.ProjectAllArtifacts` | forensics/projections.py:398-478 | artifacts and observations stay min, max, evidence set and sorted mode set over all events naming the message |
| `ProjectionHistory.ModesStep` | forensics/projections.py:849-854 | appending a mode keeps the list strictly sorted and equal to the set of modes seen |
| `Orders.StringLeqMeans` | forensics/projections.py:849-854 | the sort order of modes is code-point order: a prefix, or smaller at the first character where two strings part |
| `ProjectionHistory.ArtifactUnique` | forensics/projections.py:398-478 | that description leaves no freedom: it fixes every modelled column of the artifact |
| `ProjectionHistory.RebuildFaithful` | forensics/projections.py:327-352 | a rebuild gives every table its declared contents |
| `ProjectionHistory.UploadReduces` | forensics/projections.py:139-175 | for any upload in any order, the whole group stays faithful if and only if the guard fires or every recorder's own log appends to what one replay of it gives; the other tables stay exact whatever the order |
| `ProjectionHistory.UploadFaithful` | forensics/projections.py:139-175 | one upload, guard included, keeps the whole group faithful if and only if it is safe; on the fallback no event is projected twice |
| `ProjectionHistory.HistoryFaithful` | forensics/projections.py:110-175 | after any history of safe uploads and rebuilds, every recorder's runs equal one full rebuild of the log, every qualifying event has exactly one row and every artifact is exact |
| `ProjectionHistory.HistoryExact` | forensics/projections.py:110-175 | an orderly history is faithful after every one of its actions if and only if every upload is safe |
| `ProjectionHistory.RunIdFreeHistory` | forensics/projections.py:110-344 | every history without run ids or overrides is faithful: the ordering guard alone suffices |
| `ProjectionHistory.FaithfulArtifactsEqual` | forensics/projections.py:398-478 | two upload orders of one log end with equal artifacts and the same event rows |
| `ProjectionLimits.AcceptedHistory` | forensics/ingest.py:383-387 | for events that pass the v4 schema, naming no run is all a history needs to be faithful |
| `ProjectionLimits.MixedRunsPart` | forensics/projections.py:638-641 | an inferred run left open and an explicit event in one upload, then a continuation in the next: append differs from rebuild |
| `ProjectionLimits.MixedRunsWitness` | forensics/projections.py:295-318 | concrete accepted events on which that happens |
| `ProjectionLimits.ExplicitBackfillUnguarded` | forensics/projections.py:288-292 | explicit-run evidence that is not of a convergence type escapes the guard: out of order, the run's phase is that of the last arrival, while a rebuild shows that of the latest event |
| `ProjectionLimits.ExplicitBackfillWitness` | forensics/projections.py:178-234 | concrete accepted events on which that happens |
| `ExplicitRuns.StepById` | forensics/projections.py:638-649 | an explicit event changes the row of its own run id and no other |
| `ExplicitRuns.RowsAgreeExactly` | forensics/projections.py:691-737 | two orders of one run's evidence give the same row, columns and evidence set, exactly when they decide the same account, phase, flag, fields, candidates and rules; key, span and evidence never depend on order |
| `ExplicitRuns.ExplicitAppendExact` | forensics/projections.py:139-175 | for a recorder that names every run, an upload in any order gives the rebuilt table if and only if, for every run id, its evidence as it arrived decides the same columns as in order |
| `ExplicitRuns.InOrderSettles` | forensics/projections.py:178-234 | that holds for every run whose own evidence arrives in order |
| `ExplicitRuns.ExplicitHistory` | forensics/projections.py:110-175 | every history of such a recorder ends with the rebuilt table if that condition held wherever the guard did not step in |
| `ExplicitRuns.ExplicitInOrderHistory` | forensics/projections.py:110-175 | in particular when each run's evidence is uploaded in order |
| `ProjectionLimits.NamedBetweenParts` | forensics/projections.py:638-641 | late evidence of a named run, not of a convergence type, that sorts between an inferred opener and its continuation: the guard is silent, the append shows two rows and the rebuild three |
| `ProjectionLimits.NamedBetweenWitness` | forensics/projections.py:178-234 | concrete accepted events on which that happens |
| `ProjectionInterleavings.RunInv` | forensics/ingest.py:246-289 | every interleaving of locking, inserting, projecting, committing and failing keeps: committed groups equal their serial histories, inserted ids above everything committed to the locked groups, computed rows still what the committed state prescribes |
| `ProjectionProtocol.CommitGroup` | forensics/projections.py:138-175 | a commit is one more action in each of its groups' histories, with row ids above all earlier ones |
| `ProjectionProtocol.CommitKeepsOther` | forensics/ingest.py:256-260 | a commit leaves true whatever another transaction under its own group locks has read, inserted or computed |
| `ProjectionInterleavings.ProjectionsAreSerial` | forensics/ingest.py:679-716 | in every interleaving of uploads and rebuilds each group's committed log and rows are those of its actions one after another in commit order, and its row ids ascend over them |
| `ProjectionInterleavings.InterleavingIsFaithful` | forensics/projections.py:110-344 | so in every interleaving of uploads that name no run, each group's rows are those of one full rebuild of its committed log |
| `ProjectionInterleavings.LogIsUploaded` | forensics/ingest.py:679-716 | in every interleaving each group's committed log is the lines of the committed jobs that resolve to it, in commit order, equal in every column but the drawn id |
| `ProjectionInterleavings.LoneJobCommits` | forensics/ingest.py:246-289 | from any state in which nobody holds a group, a new job run on its own ends, and is the next committed one |
| `ProjectionInterleavings.FailLeavesNothing` | forensics/ingest.py:290-330 | a failed transaction releases its locks and leaves nothing committed |
| `ProjectionLimits.OverrideAdoptsRun` | forensics/projections.py:710-712 | an explicit run whose context says `inferred: true` is adopted by reconstruction: the next event without a run id lands in it, while a rebuild opens a run of its own |
| `ProjectionLimits.OverrideWitness` | forensics/projections.py:249-285 | concrete accepted events on which that happens |
| `ProjectionStore.EarliestUploaded` | forensics/projections.py:192-200 | the guard's dictionary holds, for each (group, engine), a least order key among the uploaded evidence |
| `ProjectionStore.GroupsWithBackfill` | forensics/projections.py:178-234 | it names exactly the groups where some stored evidence sorts after an uploaded one of its recorder |
| `ProjectionStore.Store.ProjectFileEvents` | forensics/projections.py:139-175 | every group sharing the file ends with the rows its own upload step prescribes, fallback or append; other groups are untouched |
| `ProjectionStore.Store.ProjectEach` | forensics/projections.py:171-175 | one loop over the mixed events with one dictionary of open runs projects each group as if alone |
| `ProjectionStore.Store.RebuildGroups` | forensics/projections.py:163-169 | exactly the named locked groups are rebuilt from their whole log |
| `ProjectionStore.Ingest` | forensics/projections.py:110-175 | safe uploads keep every group of the store faithful |
| `Divergence.CountIgnoresOrder` | forensics/analysis.py:404-473 | the rule depends only on which events exist |
| `Divergence.Observe` | forensics/analysis.py:440-459 | one streamed row keeps engines, activity windows, observers and first sightings exact for the rows read so far |
| `Divergence.PresentButMissing` | forensics/analysis.py:383-401 | it returns the non-observers whose window contains the reference time, and none when there is no time |
| `Divergence.WindowIsActivity` | forensics/analysis.py:363-380 | an engine's window contains an instant exactly when it logged something at or before and at or after it |
| `Divergence.VerdictIsRule` | forensics/analysis.py:337-360 | the shared predicate on the aggregates is the declared rule: some non-observer was active at the first sighting |
| `DivergenceCounts.Stream` | forensics/analysis.py:411-459 | one read of interleaved rows in any order describes every group exactly |
| `DivergenceCounts.CountGroup` | forensics/analysis.py:461-473 | the final loop counts exactly the messages that diverge by the rule |
| `DivergenceCounts.DivergentCounts` | forensics/analysis.py:404-473 | every requested group gets the number of its divergent messages |
| `DivergenceCounts.CountGroupInMigration` | forensics/migrations/0010_recompute_divergent_counts_partial_invalid.py:133-152 | the migration's inlined loop counts the same messages |
| `DivergenceCounts.DivergentCountsInMigration` | forensics/migrations/0010_recompute_divergent_counts_partial_invalid.py:81-152 | the migration agrees with the rule on every group |
| `DivergenceCounts.EngineWindows` | forensics/analysis.py:363-380 | first and last logged time of exactly the engines with a timed event |
| `DivergenceCounts.TraceMessage` | forensics/analysis.py:513-547 | observers, missed and absent engines partition the engines; missed ones were active at the reference time and absent ones were not; on attributed events the verdict is the rule |
| `DivergenceCounts.MessageTraces` | forensics/analysis.py:504-548 | in ascending order exactly one trace for each message any event names; on attributed events the divergent traces are exactly the divergent messages of the persisted count |
| `DivergenceCounts.MessageIds` | forensics/analysis.py:507-513 | the messages any event names, each once, in ascending order |
| `DivergenceCounts.MatrixRow` | forensics/analysis.py:609-655 | each cell is observed, missed or absent as the trace says, and a row is divergent exactly when it shows an observed and a missed cell |
| `DivergenceCounts.ObservationMatrix` | forensics/analysis.py:577-656 | in ascending order one exact row for each message any event names, and on attributed events the divergent rows are the divergent messages of the persisted count |
| `DivergenceCounts.CountsIgnoreRowOrder` | forensics/analysis.py:430-459 | two streams holding the same rows, in any order and multiplicity, have the same counts |
| `DivergenceCounts.UnattributedCopyParts` | forensics/analysis.py:524-526 | with an unattributed earlier copy the trace's verdict and the rule differ, so attribution is needed |
| `Ingest.CreateEvents` | forensics/ingest.py:679-716 | the loop prepares exactly the kept lines; kept plus duplicates is the line count; the groups of all lines, duplicates too, are linked |
| `Ingest.KeepBalance` | forensics/ingest.py:679-716 | every line is kept or counted as a duplicate, once |
| `Ingest.KeepLaws` | forensics/ingest.py:855-875 | kept lines come from the upload, are new and pairwise distinct, and the dictionary learns exactly them |
| `Ingest.KeepCovers` | forensics/ingest.py:855-866 | once the kept lines are stored every line of the upload is covered: its key is stored, or its hash when it names no engine |
| `Ingest.DuplicateExactly` | forensics/ingest.py:855-866 | a line is dropped exactly when its key is stored or was kept earlier in its upload, or, if it names no engine, when any line of its hash was |
| `Ingest.ExistingIsExact` | forensics/ingest.py:838-852 | the duplicate query answers exactly for every hash the upload asks about |
| `Ingest.StoreBalance` | forensics/ingest.py:261-280 | each file's stored rows and duplicate count add up to its lines, every stored row is a line of its file, and the file links every group its lines resolve to |
| `Ingest.StoreSound` | forensics/ingest.py:238-289 | one accepted upload keeps: no key twice, exact rollups, files balanced against their stored rows with complete group links, exactly the accepted lines stored |
| `Ingest.StoreAllSound` | forensics/ingest.py:223-289 | so does every sequence of uploads |
| `Ingest.StoreAllFiles` | forensics/ingest.py:238-244 | the accepted file hashes are exactly those ever uploaded |
| `Ingest.FirstUploadWins` | forensics/ingest.py:238-244 | a file keeps the lines of the first upload under its hash |
| `Ingest.ReuploadStoresOnlyNew` | forensics/ingest.py:679-716 | at any time after L was accepted, uploading L ++ M stores exactly what M alone would |
| `Ingest.RefreshGroupRollups` | forensics/ingest.py:719-736 | the streaming pass over the stored rows returns exactly the rollups that the committed state holds |
| `Ingest.KeepDependsOnOwnKeys` | forensics/ingest.py:855-866 | what an upload inserts depends only on the answers for its own keys |
| `IngestInterleavings.AdvanceApart` | forensics/ingestion_limits.py:33-40 | a statement takes only advisory keys, group locks and file hashes no other open transaction holds |
| `IngestProtocol.CommitIsElsewhere` | forensics/ingest.py:246-260 | a committing transaction shares no (hash, engine) and no group with one that holds its locks, even when engines collide on the lock key |
| `IngestProtocol.WorkSurvivesCommit` | forensics/ingest.py:246-288 | so the duplicates, rows and rollups another transaction has already read or prepared stay true |
| `IngestProtocol.CommitIsStore` | forensics/ingest.py:261-289 | a commit is one serial store of its upload |
| `IngestInterleavings.RunInv` | forensics/ingest.py:223-289 | every interleaving of steps, failures and aborts keeps the protocol invariant |
| `IngestInterleavings.InterleavingIsSerial` | forensics/ingest.py:223-289 | the committed database is the serial store of the committed uploads in commit order |
| `IngestInterleavings.InterleavingIsSound` | forensics/ingest.py:223-289 | no two committed rows share (line hash, engine), every rollup is exact, every file's stored rows and duplicates add up to its lines, exactly the accepted lines are stored |
| `IngestInterleavings.LoneUploadCommits` | forensics/ingest.py:246-289 | from any state in which nobody holds anything, a new upload of an unknown file run on its own commits, and is the next in the serial order |
| `IngestInterleavings.FailLeavesNothing` | forensics/ingestion_limits.py:13-40 | a failed transaction releases every lock and claim and leaves nothing committed |
| `IngestInterleavings.PersistedCountIsRule` | forensics/ingest.py:719-736 | in every reachable state each group's persisted count is the rule's count and its events are attributed, which is all the trace page needs to agree |
| `EvidenceLedger.Evidence.Add` | forensics/investigation_reader.py:76-88 | it succeeds exactly for a known digest or within both budgets, enters the body once, counts it, and clears the cache; a refusal leaves records and bytes alone |
| `EvidenceLedger.SelectMeans` | forensics/investigation_reader.py:90-100 | a selection is the group's bodies and the groupless bodies of whole sessions the group names, and its flag says whether the group names a session with a part missing |
| `EvidenceLedger.Evidence.Reconstruct` | forensics/investigation_reader.py:102-125 | the cached answer is the recomputed selection, with that meaning |
| `EvidenceLedger.LedgerRecords` | forensics/investigation_reader.py:68-88 | after any adds the three maps share one key set, a digest is a key exactly when some added body has it, and its record and event come from such a body |
| `EvidenceLedger.LedgerBytes` | forensics/investigation_reader.py:76-88 | the byte count is the exact total over the distinct bodies |
| `EvidenceLedger.LedgerOccurrences` | forensics/investigation_reader.py:76-88 | each digest's count is the number of adds with that digest |
| `EvidenceLedger.OccurrencesTotal` | forensics/investigation_reader.py:76-88 | the occurrence counts total the number of adds |
| `LokiReader.Transport.Ask` | forensics/investigation_reader.py:208-229 | a forward query: at most the limit, all rows if they fit, nothing earlier omitted, ties in any choice, or a failure |
| `LokiReader.PageExists` | forensics/investigation_reader.py:208-229 | such a page exists for every store and limit, so the transport model is not empty |
| `LokiReader.Reader.Query` | forensics/investigation_reader.py:259-287 | the rows of one page, in order, each labelled with the digest of its body; every failure is explained: 2,000 queries or a passed deadline, an expression over budget, a transport failure, or a matching row whose label is not its body's digest; a full page is never refused |
| `LokiReader.Reader.CheckRows` | forensics/investigation_reader.py:266-287 | an answer that keeps to its limit is refused only for a matching row with a wrong label |
| `LokiReader.Reader.AddRows` | forensics/investigation_reader.py:301-306 | on success every row was handed to the evidence once, in order; it fails only on a matching row that does not parse, disagrees with its labels, or exceeds the evidence budgets |
| `LokiReader.Reader.Tied` | forensics/investigation_reader.py:289-299 | terminates by prefix length; hands over exactly the tied rows under the prefix whose label is a digest; gives up only if one digest fills a page, returns normally only if none does, and every other failure is explained |
| `LokiReader.FullPageBelowBoundary` | forensics/investigation_reader.py:317-318 | below its last timestamp a full page holds exactly the matching rows, each as often as stored |
| `LokiReader.FullLeafIsTie` | forensics/investigation_reader.py:295-297 | a full page under a whole digest consists of copies of that one (timestamp, digest) pair |
| `LokiReader.TieIsInBranch` | forensics/investigation_reader.py:298-299 | a digest that fills a page lies under one of the sixteen branches |
| `LokiReader.BranchesDone` | forensics/investigation_reader.py:298-299 | the sixteen branches together hand over every tied row with a digest for a label exactly once |
| `LokiReader.LossExact` | forensics/investigation_reader.py:278-299 | a retrieval that handed over the digest-labelled rows lost nothing if and only if every matching label is a digest |
| `LokiReader.TieCanHide` | forensics/investigation_reader.py:289-293 | whenever the other tied rows fill a page, a full page without a given row is a legitimate answer |
| `LokiReader.RowGetsLost` | forensics/investigation_reader.py:289-299 | a tied row with an empty or non-hex label: a full page may leave it out, every branch then answers short and without it, and no check ever sees it |
| `LokiReader.Reader.Retrieve` | forensics/investigation_reader.py:308-321 | on normal return exactly the matching rows of the window whose label is a digest were handed over, none lost or repeated, so nothing was lost if and only if every matching label is a digest; no pair fills a page and the transport never failed; every failure is explained by a spent budget, a transport failure, a faulty matching row or a pair that fills a page; the cursor strictly increases |
| `Investigation.GatherSession` | forensics/investigation_reader.py:355-389 | one context retrieval adds exactly the groupless rows of its session |
| `Investigation.SelectionsAgree` | forensics/investigation_reader.py:90-100 | the gathered ledger and the ledger of the whole window select the same bodies and agree on context completeness |
| `Investigation.OccurrencesAgree` | forensics/investigation_reader.py:323-389 | every selected body was gathered as often as the window holds it |
| `Investigation.AnswerFromLedger` | forensics/investigation_reader.py:90-100 | the selection of a loaded window, in the store's own terms: a digest is selected iff some parsed row of the window with it has the group, or has no group and a whole session that some row of the group names; the flag is set iff some row of the group misses a part of its session |
| `Investigation.InvestigationExact` | forensics/investigation_reader.py:323-389 | the two-phase ledger gives the answer of loading everything and selecting afterwards, and that answer means what `AnswerFromLedger` says |
| `Investigation.ExplainedIsExcused` | forensics/investigation_reader.py:301-321 | under faithful labels a run fails only by a budget, the transport, a row that does not parse, or a pair that fills a page |
| `Investigation.Investigate` | forensics/investigation_reader.py:323-396 | rejects exactly empty or non-hex groups and inverted windows; under faithful labels an answer is that of loading the whole effective window, stated against the load and in the store's own terms, for any partition function; a failure is a spent budget, a transport failure, an unparsed row or a pair that fills a page |
| `Bundle.Emit` | forensics/investigation_bundle.py:145-153 | the file holds the concatenated pieces on success and never exceeds the budget, even when a failing write leaves part of a piece |
| `Bundle.PublishTemp` | forensics/investigation_bundle.py:145-213 | published means complete, synced and durable under the target; a refusal leaves no target of ours; an existing target keeps its file |
| `Bundle.WriteBundle` | forensics/investigation_bundle.py:93-222 | under any pattern of failures: normal return means the target names the complete synced file and no other name changed; any error but uncertainty leaves neither name of ours; an existing target is never replaced; no file of ours exceeds 128 MiB; a failed write or an uncertain end needs a failed operation, and every other outcome has none |
| `JsonScanner.MaxNestingDepth` | forensics/ingest.py:73-104 | the loop computes the scanner's deepest level |
| `JsonScanner.ScanString` | forensics/ingest.py:86-93 | a string literal, whatever brackets, quotes or escapes it holds, leaves the scanner as it was |
| `JsonScanner.ValueBalanced` | forensics/ingest.py:73-104 | from any depth, a value's text returns to that depth outside any string, having gone exactly as deep as the value |
| `JsonScanner.ScannerIsDepth` | forensics/ingest.py:73-104 | on every text of every value the scanner returns the structural depth and ends outside any string at depth zero |
| `JsonScanner.TextFixesDepth` | forensics/ingest.py:73-104 | a text fixes the depth of whatever value it is a text of |
| `JsonScanner.TooDeep` | forensics/ingest.py:107-118 | the guard rejects a text exactly when its value is nested deeper than 200 |
| `Timeline.TimelineItems` | forensics/analysis.py:1430-1461 | excluded events and item members together are the input as a multiset; exclusions are counted under one reason each; bursts hold at least two retries of one engine in one second, all of them, by time, line and id; items come by time, then line, then id |
| `Timeline.AddToBurst` | forensics/analysis.py:1440-1452 | a retry is filed under exactly its (engine, second) |
| `Timeline.BurstItemOk` | forensics/analysis.py:1513-1556 | a burst is shown under the least id, time and line of its members and stands for exactly them |
| `Timeline.CountsAddUp` | forensics/analysis.py:1430-1461 | excluded count plus item event counts equals the input length |
| `Timeline.TimelineIdsDistinct` | forensics/analysis.py:1513-1556 | item ids are pairwise distinct when event ids are |
| `Epochs.MessageEpochs` | forensics/analysis.py:1247-1251 | each message maps to exactly the epochs of the events that carry it |
| `Epochs.EpochsStarted` | forensics/analysis.py:1395-1419 | the epochs a local user's event starts, directly or through a message seen at them |
| `Epochs.AssignRoles` | forensics/analysis.py:1350-1354 | the confirmations of one epoch get their roles and earlier epochs keep theirs |
| `Epochs.FirstIsCommit` | forensics/analysis.py:1334-1349 | the first timed confirmation in sort order is the commit: none has a smaller time, and none with the same time a smaller id; there is none only if no confirmation is timed |
| `Epochs.CommitUnique` | forensics/analysis.py:1350-1354 | an epoch has one commit |
| `Epochs.BuildRow` | forensics/analysis.py:1332-1383 | confirming, initiating and unconfirmed engines of a confirmed epoch cover exactly all engines, unconfirmed disjoint from both; the commit is the earliest timed confirmation |
| `Epochs.TimelineEpochs` | forensics/analysis.py:1235-1392 | in ascending order exactly one row for every epoch confirmed, initiated or referred to; every confirmation has a role, commit exactly for the earliest timed one of its epoch |
| `ProgressInput.Input.ReadUpTo` | deploy/ingest_worker.py:26-53 | delivers exactly the next min(n, remaining) bytes or the next line capped at n, from any stream of short chunks; the deadline is set once; no byte is returned after it; the client's timeout is restored, also when the stream raises |
| `ProgressInput.Input.ReadChunk` | deploy/ingest_worker.py:36-42 | the read runs under the smaller of the remaining time and the idle timeout, and the client's own timeout is put back whether it returns or raises |
| `ProgressInput.Input.NextChunk` | deploy/ingest_worker.py:31-52 | one turn: the deadline, if unset, becomes the transfer timeout after now; it is checked before and after the read; one notification for each non-empty chunk; an exception only if the stream raised |
| `ProgressInput.Input.NextLine` | deploy/ingest_worker.py:73-77 | the next whole line, or nothing exactly at the end |
| `ProgressInput.Input.ReadLines` | deploy/ingest_worker.py:61-77 | the lines concatenate to what was consumed: the whole body, or until the hint is met; it fails only past the deadline or when the stream raised |
| `Tokens.SplitRoundTrip` | forensics/token_crypto.py:36-47 | splitting recovers type prefix, lookup prefix and secret, underscores in the secret included, from exactly the minted token |
| `Tokens.TokenTable.Authenticate` | forensics/token_crypto.py:92-129 | it finds exactly the active row whose expiry is still to come and whose hash the secret matches under the dedicated key or a different, non-empty signing key; a failure changes nothing; a success leaves the row on the dedicated key |
| `Tokens.SettledForever` | forensics/token_crypto.py:50-69 | a token on the dedicated key is never rewritten and authenticates exactly while active and unexpired, through any issues, logins and SECRET_KEY rotations |
| `Tokens.IssuedWorks` | forensics/token_crypto.py:36-57 | an issued token is on the dedicated key and works until it expires, through any issues, logins and rotations that follow |
| `Tokens.LegacySettlesOnce` | forensics/token_crypto.py:110-129 | a legacy token's first success settles it for all later rotations |
| `Tokens.LegacyNeedsItsKey` | forensics/token_crypto.py:60-69 | an untouched legacy token works exactly while SECRET_KEY is the key it was hashed with |

## Left out

- Django, SQL, indexes, admin, templates, telemetry and display helpers; tables are maps, sets and sequences.
- JSON Schema validation and the per-kind field copying of forensics/ingest.py:332-676: events arrive normalised.
- How the row-id sequence batches its numbers: an upload draws its ids one at a time, each above all drawn before.
- Wall clocks, HTTP, sockets and fsync semantics: abstract steps that may fail or take any time.
- SHA-256 and HMAC: digests travel with bodies (collisions possible except where `Faithful` excludes them), HMAC is an injective constructor, the advisory-lock key is an arbitrary function.
- PostgreSQL timeouts, VACUUM, retention and pruning; the dedup and rollup results are about runs of ingests.
- RecipientExpectation rows, decoded payloads, `artifact_kind`, `latest_state` and `states`: the last three are order-dependent by design.
- The schema-version gate of forensics/projections.py:125-126 and structural quarantine: every stored event of the model is projected.
- Explicit run ids spelled like the names generated for inferred runs: run keys are tagged, so the two never coincide here.
- Non-PostgreSQL orderings of NULL wall times; NULL sorts last here.
- Group creation by slug or reference is folded into the group lock of the ingest protocol; the later re-locks of groups already held add no step.
- The length of a query expression and the clock behind the reader's deadline: whether those budgets are exceeded is left open at every query; the HTTP response budget surfaces as a transport failure.
- `read_jsonl` and the summary document of forensics/investigation_reader.py:127-176: they repeat the ledger results on a file.
- Fork status, spread, convergences, rollbacks, snapshots and message counts of an epoch row, and the "rollback" role.
- The detail texts of traces, matrix cells and timeline items (event types, states, labels).
- EvidenceLedger.Evidence.Reconstruct: caches the selection alone; the normalised models and message traces of forensics/investigation_reader.py:105-124 are not part of it, because normalisation is not modelled.
- Target path validation other than existence, and the bundle's JSON contents (forensics/investigation_bundle.py:44-90): pieces are given.
- JSON scalars are any text over the characters of numbers and literals, a superset of what RFC 8259 allows.
- ProjectionHistory.UploadFaithful: the condition on the live state is for uploads that trip the guard or append in order for every recorder; for any order UploadReduces reduces the question to each recorder's own log, ExplicitAppendExact answers it for recorders that name every run, and for named and inferred evidence mixed out of order only NamedBetweenParts is given.
- DivergenceCounts.MessageTraces: agreement with the persisted count is for attributed events; the schema requires an engine id, and UnattributedCopyParts shows the agreement fails without one.
- Ingest.ReuploadStoresOnlyNew: for lines that name an engine; a line without one is a duplicate of any stored line of its hash.
- LokiReader.Reader.Retrieve: when several reasons to fail are present, which one is reported depends on the order in which pages come.
