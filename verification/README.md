# A verified model of the CEZ PND Collector and its Home Assistant integration

The system has two parties. The Collector downloads quarter-hour meter readings from CEZ, keeps them in an SQLite
store and serves them over an HTTPS API. The Home Assistant integration pairs with the Collector, reads the
measurements page by page, folds them into hours and mirrors the running sums into Home Assistant's Recorder. This
project models the parts of both that keep state or do arithmetic, and proves that they agree.

`dafny verify dfyconfig.toml` checks everything. Instants are whole seconds, days whole numbers, energies whole
multiples of 10^-9 kWh. Revisions, pairing ids, tokens and uuids are parameters that are required to be fresh where the
code draws them at random; SHA-256 is taken as injective; a database transaction, an atomic file replace and a critical
section are one step each. The two clocks that matter (the Collector's own, the worker's monotonic one) do not go back;
Home Assistant's clock is arbitrary.

What is proved, in the order of difficulty:

- **Pairing survives crashes.** Over every run of Collector, Home Assistant, Supervisor and a network that loses,
  delays and repeats requests, with either party crashing between any two steps and with entry flushes that are lost:
  a claimed Collector's token is on Home Assistant's disk, a marked entry has its journal, the recovery material
  outlives the wait for the entry, and pairing again always leads to an entry with the claimed token
  (`PairingProtocol`). The code of the discovery flow, of the setup and of the publication is written out statement
  by statement, proved to make only steps of that protocol and to succeed exactly when stated (`PairingSetup`).
- **The Recorder mirror is right.** An incremental update leaves exactly what a full rebuild would (`RecorderMirror`);
  a full history is the aggregate of the whole table, obtained exactly when all requests see one revision
  (`HistoryWindows`); a correction is right exactly when no hour outside its window changed, and over runs of
  synchronisations with failures in between the Recorder shows the last table (`StatisticsSync`); no decimal sum rounds
  (`ExactSums`).
- **Pages make one snapshot or an error**, whatever is committed between the requests (`DatasetStore`, `Pagination`,
  `DatasetHistory`).
- **Wall clock labels come back as the instants they were written for**, through skipped and repeated hours, exactly
  when both instants of every repeated label are there (`Zone`, `DstNormalisation`, `DstRoundTrip`); a counted day is
  its full grid exactly when it has no row labelled with its own 00:00 (`DayGrid`).
- **Checkpoints never run ahead of what was collected**, chunks tile what they moved over, and a completed backfill is
  covered exactly while its corrections keep coming (`Backfill`); **the shared retry delays both schedules**
  (`Scheduler`), **no thread sleeps through an event** (`EventBroker`), **credentials are given exactly to who
  earned them** (`PairingStore`, `PairingHistory`), and **each cursor has one spelling** (`EventCursor`, `PageCursor`).

Five properties that one might expect are false of the code. Each has a lemma that shows it at an input, and one that
says exactly when the property holds:

- a correction misses an older change while the row count stays: `StatisticsSync.LateChangeIsMissed`, exactly when by
  `StatisticsSync.CorrectedMemoryExactly`;
- an incremental update does not repair a Recorder stream that is incomplete before the first change:
  `RecorderMirror.EmptiedStreamStaysIncomplete`, exactly when by `RecorderMirror.IncrementalExactly`;
- a completed backfill is not covered after more than three days without a correction: `Backfill.CompleteIsNotCovered`,
  exactly when by `Backfill.CompleteMeansCovered`;
- a file with rows from 00:00 to 23:45 passes the day count: `DayGrid.MidnightRowBreaksGrid`, exactly when by
  `DayGrid.AcceptedDayIsGrid`;
- an entry on disk whose pending claim has expired never activates: `PairingProtocol.LockOutIsReachable` and
  `PairingProtocol.ExpiredIsLockedOut`, exactly when by `PairingProtocol.EntryActivates`.

## Model

| member | source | states |
|---|---|---|
| `PairingProtocol.NoLockout` | custom_components/cez_pnd/config_flow.py:319-378 | after every run, whenever the Collector's verifier is pending or active, Home Assistant's disk holds its token, in the journal or in the entry |
| `PairingProtocol.MarkedEntryHasJournal` | custom_components/cez_pnd/__init__.py:94-141 | after every run, an entry that still carries a pending marker, in memory or on disk, has its token in the journal |
| `PairingProtocol.RecoveryClearedLate` | collector/collector_service/pairing.py:176-189 | after every run, the Collector's recovery material is gone only if the entry is on Home Assistant's disk |
| `PairingProtocol.ReplaySucceeds` | collector/collector_service/pairing.py:108-126 | after every run, until the entry is on disk, a claimed Collector answers the claim with the journal's token and a discovery still on offer with success and without a change |
| `PairingProtocol.PairingAgainSucceeds` | custom_components/cez_pnd/config_flow.py:262-378 | from every such state, a crash of both parties and one more pass through the flow lead to an entry with the journal's token, whatever Home Assistant's clock says |
| `PairingProtocol.EntryActivates` | custom_components/cez_pnd/__init__.py:105-113 | after every run, the token of an entry activates the Collector exactly when that is claimed and in time, and is then its active verifier |
| `PairingProtocol.UnmarkedEntryIsActive` | custom_components/cez_pnd/__init__.py:94-113 | after every run, an entry without its activation marker, in memory or on disk, holds the active token of the Collector |
| `PairingProtocol.EntryWasClaimed` | custom_components/cez_pnd/config_flow.py:340-378 | after every run, the token of every entry, in memory or on disk, was accepted by the Collector in a claim |
| `PairingProtocol.ExpiredIsLockedOut` | collector/collector_service/pairing.py:156-169 | once a pending claim has expired while the entry is on disk, whatever happens afterwards: the entry's token never activates, no discovery shows a flow, and the Collector is never claimed again |
| `PairingProtocol.LockOutIsReachable` | custom_components/cez_pnd/__init__.py:94-113 | nine steps lead there: the entry is created and flushed, and its setup begins only when the claim's day has passed |
| `PairingProtocol.RemovalEndsIt` | custom_components/cez_pnd/config_flow.py:262-378 | if the entry is removed, a bootstrap on offer can be claimed again, with the journal's token if there is one |
| `PairingProtocol.RunKeeps` | collector/collector_service/pairing.py:104-189 | the invariant behind these: one token at most is ever generated, memory and disk agree as far as the markers need, discoveries stay on offer while they can be claimed |
| `PairingProtocol.GenerateKeeps` | custom_components/cez_pnd/config_flow.py:327-337 | a token is generated only while no other exists anywhere, since a journal is dropped only after its entry is clean on disk |
| `PairingProtocol.FirstClaimKeeps` | collector/collector_service/pairing.py:127-154 | a claim of an open bootstrap fails, or makes its own verifier pending while the claimed discovery is still on offer |
| `PairingSetup.Session.ConfirmPairing` | custom_components/cez_pnd/config_flow.py:304-378 | an entry is created exactly when a token can be sent (that of the journal, or a saved new one while the discovery is fresh) and its claim is answered, which a free Collector does exactly when it hears claims for this very discovery; every change is a step of the protocol, and otherwise the flow and the entry are as before |
| `PairingSetup.Session.WriteAhead` | custom_components/cez_pnd/config_flow.py:319-340 | a claim is sent only for the token the journal holds; an existing journal is used again and never replaced |
| `PairingSetup.Session.SetupEntry` | custom_components/cez_pnd/__init__.py:64-162 | ready exactly if the entry is clean, or was created by this process and activated, or the journal matches, the Collector is healthy, a needed activation is answered (by a free Collector exactly while it is claimed and in time) and a needed finalisation is answered or unavailable; the markers and the journal that are left are stated for every case; a ready entry's token is the active one |
| `PairingSetup.Session.Activation` | custom_components/cez_pnd/__init__.py:94-141 | the same for an entry that awaits its activation: it ends up activated, or activated and finalised, or untouched, each exactly when stated |
| `PairingSetup.Session.Activate` | custom_components/cez_pnd/__init__.py:94-113 | succeeds exactly with the matching journal, an answered activation and a healthy Collector |
| `PairingSetup.Session.Finish` | custom_components/cez_pnd/__init__.py:128-141 | an answered finalisation clears both markers, an unavailable one keeps the activation, and without either the entry is left alone |
| `PairingSetup.Session.PublishNew` | collector/collector_service/pairing.py:407-475 | publishes exactly when no finalisation is under way, the Collector is not claimed in time and offers nothing, all its writes succeed and one of the three attempts is answered; a publication leaves a fresh bootstrap whose recorded uuid offers exactly its id and secret for ten minutes, and no longer the old uuid; without one the credentials are as they were, or have lost their uuid, or are the fresh bootstrap without a uuid |
| `PairingSetup.Session.OfferBootstrap` | collector/collector_service/pairing.py:461-475 | of at most three attempts the first one that is answered is recorded, and nothing is exactly when none is answered or the recording fails |
| `PairingSetup.Session.ExchangeFinalize` | collector/collector_service/pairing.py:379-387 | a finalisation that reaches a free Collector is answered, clears the recovery material and takes the recorded discovery from the Supervisor; it touches nothing of Home Assistant's and not the credential |
| `PairingSetup.Session.TokenStaysOnDisk` | collector/collector_service/pairing.py:104-174 | whatever sequence of these methods ran, the token of a claimed Collector is on Home Assistant's disk |
| `PairingHistory.RunIsSound` | collector/collector_service/pairing.py:513-564 | after every run of the store its state passes validation, with a verifier active exactly in the active phase |
| `PairingHistory.StepKeepsSound` | collector/collector_service/pairing.py:63-189 | no transition writes a state that validation refuses |
| `PairingHistory.ActiveStays` | collector/collector_service/pairing.py:104-189 | the active phase is never left and its verifier never changes |
| `PairingHistory.FailuresBounded` | collector/collector_service/pairing.py:131-146 | at most eight claims are turned down for their authorization between two bootstraps, and the counter counts exactly them |
| `PairingHistory.AuthorizedWasEarned` | collector/collector_service/pairing.py:104-174 | a token is let in only if the run holds a claim of its digest with the id and secret of the then current bootstrap within ten minutes, followed by its activation within a day |
| `PairingHistory.EarnedIsAuthorized` | collector/collector_service/pairing.py:104-174 | and the converse: a first correct claim in time with at most seven failed ones before it, and an activation within the day, are answered with success, and the token is let in from then on |
| `PairingHistory.CorrectClaimSucceeds` | collector/collector_service/pairing.py:131-154 | the first correct claim of a bootstrap in time, after at most seven failed ones, makes its verifier pending for a day |
| `PairingHistory.ClaimedIsHeld` | collector/collector_service/pairing.py:104-154 | in every run, a claim that is told to have succeeded holds the Collector with the verifier it sent |
| `PairingHistory.RepeatedClaim` | collector/collector_service/pairing.py:108-126 | in every run, a claim with the id and secret of a held Collector succeeds exactly with the verifier that holds it, conflicts exactly with any other, and changes nothing |
| `PairingStore.ManagedCredentialStore.ClaimNow` | collector/collector_service/pairing.py:104-154 | the answer and the new state for every phase, expiry, attempt count and argument; the state stays sound |
| `PairingStore.ClaimedExactly` | collector/collector_service/pairing.py:104-154 | a claim succeeds exactly when claims are heard, id and secret are those of the bootstrap and no other verifier holds the Collector; then its own does |
| `PairingStore.RefusedExactly` | collector/collector_service/pairing.py:104-154 | which failure is answered when, and that a failure changes at most the count of attempts at an open bootstrap |
| `PairingStore.ManagedCredentialStore.ActivateNow` | collector/collector_service/pairing.py:156-174 | an active token is answered again, a pending one in time is promoted, anything else changes nothing |
| `PairingStore.ActivatedExactly` | collector/collector_service/pairing.py:156-174 | activated exactly by the token that the pending verifier in time or the active one names; the verifier stays the same |
| `PairingStore.ManagedCredentialStore.CreateBootstrapNow` | collector/collector_service/pairing.py:69-91 | refused exactly while a credential is active or pending in time; otherwise replaces the whole state but for the discovery uuid |
| `PairingStore.DrawnExactly` | collector/collector_service/pairing.py:69-91 | refused exactly while a verifier holds the Collector in time; otherwise exactly the new id and secret are known, for ten minutes |
| `PairingStore.ManagedCredentialStore.CompleteFinalizeNow` | collector/collector_service/pairing.py:176-189 | clears recovery and discovery material of an active state only, and never the verifier |
| `PairingStore.FinalizedExactly` | collector/collector_service/pairing.py:176-189 | after it no id and secret are known and the verifier is the same |
| `PairingStore.ManagedCredentialStore.SetDiscoveryUuid` | collector/collector_service/pairing.py:93-99 | changes the uuid alone, and only to one of the right shape |
| `PairingStore.ManagedCredentialStore.FailedAttempt` | collector/collector_service/pairing.py:191-193 | counts one attempt and keeps the state sound |
| `PairingStore.ManagedCredentialStore.Write` | collector/collector_service/pairing.py:205-211 | stores exactly the states that validation accepts |
| `PairingStore.ManagedCredentialStore.Authorize` | collector/collector_service/pairing.py:63-67 | who is let in has sent, as a bearer token and for a known scope, the very token whose digest is the active verifier, and everyone who does so is; the state is then in its active phase |
| `RecorderMirror.IncrementalRefinesRebuild` | custom_components/cez_pnd/statistics.py:286-321 | for all tables, where the old hours were shown before, the incremental calls leave exactly the streams that a full rebuild of the new hours leaves |
| `RecorderMirror.IncrementalExactly` | custom_components/cez_pnd/statistics.py:300-321 | from any Recorder state, exactly when the incremental calls leave the new hours shown: always after a removal, otherwise only when the part they do not write was right |
| `RecorderMirror.EmptiedStreamStaysIncomplete` | custom_components/cez_pnd/statistics.py:310-321 | from an empty stream, an update of hours that differ in the second hour only leaves the first one out |
| `RecorderMirror.SuffixSuffices` | custom_components/cez_pnd/statistics.py:310-316 | writing only the rows from a start on completes a stream exactly when it was complete before that start and held nothing foreign |
| `RecorderMirror.IncrementalMirrors` | custom_components/cez_pnd/statistics.py:300-321 | one channel: a stream that shows the old hours shows the new ones after its calls |
| `RecorderMirror.RebuildMirrors` | custom_components/cez_pnd/statistics.py:286-293 | the rebuild calls lead from any Recorder state to the mirror of the hours |
| `RecorderMirror.FullRebuild` | custom_components/cez_pnd/statistics.py:286-293 | one clear and one add for each channel, after which both streams show the hours; fails exactly on a negative hour |
| `RecorderMirror.IncrementalUpdate` | custom_components/cez_pnd/statistics.py:295-321 | makes exactly the calls that changes and removals ask for; streams that showed the previous hours then show the current ones |
| `RecorderMirror.UpdateChannel` | custom_components/cez_pnd/statistics.py:300-321 | nothing for an unchanged channel, a rebuild of it after a removal, otherwise the rows from the earliest change |
| `RecorderMirror.Recorder.AddStatistics` | custom_components/cez_pnd/statistics.py:289-293 | adding rows overwrites by start, a later row of one start winning, and leaves the other stream alone |
| `RecorderMirror.LastRowStays` | custom_components/cez_pnd/statistics.py:289-293 | of several rows of one start the last one stays |
| `RecorderMirror.OtherPointsStay` | custom_components/cez_pnd/statistics.py:289-293 | points of other starts stay as they were |
| `RecorderMirror.Recorder.ClearStatistics` | custom_components/cez_pnd/statistics.py:138-150 | empties exactly the named streams |
| `HistoryWindows.FullHistory` | custom_components/cez_pnd/statistics.py:232-257 | a result is the aggregate of every row of the table at once; overlap and overcount never happen; on the quarter-hour grid it succeeds exactly when the dataset fits the windows and all requests and the closing status see its revision |
| `HistoryWindows.GatherHistory` | custom_components/cez_pnd/statistics.py:238-255 | the loop over the windows: success means the counts left no row outside, hence the hours of the whole table |
| `HistoryWindows.GatherWindow` | custom_components/cez_pnd/statistics.py:244-253 | adjacent windows never share an hour and never count a row twice |
| `HistoryWindows.FetchWindow` | custom_components/cez_pnd/statistics.py:245-252 | the hours of a window are those of the table cut to it, with the count of its rows; on the grid it succeeds exactly when all its requests see the revision of the status |
| `HistoryWindows.RunsAreCoherent` | collector/collector_service/dataset_store.py:305-364 | whenever requests arrive in whatever run of the store, equal revisions mean equal tables |
| `HistoryWindows.MergeDisjoint` | custom_components/cez_pnd/statistics.py:348-352 | the union of both, refused exactly when a channel has an hour in both |
| `HistoryWindows.ConfirmRevision` | custom_components/cez_pnd/statistics.py:281-284 | the hours are passed on exactly when the closing status is the one started with |
| `HistoryWindows.ConfirmedExactly` | custom_components/cez_pnd/statistics.py:281-284 | the closing status confirms the first exactly when revision, timestamps, source status and row count are the same |
| `HistoryWindows.ConfirmedInRun` | custom_components/cez_pnd/statistics.py:281-284 | in a run of the store, exactly when the revision is still the current one |
| `HistoryWindows.SnapshotReadings` | custom_components/cez_pnd/statistics.py:81-111 | the readings of a snapshot are the valid rows of the table that start in its range |
| `HistoryWindows.HoursWithin` | custom_components/cez_pnd/statistics.py:113-122 | on whole hours, cutting the readings to a range cuts the hours to it |
| `HistoryWindows.BoundCoversLocalDay` | custom_components/cez_pnd/statistics.py:361-370 | the upper bound is the hour of the data timestamp or the next Prague midnight, and leaves out no instant of the Prague day of the last success or before |
| `HistoryWindows.RunsAreCovered` | custom_components/cez_pnd/statistics.py:238-255 | in every run of the store whose records start no later than the Prague day of their collection, the 128 windows back from the bound hold every row exactly when none starts before them |
| `HistoryWindows.CoveredIsSmall` | custom_components/cez_pnd/statistics.py:235-241 | a dataset on the quarter-hour grid that fits the windows never exceeds the limit of rows |
| `HistoryWindows.CeilIsHour` | custom_components/cez_pnd/statistics.py:355-358 | the least whole hour that is not before the instant |
| `StatisticsSync.StatisticsManager.Sync` | custom_components/cez_pnd/statistics.py:212-230 | a failed synchronisation changes neither the manager nor the Recorder; a successful one remembers the new hours, has its status confirmed, makes exactly the calls of a rebuild after a full history and of an update after a correction, and keeps the Recorder showing the remembered hours; on the grid it succeeds exactly when the needed requests see the revision |
| `StatisticsSync.SyncDuring` | custom_components/cez_pnd/statistics.py:212-257 | the same for every run of the store during which the requests arrive or get lost; a success means that the revision was still current at the closing status; a first synchronisation that succeeds shows exactly the hours of the table its status came from |
| `StatisticsSync.StatisticsManager.Fetch` | custom_components/cez_pnd/statistics.py:218-227 | a full history when nothing is remembered or the row count changed, a correction otherwise |
| `StatisticsSync.StatisticsManager.Show` | custom_components/cez_pnd/statistics.py:222-230 | a rebuild when nothing is remembered or the row count changed, an update otherwise; the Recorder follows the remembered hours in both |
| `StatisticsSync.RecentCorrection` | custom_components/cez_pnd/statistics.py:259-279 | the previous hours with those of the seven-day window replaced by the table's; nothing ever overlaps |
| `StatisticsSync.CorrectionExactly` | custom_components/cez_pnd/statistics.py:266-279 | a correction gives the hours of the whole new table exactly when the previous hours agreed with it outside the window |
| `StatisticsSync.RecentChangesSuffice` | custom_components/cez_pnd/statistics.py:259-279 | it does so whenever the hour of the data timestamp does not go back and rows before the window are unchanged |
| `StatisticsSync.HoursEndInTime` | collector/collector_service/dataset_store.py:161-166 | no hour of a table ends after its data timestamp, the largest end of a valid interval |
| `StatisticsSync.SyncRun` | custom_components/cez_pnd/statistics.py:212-257 | from a new manager over any run of the store, with failures in between: the memory is that of the successful synchronisations, and if their equal-sized successors differ only in recent rows, the Recorder shows the hours of the table of the last one |
| `StatisticsSync.SteadyRunIsTrue` | custom_components/cez_pnd/statistics.py:212-230 | over every run of successful synchronisations whose equal-sized successors differ only in recent rows, the remembered hours are those of the last table |
| `StatisticsSync.CorrectedMemoryExactly` | custom_components/cez_pnd/statistics.py:218-230 | after a correction the remembered hours are those of the new table exactly when no hour outside the window differs |
| `StatisticsSync.OldChangeIsMissed` | custom_components/cez_pnd/statistics.py:218-227 | a change of an hour before the window is missed while the row count stays the same |
| `StatisticsSync.LateChangeIsMissed` | custom_components/cez_pnd/statistics.py:218-227 | in a run of two commits of equal row counts, the second one changing a quarter-hour eight days old, the first synchronisation is right and the second is not |
| `ExactSums.SumsAreExact` | custom_components/cez_pnd/statistics.py:113-135 | every sum of any of the hours of a full history, so every partial sum in any order, has at most 28 digits |
| `ExactSums.RecordedSumsAreExact` | custom_components/cez_pnd/statistics.py:40-43 | so have every state and every sum handed to the Recorder |
| `HourlyAggregation.AggregateHourly` | custom_components/cez_pnd/statistics.py:81-122 | succeeds exactly when every row is on the quarter-hour grid and every valid one carries a non-negative value and a new start; then an hour is present exactly when its four quarters are valid, with their sum; otherwise the error is that of the first bad row |
| `HourlyAggregation.AcceptableExactly` | custom_components/cez_pnd/statistics.py:81-111 | rows are accepted exactly when all are quarter-hours on the grid and the valid ones have non-negative values and starts of their own in their channel |
| `HourlyAggregation.CompleteHours` | custom_components/cez_pnd/statistics.py:113-122 | of the hour buckets exactly the full ones are kept, each with the sum of its four readings |
| `HourlyAggregation.CumulativeStatistics` | custom_components/cez_pnd/statistics.py:125-135 | the cumulative rows, refused exactly when an hour is negative |
| `HourlyAggregation.CumulativeMeaning` | custom_components/cez_pnd/statistics.py:125-135 | the rows list every hour once, in increasing order, with its value and the sum of all hours up to it |
| `Pagination.ReadSnapshot` | custom_components/cez_pnd/client.py:243-317 | what is returned is the snapshot of the state that the first request saw, with its values in strict order and within the client's decimals, and then all needed requests saw it; on a readable range it is returned exactly when they did |
| `Pagination.ReadPages` | custom_components/cez_pnd/client.py:256-293 | the page loop ends with all rows of one view; neither a cursor loop nor the page limit can trip on a readable range |
| `Pagination.FetchPage` | custom_components/cez_pnd/client.py:257-288 | one request takes the client from n pages of a view to n + 1 pages of the same view, or fails |
| `Pagination.AppendValues` | custom_components/cez_pnd/client.py:271-282 | accepts exactly the items that keep all values inside the range and strictly ordered by start and channel |
| `Pagination.AnswerContinues` | collector/collector_service/api.py:162-211 | a request with the client's cursor is answered with exactly the rows that continue its listing |
| `Pagination.AnsweredExactly` | collector/collector_service/api.py:162-196 | a request is answered exactly with a valid range and limit and a cursor of this range, this revision and an existing row of the range |
| `Pagination.RequestOutcome` | collector/collector_service/api.py:187-196 | a request either continues the listing of the first view or is refused, whatever was committed in between |
| `Pagination.CompletenessAgrees` | custom_components/cez_pnd/client.py:296-311 | the counts and the missing list of a range always agree with its listing |
| `Pagination.Capacity` | collector/collector_service/api.py:171-175 | a range of at most 60 days holds at most 11520 rows |
| `Pagination.PagesFit` | custom_components/cez_pnd/client.py:284-293 | so it takes at most twelve pages and stays below the limit of combined items |
| `DatasetHistory.ReadDuring` | custom_components/cez_pnd/client.py:243-317 | for every interleaving of commits and attempt records with the requests, a result is the snapshot of the revision the first request saw; without a write in between there is a result |
| `DatasetHistory.SnapshotMeaning` | collector/collector_service/dataset_store.py:345-351 | a snapshot holds exactly the rows of the range that are not invalid, each once, in strict order of start and channel |
| `DatasetHistory.RevisionNamesOneTable` | collector/collector_service/dataset_store.py:166-193 | whenever a run shows a revision it shows the same table and metadata under it |
| `DatasetHistory.RunIsConsistent` | collector/collector_service/dataset_store.py:104-201 | after every run the metadata describes the table: counts by quality and the largest valid end |
| `DatasetHistory.EveryInterleavingAgrees` | collector/collector_service/dataset_store.py:305-364 | so the requests of a client may be trusted by revision, however they interleave with commits |
| `DatasetStore.NormalizedDatasetStore.CommitDataset` | collector/collector_service/dataset_store.py:104-201 | refused exactly for swapped channels, a bad revision or no records; otherwise all records are upserted and the metadata describes the new table |
| `DatasetStore.NormalizedDatasetStore.RecordAttempt` | collector/collector_service/dataset_store.py:93-102 | changes the last attempt alone |
| `DatasetStore.UpsertedRows` | collector/collector_service/dataset_store.py:131-160 | a commit leaves under a key its own last record there, and every other row as it was |
| `DatasetStore.LastRecordStays` | collector/collector_service/dataset_store.py:131-160 | among several records of one key the last one stays |
| `DatasetStore.CommitDescribes` | collector/collector_service/dataset_store.py:161-193 | the metadata carries the commit's own revision and time and is partial exactly when some row is not valid; the last attempt stays |
| `DatasetStore.CommitIsConsistent` | collector/collector_service/dataset_store.py:161-193 | a commit keeps the metadata true of the table |
| `DatasetStore.Tally` | collector/collector_service/dataset_store.py:326-330 | the counts by quality add up to the number of rows |
| `DatasetStore.DataTimestamp` | collector/collector_service/dataset_store.py:161-166 | the largest end of a valid interval, none exactly when there is none |
| `DatasetStore.WindowSizes` | collector/collector_service/dataset_store.py:326-351 | counting and listing agree, and adjacent windows add up |
| `DstNormalisation.NormalizeIntervals` | collector/collector_service/cez_csv_parser.py:384-420 | succeeds exactly when every label has an instant, repeated labels occur twice and other duplicates agree; then each instant denoted has one interval, in order of time, with the row meant for it |
| `DstNormalisation.NormalizableExactly` | collector/collector_service/cez_csv_parser.py:384-420 | a file can be normalised exactly when the clock shows every label, a label shown twice is written twice, and the rows of any other label agree in value and quality |
| `DstNormalisation.GroupByLabel` | collector/collector_service/cez_csv_parser.py:391-393 | each label once, in the order of its first row, with its rows in order |
| `DstNormalisation.PlaceRows` | collector/collector_service/cez_csv_parser.py:405-419 | the first row of an instant stays; refused exactly when a later one differs in value or quality |
| `DstNormalisation.StampsOfLabels` | collector/collector_service/cez_csv_parser.py:319-342 | a quarter-hour label has one accepted stamp but for midnight, which 24:00 and 00:00 write for different days |
| `DstNormalisation.AcceptedStamps` | collector/collector_service/cez_csv_parser.py:319-342 | accepted are exactly the quarter-hours from 00:00 to 23:45, and 24:00, without seconds |
| `DstNormalisation.StampRoundTrip` | collector/collector_service/cez_csv_parser.py:319-342 | every quarter-hour end of a day can be written for that day, the last one as 24:00, and is read back |
| `DstRoundTrip.RoundTrip` | collector/collector_service/cez_csv_parser.py:384-420 | readings written in order as wall clock labels, with both instants of every repeated label, come back with the same intervals, values, qualities and days |
| `DstRoundTrip.RoundTripExactly` | collector/collector_service/cez_csv_parser.py:399-401 | a list in the order of time is refused exactly when it holds one instant of a repeated label without the other |
| `Zone.CandidatesArePreimages` | collector/collector_service/cez_csv_parser.py:423-430 | the candidates of a label are exactly the instants at which the wall clock shows it, at most two and then an hour apart |
| `Zone.LabelsAtChange` | collector/collector_service/cez_csv_parser.py:423-430 | a label skipped in spring has no candidate, one repeated in autumn has the two an hour apart |
| `Zone.LabelsElsewhere` | collector/collector_service/cez_csv_parser.py:423-430 | every other label has exactly one candidate |
| `Zone.MidnightSeparates` | collector/collector_service/cez_csv_parser.py:439-440 | local midnight is never skipped or repeated and separates the instants of two days |
| `DayGrid.ValidateDayCounts` | collector/collector_service/cez_csv_parser.py:433-443 | accepts exactly when every day named has as many records as quarter-hours between its midnights, 92, 96 or 100 |
| `DayGrid.AcceptedDayIsGrid` | collector/collector_service/cez_csv_parser.py:384-443 | a day of an accepted file is exactly its grid of consecutive quarter-hours if and only if its own 00:00 label is not written for it |
| `DayGrid.NamedDaysAreGrids` | collector/collector_service/cez_csv_parser.py:433-443 | where no row is written 00:00, every day named by an accepted file is its full grid |
| `DayGrid.MidnightRowBreaksGrid` | collector/collector_service/cez_csv_parser.py:338-342 | for every day, a file with all its rows from 00:00 to 23:45 is accepted although the last quarter-hour of the day is missing |
| `DayGrid.DayLength` | collector/collector_service/cez_csv_parser.py:439-442 | a day of the European rule always has 92, 96 or 100 quarter-hours |
| `DayGrid.ParserRows` | collector/collector_service/cez_csv_parser.py:319-342 | an accepted timestamp is a quarter-hour label of the day it names, and its midnight label exactly when it is written 00:00 |
| `Backfill.CheckpointIsCovered` | collector/collector_service/dataset_store.py:203-280 | after any sequence of prepares, chunks, failures and lost advances, every day from the requested start up to the checkpoint was collected |
| `Backfill.ScheduledCycle` | collector/collector_service/sync_worker.py:418-506 | while the latest day does not go back, a cycle makes full chunks of 1 to 31 days, in order between the requested start and the latest day, each exactly while the backfill is open and neither a stop, a failure nor the due current day prevents it; the store rejects none of them and those that were stored tile exactly the days the checkpoint moved over; a completed backfill is corrected once, over the last three days; the outcome is a success exactly when something was tried and nothing of it failed |
| `Backfill.RunCycles` | collector/collector_service/sync_worker.py:418-506 | the worker's cycles one after another from an empty store are a run to which the following apply, with the outcomes it reports |
| `Backfill.OutcomesAreTrue` | collector/collector_service/sync_worker.py:444-506 | in every run, a cycle of at most two chunks reports success exactly when it tried something and all of it was collected and, in a backfill, stored, and an internal failure exactly when it tried nothing |
| `Backfill.ChunksTile` | collector/collector_service/sync_worker.py:449-498 | after every run of cycles, the successful chunks since the first prepare or the last change of the history start tile, without gap or overlap, everything from where that began to the checkpoint; after the first prepare and after a change to an earlier start that is the requested start |
| `Backfill.AttemptsInRange` | collector/collector_service/sync_worker.py:420-453 | every attempt of every cycle has 1 to 31 days, none before the requested start or after the latest day |
| `Backfill.ChunkIsAccepted` | collector/collector_service/dataset_store.py:255-276 | the chunk after an open checkpoint is accepted exactly when a day is left to collect |
| `Backfill.ChunksTerminate` | collector/collector_service/sync_worker.py:449-501 | the days left shrink by 31 with every chunk until none is left, and exactly then the backfill is complete |
| `Backfill.PreparedIsOpen` | collector/collector_service/dataset_store.py:215-240 | while the latest day does not go back, an incomplete checkpoint has days left after every prepare |
| `Backfill.CorrectionsContinue` | collector/collector_service/sync_worker.py:431-443 | whatever was covered, after any corrections the first gap is exactly where those left it that reached back to it |
| `Backfill.GapInRun` | collector/collector_service/sync_worker.py:420-443 | the same of every run of cycles after completion, from what had been collected by then, with the single-day cycles of a worker without a history start among them |
| `Backfill.CompleteMeansCovered` | collector/collector_service/sync_worker.py:431-443 | after completion, everything from the requested start to the last correction is covered if and only if none of the corrections came more than three days after both the day before the first gap and the previous correction that succeeded |
| `Backfill.CompleteIsNotCovered` | collector/collector_service/sync_worker.py:431-443 | complete does not mean covered up to the latest day: ten days away leave a gap |
| `Backfill.CheckpointStore.Prepare` | collector/collector_service/dataset_store.py:203-245 | the new checkpoint for every history start; coverage is kept |
| `Backfill.PrepareKeeps` | collector/collector_service/dataset_store.py:215-240 | a prepare keeps exactly the days that the new range shares with what the checkpoint has passed; a completion survives exactly a later start |
| `Backfill.CheckpointStore.Advance` | collector/collector_service/dataset_store.py:247-280 | moves an open checkpoint from exactly the expected day within the latest day, and rejects everything else without a change |
| `Backfill.AdvancesExactly` | collector/collector_service/dataset_store.py:255-276 | accepted exactly from an open checkpoint's own day to a later one within the latest day; complete exactly when that is reached |
| `Scheduler.Run` | collector/collector_service/sync_worker.py:508-553 | the loop runs in every turn exactly what its schedule decides |
| `Scheduler.RanExactly` | collector/collector_service/sync_worker.py:519-553 | in every turn of a run, by what ran before: a pending retry alone and not early; else the current day if its interval has passed since its last success, else the history if its own has, else nothing |
| `Scheduler.IntervalKept` | collector/collector_service/sync_worker.py:544-547 | between a success of a kind and its next run lies at least that kind's own interval |
| `Scheduler.IntervalSuffices` | collector/collector_service/sync_worker.py:519-529 | with no failure to make good, a turn at or after that time runs the current day if it is due, and if not the history |
| `Scheduler.RetryComesFirst` | collector/collector_service/sync_worker.py:548-553 | after a failure nothing runs before the retry time, 5 to 60 minutes after it by the number of failures in a row, and then the failed kind does |
| `Scheduler.HistoricalWaitsOnce` | collector/collector_service/sync_worker.py:519-547 | after one current-day run a due historical run comes next exactly when the loop reads its clock within the interval |
| `Scheduler.FailuresAreCounted` | collector/collector_service/sync_worker.py:540-553 | the counter is the number of failures in a row and a retry is pending exactly while it is positive |
| `Scheduler.RetryDelay` | collector/collector_service/sync_worker.py:39-51 | between 5 and 60 minutes, an hour for everything but connection failures |
| `EventBroker.NobodySleepsThrough` | collector/collector_service/event_broker.py:89-130 | after every run, a thread that sleeps without a notification has seen the current sequence number and the broker is open |
| `EventBroker.WaitersAreThreads` | collector/collector_service/event_broker.py:112-125 | after every run, the waiter count is the number of sleeping threads and at most two |
| `EventBroker.SleepsExactly` | collector/collector_service/event_broker.py:112-118 | a client with the current cursor is turned away exactly while two others sleep, and goes to sleep otherwise |
| `EventBroker.WakesExactly` | collector/collector_service/event_broker.py:115-125 | a woken thread leaves with the latest event exactly when one was accepted since it went to sleep, and without one exactly when it has timed out; after a close it is stopped; otherwise it sleeps on |
| `EventBroker.AllNotified` | collector/collector_service/event_broker.py:99-130 | an accepted event and a close notify every sleeping thread |
| `EventBroker.AnswerIsLatest` | collector/collector_service/event_broker.py:106-123 | every returned event belongs to the number in its cursor, is the latest accepted one, and is later than what was asked from |
| `EventBroker.CursorStaysGood` | collector/collector_service/event_broker.py:106-111 | a cursor that was handed out is never answered with a reset |
| `EventBroker.CursorGetsLatest` | collector/collector_service/event_broker.py:106-111 | and at once with the latest event if there is a later one |
| `EventBroker.FollowerAdvances` | collector/collector_service/event_broker.py:101-125 | a client that follows its cursors sees strictly increasing sequence numbers |
| `EventBroker.SequenceCounts` | collector/collector_service/event_broker.py:89-99 | the sequence number counts the accepted events and the retained event is the last of them |
| `EventBroker.AcceptedExactly` | collector/collector_service/event_broker.py:89-99 | an event is accepted exactly while no close came before it and fewer than 2^63 - 1 were |
| `EventBroker.ResetExactly` | collector/collector_service/event_broker.py:106-108 | exactly a client without a cursor, with one of another broker or from the future is told the current one |
| `EventBroker.ClosedRefuses` | collector/collector_service/event_broker.py:104-105 | a client is refused as stopping exactly after a close |
| `EventBroker.StepKeepsValid` | collector/collector_service/event_broker.py:78-130 | no critical section breaks this |
| `EventBroker.Broker.PublishEvent` | collector/collector_service/event_broker.py:89-99 | refused when closed or exhausted; otherwise one number further, retained, and every sleeper notified |
| `EventBroker.Broker.EnterWait` | collector/collector_service/event_broker.py:101-114 | reset, latest event, refusal or sleep, by the cursor and the number of waiters |
| `EventBroker.Broker.ResumeWait` | collector/collector_service/event_broker.py:115-125 | a thread that gets the lock back leaves with the latest event, a timeout or a stop, or sleeps on |
| `EventBroker.Broker.CloseBroker` | collector/collector_service/event_broker.py:127-130 | closes and notifies every sleeper |
| `EventCursor.CursorRoundTrip` | collector/collector_service/event_broker.py:65-87 | a printed cursor is read back and has at most 56 characters, for every number up to 2^63 - 1 |
| `EventCursor.CursorIsCanonical` | collector/collector_service/event_broker.py:65-72 | every accepted text is the printed form of what it is read as |
| `PageCursor.PageCursorRoundTrip` | collector/collector_service/api.py:232-254 | decoding the cursor of a valid payload returns the payload, within 512 characters |
| `PageCursor.AcceptedCursorIsEncoding` | collector/collector_service/api.py:237-254 | a text is accepted exactly when it is the encoding of a valid payload, which is then the only one |
| `PageCursor.DecodeEncode` | collector/collector_service/api.py:234-240 | unpadded base64url is read back |
| `PageCursor.DecodingIsLoose` | collector/collector_service/api.py:240-253 | the decoder alone accepts more than one spelling, so the comparison with the encoding is needed |

## Left out

- Pairing steps: the claims of all runs are about one Collector, one meter and one address, so a journal matches its entry by the token alone; re-authentication by hand is not part of the model, and the removal of an entry is no step of a run (`PairingProtocol.RemovalEndsIt` looks at the state after it).
- The validation of a discovery payload, and the difference between the two ways in which a setup is not ready (a rejected credential also asks for re-authentication).
- Pairing transport: HTTP status codes and TLS are reduced to requests that arrive or not and answers that are heard or not; a request may also be delivered again and after a crash.
- Home Assistant's `Store`: a save or a removal is one atomic durable step; a save that is reported as failed although it reached the disk is modelled.
- `RecorderMirror.IncrementalUpdate`: calls to the Recorder do not fail midway in the model; what a stream that is left incomplete does to later updates is stated by `RecorderMirror.IncrementalExactly`.
- `StatisticsSync.StatisticsManager.Sync`: one synchronisation at a time, as its lock has it; which status `schedule` keeps pending while another is running is not modelled.
- Recorder rows carry exact integers; the conversion of states and sums to floating point is not modelled.
- Channels and qualities are two and three constructors, so the branches for unknown strings in the aggregation and the parsers are absent.
- The columns `source_day`, `source_timezone`, `source_profile`, `collected_at` and the row's own `revision` of the measurements table.
- The text of timestamps and decimals in the store, its SQL and its file handling; text order of the timestamps is the order of the instants.
- `Pagination.ReadSnapshot`: JSON shapes of a page are not modelled beyond the sizes, counts, values and intervals that its parser checks.
- `Zone.CandidatesArePreimages`: a zone is a list of changes between +1 h and +2 h; other offsets and the lookup of zone names are not modelled.
- CSV decoding, delimiters, headers, status words and the conversion of kilowatts: the model of the parser starts at a stamp, a value and a quality.
- `Backfill.ScheduledCycle`: emitted log events and the collection itself; whether a collection, a storage call or a stop happens is an input.
- `Scheduler.Run`: the wait between two turns and the stop request; a turn is a reading of the clock.
- `EventBroker.Broker.ResumeWait`: time-outs are inputs; the check of the time-out argument is absent.
- `PageCursor.AcceptedCursorIsEncoding`: of the JSON grammar only the canonical text is read, since any other text that the parser would take fails the comparison with its encoding.
- CEZ login, redirects, discovery of the service, certificates, the proxy, the HTTP servers, the shutdown watchdog, sensors and options: plumbing with no state of this kind.
