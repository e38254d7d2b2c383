# MAAIS: proofs about publication, accounting, feeds and paging

MAAIS is a trading-research platform. This project models its most stateful parts in Dafny and proves what
they keep over whole runs. `dafny verify dfyconfig.toml` checks everything.

**Publication and the artifact catalog.** A publisher validates a bundle, opens a publication attempt, writes
every file to a replica store and to a write-once store, and appends a hash-linked catalog record. The
database's constraints and triggers decide which writes take effect. `Catalog` states them, and
`CatalogRuns` proves what any sequence of admitted writes keeps. `Publication` models the catalog transactions,
and `PublicationProtocol` runs any number of publishers at once, with failing stores, crashes, aborted
transactions, commits whose acknowledgement is lost, and any other writer the database admits. The result is
exactly-once publication. `ArtifactModels`, `ArtifactKeys` and `Inventory` model the values, the object keys
and the double upload. `FilesystemStore` models the development store step by step, stopping at any of them.

**FIFO accounting, written twice.** `FifoLedger` is the mutable ledger, `Research` the engine behind the
research reports. `FifoAccounting` proves that money is conserved over whole histories, and `FifoAgreement`
that the two engines agree. `Attribution` and `Calibration` cover the reports made from the matches.

**The event feed.** `EventFeed` models the server's cursor pages and the browser client, `EventFeedRuns` every
interleaving of appends, pages, drops and resumes.

**The audit log.** `CanonicalJson` proves that reading the canonical text as JSON gives the value back, so that it
can be decoded in one way only. `AuditLog` models the append gateway and proves that the log is the first
occurrence of each event and who recorded it, `AuditRows` what every row looks like, and `AuditChain` what its hash
is taken over and that a tip hash determines the log.

**Paging and rate limiting.** `KeysetPaging` proves that following cursors yields the plain sorted, filtered
listing. `RateLimiter` bounds admissions over all request traces, `RateLimiterKeys` in terms of the keys the requests
are made with. `Sorting`, `Sums` and `Results` hold what the others share.

What the model takes as given:

- Amounts are exact reals. Python's 28-digit decimal rounding is not modelled.
- Clock readings, generated identifiers, store answers and lost acknowledgements are parameters.
- Content hashes are arbitrary functions. Only the tip-hash theorems ask that they be collision-free.
- A database transaction is one atomic step, and transactions run one after another. `record_publication`
  reads operation, run and producer without a lock, so what `Publication.TriggersNeverRaise` and
  `PublicationProtocol.PositionAccepted` say does not extend to a producer that stops between check and insert.
- Puts of one key do not overlap. A cancelled put releases the key's lock while its thread goes on, so this is
  up to the caller.
- The file system compares paths exactly. A metadata file written whole reads as what was written, and one cut
  off does not read at all.
- Outbox cursors become visible in increasing order.

Places where the code does less than one might expect are stated as exact conditions:

- A close of size zero or less books neither value, fees nor funding (`FifoAccounting.CloseBookedIff`,
  `FifoAccounting.FundingLost`). Whole-history balances carry what such closes lose as a term of their own.
- Loading lots into a ledger that already holds newer ones breaks its opening order
  (`FifoAccounting.LoadedOrderIff`, `FifoAccounting.LateLoadClosesLast`).
- The two FIFO engines part when a reduction exceeds an open position, and when a lot is opened in a second
  direction or no later than an open one (`FifoAgreement.StepAgreesIff`, `FifoAgreement.HistoryAgreesIff`).
- The ledger and the research engine raise half-way when they reach a lot without size, whose fee share is
  undefined (`FifoLedger.Ledger.ClosePosition`, `Research.CloseAgainst`).
- The audit gateway accepts a changed replay that leaves actor or code null, because a comparison with null is
  not true, or that prints a number with another scale, because stored documents compare numbers by value
  (`AuditLog.ReplayPromiseIff`, `AuditLog.NullActorReplays`, `AuditLog.RescaledNumberReplays`).
- A store key whose object or metadata was cut off stays unusable for the request, whatever is put on
  any key afterwards (`FilesystemStore.RetryReturnsIff`, `FilesystemStore.Unrecoverable`,
  `FilesystemStore.RecoverabilityLostIff`, `FilesystemStore.RecoverabilityLostToIff`).
- Two store keys share a file exactly when one names the other's metadata file, which is an accepted key. A put
  of it leaves a stored key alone, but can spoil one that has no metadata file yet. Keys made by `artifact_key`
  never share one (`FilesystemStore.ApartIff`, `FilesystemStore.ShadowAcceptedIff`,
  `FilesystemStore.ShadowSpoils`, `FilesystemStore.ArtifactKeyOrdinary`).
- The outcome filters match the outcome labels only on the values the tables allow
  (`KeysetPaging.DecisionFilterExactIff`, `KeysetPaging.TradeFilterExactIff`).
- The rate limiter's bounds hold while no more clients ask than its table holds, and fail for one client more
  (`RateLimiter.FewClientsBounded`, `RateLimiter.EvictionRestoresBudget`).

## Model

| member | source | states |
|---|---|---|
| PublicationProtocol.PublishedOnce | maais/artifacts/publisher.py:101-239 | in any run, two publications of one report that returned gave the same record; it answers both requests in every field publish compares and is the catalog's only record of the report |
| PublicationProtocol.CommittedForGood | maais/artifacts/publisher.py:151-239 | a committed record stays in place for ever and its attempt is never failed, whether or not the publisher saw the commit |
| PublicationProtocol.UnseenCommitNotFailed | maais/artifacts/publisher.py:201-239 | after an unseen commit the failure report is refused and the tables do not change |
| PublicationProtocol.LookFindsRecord | maais/artifacts/publisher.py:112-119 | in a state whose catalog holds the report, a lookup finds that record, so it is verified or refused as a conflict |
| PublicationProtocol.LookFindsRecordLater | maais/artifacts/publisher.py:112-119 | over any run, once a report is cataloged every later lookup finds that record and opens no new attempt |
| PublicationProtocol.FreshPublicationReturns | maais/artifacts/publisher.py:101-239 | from any safe state a publication of a report not yet cataloged can return the record it adds, given an attempt its operation can begin, a fresh record identifier, consistent authority and a valid record |
| PublicationProtocol.CommittedRecordSays | maais/artifacts/publisher.py:376-417 | in every run, a catalog transaction that commits adds one record, which says what its publisher was asked for, the attempt it began, the replica and canonical inventories its one store step confirmed, and the identifier and time of the transaction |
| PublicationProtocol.ReturnedConfirmed | maais/artifacts/publisher.py:101-270 | in every run, a publication that returned had the inventories of its record confirmed by its own stores: it stored and committed the record, or verified exactly these inventories, and closed cleanly |
| PublicationProtocol.RaisedReported | maais/artifacts/publisher.py:168-239 | in every run, a publisher that began an attempt and raised has tried to report the failure, unless only the clean-up after a cataloged record failed |
| PublicationProtocol.FailedForGood | maais/db/repositories/artifacts.py:122-141 | a failure report that commits leaves the attempt failed, with its reason and time, in every later state |
| PublicationProtocol.AttemptBegins | maais/db/repositories/artifacts.py:62-120 | an attempt begins only while its operation runs, under a number above all earlier ones, open, for the operation and bundle of the request |
| PublicationProtocol.EndedIsSilent | maais/artifacts/publisher.py:124-239 | a publication that crashed, was aborted, reported a failure or closed does nothing any more |
| PublicationProtocol.RetryReturnsRecord | maais/artifacts/publisher.py:241-270 | publishing again after a lost acknowledgement can return the recorded publication without any write |
| PublicationProtocol.PositionAccepted | maais/artifacts/publisher.py:376-417 | the stream position read inside the catalog transaction is never refused, by its checks or by a trigger |
| PublicationProtocol.SucceededIffRecorded | maais/artifacts/publisher.py:151-239 | while only publishers catalog records, an attempt has succeeded exactly when it has its one record |
| PublicationProtocol.StepSafe | maais/artifacts/publisher.py:101-239 | every step of any publisher or other writer keeps the tables consistent and every held record cataloged and matching its request |
| PublicationProtocol.CatalogGrows | alembic/versions/0020_artifact_catalog.py:352-370 | over any run the catalog only grows at its end |
| Publication.ListStream | maais/db/repositories/artifacts.py:302-333 | a stream is listed exactly when all its rows are valid, numbered from 1 and linked from the genesis hash |
| Publication.StreamListable | maais/db/repositories/artifacts.py:302-333 | in a consistent database every stream can be listed, and sequence order is insertion order |
| Publication.FindReport | maais/db/repositories/artifacts.py:335-352 | raises exactly when the stream does not check out; else returns the record of the report, or nothing when there is none |
| Publication.TriggersNeverRaise | maais/db/repositories/artifacts.py:143-232 | once the transaction's own checks pass, no trigger raises |
| Publication.PublicationAcceptedIff | maais/db/repositories/artifacts.py:143-232 | a valid record of a new report at the next position is committed exactly when its authority is consistent, its identifier and attempt are not in the catalog, and it is not recorded before its attempt began |
| Publication.RepublishedIff | maais/db/repositories/artifacts.py:149-165 | a report already in the catalog is accepted again exactly as the record that is there, and nothing is written |
| Publication.AttemptRefusedIff | maais/db/repositories/artifacts.py:167-176 | a new report is refused for its attempt exactly when that is missing, or not an open one of its operation and bundle |
| Publication.FailureRecordedIff | maais/db/repositories/artifacts.py:122-141 | exactly when a failure can be recorded, and that it changes this one attempt to failed with the reason and time |
| Publication.PublicationEffect | maais/db/repositories/artifacts.py:222-232 | a committed publication appends the record, completes its open attempt and changes nothing else |
| Publication.AcquireAdmitted | maais/db/repositories/scheduled_operations.py:42-102 | acquiring an operation, into a free slot or a held one, never sends a statement that constraints or triggers refuse |
| Publication.AcquireIff | maais/db/repositories/scheduled_operations.py:42-61 | exactly who may acquire: a new running candidate of an operations service of the run that is up and was seen before the start, in the run's experiment |
| Publication.ReacquireIff | maais/db/repositories/scheduled_operations.py:73-102 | exactly when an operation that is there is given out, and whether as it is or restarted under the asking boot |
| Publication.ActiveOwnerKeeps | maais/db/repositories/scheduled_operations.py:76-96 | while its owner is up an unfinished operation is refused to every other boot, and a running one is returned as it is to its owner |
| CatalogRuns.Database.Execute | alembic/versions/0020_artifact_catalog.py:280-463 | a write takes effect exactly when constraints and triggers admit it, else raises and changes nothing; consistency is kept |
| CatalogRuns.WriteKeeps | alembic/versions/0020_artifact_catalog.py:280-463 | every admitted write keeps identities unique, streams chained, records backed and succeeded attempts cataloged |
| CatalogRuns.WriteEffect | alembic/versions/0020_artifact_catalog.py:280-463 | an admitted write leaves the row it writes as it says and every other row as it was |
| CatalogRuns.RecordAdmittedIff | alembic/versions/0020_artifact_catalog.py:282-342 | exactly which records are taken in: valid, with versions, of an open attempt of an operation running under an active producer with the record's deployment and service, at the end of the stream, and new in identifier, attempt and report |
| CatalogRuns.RecordedByProducer | alembic/versions/0020_artifact_catalog.py:296-319 | over every run, a record is written only while its operation runs under a boot that is up, belongs to the record's run and candidate and has its deployment and service identifiers |
| CatalogRuns.ProducedForGood | alembic/versions/0020_artifact_catalog.py:296-319 | in every later state, a record's deployment and service identifiers are those of a service row of its run |
| CatalogRuns.StoppedRecordsNothing | alembic/versions/0020_artifact_catalog.py:310-319 | while its owner is stopped, no record is added for an operation |
| CatalogRuns.RecordsSound | maais/artifacts/models.py:588-642 | in every run every cataloged record has a complete identity, its own content hash, and each of its files in both stores, stored between generation and recording, retained beyond it, with sizes that add up |
| CatalogRuns.ServiceLife | maais/platform/registry.py:386-392 | a service row stays what it is, and its stop time is final |
| CatalogRuns.OperationAdmittedIff | alembic/versions/0020_artifact_catalog.py:83-107 | exactly which operations can be inserted: new ones of an owner in their run, into a free slot of run, kind and date |
| CatalogRuns.OwnersKnown | alembic/versions/0020_artifact_catalog.py:83-100 | over every run an operation belongs to a run that is there and to a service of it |
| CatalogRuns.AttemptsNumbered | alembic/versions/0020_artifact_catalog.py:153-157 | over every run the attempts of an operation have different numbers |
| CatalogRuns.ReachableConsistent | alembic/versions/0020_artifact_catalog.py:280-463 | every state of every sequence of admitted writes is consistent |
| CatalogRuns.RecordsPerAttempt | alembic/versions/0020_artifact_catalog.py:373-407 | a succeeded attempt has exactly one record, a failed one none, any other at most one |
| CatalogRuns.RecordedForGood | alembic/versions/0020_artifact_catalog.py:296-319 | a record never moves or changes, and its attempt, operation, run, candidate and bundle hash agree with it for ever |
| CatalogRuns.EqualTipsEqualStreams | maais/artifacts/models.py:639-643 | with a collision-free hash, streams of consistent catalogs with one tip hash are equal record by record |
| CatalogRuns.OperationLife | alembic/versions/0020_artifact_catalog.py:418-463 | over any run an operation's identity is constant, success is final, the attempt number counts restarts, and ownership leaves a boot only after it stopped |
| CatalogRuns.ResultsSurviveRetries | alembic/versions/0020_artifact_catalog.py:441-445 | results change only when an operation settles |
| Catalog.GuardOperation | alembic/versions/0020_artifact_catalog.py:418-463 | the trigger passes exactly the settlements and restarts, in its own order of checks |
| Catalog.GuardAttempt | alembic/versions/0020_artifact_catalog.py:373-407 | the trigger passes exactly one end of a started attempt, succeeded if and only if a record exists |
| Catalog.GuardRecord | alembic/versions/0020_artifact_catalog.py:282-342 | the trigger passes exactly records with versions, consistent authority and a valid predecessor |
| Catalog.EndingAdmittedIff | maais/artifacts/models.py:388-419 | exactly when fail and succeed are accepted, and that the trigger then agrees |
| Catalog.TakeoverAdmittedIff | maais/artifacts/models.py:369-386 | a takeover is accepted and admitted exactly when the operation has not succeeded, the time fits, and the same owner failed or another owner has stopped |
| Catalog.AttemptEndingIff | maais/artifacts/models.py:513-544 | an attempt can end exactly once, in success if and only if it has a record |
| Catalog.PositionedIsNext | alembic/versions/0020_artifact_catalog.py:320-339 | trigger and uniqueness together let in only the next record of a stream |
| Catalog.TipDeterminesStream | maais/artifacts/models.py:813-847 | with a collision-free hash the tip hash determines every record of a chained stream |
| ArtifactKeys.ArtifactKeyInjective | maais/artifacts/models.py:63-90 | two identities never share an object key |
| ArtifactKeys.ArtifactKeyAcceptedIff | maais/artifacts/models.py:36-90 | for valid parts only the overall length can make a key fail |
| ArtifactKeys.AcceptedIff | maais/artifacts/models.py:36-54 | an accepted key is exactly printable text of bounded length without backslash or percent sign, whose components stay below the root and are no moving alias |
| ArtifactModels.TrimmedIff | maais/artifacts/models.py:870-872 | a text is trimmed exactly when it is not empty and stripping leaves it as it is |
| ArtifactModels.NonBlankIff | maais/artifacts/filesystem.py:43-58 | a text is not blank exactly when stripping leaves something |
| Inventory.PublishStore | maais/artifacts/publisher.py:293-354 | for any answers of the store: it returns exactly when put, head and read-back prove every file stored, with what head described, and else fails for the first file they do not prove, with the reason |
| Inventory.InventoriesPair | maais/artifacts/models.py:615-638 | after both uploads every inventory check of a record but those on clocks holds |
| Inventory.KeysDistinct | maais/artifacts/publisher.py:303-316 | files with different paths are confirmed under different keys |
| FilesystemStore.FilesystemArtifactStore.Create | maais/artifacts/filesystem.py:43-58 | a store is refused exactly when its name is blank, and starts empty |
| FilesystemStore.FilesystemArtifactStore.PutVerified | maais/artifacts/filesystem.py:74-180 | a put does to the two files of its key what the stepwise specification says, wherever it stops, changes no other file, and neither changes nor removes any file that was there when it began |
| FilesystemStore.ApartIff | maais/artifacts/filesystem.py:233-248 | two keys share a file exactly when one names the other's metadata file |
| FilesystemStore.OrdinaryApart | maais/artifacts/filesystem.py:233-248 | two keys outside the metadata directory never share a file |
| FilesystemStore.ArtifactKeyOrdinary | maais/artifacts/models.py:63-90 | every key made for an artifact lies outside the metadata directory |
| FilesystemStore.ShadowAcceptedIff | maais/artifacts/models.py:36-54 | for every accepted key, the key that names its metadata file is accepted exactly when it is not too long |
| FilesystemStore.ShadowSpoils | maais/artifacts/filesystem.py:233-248 | a put of it leaves an existing metadata file as it is; where there was none, a put that returns has created one, and if that holds no metadata no request for the other key can be answered |
| FilesystemStore.ReturnedForGood | maais/artifacts/filesystem.py:117-231 | over any run of puts on any keys with crashes, once one returned for a key, its files never change, head finds the object, and every later put returns the same object or raises, exactly by content if it gets to read the key |
| FilesystemStore.HeadIff | maais/artifacts/filesystem.py:222-231 | exactly what head finds: complete metadata for the key, store and version, beside an object of its size |
| FilesystemStore.FreshPutSays | maais/artifacts/filesystem.py:117-163 | what an undisturbed put on an empty key stores and returns, field by field |
| FilesystemStore.StoppedCopyLeaves | maais/artifacts/filesystem.py:125-180 | a put stopped while it copies leaves a beginning of its source behind, or nothing |
| FilesystemStore.RetryReturnsIff | maais/artifacts/filesystem.py:117-220 | an undisturbed put returns exactly when neither file of the key stands in its way |
| FilesystemStore.Unrecoverable | maais/artifacts/filesystem.py:117-220 | over any run of puts of any requests on any keys with crashes, once a file of the key stands in the way of a request, no later put of that request returns |
| FilesystemStore.RecoverabilityLostIff | maais/artifacts/filesystem.py:125-180 | a put spoils its key for itself exactly by cutting its metadata off or leaving wrong bytes behind |
| FilesystemStore.RecoverabilityLostToIff | maais/artifacts/filesystem.py:117-220 | a put of any request spoils the key for another exactly by writing metadata that is cut off or answers something else, or by leaving bytes the other did not ask for |
| FilesystemStore.CrashBeforeMetadataRepaired | maais/artifacts/filesystem.py:182-206 | a crash between object and metadata is repaired by an identical put |
| FifoLedger.MatchOldest | maais/compliance/fifo_ledger.py:142-191 | for any lots the matching loop takes from the front and documents each match with its lot in order: the order's time, asset, side, exit price and rate, the lot's identifier, entry price and strategy, their shares of fees and funding, and the resulting P&L; or it raises exactly when it reaches a lot opened without size, the lots before it being gone |
| FifoLedger.Ledger.LoadLots | maais/compliance/fifo_ledger.py:59-63 | restored lots are appended in opening order; a valid ledger stays so exactly when they have size |
| FifoLedger.LoadedQueue | maais/compliance/fifo_ledger.py:59-63 | each queue receives its own lots, in order, after those it held |
| FifoLedger.Ledger.OpenLot | maais/compliance/fifo_ledger.py:67-111 | opens exactly for a known side and positive size; changes only its own queue |
| FifoLedger.Ledger.ClosePosition | maais/compliance/fifo_ledger.py:115-202 | closes exactly when lots are open, enough is available and no lot it reaches was opened without size, returning records that document the lots from the front; the first two refusals change nothing |
| FifoLedger.Ledger.GetOpenSize | maais/compliance/fifo_ledger.py:206-210 | the sum of the remaining sizes |
| FifoLedger.ApplyKeepsValid | maais/compliance/fifo_ledger.py:67-202 | every operation keeps every queue positive and of its own asset and side |
| FifoAccounting.FlatHistory | maais/compliance/fifo_ledger.py:35-202 | a history that ends flat records its cash flow (exits minus entries, minus all fees, plus funding) less what closes of size zero or less lose: exactly the cash flow if and only if they lose nothing |
| FifoAccounting.HistoryBalances | maais/compliance/fifo_ledger.py:67-202 | over any history recorded P&L equals cash flow, less what closes of size zero or less lose, plus what was carried in less what is still carried |
| FifoAccounting.RecordsExplained | maais/compliance/fifo_ledger.py:67-202 | every record of every history documents a match of one of its closes with a lot that was there from the start or was opened by an earlier call |
| FifoAccounting.PositiveClosesLoseNothing | maais/compliance/fifo_ledger.py:143-191 | nothing is lost while every close asks for a positive size |
| FifoAccounting.CloseBookedIff | maais/compliance/fifo_ledger.py:143-191 | exit value, exit fees and funding are each booked in full exactly when the size is positive or the amount is zero |
| FifoAccounting.FundingLost | maais/compliance/fifo_ledger.py:143-191 | a flat history with a close of size zero that reports funding loses exactly that funding |
| FifoAccounting.RestoredHistory | maais/compliance/fifo_ledger.py:59-202 | a history that begins with restored lots keeps every queue in opening order and balances, counting what the restored lots carry |
| FifoAccounting.CloseSize | maais/compliance/fifo_ledger.py:150-191 | the records of a close add up to its size |
| FifoAccounting.SplitClose | maais/compliance/fifo_ledger.py:131-191 | closing in two parts with fees and funding split in any way leaves the same lots and totals as closing at once |
| FifoAccounting.OldestFirst | maais/compliance/fifo_ledger.py:150-191 | a close exhausts the first lots, takes the rest from the next and leaves later ones alone, one record each in order |
| FifoAccounting.OpenedOrder | maais/compliance/fifo_ledger.py:98-102 | a new lot goes after all strictly older and before all others, so equal times close newest first |
| FifoAccounting.RunKeepsOrder | maais/compliance/fifo_ledger.py:98-102 | opens and closes keep every queue in opening order |
| FifoAccounting.LoadedOrderIff | maais/compliance/fifo_ledger.py:59-63 | after loading, a queue is in opening order exactly when it was before and its last lot is no later than the first one loaded |
| FifoAccounting.LateLoadClosesLast | maais/compliance/fifo_ledger.py:59-63 | an older lot loaded behind a newer one is closed after it |
| Research.CloseAgainst | maais/analytics/research.py:129-179 | for any lots and quantity the matching loop of a reducing fill meets its specification, over-closing included, and raises exactly when it reaches an empty lot |
| Research.BookFill | maais/analytics/research.py:125-179 | one fill of any quantity opens a lot or reduces the queue of its symbol |
| Research.ClosedAllocations | maais/analytics/research.py:119-180 | the allocations of all fills, of any quantities, each booked once, by time and at one time by identifier; it raises only if a fill opens a lot without quantity |
| Research.ChronologicalAsGiven | maais/analytics/research.py:125-125 | fills in chronological order are booked as they are given |
| Research.ReportIgnoresOrder | maais/analytics/research.py:125-125 | the report is the same for every order in which fills of different moments are given |
| Research.RowsExplained | maais/analytics/research.py:129-179 | every reported row reports a part of an opening fill closed by a later reducing fill of its symbol: the attributes of the one, the exit reason of the other, the price difference and the shares of both fees |
| Sorting.LessExact | maais/analytics/research.py:125-125 | texts are compared at the first character where they differ |
| Research.QuantityConserved | maais/analytics/research.py:119-180 | per symbol, opened quantity equals allocated plus remaining quantity for fills of any quantities, also when a fill over-closes |
| FifoAgreement.EnginesAgree | maais/analytics/research.py:119-180 | on every replayable history both engines hold the same lots and report the same matches, gross P&L, fees and net |
| FifoAgreement.ShrunkKeepsFee | maais/analytics/research.py:137-176 | fees from the remaining fee equal fees from the original, because remaining fee times original quantity stays fee times remaining quantity |
| FifoAgreement.StepAgreesIff | maais/analytics/research.py:125-179 | a fill, under an identifier no open lot carries, keeps agreement exactly when it opens a lot of the open direction strictly later than all others, or reduces what fits or nothing |
| FifoAgreement.HistoryAgreesIff | maais/analytics/research.py:119-180 | over histories whose openings have their own identifiers, the engines agree after every prefix exactly when every fill is such a one |
| FifoAgreement.ReportAgreesIff | maais/analytics/research.py:119-180 | the same for stored fills in the order the report books them; what the report returns are then the ledger's matches |
| FifoAgreement.OpeningAgreesIff | maais/compliance/fifo_ledger.py:98-102 | the half for openings: a second direction, or a time that is not strictly later, parts the engines |
| FifoAgreement.ReductionAgreesIff | maais/analytics/research.py:129-132 | the half for reductions: they fit what is open, or nothing is |
| FifoAgreement.OneWayReplayable | maais/compliance/fifo_ledger.py:131-140 | distinct times, one direction per symbol and no over-close make a history replayable |
| Attribution.Attribute | maais/analytics/research.py:183-205 | one row per key that occurs, in strictly increasing key order, with that group's figures, its win rate and expectancy being wins and net result per trade |
| Attribution.TablePartitions | maais/analytics/research.py:333-402 | trades, wins, losses and net P&L of the rows add up to the overall figures |
| Attribution.GroupsPartition | maais/analytics/research.py:187-204 | any amount summed by group equals the amount summed over all |
| Calibration.CalibrationRows | maais/analytics/research.py:208-251 | one score per name with a sample and always one for the consensus; each counts the predictions under its name in all allocations and resolved counterfactuals and gives their mean probability, the share of them with positive P&L and their mean squared miss; with all probabilities in [0, 1] every score with a sample meets the Brier bounds |
| Calibration.Gather | maais/analytics/research.py:212-233 | the samples of every name, in order, from allocations by gross P&L and from resolved counterfactuals only |
| Calibration.ReportScores | maais/analytics/research.py:219-242 | the score of a name says what the predictions under it amount to, from the results themselves |
| Calibration.ReportBounded | maais/analytics/research.py:208-251 | when all probabilities lie in [0, 1], the score of every name with a sample meets the Brier bounds |
| Calibration.BrierBounds | maais/analytics/research.py:237-242 | the Brier score lies in [0, 1] and is at least the squared gap between mean probability and win rate |
| EventFeed.PageExact | maais/api/app.py:1249-1280 | a page read within the log holds exactly the next events up to its next cursor, and says whether more follow |
| EventFeed.BetweenExact | maais/api/app.py:1257-1264 | the events between two cursors, each once and in order |
| EventFeed.AcceptsNext | dashboard/src/api.ts:400-419 | a page that continues the cursor is accepted whole |
| EventFeed.UnseenExact | dashboard/src/api.ts:406-408 | of any page, exactly the events above the cursor are unseen, in ascending order |
| EventFeed.RedeliveryIgnored | dashboard/src/api.ts:400-419 | delivering any page again brings nothing new |
| EventFeed.Feed.AcceptPage | dashboard/src/api.ts:400-419 | the new cursor, the unseen events and whether the snapshot is stale, rewinding included |
| EventFeed.Feed.CatchUp | dashboard/src/api.ts:442-448 | on a fixed log the loop ends at the head having accepted everything in between once, and reports a change exactly when the cursor moved |
| EventFeedRuns.EveryEventOnce | dashboard/src/api.ts:438-491 | in every state of every run each visible event between the head-synchronised start and the cursor was accepted exactly once, nothing else was, and the cursor does not pass the head |
| EventFeedRuns.AlwaysCatchesUp | dashboard/src/api.ts:438-491 | in every run, from every state in which the feed has not stopped, steps without failure on the same log bring the client live and up to date, every event above its cursor accepted |
| EventFeedRuns.LiveCatchesUp | maais/api/app.py:1185-1209 | a live client gets there by pushes and receipts alone |
| EventFeedRuns.PushSends | maais/api/app.py:1202-1209 | while the server has not sent everything, a push sends one more page: exactly the events above its cursor up to a strictly larger one |
| EventFeedRuns.LostInFlight | dashboard/src/api.ts:429-447 | what is in flight when the connection is lost is never received: nothing is accepted until a page is read again from the cursor the client had |
| EventFeedRuns.StoppedIff | dashboard/src/api.ts:472-504 | the feed has stopped exactly when it was stopped or its session ended |
| EventFeedRuns.StopIsSilent | dashboard/src/api.ts:494-504 | a stopped feed accepts and refreshes nothing any more |
| EventFeedRuns.CursorAdvances | dashboard/src/api.ts:400-419 | after the first page the start stays and the cursor never goes back |
| EventFeedRuns.LiveRefreshPending | dashboard/src/api.ts:421-466 | while live, whatever was accepted since the last refresh has a refresh pending |
| EventFeedRuns.AcceptedThenRefreshed | dashboard/src/api.ts:421-466 | a live client that accepted anything since some moment has a refresh pending, unless one was made in between |
| EventFeedRuns.NoIdleRefresh | dashboard/src/api.ts:421-454 | between a refresh and the next one by the timer something was accepted |
| EventFeedRuns.StepSafe | maais/api/app.py:1185-1209 | every append, page, push, receipt, failure, drop, resume and refresh keeps the feed gap-free and no refresh lost |
| CanonicalJson.CanonicalInjective | alembic/versions/0022_health_audit_events.py:260-294 | equal canonical texts come only from equal values, at any depth |
| CanonicalJson.RoundTrip | alembic/versions/0022_health_audit_events.py:260-294 | the canonical text is JSON with members in ascending order of their keys, and reading it gives the value back, at any depth |
| CanonicalJson.TrailingZero | alembic/versions/0022_health_audit_events.py:418-418 | a zero added after the decimal point does not change a number's value |
| CanonicalJson.Negated | alembic/versions/0022_health_audit_events.py:418-418 | a minus sign makes a number its opposite |
| CanonicalJson.RenderUnique | alembic/versions/0022_health_audit_events.py:268-292 | a value and the rest are determined by any text that begins with the value and a delimiter |
| CanonicalJson.QuoteUnique | alembic/versions/0022_health_audit_events.py:271-273 | so is a quoted key or string |
| CanonicalJson.SameTextIff | alembic/versions/0022_health_audit_events.py:418-418 | documents are equal in text exactly when they are equal as the database compares them and print equal numbers alike |
| AuditLog.AuditTable.Append | alembic/versions/0022_health_audit_events.py:349-463 | a call is refused, answered as a replay, or appended as the next row; the log only grows and stays dense |
| AuditLog.LogIsFirsts | alembic/versions/0022_health_audit_events.py:407-462 | after any run the log is the first appendable call of each event ID, in order, numbered from 1, linked and hashed |
| AuditLog.FirstsExact | alembic/versions/0022_health_audit_events.py:410-426 | those calls are the appendable ones without an earlier appendable one of the same event ID |
| AuditLog.WhoRecordedWhat | alembic/versions/0022_health_audit_events.py:375-392 | over every run, a row was recorded by an earlier call that says the same, made by the user who speaks for its role and may record its kind of event |
| AuditRows.RowsWellFormed | alembic/versions/0022_health_audit_events.py:393-405 | in every run every row's references, code and reason have their forms and fit their columns, and its evidence is an object of bounded size in which no forbidden key occurs |
| AuditRows.AppendableIff | alembic/versions/0022_health_audit_events.py:375-405 | exactly which calls can become a row |
| AuditRows.SafeIff | alembic/versions/0022_health_audit_events.py:297-333 | evidence is safe exactly when no forbidden key occurs in it at any depth |
| AuditLog.LogGrows | alembic/versions/0022_health_audit_events.py:336-347 | over any run the log only grows at its end |
| AuditLog.ReplayIff | alembic/versions/0022_health_audit_events.py:412-426 | a call with a recorded ID changes nothing and gets the original sequence exactly when no comparison with the recorded event is true |
| AuditLog.ReplayPromiseIff | alembic/versions/0022_health_audit_events.py:412-426 | identical replays get the original sequence and changed ones are rejected exactly for calls that name actor and code and print equal numbers alike, or differ elsewhere |
| AuditLog.NullActorReplays | alembic/versions/0022_health_audit_events.py:412-426 | a replay without actor is accepted although it is not identical |
| AuditLog.RescaledNumberReplays | alembic/versions/0022_health_audit_events.py:418-418 | so is one whose evidence says 1.0 where the recorded one says 1 |
| AuditChain.EventHashInjective | alembic/versions/0022_health_audit_events.py:431-451 | with a collision-free digest, rows with equal hashes are equal |
| AuditChain.HashesDocument | alembic/versions/0022_health_audit_events.py:431-451 | in every run, the hash of every row is the digest of the canonical text of the document that says everything about it, its number and the hash of the row before it |
| AuditChain.TipDeterminesLog | alembic/versions/0022_health_audit_events.py:428-460 | two logs with one tip hash are the same log |
| KeysetPaging.Export | maais/api/app.py:862-888 | following next cursors terminates for every page size and yields the whole listing |
| KeysetPaging.PageOfListing | maais/api/queries.py:340-366 | a page holds the next rows of the listing, and its cursor is that of its last row while more follow |
| KeysetPaging.QueryIsMemory | maais/api/cloud_queries.py:147-175 | filtering by cursor in the database or after sorting in memory gives the same page |
| KeysetPaging.ListingDescends | maais/api/queries.py:350-357 | a listing runs strictly downwards in (time, id) |
| KeysetPaging.ListingComplete | maais/api/queries.py:350-357 | and holds each matching row as often as the table |
| KeysetPaging.List | maais/api/queries.py:388-520 | a query is answered exactly when limit, range, outcome and cursor are acceptable; the page holds rows of the table within the range, before the cursor and with the outcome, newest first and as many as the limit allows, and whatever else is asked for is no newer than its last row and means that there are more |
| KeysetPaging.DecisionFilterExactIff | maais/api/queries.py:327-339 | the filters select a decision under exactly its own label if and only if its disposition is one the table allows, or it has a fill or counterfactual |
| KeysetPaging.TradeFilterExactIff | maais/api/queries.py:445-457 | the same for trades, unless the status itself reads filled or counterfactual |
| KeysetPaging.DecisionOutcomesPartition | maais/api/queries.py:78-92 | the five outcome listings partition the decisions |
| KeysetPaging.TradeOutcomesPartition | maais/api/queries.py:95-105 | the five outcome listings partition the trades |
| RateLimiter.InMemoryMonitorRateLimiter.Create | maais/api/health.py:204-223 | a limiter is refused exactly when a setting is not positive, and starts empty |
| RateLimiter.InMemoryMonitorRateLimiter.Allow | maais/api/health.py:225-242 | a key of 1 to 255 characters is its own client, any other is the unknown one; a request is admitted exactly for a new client, outside the client's window or below its budget; eviction happens only for a new client in a full table |
| RateLimiter.TableBounded | maais/api/health.py:232-235 | the table never exceeds its bound, for any trace |
| RateLimiter.AdmissionsBounded | maais/api/health.py:225-242 | between evictions a client is admitted at most its budget per window and at most twice that in any stretch of one window length |
| RateLimiter.RefusedOnlyWhenFull | maais/api/health.py:237-240 | a request is refused only when its window has admitted the whole budget |
| RateLimiter.FewClientsBounded | maais/api/health.py:225-242 | while no more clients ask than the table holds, nobody is evicted and both bounds hold for every client over the whole trace |
| RateLimiterKeys.FewKeysBounded | maais/api/health.py:225-242 | while no more keys ask than the table holds, every key is admitted at most twice its budget in any stretch of one window length, and nobody is evicted |
| RateLimiterKeys.CountedTogetherIff | maais/api/health.py:226-227 | two keys are counted together exactly when they are equal or both nameless |
| RateLimiter.EvictionRestoresBudget | maais/api/health.py:232-236 | with one client more, asking in turn at any strictly increasing times within one window, every request is admitted, any number of times |

## Left out

- Decimal rounding, time zones and text conversion of amounts: exact reals and integer timestamps stand in.
- Aliasing of lot objects handed out by the ledger: lots are values, so a caller that changes one is not modelled.
- Maximum favourable and adverse excursion, R-multiples, benchmarks and cost sensitivity are not part of this model.
- S3 calls, permissions, symbolic links and fsync: only create-if-absent, head, exact read and cut-off writes are kept.
- Content hashes of operations and attempts, and foreign keys to candidates and experiments: rows are written from valid domain values.
- Run and service rows are only inserted, and services stopped once; their other columns and transitions are not part of this model.
- The rule that a completed operation names its own cataloged artifacts is not part of this model.
- Audit events written beside catalog transactions: the gateway is modelled on its own.
- Path components are folded by a parameter that works character by character and leaves lower-case segments alone; Unicode case folding itself is not modelled.
- Object members are ordered by code point; the database orders keys by its collation, which does not affect unique decoding.
- Publication.TriggersNeverRaise: does not model a producer, run or operation row that changes between the unlocked read and the insert, because a transaction is one atomic step.
- PublicationProtocol.PositionAccepted: does not model those rows changing either, so a producer that stops in between can still make the trigger raise.
- FilesystemStore.ReturnedForGood: does not model two puts of one key that overlap after a cancellation.
- FilesystemStore.FilesystemArtifactStore.Create: does not model the directories a store is rooted in.
- FastAPI routing, authentication, sessions, CSRF, React components, agents' scoring, worker leases and operator commands.
