# A verified model of Harpocrate

Harpocrate is a zero-knowledge secret vault: a Python backend, SDKs in several languages, several
nodes that replicate through an MQTT broker, and applications that obtain API keys through a
"Connect with Harpocrate" flow. This project models the parts of it whose correctness is a property
of whole runs, and proves those properties in Dafny. `dafny verify dfyconfig.toml` checks it.

| Area | Files |
|---|---|
| The replicated tables and their constraints | `SyncSchema`, `SyncTables` |
| Replication: apply, consumer, publisher, broker | `SyncProtocol`, `SyncApply`, `SyncConsumer`, `SyncDecisions`, `SyncRuns`, `SyncPublisher`, `SyncEndToEnd` |
| Where replication leads, and the runs in which it goes wrong | `SyncRegions`, `SyncConvergence`, `SyncMirror`, `SyncNodes`, `SyncFailures` |
| Snapshot rotation over five calendar tiers | `Calendar`, `GfsDays`, `GfsRotation`, `GfsBounds`, `GfsDecisions`, `SnapshotScheduler`, `SnapshotCuts`, `SnapshotRuns`, `SnapshotCadence`, `SnapshotTicks`, `SnapshotCoverage`, `SnapshotScenes`, `SnapshotLimits`, `SnapshotOverlaps` |
| Connect flow: deposit, claim, key, seal, exchange, purge | `Permissions`, `ConnectFlow`, `ConnectRuns`, `ConnectTheorems`, `ConnectDecisions`, `ConnectPurge`, `ConnectPurgeRace` |
| The `hrpv_` token | `Positional`, `Base32`, `KeyId`, `Underscores`, `Numerals`, `ApiKeyToken`, `SdkToken`, `Base64`, `SdkKeys` |
| API-key validation, revocation and its cache | `ApiKeyCache`, `ApiKeyAuth`, `ApiKeyStaleness`, `ApiKeyRevocation`, `ApiKeyDecisions` |
| SDK cache, limiter, single flight, pagination | `WalletKeyCache`, `LookupLimiter`, `SingleFlight`, `KeysetPaging` |

`Options` and `Sets` hold an optional value and the least element of a finite set.

Code that updates objects is modelled by classes whose methods are proved equal to specification
functions on values; the theorems are about those functions over arbitrary runs. Tables are maps
keyed by primary key, a database transaction is one step (a purge selects earlier than it commits,
and a rotation is one step for each of its commits), and a crash or a lost connection is a bounded
number of commits granted to a call. A replicated row is its foreign keys, its values in unique
columns and a body; deleting one cascades, nulls references or raises as the migrations declare,
and a statement that violates a constraint raises at every delivery. Clocks, random values, hash
functions, the MAC, Argon2 and the host's integer parser are parameters.

## Where an expected property fails

Each of these is stated as a lemma on the code as it is, most with the exact condition.

- A received upsert is a DELETE and an INSERT, so every update of a wallet removes its secrets and
  grants on the receiver, although the emitter only changed one row
  (`SyncFailures.RenamingLosesTheSecret`, and in every complete run
  `SyncFailures.EveryReplicaLosesTheSecret`). A write changes no other row exactly when none
  references it (`SyncApply.WriteKeepsOthersIff`), and a replica follows an emitter exactly when the
  emitter never updates a referenced row, never writes the grant of a wallet's owner, and never
  writes a row that references one the replica lacks (`SyncMirror.MirroredIffNothingBreaks`).
- API keys, secret types and environments are not replicated. A secret created with an API key the
  receiver does not have is refused at every delivery and stops its peer
  (`SyncFailures.ApiKeySecretStallsItsPeer`, in general `SyncFailures.MissingParentStallsItsPeer`).
- An update of a user who owns a wallet is refused by a foreign key at every delivery, and so is the
  deletion of a wallet, whose owner's grant the log deletes first while the receiver still has the
  wallet. Either stops its peer for good (`SyncFailures.OwnerUpdateStallsItsPeer`,
  `SyncFailures.WalletDeletionStallsItsPeer`, in general `SyncConvergence.RefusedForever`).
- Two nodes that write different rows can still leave replicas that differ, when one owns a wallet
  and the other a secret in it (`SyncFailures.DisjointRowsDiverge`). Replicas agree when ownership is
  closed under foreign keys (`SyncConvergence.Confluence`).
- Nodes that both write and receive agree exactly when what the others make of each log is what its
  author made of it (`SyncNodes.NodesAgreeIff`).
- Acks carry a number of the same log as transactions, and `_handle_ack` does not advance the
  cursor, so a node's transaction that follows one of its own acks is shelved for good
  (`SyncConvergence.AckStallsItsEmitter`). Everything is applied exactly when the transactions are
  densely numbered and supported and each is applicable after those before it
  (`SyncConvergence.AllAppliedIff`).
- The docstring of `sync_apply.py` says an unknown entity is ignored so as not to block the
  pipeline; the code returns without advancing the cursor, which blocks it
  (`SyncConvergence.StalledForever`).
- A log row that becomes visible at or below the stored cursor is never published; one beyond it is
  published in some continuation (`SyncPublisher.PublishedInSomeRunIff`).
- The rotation sees the 500 newest snapshots only. A candidate beyond them is missed
  (`SnapshotLimits.HiddenCandidateIsReached`), and a member of the tier beyond them is promoted
  beside, which leaves two monthly snapshots of one month (`SnapshotLimits.TwoMonthliesOfOneMonth`).
- The backup lock covers the creation of a snapshot, not the rotation after it. With four snapshots
  stored, a triggered tick whose rotation lists while the loop's still has a promotion to make leaves
  two weeklies of one week (`SnapshotOverlaps.OverlapMakesTwoWeeklies`). The exact condition over all
  runs covers both causes (`SnapshotRuns.OnePerPeriodThroughoutIff`); a caller can check that a
  rotation lists at most 500 snapshots and only when no other has promotions left
  (`SnapshotRuns.OnePerPeriodWhenOrderly`).
- A rotation that stalls and goes on later can put the only weekly snapshot of last week back to
  daily, and no later Monday looks at that week (`SnapshotOverlaps.OverlapUndoesTheWeekly`). A rotation
  of the first day after a period that nobody has disturbed since it listed does not uncover that
  period (`SnapshotCoverage.UndisturbedKeepsCover`).
- A week whose snapshots all date from its Sunday gets no weekly from the first rotation to list
  after it, whatever that day's ticks take before, and likewise a month or year whose snapshots all
  date from its last week or month (`SnapshotCadence.TooLateForItsPeriod`); earlier ones climb
  whatever the retentions (`SnapshotCadence.SnapshotClimbs`).
- `purge_expired_requests` is said to revoke the keys that were never delivered. A key created
  before its request is denied stays active, is held by nobody, and is no longer known to any
  request (`ConnectPurge.KeyThenDenialLosesTheKey`).
- The purge selects undelivered keys without locking their requests. A code redeemed before it
  commits hands out a key that the purge revokes (`ConnectPurgeRace.RedeemedKeyIsRevoked`), and a key
  created after the selection is lost with its request (`ConnectPurgeRace.KeyOfDeletedRequestIsLost`).
  Over all runs in which any purge may commit late, exactly the keys of these two causes are lost
  (`ConnectPurge.SettledIff`), and exactly the keys handed out in between are handed out and revoked
  (`ConnectPurgeRace.RevokesHandedIff`).
- A revocation invalidates the cache before it commits, so a concurrent validation can store a
  positive verdict that outlives both by a whole time to live
  (`ApiKeyRevocation.RaceLeavesStaleVerdict`); when that can happen is exact
  (`ApiKeyRevocation.AcceptedAfterRevocationIff`).
- `WalletKeyCache.set` raises on an empty cache whose `maxsize` is not positive
  (`WalletKeyCache.Cache.Set`).

## Model

| member | source | states |
|---|---|---|
| SyncSchema.DeleteKeepsIntegrity | backend/migrations/001_schema_initial.sql:49-163 | deleting a row, with every cascade and nulled reference of the schema, leaves no dangling foreign key, no duplicate in a unique column and not the row itself |
| SyncSchema.CascadesStopThere | backend/migrations/001_schema_initial.sql:80-143 | one level of cascade is all of it: no surviving row cascades from a removed one |
| SyncSchema.UpsertKeepsIntegrity | backend/app/services/sync_apply.py:100-127 | so does an upsert that commits |
| SyncSchema.UpsertCommitsIff | backend/app/services/sync_apply.py:116-127 | on the table before it, an upsert commits if and only if its record is a row of the table, no row that stays blocks the deletion, no protected grant goes, and its parents are present and its unique values free beside what cascades |
| SyncSchema.OwnerCannotBeWritten | backend/migrations/001_schema_initial.sql:49-49 | a user who owns a wallet can be neither deleted nor written again |
| SyncSchema.WalletUpdateDropsItsRows | backend/app/services/sync_apply.py:116-120 | an upsert of a wallet removes every row that cascades from it |
| SyncSchema.OwnerGrantCannotBeWritten | backend/migrations/001_schema_initial.sql:96-114 | while its wallet is there, the owner's grant can be neither deleted nor written again |
| SyncTables.SecretRefs | backend/migrations/001_schema_initial.sql:143-238 | on the record of a secret: its foreign keys, and for each what deleting its parent does |
| SyncTables.UserDeletionIff | backend/migrations/001_schema_initial.sql:49-158 | a user can be deleted if and only if it owns no wallet, granted nothing to others and created no secret, and no wallet or secret depends on an environment or an API key that goes with it |
| SyncTables.UserDeletionEffect | backend/migrations/001_schema_initial.sql:81-158 | of the replicated rows exactly the grants it received go with a user; a secret it last updated stays, the same without that reference |
| SyncTables.WalletDeletionIff | backend/migrations/001_schema_initial.sql:201-238 | a wallet can be deleted if and only if no secret of another wallet was created by an API key that goes with it |
| SyncTables.WalletDeletionEffect | backend/migrations/001_schema_initial.sql:80-152 | exactly its grants and its secrets go with a wallet; a secret elsewhere that links to one of them stays without the link |
| SyncTables.GrantDeletionIff | backend/migrations/001_schema_initial.sql:96-114 | a grant is refused deletion if and only if its grantee owns its wallet, which is there; nothing else changes |
| SyncTables.SecretDeletionEffect | backend/migrations/001_schema_initial.sql:152-152 | a secret can always be deleted; the links to it are dropped |
| SyncTables.DeletionIff | backend/migrations/001_schema_initial.sql:49-238 | the four cases in one: no record that stays needs a row that goes, and no grant of an owner goes without the wallet |
| SyncTables.DeletionEffect | backend/migrations/001_schema_initial.sql:49-238 | what any deletion leaves, in the replicated tables and in the others |
| SyncTables.InsertionIff | backend/migrations/001_schema_initial.sql:13-163 | a user, wallet, grant or secret is inserted if and only if its id is new, the rows it names are there (a secret may link to itself) and no other holds its e-mail, its subject, its pair of wallet and grantee or its name in the wallet |
| SyncTables.UpsertIff | backend/app/services/sync_apply.py:100-127 | on records: an upsert commits if and only if the row it replaces can go and, beside what goes with that, the rows it names are there and no other record holds its unique values |
| SyncTables.UpsertEffect | backend/app/services/sync_apply.py:100-127 | a committed upsert leaves what the deletion would and the record itself |
| SyncApply.Database.ApplyDelete | backend/app/services/sync_apply.py:84-97 | deleting is the specified statement on the row of the entity, whose effect on records `SyncTables` states table by table; a missing id writes nothing |
| SyncApply.Database.ApplyUpsert | backend/app/services/sync_apply.py:100-127 | an upsert is that deletion with its cascades and then the insertion, which raises on a missing parent, a taken unique value or a record that is no row of the table |
| SyncApply.Database.ApplyTransactionInTx | backend/app/services/sync_apply.py:34-81 | rows, ack and cursor change together or not at all; a constraint violation rolls everything back; an unsupported entity or operation changes nothing, the cursor included |
| SyncApply.WriteKeepsOthersIff | backend/app/services/sync_apply.py:84-127 | a committed write leaves every other row as it was if and only if no row references the one written |
| SyncConsumer.Consumer.DrainShelf | backend/app/core/sync_consumer.py:178-215 | the loop applies the cascade of consecutive shelved numbers, stops at the first gap, error or crash, and terminates; undecodable rows are dropped |
| SyncConsumer.Consumer.HandleOneTransaction | backend/app/core/sync_consumer.py:133-176 | duplicates change nothing, the expected number is applied and cascades, numbers ahead are shelved, a failure leaves what had committed |
| SyncConsumer.Consumer.HandleMessageSafe | backend/app/core/sync_consumer.py:103-131 | own messages, acks and hellos change nothing; a failure is contained |
| SyncDecisions.AppliedIff | backend/app/services/sync_apply.py:34-127 | on records and literals: a transaction is applied if and only if it is of one of the four tables, deletes or upserts, and the tables accept it; row, ack and cursor then change together; what every other one does |
| SyncDecisions.AheadIsShelved | backend/app/core/sync_consumer.py:133-176 | a number further ahead is shelved unless one is there and noted as received, in two commits |
| SyncDecisions.NextIsApplied | backend/app/core/sync_consumer.py:133-176 | the next number is applied and the shelf drained if that succeeds |
| SyncDecisions.Ignored | backend/app/core/sync_consumer.py:103-131 | a message of the node itself and a number not beyond the cursor change nothing |
| SyncRuns.HandleStaysConsistent | backend/app/core/sync_consumer.py:103-215 | one delivery, refused or cut anywhere, keeps: acked numbers are 1..cursor per peer, the table is the replay of the acks with every cascade, each acked transaction commits there, shelved rows come from the log |
| SyncRuns.AppliedExactlyOnceInOrder | backend/app/core/sync_consumer.py:133-215 | after every run with duplicates, reordering, refusals, crashes and stale shelf rows, a peer's applied transactions are exactly 1..last_applied, each acked once and in order, and the table is their replay, in which each commits |
| SyncRuns.TablesStayIntegral | backend/app/services/sync_apply.py:54-127 | over every run the tables keep their foreign keys and unique columns |
| SyncRuns.DrainLeavesNoApplicable | backend/app/core/sync_consumer.py:178-215 | a drain that is not cut short leaves no delivered transaction that applies next on the shelf |
| SyncRuns.HandleDelivers | backend/app/core/sync_consumer.py:133-176 | a transaction handled without being cut short is applied or waits on the shelf behind a gap, up to the first one the schema refuses |
| SyncRuns.HandleKeepsDelivered | backend/app/core/sync_consumer.py:133-215 | no later message undoes that |
| SyncRuns.AmpleCommitsSuffice | backend/app/core/sync_consumer.py:103-215 | a call granted enough commits is not cut short: the bound on a message's work; what constraints refuse is separate |
| SyncRegions.WriteIsLocal | backend/app/services/sync_apply.py:84-127 | with ownership closed under foreign keys and unique values, a write commits, and acts, on its owner's rows as if they were alone, and leaves every other row as it was |
| SyncRegions.RegionFollowsCursor | backend/app/core/sync_consumer.py:133-215 | so a peer's rows are at any time the fold of its log up to its cursor, in which each transaction commits, however the peers interleaved |
| SyncConvergence.Convergence | backend/app/core/sync_consumer.py:133-215 | after any past, a run that is not cut short and delivers each transaction at least once in any order ends at the longest initial run of the log in which each is supported and commits after those before |
| SyncConvergence.AllAppliedIff | backend/app/core/sync_consumer.py:141-176 | everything is applied if and only if the log numbers its transactions 1..n without gap, all are supported, and each is applicable to the fold of those before it |
| SyncConvergence.StalledForever | backend/app/services/sync_apply.py:45-70 | a missing number or an unsupported transaction stops its peer in every run |
| SyncConvergence.RefusedForever | backend/app/core/sync_consumer.py:141-176 | and so does a transaction a constraint refuses after those before it, at every delivery |
| SyncConvergence.AckStallsItsEmitter | backend/app/core/sync_consumer.py:217-225 | a transaction numbered after an ack of its own emitter is never applied |
| SyncConvergence.TableFollowsCursors | backend/app/services/sync_apply.py:54-127 | with ownership closed under foreign keys the table is determined by the cursors, however the peers interleaved |
| SyncConvergence.Confluence | backend/app/core/sync_consumer.py:133-215 | with such ownership two nodes with any two pasts and any two complete deliveries hold the same table |
| SyncConvergence.SingleWriterTable | backend/app/core/sync_consumer.py:133-215 | with one emitter the table is the fold, with every cascade, of its log's applicable prefix |
| SyncMirror.MirrorsIff | backend/app/services/sync_apply.py:84-127 | a write does to the replica exactly what the emitter did to its own row if and only if no row references it, it is not the grant of a present wallet's owner, and its parents and unique values fit |
| SyncMirror.MirroredIffHarmless | backend/app/services/sync_apply.py:84-127 | for all logs: the replica follows the emitter's own table through n changes if and only if each of them is such a write |
| SyncMirror.MirroredIffNothingBreaks | backend/migrations/013_sync_replication.sql:99-150 | of an emitter whose own tables obey the schema, rows of unreplicated tables included: if and only if it never updates a row that others reference, never writes the grant of a wallet's owner and never references a row the replica lacks |
| SyncNodes.LiveStaysBeside | backend/app/core/sync_consumer.py:103-215 | a node that also changes its own rows receives exactly as if it did not, row for row outside its own, and its own rows are its log so far |
| SyncNodes.CompleteNode | backend/app/core/sync_consumer.py:103-215 | after complete deliveries such a node holds its own changes and, of every other peer, the fold of the applicable prefix |
| SyncNodes.NodesAgreeIff | backend/app/core/sync_consumer.py:103-215 | two nodes that both write and receive hold the same table if and only if what the others make of each one's log is what it made itself |
| SyncNodes.FaithfulNodesAgree | backend/app/core/sync_consumer.py:103-225 | so they do when each log numbers its transactions without a gap, which its own acks must not interrupt, applies throughout and changes no row that others reference |
| SyncFailures.RenamingLosesTheSecret | backend/app/services/sync_apply.py:116-127 | wallet, secret in it, wallet renamed: every transaction commits on the replica, which then has no secret, while the emitter has |
| SyncFailures.EveryReplicaLosesTheSecret | backend/app/services/sync_apply.py:116-127 | so it is after every complete run, whatever happened before |
| SyncFailures.OwnerUpdateStallsItsPeer | backend/migrations/001_schema_initial.sql:49-49 | a dense supported log, user, wallet, user again, whose third transaction no run applies |
| SyncFailures.WalletDeletionStallsItsPeer | backend/migrations/001_schema_initial.sql:96-114 | a log that deletes a wallet's owner grant and then the wallet stops at the grant in every run |
| SyncFailures.MissingParentStallsItsPeer | backend/migrations/013_sync_replication.sql:158-176 | whatever the peers and the runs, a row that references one of an unreplicated table which the receiver lacks stops its peer |
| SyncFailures.ApiKeySecretStallsItsPeer | backend/migrations/001_schema_initial.sql:234-238 | so does a secret created with an API key: keys are not replicated |
| SyncFailures.DisjointRowsDiverge | backend/app/services/sync_apply.py:116-127 | two emitters that write no common row and two complete deliveries after which one replica has the secret and the other has not |
| SyncPublisher.Publisher.StartProcess | backend/app/core/sync_publisher.py:58-66 | a new process starts from the stored cursor |
| SyncPublisher.Publisher.PublishBatch | backend/app/core/sync_publisher.py:122-143 | the batch loop publishes the next rows in order, moves the cursor in memory after each, stores it last, and may fail before, between, inside or after publications |
| SyncPublisher.BatchEffect | backend/app/core/sync_publisher.py:122-143 | how far a batch of at most 100 rows gets under every failure: broker, cursor in memory and stored cursor |
| SyncPublisher.NextRowsAreNext | backend/app/db/repositories/sync_replication.py:13-33 | a batch is the lowest numbers beyond the cursor, ascending, at most the limit |
| SyncPublisher.NothingLost | backend/app/core/sync_publisher.py:58-143 | over every run with publication failures, reconnects and crashes: stored cursor at most memory cursor, every row up to the memory cursor published, ascending numbers within a process |
| SyncPublisher.CleanBatchCatchesUp | backend/app/core/sync_publisher.py:122-143 | a batch without failure, not full, leaves nothing unpublished |
| SyncPublisher.CommitKeepsNoLossIffAhead | backend/app/core/sync_publisher.py:122-143 | a row becoming visible keeps the guarantee if and only if its number is beyond the memory cursor |
| SyncPublisher.LateRowNeverPublished | backend/app/core/sync_publisher.py:122-143 | a row becoming visible at or below the stored cursor is published in no run |
| SyncPublisher.PublishedInSomeRunIff | backend/app/core/sync_publisher.py:58-143 | a row in the log not yet published is published in some continuation if and only if it is beyond the stored cursor |
| SyncEndToEnd.Replicates | backend/app/core/sync_consumer.py:133-215 | publisher, lossless broker and consumer together: the consumer's table becomes the fold of the applicable prefix; everything is applied exactly when densely numbered, supported and applicable; and it is the emitter's own table when each write up to there is harmless |
| Calendar.OrdinalOfDateOf | backend/app/services/gfs_rotation.py:86-88 | the day-by-day calendar and the closed formula for ordinals agree: the proleptic Gregorian calendar of `datetime.date` |
| Calendar.DateOfOrdinal | backend/app/services/gfs_rotation.py:86-88 | and conversely for every valid date |
| Calendar.OrdinalFromMarch | backend/app/services/gfs_rotation.py:86-88 | every valid date has the ordinal of the closed form that counts months from March, (153 m + 2) / 5 days each group, without a table of month lengths |
| Calendar.DateFromMarch | backend/app/services/gfs_rotation.py:86-88 | so a day number has the one date with that closed form |
| GfsDays.DueExactlyOn | backend/app/services/gfs_rotation.py:100-160 | weekly promotions are looked at on day numbers 1 mod 7, monthly ones on firsts of a month of the closed form, yearly ones on firsts of January, daily ones on every day |
| GfsDays.SamePeriodIff | backend/app/services/gfs_rotation.py:90-176 | two days share a period exactly when they are the same day, between the same Mondays, or between the same firsts of month or year of the closed form |
| Calendar.FirstDayOfMonth | backend/app/services/gfs_rotation.py:139-140 | `replace(day=1)` is the first day of the same month |
| GfsRotation.LastMonthIsEnded | backend/app/services/gfs_rotation.py:138-145 | the first of this month minus one day, set to the first, names exactly the month that just ended |
| GfsRotation.GroupByTier | backend/app/services/gfs_rotation.py:98-101 | grouping keeps each tier's snapshots in order and drops untiered ones |
| GfsRotation.FindCandidate | backend/app/services/gfs_rotation.py:109-114 | `next` over the sorted list is the newest member of the period |
| GfsRotation.DeleteBeyond | backend/app/services/gfs_rotation.py:183-190 | the deletion loop |
| GfsRotation.Rotate | backend/app/services/gfs_rotation.py:90-192 | the whole rotation with its loops computes the specified actions, promotions before deletions |
| GfsDecisions.PromotedIff | backend/app/services/gfs_rotation.py:96-176 | read off the list: a snapshot is promoted to a tier if and only if a period of the tier begins today, the tier has none of the period that ended yesterday, and of the tier below it is the newest of that period, the first listed among equals |
| GfsDecisions.DeletedIff | backend/app/services/gfs_rotation.py:178-192 | and deleted if and only if its tier has a positive retention, at least that many of its tier are newer (or as new and listed first), and it is not being promoted |
| GfsBounds.PromotesExactlyWhen | backend/app/services/gfs_rotation.py:108-173 | a tier receives a snapshot exactly when its period has just ended, it holds none of it and the source tier does; it is then a newest one |
| GfsBounds.AtMostOneAction | backend/app/services/gfs_rotation.py:98-192 | each id gets at most one action; untiered backups get none |
| GfsBounds.RetentionBounds | backend/app/services/gfs_rotation.py:175-192 | a tier of n with retention r > 0 keeps min(n, r) or one fewer, the one being promoted; with r <= 0 nothing is deleted |
| GfsBounds.KeptIds | backend/app/services/gfs_rotation.py:175-192 | a tier keeps exactly its r newest minus the promoted one |
| GfsBounds.DeletedIsOutranked | backend/app/services/gfs_rotation.py:183-190 | every deleted snapshot has at least r others of its tier no older than it |
| SnapshotScheduler.RotationKeepsSettled | backend/app/services/gfs_rotation.py:103-192 | no promoted tier ever holds a snapshot of the current period or later |
| SnapshotScheduler.OnePerPeriodIff | backend/app/services/snapshot_scheduler.py:346-350 | one undisturbed rotation keeps one snapshot per period if and only if it does not promote beside a member the 500-row listing hides |
| SnapshotScheduler.CoveredIff | backend/app/services/gfs_rotation.py:103-190 | after a rotation the period that just ended is covered in its tier or higher if and only if the tier held a snapshot of it or the listing shows a candidate |
| SnapshotScheduler.SmallListingShowsAll | backend/app/db/repositories/backups.py:102-126 | with at most 500 snapshots the listing hides nothing |
| GfsDecisions.ListingIsTop | backend/app/db/repositories/backups.py:102-126 | a listing has at most 500 rows, newest first, and a row is missing from it only if it has 500 and none is older |
| GfsDecisions.ListingExists | backend/app/db/repositories/backups.py:102-126 | every store has one |
| SnapshotCuts.CutKeepsSettled | backend/app/services/snapshot_scheduler.py:352-366 | an undisturbed rotation stopped after any commit leaves no snapshot of the current period or later in a promoted tier |
| SnapshotCuts.CutOnePerPeriodIff | backend/app/services/snapshot_scheduler.py:352-366 | it keeps one snapshot per period if and only if it performed no promotion beside a member the listing hides |
| SnapshotCuts.CutKeepsCandidate | backend/app/services/snapshot_scheduler.py:352-366 | a period the whole rotation covers is covered, or its candidate is still in the source tier |
| SnapshotRuns.Scheduler.CreateHourly | backend/app/services/snapshot_scheduler.py:128-206 | a tick adds one hourly snapshot of the current time and changes no other row |
| SnapshotRuns.Scheduler.BeginRotation | backend/app/services/snapshot_scheduler.py:346-350 | a rotation lists and computes the actions it will perform; the rows do not change |
| SnapshotRuns.Scheduler.Perform | backend/app/services/snapshot_scheduler.py:353-366 | an action deletes or re-tiers the row it names, if it is still there, and no other |
| SnapshotRuns.Scheduler.PerformNext | backend/app/services/snapshot_scheduler.py:352-366 | one pass of the loop is one commit, of the next action of one of the rotations under way |
| SnapshotRuns.StepKeepsSound | backend/app/services/snapshot_scheduler.py:128-368 | whatever overlaps, promoted tiers hold ended periods only, and every tier a row is in was listed there or promoted since |
| SnapshotRuns.UndisturbedRotation | backend/app/services/snapshot_scheduler.py:346-368 | with nothing in between the commits of a rotation leave what its actions make of the listed store |
| SnapshotRuns.OnePerPeriodThroughoutIff | backend/app/services/snapshot_scheduler.py:95-368 | over all runs, rotations overlapping or stopped anywhere: at every moment at most one daily per date, weekly per week, monthly per month, yearly per year, if and only if no commit promotes beside a member its listing did not show in that tier, hidden by the limit or promoted by another rotation since |
| SnapshotRuns.OnePerPeriodWhenOrderly | backend/app/services/snapshot_scheduler.py:95-368 | so it is in every run whose rotations list at most 500 snapshots, none while another has promotions left |
| SnapshotOverlaps.OverlapMakesTwoWeeklies | backend/app/services/snapshot_scheduler.py:174-193 | a run of ticks from an empty store in which one tick lists between two commits of another: two weeklies of one week with four snapshots stored, on every Monday not the first of a month |
| SnapshotCoverage.UncoversIff | backend/app/services/snapshot_scheduler.py:352-366 | a commit uncovers a period exactly when it deletes, or puts into a shorter-lived tier, the last snapshot that covers it |
| SnapshotCoverage.UndisturbedKeepsCover | backend/app/services/snapshot_scheduler.py:346-368 | on the first day after a period no commit of a rotation uncovers it, unless another has changed what that rotation listed |
| SnapshotCoverage.UndisturbedCoversIff | backend/app/services/snapshot_scheduler.py:346-368 | once such a rotation has performed all it decided, the period is covered if and only if it was when the rotation listed or the listing showed a candidate, whatever happened meanwhile to other snapshots |
| SnapshotCoverage.CalmKeepsCover | backend/app/services/snapshot_scheduler.py:95-368 | over all runs on that day without overlaps and removals a covered period stays covered, whatever the retentions and wherever rotations stop |
| SnapshotOverlaps.OverlapUndoesTheWeekly | backend/app/services/snapshot_scheduler.py:352-366 | a run of ticks in which a stalled rotation puts last week's only weekly snapshot back to daily |
| SnapshotOverlaps.MondayExists | backend/app/services/gfs_rotation.py:120-123 | there is a Monday to which both runs apply |
| SnapshotRuns.EveryRotationCovers | backend/app/services/snapshot_scheduler.py:346-368 | after every run, an undisturbed rotation covers exactly as above |
| SnapshotRuns.EveryStoredCandidateCovers | backend/app/services/snapshot_scheduler.py:346-368 | with at most 500 snapshots a stored candidate is enough |
| SnapshotCadence.HeldThrough | backend/app/services/gfs_rotation.py:175-192 | until a rotation lists after the period, no retention takes the newest snapshot of it out of the source tier |
| SnapshotCadence.UnpromotedThrough | backend/app/services/gfs_rotation.py:103-173 | until a rotation lists after the period, nothing of it is promoted, whatever else happens |
| SnapshotCadence.SnapshotClimbs | backend/app/services/gfs_rotation.py:103-192 | when the first rotation to list after each period does so on its first day and finishes, whatever snapshots its own and other ticks have taken and whatever else happens calmly, a snapshot or a newer one of the same periods reaches daily, weekly, monthly and yearly |
| SnapshotTicks.FourTicksClimb | backend/app/services/snapshot_scheduler.py:174-193 | such a climb through all four tiers from an empty store, made of ticks that each take a snapshot and then rotate, for every policy |
| SnapshotCadence.TakenIsHeld | backend/app/services/snapshot_scheduler.py:128-206 | a snapshot just taken starts that climb |
| SnapshotCadence.TooLateForItsPeriod | backend/app/services/gfs_rotation.py:120-173 | a week, month or year whose snapshots all date from its last day, week or month is not covered by the first rotation to list after it, whatever ticks of that day have taken before |
| SnapshotLimits.HiddenCandidateIsMissed | backend/app/services/snapshot_scheduler.py:346-350 | on the first of a month, when the listing shows hourly snapshots only and hides a weekly one of last month, that month gets no monthly |
| SnapshotLimits.HiddenCandidateIsReached | backend/app/services/snapshot_scheduler.py:346-350 | a run of ticks from an empty store, with retention 0, that reaches such a store |
| SnapshotLimits.TwoMonthliesOfOneMonth | backend/app/api/v1/admin_snapshots.py:46-52 | a run of ticks from an empty store, with retention 0, that makes two monthly snapshots of one month |
| SnapshotLimits.TurnExists | backend/app/services/gfs_rotation.py:138-145 | there is a Monday to which both runs apply |
| Permissions.SubsetOfMeet | backend/app/services/permissions.py:22-29 | within the meet of two bitmaps is within both |
| Permissions.SubsetIff | backend/app/services/permissions.py:27-29 | a bitmap is within another if and only if each bit set in it is set in the other |
| Permissions.HasIff | backend/app/services/permissions.py:22-24 | a bitmap has what is required if and only if each required bit is set in it |
| Permissions.RightsAreBits | backend/app/services/permissions.py:4-10 | the six rights are the six lowest bits, sharing the sixth, and all of them 0x3F |
| ConnectFlow.Service.CreateOne | backend/app/services/connect_requests.py:50-89 | a deposit is refused for an unknown or inactive application or a foreign redirect, else stored pending for 15 minutes |
| ConnectFlow.Service.LockRequest | backend/app/services/connect_requests.py:92-131 | the checks in their order, then the claim for the first user; a refusal changes nothing |
| ConnectFlow.Service.DenyOne | backend/app/services/connect_requests.py:156-179 | denial under the lock |
| ConnectFlow.Service.CreateApiKey | backend/app/services/connect_keys.py:67-136 | a key and its attachment in one transaction; every refusal rolls the claim back |
| ConnectFlow.Service.SealOne | backend/app/services/connect_keys.py:139-174 | envelope, code and expiry together; every refusal rolls the claim back |
| ConnectFlow.Service.Exchange | backend/app/services/connect_exchange.py:79-138 | refusals are one answer; a hand-out marks the request delivered and erases the envelope |
| ConnectFlow.Service.RevokeKey | backend/app/db/repositories/api_keys.py:203-219 | a key is revoked if it is of the wallet and not revoked; nothing else changes |
| ConnectFlow.Service.PurgeExpired | backend/app/services/connect_exchange.py:141-163 | the loop revokes exactly the keys of expired pending or sealed requests, then every expired request goes |
| ConnectDecisions.RunKeepsRefsUnique | backend/migrations/033_connect_clients.sql:44-44 | after every run a reference names at most one request |
| ConnectDecisions.DepositIff | backend/app/services/connect_requests.py:51-89 | a deposit is accepted if and only if the application is active, the redirect one of its declared ones and the reference new; the stored row, which lasts 900 seconds, and each refusal |
| ConnectDecisions.LockIff | backend/app/services/connect_requests.py:92-131 | a request is locked if and only if it has that reference and that active application, is pending and unexpired, and is unclaimed or claimed by the caller; locking claims it and changes nothing else |
| ConnectDecisions.LockRefusals | backend/app/services/connect_requests.py:92-131 | which refusal everyone else gets, in the order of the checks |
| ConnectDecisions.OpenOrDenyIff | backend/app/services/connect_requests.py:134-180 | opening and denying succeed on exactly those requests, and what each writes |
| ConnectDecisions.CreateKeyIff | backend/app/services/connect_keys.py:67-122 | after every run a key is created if and only if the request is answerable and has none, the user shares the wallet, each asked bit is in the request and in the rights, and the lifetime is at most the one asked for; the key, expiry included, and the row |
| ConnectDecisions.KeyRefusals | backend/app/services/connect_keys.py:42-91 | which refusal a locked request gets otherwise, in the order of the checks |
| ConnectDecisions.SealIff | backend/app/services/connect_keys.py:139-175 | after every run an envelope is sealed if and only if the request is answerable, has a key and the code is new; the row, whose code lasts 60 seconds |
| ConnectDecisions.RedeemEffect | backend/app/services/connect_exchange.py:94-138 | after every run a redeemed request hands out its key and envelope, is delivered and loses the envelope |
| ConnectDecisions.PurgeEffect | backend/app/services/connect_exchange.py:141-163 | a purge revokes exactly the unrevoked keys of requests that expired pending or sealed, and keeps exactly the unexpired requests |
| ConnectRuns.StepKeepsInvariant | backend/app/services/connect_exchange.py:79-163 | every operation keeps the flow's invariant between rows, keys and everything answered so far |
| ConnectRuns.LatePurgeKeepsInvariant | backend/app/services/connect_exchange.py:149-163 | so does a purge, whatever has committed since its selection |
| ConnectRuns.LatePurgeOfSame | backend/app/services/connect_exchange.py:149-163 | a purge with nothing between its selection and its commit is the method's |
| ConnectRuns.RunKeepsInvariant | backend/app/services/connect_requests.py:50-179 | so every run does, however late its purges commit |
| ConnectRuns.LockClaims | backend/app/services/connect_requests.py:92-131 | a lock is granted only on a pending, unexpired request of that application, to its first user, and changes only the claim |
| ConnectRuns.OwnKeyOnly | backend/app/services/connect_keys.py:81-83 | a key belongs to one request |
| ConnectTheorems.AtMostOncePerRequest | backend/app/services/connect_exchange.py:79-117 | over all runs a request yields at most one key, one code and one hand-out, and never a denial with a code |
| ConnectTheorems.RequestNeverTurnsBack | backend/app/services/connect_requests.py:92-131 | over all runs a request only moves pending to denied or pending to sealed to delivered; claimer, key, code and deposit never change; a purged one never returns |
| ConnectTheorems.KeyBelongsToClaimer | backend/app/services/connect_keys.py:78-119 | a request's key is owned by its claimer and stays within what was asked |
| ConnectTheorems.NewKeyIsBounded | backend/app/services/connect_keys.py:58-91 | a new key stays within the request, the user's own rights including share, and the lifetime asked for |
| ConnectTheorems.EveryHandOutIsFaithful | backend/app/services/connect_exchange.py:79-117 | every hand-out gives the envelope sealed under that code less than 60 s before, to the depositing application and redirect, on a verifier matching the deposited challenge, with a key within what was asked |
| ConnectTheorems.ExchangeIff | backend/app/services/connect_exchange.py:79-117 | a code is exchanged if and only if its request is sealed, the code is unexpired, application and redirect are the deposited ones and the verifier matches; otherwise nothing changes |
| ConnectTheorems.ReplayIsRefused | backend/app/services/connect_exchange.py:83-84 | after a hand-out presenting its code is refused and changes nothing, if and only if its request still exists or no other request under the same hash is redeemable |
| ConnectTheorems.PurgedIsHandedOnlyBetween | backend/app/services/connect_exchange.py:141-163 | over all runs, a key revoked by a purge is handed out, if at all, between that purge's selection and its commit, and none is purged twice |
| ConnectTheorems.PromptPurgeIsNeverHanded | backend/app/services/connect_exchange.py:141-163 | so a purge that commits as it selects revokes no key that is ever handed out |
| ConnectPurge.SettledIff | backend/app/db/repositories/connect_requests.py:236-262 | over all runs, any purge of which may commit late, an active key was handed out or still has its request, except exactly those whose request was denied and then purged and those created after a purge had selected for a request it dropped undelivered |
| ConnectPurge.LostExactlyWhenDenied | backend/app/db/repositories/connect_requests.py:236-262 | when no key is created during a purge, exactly those of denied and purged requests are lost |
| ConnectPurge.PurgeConservesIff | backend/app/services/connect_exchange.py:141-163 | after any run and however late it commits, a purge leaves every active key handed out or on an unexpired request if and only if no key active after it belongs to a denied request it drops or was lost before, and none was created too late |
| ConnectPurge.WithoutKeyedDenialsNothingIsLost | backend/app/services/connect_exchange.py:141-163 | runs in which no request has both a key and a denial, and no key is created during a purge, lose no key |
| ConnectPurge.KeyThenDenialLosesTheKey | backend/app/services/connect_requests.py:156-179 | the concrete run that loses one |
| ConnectPurgeRace.RevokesHandedIff | backend/app/services/connect_exchange.py:149-163 | over all runs, of the keys a purge revokes exactly those redeemed between its selection and its commit are handed out |
| ConnectPurgeRace.RedeemedKeyIsRevoked | backend/app/services/connect_exchange.py:149-163 | a run in which the application is handed a key that is revoked at once |
| ConnectPurgeRace.KeyOfDeletedRequestIsLost | backend/app/services/connect_exchange.py:149-163 | a run that loses a key without a denial |
| Base32.Base32Decode | sdk-javascript/src/token.js:105-123 | the loop over a buffer wrapping at 32 bits yields exactly the first floor(5n/8) bytes of the big-endian bit string, for every alphabet string of any length, and rejects every other |
| Base32.ShiftWrapped | sdk-javascript/src/token.js:115-116 | shifting the wrapped buffer is wrapping the shifted value |
| Base32.WrapKeepsByte | sdk-javascript/src/token.js:118-121 | the byte taken from the wrapped buffer is the byte of the unbounded one |
| KeyId.DecodeBase32Uuid | sdk-javascript/src/token.js:95-103 | for whatever `toUpperCase` makes of the segment: padding, cutting and decoding accept exactly 26 or 27 alphabet characters, and of an ASCII segment the 26-character alphabet strings |
| KeyId.IdRoundTrip | backend/app/core/api_key_token.py:54-67 | decoding the encoding of any 16 bytes gives them back |
| KeyId.ExactlyFourSpellings | sdk-javascript/src/token.js:95-103 | of the lower-case 26-character strings exactly four decode to a given id |
| KeyId.SpellingsDiffer | sdk-javascript/src/token.js:95-103 | and the four are different |
| Numerals.ExpToB36 | backend/app/core/api_key_token.py:70-79 | the digit loop computes the base-36 numeral |
| Numerals.B36Value | backend/app/core/api_key_token.py:70-84 | which reads back as the number and has no leading zero |
| Numerals.Hex2Value | backend/app/core/api_key_token.py:87-94 | two hexadecimal digits read back as the bitmap |
| Underscores.SplitOfJoin | backend/app/core/api_key_token.py:254-258 | splitting what was joined from parts without underscore gives the parts back |
| Underscores.JoinOfSplit | backend/app/core/api_key_token.py:254-258 | and joining what was split; one part more than underscores |
| ApiKeyToken.RawFieldsIff | backend/app/core/api_key_token.py:218-272 | the positional parser accepts a string if and only if it is rendered from well-formed fields, and returns those, underscores in the last fields included |
| ApiKeyToken.AcceptedIff | backend/app/core/api_key_token.py:191-301 | a token is accepted if and only if it is such a rendering and its id, expiry and permissions decode |
| ApiKeyToken.RefusalCodes | backend/app/core/api_key_token.py:191-301 | which refusal a token of well-separated fields gets, in the order of the checks |
| ApiKeyToken.TokenRoundTrip | backend/app/core/api_key_token.py:146-301 | parsing an encoded token returns every decoded field and exactly the raw fields that were rendered, MAC included, which verifies; it fails exactly for permissions above 0x3F |
| ApiKeyToken.MessageDeterminesFields | backend/app/core/api_key_token.py:100-118 | two well-formed tokens with the same signed message agree on every signed field |
| SdkToken.InsertionInvertsTruncation | sdk-python/harpocrate/token.py:187-223 | re-inserting a token's own key into its truncated form gives back the exact token |
| SdkToken.InsertionIff | sdk-python/harpocrate/token.py:211-223 | insertion succeeds if and only if the key is 43 base64 characters and the token is unexpired, and changes only the key |
| Base64.TextRoundTrip | sdk-python/harpocrate/token.py:143-147 | decoding the base64url text of any bytes gives those bytes |
| SdkKeys.AlphabetIff | sdk-python/harpocrate/token.py:143-147 | the accepted characters are exactly the images of 0..63 in the URL-safe and the standard alphabet |
| SdkKeys.KeyDecodesIff | sdk-python/harpocrate/token.py:143-153 | a key segment is accepted if and only if it has 43 characters and decodes; it decodes to 32 bytes |
| SdkKeys.EncodedIsAcceptedIff | sdk-python/harpocrate/token.py:56-171 | for all 32-byte secrets and keys the SDK accepts the encoded token if and only if the permissions are within 0x3F and it has not expired, and reads back id, expiry, permissions, secret and key |
| SdkKeys.EveryKeyCanBeInserted | sdk-python/harpocrate/token.py:211-223 | every 32-byte key can be inserted into an unexpired token the server signed with the placeholder |
| SdkKeys.PlaceholderIsZero | sdk-python/harpocrate/token.py:179-185 | the placeholder is the text of 32 zero bytes and of no others |
| SdkToken.WrongLengthIsRefused | sdk-python/harpocrate/token.py:211-223 | a key of any other length is refused, wherever its underscores fall |
| SdkToken.TruncationKeepsSignedFields | sdk-python/harpocrate/token.py:187-208 | truncation keeps every signed field and the MAC, for every master key |
| SdkToken.TruncationIsIdempotent | sdk-python/harpocrate/token.py:187-208 | truncating twice is truncating once |
| SdkToken.ServerNeverNeedsTheKey | backend/app/services/connect_keys.py:128-136 | inserting a key into the placeholder-signed token equals the token the server would have encoded with it |
| ApiKeyCache.ValidationCache.GetValid | backend/app/core/api_key_cache.py:43-52 | a hit is an unexpired entry; an expired one is removed |
| ApiKeyCache.ValidationCache.SetValid | backend/app/core/api_key_cache.py:55-61 | one entry is stored for the time to live |
| ApiKeyCache.ValidationCache.Invalidate | backend/app/core/api_key_cache.py:64-73 | the scan removes the entries with the prefix and no other |
| ApiKeyCache.PrefixSelectsId | backend/app/core/api_key_cache.py:70-71 | the prefix selects exactly the entries of that id |
| ApiKeyCache.InvalidationIsExact | backend/app/core/api_key_cache.py:64-73 | invalidation removes every entry of the id and leaves the others as they were |
| ApiKeyStaleness.RunStaysBacked | backend/app/core/api_key_auth.py:139-185 | over every interleaving each positive entry and each validation past its lookup is backed by a lookup that saw the key unrevoked |
| ApiKeyStaleness.AcceptanceIsBacked | backend/app/core/api_key_auth.py:139-226 | a key is accepted on a lookup that saw it unrevoked and a verified secret, or from a verdict cached no earlier than t - TTL on such a lookup and a secret of the same digest; every acceptance is within the owner's grant as just read |
| ApiKeyDecisions.OwnedAcceptedIff | backend/app/core/api_key_auth.py:198-226 | a call past its lookup is accepted if and only if the owner has a grant on the wallet with every bit of the call |
| ApiKeyDecisions.AloneAcceptedIff | backend/app/core/api_key_auth.py:139-226 | a validation nothing interrupts accepts if and only if that holds and the secret has an unexpired positive verdict or, having none, verifies against the unrevoked row; the verdict it leaves |
| ApiKeyDecisions.RevocationEffect | backend/app/services/api_keys.py:243-257 | a revocation revokes the key, removes every verdict on it and touches nothing else |
| ApiKeyDecisions.CascadeEffect | backend/app/services/grants.py:318-341 | a grant deletion revokes exactly the keys of the owner of the wallet, drops the grant, and empties the cache if one of them was active |
| ApiKeyStaleness.NoLookupAfterRevocation | backend/app/core/api_key_auth.py:149-160 | once a revocation or a cascade has committed no lookup sees the key unrevoked |
| ApiKeyRevocation.NeverAcceptedAgain | backend/app/services/api_keys.py:243-257 | a revoked key with no unexpired positive entry and no validation past its lookup is accepted in no continuation |
| ApiKeyRevocation.AcceptedAfterRevocationIff | backend/app/services/api_keys.py:243-257 | a revoked key is accepted in some continuation if and only if one of the two remains |
| ApiKeyRevocation.RaceLeavesStaleVerdict | backend/app/services/api_keys.py:243-257 | invalidating before the commit can leave such an entry for a whole time to live |
| ApiKeyRevocation.NoGrantNoAcceptance | backend/app/core/api_key_auth.py:198-226 | without the owner's grant no key of that owner is accepted on the wallet, whatever the cache and the calls under way hold |
| ApiKeyRevocation.CascadeLocksOut | backend/app/services/grants.py:318-341 | so a committed grant deletion locks its user out at once, and every key it counted is revoked |
| WalletKeyCache.Cache.Get | sdk-python/harpocrate/cache.py:40-50 | a hit is an unexpired entry; an expired one is removed |
| WalletKeyCache.Cache.Set | sdk-python/harpocrate/cache.py:52-63 | evicts an entry expiring first when full and the key is new; raises only on an empty store without room |
| WalletKeyCache.Cache.FindOldest | sdk-python/harpocrate/cache.py:58-60 | the scan finds an entry with the least expiry |
| WalletKeyCache.EvictedByLater | sdk-python/harpocrate/cache.py:57-61 | the evicted entry was set before every other one held |
| WalletKeyCache.HitsAreLatest | sdk-python/harpocrate/cache.py:40-73 | over all runs the size stays within maxsize and a hit is the latest value set, within its time to live |
| WalletKeyCache.RecentKeysHit | sdk-python/harpocrate/cache.py:40-73 | over all runs a key set within its time to live, not removed, with fewer than maxsize other keys set since, is a hit |
| LookupLimiter.Limiter.RateLimitLookup | backend/app/services/wallets.py:40-50 | the pruning loop, the refusal and the record of one call |
| LookupLimiter.TableIsPerIp | backend/app/services/wallets.py:35-50 | each IP is limited by its own calls alone |
| LookupLimiter.SameDecision | backend/app/services/wallets.py:40-50 | the pruned log decides every call as the full history would |
| LookupLimiter.AtMostLimitPerWindow | backend/app/services/wallets.py:36-50 | no half-open 60 s window holds more than 30 accepted calls |
| LookupLimiter.RefusedIff | backend/app/services/wallets.py:45-49 | a call is refused exactly when 30 were accepted in the 60 s before it |
| SingleFlight.Client.GetWalletKey | sdk-typescript/src/client.ts:168-171 | the three entries: key present, promise present, new fetch |
| SingleFlight.Client.GrantArrives | sdk-typescript/src/client.ts:171-183 | a 32-byte key is kept; any other length fails the promise |
| SingleFlight.Client.RunFinally | sdk-typescript/src/client.ts:185-189 | the starter clears the promise when its fetch has settled |
| SingleFlight.AtMostOneFetch | sdk-typescript/src/client.ts:168-190 | over all interleavings at most one fetch is in flight |
| SingleFlight.KeyNeverChanges | sdk-typescript/src/client.ts:168-190 | after the first key no fetch starts and every call returns that key |
| SingleFlight.FinallyClearsOwnPromise | sdk-typescript/src/client.ts:185-189 | a finishing caller clears only the promise it started |
| SingleFlight.CallIff | sdk-typescript/src/client.ts:168-190 | after every run a call returns the key if there is one, else awaits the fetch whose starter has not finished, else starts a new one |
| SingleFlight.KeyIff | sdk-typescript/src/client.ts:171-183 | there is a key if and only if a 32-byte one answered a fetch in flight, and it is that one |
| SingleFlight.InFlightIff | sdk-typescript/src/client.ts:168-190 | a fetch is in flight exactly from the call that started it to its first answer |
| SingleFlight.PromiseIff | sdk-typescript/src/client.ts:185-189 | the promise is there exactly until the caller that started it has run its `finally` after an answer |
| KeysetPaging.PageShape | backend/app/services/audit_log.py:174-189 | what a page holds and when it names a next one, in both forms |
| KeysetPaging.BelowIsTotal | backend/app/services/secrets.py:90-108 | of two different rows exactly one is below the other: the earlier, or at the same time the one of smaller id |
| KeysetPaging.GrowsInFront | backend/app/services/secrets.py:90-108 | the hypothesis of the two below holds of every table that only grows in front |
| KeysetPaging.NextRequestContinues | backend/app/services/secrets.py:90-108 | the cursor leaves exactly the rows after the page, whatever was inserted above |
| KeysetPaging.WalkVisitsEachRowOnce | backend/app/services/audit_log.py:174-189 | following next_cursor ends and visits every row once in order, in both forms, under insertions before visited rows; only the full-page form may end on an empty page |

## Left out

- Broker, HTTP, database and file input and output, and the decoding of messages: a delivery, a response or a row is a value.
- Cryptography: AES-GCM, RSA, JWE and Argon2 are not modelled; hash functions and the MAC are arbitrary functions.
- SQL triggers: which local writes enter the replication log and in which order, and whether a replicated write is logged again, is not part of this model; `SyncFailures` cites the order of a cascaded deletion.
- SyncSchema.RowOf: a record that the column types or the checks refuse is no record; the check between a secret's type and its schema version is not modelled, nor are ids that are not of the column's type, tags and the path index, which replication does not send.
- SyncSchema.DeleteRow: rows of tables outside the replicated four change only by the cascades modelled; API keys, environments, types and schemas that a node creates itself between deliveries are in the base table.
- SyncSchema.CascadesStopThere: tags and the path index of a secret cascade one level further; no replicated row depends on them and they are in none of the tables modelled.
- SyncConvergence.Confluence: for ownership closed under foreign keys and unique values, and for nodes that only receive; `SyncNodes` has nodes that write their own rows too. There is no conflict resolution between writers of one row.
- SyncMirror.MirroredIffNothingBreaks: about following change by change; a later write may bring back a row that a cascade removed.
- SyncPublisher.NothingLost: for runs without `reset_cursor`, which may skip or repeat rows by design.
- SnapshotRuns.EveryRotationCovers: for a rotation that nothing interrupts; `SnapshotCoverage.UndisturbedCoversIff` lets others act on what it has not seen.
- SnapshotCoverage.CalmKeepsCover: on the first day after the period; later days may delete what covers it by retention, which is the policy's purpose.
- SnapshotCadence.SnapshotClimbs: for runs without removals by hand whose rotations do not overlap and list at most 500 snapshots.
- GfsRotation.Rotate: dates are those of one calendar; that `date.today` reads the local zone and `created_at` another is not modelled, and neither are backup files on disk and remote copies.
- ConnectRuns.RunKeepsInvariant: deleting a wallet or a user cascades to the keys and requests of the flow, and deleting a client to its requests; no event of the flow deletes one.
- ConnectFlow.Service.CreateApiKey: the wallet's visibility and the user's rights on it are an input, and the key's cryptographic material is not modelled.
- ConnectFlow.Service.PurgeExpired: the row updates of a purge that commits as soon as it has selected (`ConnectRuns.LatePurge` is the general one); the cache invalidation and the audit entries beside them are not modelled.
- ApiKeyToken.TokenRoundTrip: permissions are below 256 and expiry is not negative, which is what the encoder is documented for; secrets of 43 characters that are no base64 text are included.
- ApiKeyToken.ParseToken: letters outside ASCII whose upper case is an ASCII letter are refused in the key id, where Python would accept them.
- SdkToken.Parse: a key segment that does not decode to 32 bytes is one error, where the SDK distinguishes two codes.
- Base32.Base32Decode: strings are sequences of code units; the JavaScript loop steps over whole code points, which differ only on characters it refuses.
- ApiKeyStaleness.AcceptanceIsBacked: `validate_api_key_token` is a state machine cut at its await points, not a method, so that calls can interleave; the parse, expiry, MAC and required-permission checks before the cache are not part of it, and row locks between concurrent revocations are not modelled.
- WalletKeyCache.Cache.FindOldest: which of several entries expiring at the same instant is evicted (Python takes the first inserted), and that threads are serialised by a lock.
- KeysetPaging.WalkVisitsEachRowOnce: rows that move or disappear during the walk; a secret updated meanwhile moves to the front and may be skipped.
- LookupLimiter.Limiter.RateLimitLookup: times are real numbers, so float rounding of the clock is not modelled.
- SingleFlight.Client: a fetch is an abstract request; decryption failure and a key of another length than 32 bytes both count as failure.
- The token parsers of the JavaScript (beyond its base32 decoder), TypeScript, Go, Rust and C# SDKs, percent-encoding, path-style secret names and `list_wallets`: the same algorithm again, or single-branch checks.
- The pairing wizard, recovery sessions, identity governance, lag monitoring, remote backup providers, migrations, secret and wallet editing, the command line and the web interface.
