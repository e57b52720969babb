# Verified model of icechest

icechest keeps Zarr arrays and Apache Iceberg tables in step without a catalog
service. An Icechunk commit carries, in its metadata, a map from table name to the
`metadata.json` that describes the arrays of that same commit. A hybrid transaction
stages array writes in an Icechunk session and records table work as *intents*; its
`commit` applies the intents to a pointer overlay, tries a compare-and-swap on the
branch tip and, when another writer won, checks that the work may be replayed,
adopts the winner's pointers, rebases the arrays and tries again.

This project models that protocol and proves what it is for. `dafny verify
dfyconfig.toml` checks all of it.

## How the model is laid out

| file | what it holds |
|---|---|
| `Tables.dfy` | Iceberg table versions: data files, the snapshot chain of the Apache Iceberg Table Spec (section "Snapshots"), append, copy-on-write delete, overwrite |
| `Validation.dfy` | `conflicting_adds`: the backward walk over snapshot parents, and what an empty answer proves |
| `Commutation.dfy` | why a validated delete may be replayed, and exactly when the second of two deletes on one file is refused |
| `Convention.dfy` | `declare` and `read_bindings` on a group's attributes |
| `Catalog.dfy`, `StagedVersions.dfy` | the write-once warehouse and `IcechunkCatalog`: overlay, staging, adopting; what each operation writes and stages |
| `Intents.dfy` | the four intents, applying them, and `_validate_removal` |
| `Icechunk.dfy` | branch, sessions, commit as compare-and-swap, rebase, the pointer map |
| `Transaction.dfy` | `HybridTransaction` as a class, each method proved against a function on values |
| `Commits.dfy` | one call of `commit`: its errors and their reasons, what it has published when it returns |
| `Progress.dfy` | which transactions get through, and a `commit` on work that is already staged |
| `NoTrace.dfy` | a `commit` that raises leaves no trace on the branch, one that returns a single snapshot |
| `Protocol.dfy`, `Steps.dfy` | any number of transactions interleaved at each shared step; an uninterrupted run of the steps is one turn of the loop in `commit` |
| `AnyRun.dfy`, `Abandoned.dfy`, `Bookkeeping.dfy`, `Leftovers.dfy` | the promises that hold in every run, with their invariants |
| `Invariants.dfy`, `Replay.dfy`, `Isolation.dfy`, `Declarations.dfy`, `SystemInvariant.dfy`, `Guarantees.dfy` | the inductive invariant of pinned runs |
| `Theorems.dfy` | the promises that hold in pinned runs |
| `Recording.dfy`, `Lookups.dfy` | from the calls a transaction gets to what readers find in its snapshot |
| `Runs.dfy`, `RepeatedCommit.dfy` | following a concrete run; the one way an intent is published twice |
| `Publications.dfy` | what each publication of any run holds, and exactly when it loses a table version |
| `SplitRecovery.dfy`, `LostTable.dfy` | commits that land between the two halves of a recovery: exactly when they do harm, and a run in which they do |
| `Tiff.dfy` | `parse_ifds`, its termination, truncation, and a writer it inverts |
| `Ingest.dfy`, `BatchRecords.dfy`, `SortedFiles.dfy`, `Granules.dfy`, `ConcurrentBatches.dfy` | `ingest_batch`, record by record, and the pairing of rows with granule groups, for one batch, a series, and batches that overtake one another |
| `Options.dfy`, `Errors.dfy` | shared datatypes |

The objects the source updates in place (`IcechunkCatalog`, `HybridTransaction`, the
session, the branch, the Zarr group) are classes; each method is proved equal to a
function of the old state, and the theorems are about those functions. Methods whose
contract says only that are not listed below. In the protocol, a run is any finite list
of events of any number of transactions. It is *pinned* when nobody moves a pointer
between the two halves of a recovery, reading the tip's pointers and rebasing; commits
of arrays alone may land there. The code does not enforce this. The promises that need
it are in `Theorems.dfy`, and `LostTable.UnpinnedRunLosesTable` is a run that breaks
them. What holds in every run is `Publications.EveryPublication`: the work is published
once, on the snapshot whose pointers were read, and its parent's table versions are all
kept exactly when that snapshot has them. Publishing once, all or nothing, time travel,
abandoned versions, leftovers and the books of directly staged work are stated for
every run too.

Assumptions about code outside the repository: an Icechunk commit is an atomic
compare-and-swap on the tip; a rebase either carries all staged changes to the tip or
fails, by a choice the model leaves open, and always fails for two changes to the
root attributes; a uuid is never drawn twice; new Iceberg snapshot ids are unused;
file statistics may keep a file without a match but never rule out one that has it.

## Model

| member | source | states |
|---|---|---|
| `Theorems.SerialRefinement` | src/icechest/transaction.py:282-340 | in every pinned interleaving each published snapshot's tables are its parent's with that transaction's intents performed once each, in order (after work staged directly, if any), however many attempts were made; path by path its arrays are what the transaction wrote or deleted, and the parent's elsewhere; so are its root attributes; its metadata holds the pointer map alone |
| `Theorems.SnapshotIsReplay` | README.md:70-78 | every snapshot, hence the tip, comes from nothing by the published transactions in commit order: the rows by performing their operations, each array node and the attributes by the last publication that names them |
| `AnyRun.PublishesOnce` | src/icechest/transaction.py:293-338 | no transaction owns two snapshots, even when `commit` is called again after it raised; over every run |
| `Publications.EveryPublication` | src/icechest/transaction.py:282-389 | over every run, whoever lands inside a recovery: a published snapshot's tables are those of the snapshot whose pointers were read with the intents performed once each, in order (after work staged directly, if any, and then on the first attempt only); path by path its arrays, and its attributes, are what the transaction wrote or else its parent's; and it keeps its parent's table versions if and only if the snapshot that was read has them |
| `Bookkeeping.StrandedForever` | src/icechest/transaction.py:293-389 | versions staged on a base that is no longer the tip are never published: over every continuation, with any further `commit` and any direct change to the catalog |
| `Bookkeeping.RaisingStrands` | src/icechest/transaction.py:322-389 | whenever `commit` raises at its compare-and-swap or while recovering and leaves versions staged, they are in that state |
| `Leftovers.LeftoversNeverPublish` | src/icechest/transaction.py:293-389 | on any base: once a `commit` has raised with versions still staged, no later `commit` publishes unless the catalog was changed directly; over every run |
| `RepeatedCommit.AppendPublishedTwice` | src/icechest/transaction.py:293-340 | that exception is real: a run in which the caller creates the missing table on the catalog and commits again, and one recorded append ends up in the table twice |
| `Progress.StagedPublishedIff` | src/icechest/transaction.py:293-340 | exactly when `commit` publishes what was staged before the call, directly or by a call that failed: retries are allowed, every intent finds its table among it, and nobody lands past the session's base; the intents then come on top of it |
| `Abandoned.UnpublishedIsInvisible` | src/icechest/transaction.py:282-291 | a transaction that has not returned an id owns no snapshot, and no snapshot's pointer map names a file it wrote; over every run |
| `AnyRun.BranchMovesByPublication` | src/icechest/transaction.py:322-338 | a step of any run leaves the branch as it is or adds one whole snapshot, and only by a publication |
| `Bookkeeping.DirectWorkPublishedFirst` | src/icechest/transaction.py:293-340 | in every run, work staged outside the intents is published on the first attempt together with every intent, or there was none: it never survives a recovery |
| `Bookkeeping.RecoveryRefusesExactly` | src/icechest/transaction.py:370-389 | in every run, a recovery is refused as unreplayable if and only if something was staged before `commit`, naming exactly those tables, whatever the intents are called |
| `Theorems.RemovesOnlyPlannedRows` | src/icechest/transaction.py:95-155 | snapshot isolation: up to the parent a delete or overwrite was published on, no snapshot after the one captured when it was planned added a file that may hold a match; so a matching row occurs at most as often as in the captured version plus what its own earlier intents added |
| `Bookkeeping.PlanCaptures` | src/icechest/transaction.py:264-278 | the first removal planned on a clean catalog captures the table's snapshot in the transaction's base snapshot |
| `Bookkeeping.CaptureSticks` | src/icechest/transaction.py:264-278 | no step, retry or conflict of any run moves a captured snapshot |
| `Theorems.CaptureOnEveryLaterChain` | src/icechest/validation.py:61-81 | the captured snapshot lies on the table's parent chain in every later snapshot of the branch, so neither "cannot prove" answer can come up |
| `Theorems.NeverMalformed` | src/icechest/transaction.py:527-562 | in every snapshot of a pinned run a table lookup loads the very version its pointer names, with the rows of the snapshot, or says the table is undeclared, never that the store is malformed; a declared table always loads |
| `Lookups.EveryLookup` | src/icechest/transaction.py:527-562 | every outcome of a lookup: the version its entry in the pointer map names, and without an entry undeclared, malformed or unreadable as the declaration says |
| `Lookups.LookupsShowTheWork` | src/icechest/transaction.py:282-340 | in every run, what lookups show in a published snapshot, name by name, is what the published operations make of what they show in the snapshot that was read |
| `Lookups.LookupsShowTheIntents` | src/icechest/transaction.py:282-340 | in a pinned run, of what they show in the parent; without direct work the operations are the intents |
| `Lookups.LookupsStay` | src/icechest/transaction.py:527-540 | a lookup in a snapshot gives the same version after every continuation of every run |
| `Recording.AlwaysFaithful` | src/icechest/transaction.py:199-262 | in every run a transaction's intents are the operations it was asked for, with their own arguments and in order, and its session holds the last write to each path since a discard; nothing else adds to either |
| `Recording.CreateDeclares` | src/icechest/transaction.py:206-237 | `create_table` declares the very location it records, overriding only that name's binding, and leaves the session untouched when nothing changes |
| `Recording.SnapshotFromEvents` | src/icechest/transaction.py:199-340 | a published snapshot told from the events alone, in every run: its arrays are the publisher's last writes over its parent's, and lookups show what the operations it was asked for make of the snapshot that was read |
| `Theorems.TablesNeverVanish` | conventions/icechunk-iceberg/README.md:86-91 | pointer keys never shrink along the branch, and each later version holds the earlier one's snapshots and has its tip on its chain |
| `AnyRun.TimeTravel` | src/icechest/catalog.py:88-103 | every snapshot reads the same arrays, attributes and rows after every continuation of every run |
| `Abandoned.AbandonedIsUnreachable` | src/icechest/catalog.py:88-96 | in every run, a version written in an attempt that was given up is neither a published version nor in the metadata log of one |
| `SystemInvariant.Reachable` | src/icechest/transaction.py:282-362 | the full invariant (base pointers, refinement, books, isolation, lineage, declarations) holds in every state of every pinned run |
| `AnyRun.AlwaysOrderly` | src/icechest/transaction.py:282-362 | after every list of events: the warehouse and the branch are well-formed, each catalog valid, and snapshots and publications correspond one to one with their owners done |
| `Invariants.BasicActs` | src/icechest/transaction.py:342-362 | in a pinned run each step keeps the catalog's pointers those of a snapshot at or after the session's base |
| `Replay.BooksActs` | src/icechest/transaction.py:293-340 | each step keeps the account of what is staged: what was there before `commit`, then the intents applied so far, and nothing else |
| `Isolation.IsoActs` | src/icechest/transaction.py:264-362 | each step keeps captured snapshots on the chain and, while the base is the tip, the window after them free of files a planned removal may match |
| `Guarantees.RunInv` | src/icechest/transaction.py:322-338 | snapshots and publications correspond one to one, each recording parent, intents and array changes |
| `SplitRecovery.SplitRecoveryKeepsTablesIff` | src/icechest/transaction.py:358-362 | in every run, a recovery that succeeds, followed by an attempt before anyone else lands: it publishes if and only if the intents find their tables in the snapshot that was read, on that snapshot's tables, and loses no table version of its parent if and only if that snapshot has them all |
| `SplitRecovery.FirstSplitIff` | src/icechest/transaction.py:358-362 | in a run pinned so far, that is if and only if the snapshot read and the tip have equal pointers |
| `SplitRecovery.BranchKeepsTablesIff` | src/icechest/transaction.py:358-362 | the branch of any run keeps every table version from snapshot to snapshot if and only if each publication read a snapshot that has its parent's |
| `LostTable.UnpinnedRunLosesTable` | src/icechest/transaction.py:358-362 | a concrete run of three transactions in which a table is created and then lost, leaving a malformed tip |
| `SplitRecovery.RunChained` | src/icechest/catalog.py:195-206 | in a pinned run each table's metadata log extends that of the parent snapshot's version |
| `Steps.TurnIsSteps` | src/icechest/transaction.py:294-338 | one turn of the retry loop is the protocol's steps run without interruption: same world, same transaction, same outcome |
| `Steps.CommitIsSteps` | src/icechest/transaction.py:293-340 | so is a whole call, turn after turn with the others' commits before each swap; the transaction is done if and only if `commit` returns |
| `Commits.UnreachableIff` | src/icechest/transaction.py:294-340 | the assertion behind the loop is reached if and only if `max_retries` is negative, and Icechunk never sees an empty commit it was not told to allow |
| `Commits.GivingUpTakesLandings` | src/icechest/transaction.py:294-337 | `commit` gives up on a moving branch only after more conflicts than retries, each but a stale session's first caused by a commit that landed during the call |
| `Progress.GetsThrough` | src/icechest/transaction.py:282-340 | every transaction that starts with nothing staged is published, or ends with a reason outside it: its first missing table, no changes, a removal the last tip refuses, moved root attributes or an unsolvable rebase, or more landed commits than it may retry |
| `Progress.PublishedUnopposed` | src/icechest/transaction.py:282-340 | removals and attribute changes included: with tables present, something to publish and solvable rebases it is published, if no commit landing during the call adds a file its removals may match or changes root attributes it changes, and no more of them land than it may retry, one less when its base is stale already |
| `Progress.PublishedFromTip` | src/icechest/transaction.py:264-340 | in particular when it was opened on the tip and its removals captured the tables' snapshots there |
| `Commits.TurnJustified` | src/icechest/transaction.py:295-389 | every error has its reason: the first missing table by name, the first removal the tip refuses with its table, filter and ids, the unreproducible tables, nothing to publish, a moved branch on the last attempt, a rebase without solution |
| `Commits.PublishRefusals` | src/icechest/transaction.py:298-327 | exactly when an attempt is refused for making no changes, when it conflicts, and what a publication adds: one snapshot with the session's nodes and attributes over the tip's and the catalog's pointers |
| `Commits.ReturnedMeansOnce` | src/icechest/transaction.py:282-340 | when `commit` returns, the branch's last snapshot is its parent with every intent performed once and in order, and path by path what the session wrote, its root attributes included |
| `Commits.LandIsCommit` | src/icechest/transaction.py:282-340 | the other writers' commits that land during a call are such calls themselves: the same world, published once or not at all |
| `NoTrace.RaisedPublishesNothing` | src/icechest/transaction.py:282-291 | when `commit` raises, the branch is, snapshot for snapshot, what the other writers' commits that landed before at most `max_retries + 1` attempts give without it; when it returns, that and one snapshot |
| `Transactions.HybridTransaction.Append` | src/icechest/transaction.py:239-241 | the intents end in this append, with these rows; nothing is captured |
| `Transactions.HybridTransaction.Delete` | src/icechest/transaction.py:243-250 | the table's current snapshot is captured unless one was, and the intents end in this delete; exactly when a base version has to be read whose file is missing, that is the error and nothing is recorded |
| `Transactions.HybridTransaction.Overwrite` | src/icechest/transaction.py:252-262 | the same for an overwrite, with these rows and this filter |
| `Transactions.HybridTransaction.CreateTable` | src/icechest/transaction.py:206-237 | the intents end in this creation, and the root attributes declare the table at the same location |
| `Transactions.HybridTransaction.Commit` | src/icechest/transaction.py:282-340 | the retry loop leaves exactly the world, transaction and outcome the theorems about `commit` speak of, and after raising the transaction may be committed again |
| `Transactions.HybridTransaction.Exit` | src/icechest/transaction.py:396-411 | commits unless the body failed; when anything failed the session ends with no uncommitted changes |
| `Intents.ApplyRefines` | src/icechest/transaction.py:73-152 | staging an intent shows exactly its row-level meaning on all tables, or fails and changes nothing |
| `Intents.ApplyAllRefines` | src/icechest/transaction.py:295-298 | a list of intents shows the list of their meanings |
| `Intents.ApplyAllContinues` | src/icechest/transaction.py:295-296 | a list of intents fails exactly when some operation's table is missing |
| `Intents.ApplyAllError` | src/icechest/transaction.py:295-296 | and then names the first one that is |
| `StagedVersions.EveryApply` | src/icechest/transaction.py:73-152 | each operation by what it leaves: an error and nothing else; nothing when its table exists already or no row matches its delete; or exactly one new file at an unused place for its table, staged, whose log ends in the version before it, whose snapshots contain the earlier ones and whose rows, row by row, are the ones the operation keeps and adds |
| `StagedVersions.DeleteFiles` | src/icechest/transaction.py:136-137 | copy-on-write, file by file: one snapshot on the tip, in which files without a matching row stay and each other file is replaced by its remaining rows, if any |
| `StagedVersions.NothingToDoIsRefused` | src/icechest/transaction.py:298-306 | a commit whose deletes match no row and which writes no array raises for making no changes, and writes nothing |
| `Intents.AppliableIsPerformable` | src/icechest/transaction.py:295-296 | the check on table names decides whether the operations can be performed |
| `Intents.AppendsAlwaysValidate` | src/icechest/transaction.py:55-61 | intents that remove nothing can always be replayed |
| `Intents.ValidatedIffNothingAdded` | src/icechest/transaction.py:95-128 | a removal is accepted if and only if no snapshot after its base added a file that may hold a match, or the table has no snapshot |
| `Intents.RefusalMeans` | src/icechest/transaction.py:95-128 | a refusal carries the table, the filter and exactly the ids of that window, or the tip when there was no base |
| `Validation.ConflictingAddsExact` | src/icechest/validation.py:58-89 | with the base on the chain, the ids are exactly the snapshots after it up to the tip that may have added a match, ascending and once each |
| `Validation.ConflictingAddsUnprovable` | src/icechest/validation.py:58-81 | equal ends report nothing; a missing end or a base never reached reports the tip alone |
| `Validation.AncestorIsReached` | src/icechest/validation.py:61-81 | from a base on the tip's chain neither fallback is taken |
| `Validation.NoConflictIffQuiet` | src/icechest/validation.py:34-57 | the answer is empty if and only if no snapshot after the base up to the tip added a file that may match |
| `Validation.ValidatedWindow` | src/icechest/validation.py:34-57 | an empty answer proves that no matching row is more frequent at the tip than at the base |
| `Commutation.ValidatedDeleteCommutes` | src/icechest/transaction.py:95-140 | a delete that validates leaves the same rows before and after any sequence of winners' appends, deletes and overwrites |
| `Commutation.SecondDeleteRefusedIff` | README.md:88-94 | right after one of two deletes planned on one version, the other is refused if and only if the first wrote out again a file that may hold a match for it |
| `Commutation.ExactStatistics` | README.md:88-94 | with exact statistics, that is if and only if a row only the second matches shares a data file with a row the first removed |
| `Commutation.SameFileDeletesConflict` | README.md:88-94 | two deletes touching one data file: the second is refused as long as it still has a row to remove there, whatever else landed |
| `Commutation.SameFileDeletesPass` | README.md:88-94 | two deletes that both touch a table's only file and both go through, against the documentation's claim that such deletes never both succeed |
| `Tables.DeleteContents` | src/icechest/transaction.py:136-137 | copy-on-write over files removes every matching row and no other |
| `Tables.AppendContents` | src/icechest/transaction.py:91-92 | an append adds its rows to the table's bag of rows |
| `Tables.OverwriteExtends` | src/icechest/transaction.py:142-152 | an overwrite is at most two snapshots on the old tip, well-formed and on its chain |
| `Catalogs.StageValid` | src/icechest/catalog.py:184-206 | staging keeps the warehouse write-once and the overlay built on the base, and changes one table's rows |
| `Catalogs.IcechunkCatalog.CommitTable` | src/icechest/catalog.py:171-210 | refused if and only if read-only, unreadable or not at the expected snapshot; else the update of the version the name resolves to is written, its log extended by that version's location, and only this name is staged anew |
| `Catalogs.OverlayExtends` | src/icechest/catalog.py:84-86 | the overlay holds a same or later version of every base table |
| `Convention.Group.Declare` | src/icechest/convention.py:70-93 | afterwards the version is set, the convention listed and each binding stored as given, all other attributes as before; the node is written only when an attribute changes |
| `Convention.DeclareIdempotent` | src/icechest/convention.py:70-76 | a second call changes nothing |
| `Convention.DeclareKeepsTheRest` | src/icechest/convention.py:70-93 | the version is written, other attributes are kept, and the conventions are the listed ones with this one behind them exactly if it was not among them |
| `Convention.DeclareBindings` | src/icechest/convention.py:96-99 | readers see the old bindings overridden by the new, exactly when every binding not overridden can be read |
| `Declarations.ResolvesOrUndeclared` | src/icechest/transaction.py:527-562 | where declared tables have pointers, a lookup loads exactly the version a pointer names and calls the tables without one undeclared |
| `Tiff.ParseIfds` | src/icechest/demo/tiff.py:23-52 | for every buffer with an acyclic chain: the sizes of all directories up to the end of the chain, or the right error, reading nothing outside the buffer |
| `Tiff.WalkChain` | src/icechest/demo/tiff.py:37-51 | the loop terminates on every acyclic chain and returns the sizes in chain order |
| `Tiff.ReadDirectory` | src/icechest/demo/tiff.py:38-51 | tells exactly whether a directory lies in the buffer; whatever twelve-byte fields it consists of, the size is given by the last width and the last height among them, and the link is the one behind them |
| `Tiff.LookupIsLast` | src/icechest/demo/tiff.py:42-48 | of several entries with one tag the last decides |
| `Tiff.EndsIffAcyclic` | src/icechest/demo/tiff.py:37-51 | the walk ends if and only if no directory is visited twice |
| `Tiff.AcyclicIsShort` | src/icechest/demo/tiff.py:37-51 | an acyclic walk takes fewer turns than the buffer has bytes |
| `Tiff.LoopNeverEnds` | src/icechest/demo/tiff.py:37-51 | a fourteen-byte file on which the loop would never end |
| `Tiff.TruncationIsPrefix` | src/icechest/demo/tiff.py:24-28 | parsing any first part of at least eight bytes gives a prefix of the whole's sizes and the same errors |
| `Tiff.EveryDirectory` | src/icechest/demo/tiff.py:38-48 | every directory that lies whole in the buffer is a list of fields, the `i`-th in the twelve bytes from `2 + 12 * i` on, and a link |
| `Tiff.ReadsLinked` | src/icechest/demo/tiff.py:37-51 | wherever its directories lie in a buffer, a chain of them gives exactly the sizes they state, in the order of the links |
| `Tiff.ChainIsLinked` | src/icechest/demo/tiff.py:37-51 | and every chain that ends is one of those |
| `Tiff.HeaderBytes` | src/icechest/demo/tiff.py:29-34 | the marker, version and first offset, byte by byte, or which error |
| `Tiff.ReadsWhatWasWritten` | tests/demo/test_tiff.py:15-28 | parsing a written file returns exactly the sizes written, for both byte orders, with any other entries around the dimensions, any bytes between directories, and any number of them |
| `Ingest.IngestBatch` | src/icechest/demo/ingest.py:62-163 | the whole call: the world after it, what it returns or raises, and what its session then holds |
| `BatchRecords.RecordsLand` | src/icechest/demo/ingest.py:62-163 | a call that returns has published, in order, the first record of each new id whose writer succeeds: the row with its array path and the hash of its footprint, and under its group exactly the nodes its writer made, each with its content; it returns those ids and every other record's reason |
| `BatchRecords.BatchContents` | src/icechest/demo/ingest.py:98-140 | after any number of records each id's group holds what one record left there, or nothing |
| `BatchRecords.BatchReasons` | src/icechest/demo/ingest.py:51-59 | an id's entry in `skipped` is the reasons of its records, in order: a duplicate of a published one, already in the store, or the writer's error with a failed cleanup's |
| `Granules.LeftUncommittedIff` | src/icechest/demo/ingest.py:142-163 | the arrays of a batch that is not published are still in its session if and only if every record has a footprint, some row is kept and the table has no pointer in the tip when it is looked up |
| `Granules.UnresolvedKeepsChanges` | src/icechest/demo/ingest.py:142-149 | one granule and a store without the table: the lookup raises outside the `try`, and the staged group stays |
| `SortedFiles.BatchFileIsSorted` | src/icechest/demo/ingest.py:147-154 | however many attempts it took, a call that returns has added one data file to its parent's, holding exactly the published records' rows in ascending order of their hash |
| `Granules.BatchKeepsPairing` | src/icechest/demo/ingest.py:73-91 | a published batch accounts for every id, touches no earlier node, and pairs each row with one group and each group with one row if and only if no called writer's failed cleanup left nodes behind |
| `Granules.BatchPairsAmongOthers` | src/icechest/demo/ingest.py:73-91 | a batch that others overtake: if they keep the pairing and stay off its groups, its snapshot keeps it too if and only if no called writer's failed cleanup left nodes behind |
| `Granules.BatchesKeepPairing` | src/icechest/demo/ingest.py:73-91 | over any sequence of batches whose cleanups succeed, with such commits of others anywhere in between, every snapshot keeps that pairing and earlier granules keep their arrays |
| `ConcurrentBatches.BatchesAmongBatches` | src/icechest/demo/ingest.py:62-163 | that is so whenever those who overtake a batch are batches themselves, on other ids and with cleanups that succeed |
| `ConcurrentBatches.LandIsIngest` | src/icechest/demo/ingest.py:62-163 | such a batch, landing as another writer's commit, is a call of `ingest_batch` that nobody overtakes |
| `Granules.AloneIsConsiderate` | src/icechest/demo/ingest.py:73-91 | with no other writer during the calls nothing is asked of others |
| `Granules.BatchAccounts` | src/icechest/demo/ingest.py:98-140 | after any number of records: rows and committed ids agree in order, ids are distinct and new to the store, and every record is committed or skipped |
| `Granules.StrayIff` | src/icechest/demo/ingest.py:117-138 | a group without a row is staged exactly when some called writer failed and its cleanup left nodes |
| `Granules.RecordKeepsReason` | src/icechest/demo/ingest.py:51-59 | a new reason is put after the earlier ones, and other ids keep theirs |
| `Granules.ReasonsAreKept` | src/icechest/demo/ingest.py:51-59 | no reason is lost by the end of the batch |

## Left out

- `Theorems.SerialRefinement`: stated for pinned runs, like the other members of `Theorems`; the code does not pin; `Publications.EveryPublication` says what remains in every run, and `LostTable` is a run that loses a table.
- `Transactions.HybridTransaction.Commit`: requires a transaction that has not committed yet, because what Icechunk does with a session that was committed is not part of this model; other writers land between attempts' compare-and-swaps here, and anywhere in `Protocol`.
- `Transactions.HybridTransaction.Exit`: a `with` block whose body has called `commit` itself is left out for the same reason.
- `Tiff.ParseIfds`: requires an acyclic chain, because the loop does not end on any other (`Tiff.EndsIffAcyclic`).
- `ConcurrentBatches.BatchesAmongBatches`: batches that overtake one another have distinct ids, because whether two with one id can both rebase is Icechunk's decision; each that lands during a call is one that nobody overtakes.
- `Steps.CommitIsSteps`: the others' commits are whole there; their own steps are not matched with the protocol's.
- Raw `session.commit` calls without the pointer map, and other writers that bypass `HybridTransaction`: every commit on the branch is assumed to go through the protocol.
- PyIceberg's internals: one delete is one snapshot and one append one data file; of a table commit's requirements only the expected current snapshot is checked; the cap on the metadata log's length, manifests, schemas, partition specs, sort orders and properties are not modelled.
- Predicates are arbitrary functions on rows with a sound statistics test; parsing string predicates is not modelled.
- Which array changes a rebase can carry over: left open except for the root attributes; a rebase that meets changed root attributes is refused even when both sides wrote the same value.
- I/O failures while applying an intent: applying succeeds on every table that exists.
- Messages and logging; the tables of an unreplayable change are a set, not a sorted list.
- `HybridTransaction` on a session of another branch, `HybridRepo`'s choice among branch, tag and snapshot id, and the default warehouse location: constructor plumbing.
- The catalog operations that only raise or return a constant, namespaces and views.
- The hash, the asset and convention helpers of the demo, and the writer `write_granule`: the batch takes a hash function and what the writer does as parameters.
- Garbage collection: the repository does not implement it.
