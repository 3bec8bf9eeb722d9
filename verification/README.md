# Verified model of the Valv metadata core and daemon

Valv keeps shared folders in sync: a server holds the file tree, the versions of files and the chunks they are made
of, and daemons keep a mirror of the folders they may read. This project models the parts of it that decide whether
data survives, and proves what they promise, over every input and every run.

The server is one state machine over five tables: nodes, versions, the index of version chunks, chunks and the
operation log. Its steps are the submitted operations, chunk staging, the deletes of the three collectors and
the inserts of the index backfill; they may come in any order. Each operation has two forms: a function on the tables
(`Ops`, `Steps`), on which all theorems about runs are proved, and methods of the class `MetadataStore` (`Store`), which
go statement by statement, meet the constraints of the schema, roll back, and are proved to do what the function says.

| module | subject |
|---|---|
| Types, Tree, Authz | the rows; the file tree upwards and downwards; the grant walk |
| Ops, Steps, Invariants | the operations as transactions, the steps and runs, what every run keeps |
| Decisions | what each operation answers and writes, from the columns alone |
| Refcounts, History, Hazards | reference counts; no lost update, no overwritten content, stable tombstones; what collection can and cannot do to running clients |
| Store, Gc | the statements with their constraints; the three collection passes among other steps |
| Mirror, Sync, Client, Session | replay of the log, delta and tree pulls, the client's loop, pulls while others commit |
| Download, Backfill | the two download checks; the rebuild of the chunk index |
| FileProvider, FpMove | the daemon's change feed with deferred deletes; rename and move in a row |
| Paths, Mounts, Plist | printing and resolving paths; canonical mount paths; the LaunchAgent file |
| Witness | runs from a freshly created folder in which the expectations below fail |

Some expectations turned out not to hold of the code. For each of them there is a concrete run that shows it, from a
freshly created folder (`Witness`) or from a client's first anchor (`FileProvider`), and the exact condition under which
the code does meet it:

- A tombstone purge deletes by id without looking again. It takes a live node when another purge and a re-creation came
  in between (`LivePurged`; `PurgeOfLiveNode`, `LatePurgeSafe`).
- A purge gives no references back, so the purged chunks are never collected (`PurgeLeaks`; `PurgeKeepsExact`).
- A tombstoned folder that still has a child, or a scoped grant, holds its whole purge batch up (`BatchHeldUp`;
  `PurgeableExactly`).
- The blob delete of the chunk collector is safe if and only if the chunk has no row at that moment. A chunk that has been
  staged and uploaded again since its row was deleted loses its blob, and a version can still be published with it
  (`RestagedBlobLost`; `BlobDeleteSafeExactly`).
- The chunk collector asks for the age of a chunk row in its select only. If another pass has removed the row in the meantime
  and a client has staged the chunk anew, the delete takes the young row of an upload under way (`FreshRowTaken`;
  `GraceMissedExactly`).
- The backfill stops with an error when the collector has deleted a chunk row that an unindexed version still names
  (`BackfillFailsAfterCollection`; `CollectionBreaksBackfillExactly`), and when a purge removes a version between the
  select of its page and the insert (`PurgeStopsBackfill`; `InsertPage`). A version id that is purged and published
  again in that gap can leave a row in the index that no manifest stands for, so that the index allows a download that
  the manifests do not (`StaleRowInserted`; `InsertSoundExactly`).
- Truncation of a quiet folder's log lets the head fall behind the clients' cursors, which they treat as an error
  (`HeadFallsBehind`; `HeadNeverBehindExactly`).
- A client that may read only a part of the folder cannot apply a page that names a node which others have moved into
  that part; it gets the same page again and again (`ScopedPageStuck`; `PageAppliesExactly`, `PullPage`).
- A move makes a cycle if and only if it goes into the node's own subtree, and such a move is applied; it cuts the node
  off, and a pull by a reader scoped to it never ends (`MoveIntoItself`; `GroundedAfterMove`,
  `RecursiveQueryStopsExactly`).
- A node that is purged before a client has pulled its delete stays in the client's mirror as it was (`PurgedFileStays`;
  `PurgeKeepsRowsExactly`, `PurgedNodeStaysInMirror`).
- A pull reads its rows and the head by two queries. An operation that commits in between is skipped for good when the
  page is empty, and by every tree pull (`TornPullSkips`; `TwoQueriesExactly`, `TreeTwoQueriesExactly`).
- Transactions may commit in another order than that of their numbers. An operation that appears after a client has
  pulled past its number is never sent to it (`LateCommitLost`; `LateRowDeliveredExactly`).
- A restart of the daemon, or an answer that does not arrive, loses deferred deletes (`HeldBackDeleteLost`;
  `RestartSafeExactly`, `DroppedAnswerSafeExactly`).
- The daemon writes its own renames and moves to the mirror without the lock that pulls hold. A write that comes after a
  pull has brought a later delete puts the live row back: the delete is never reported, whether the number written is
  above the client's anchor or not (`LateWriteLosesDelete`, `LateWriteAtAnchor`, `LateWriteUnsafe`; `WriteSafeExactly`,
  `LateWriteForgetsDeleteExactly`), and once the pulls have taken the node's last row in, a late write does harm unless
  it changes nothing (`LateWriteStays`; `LateWriteHarmlessExactly`).
- A rename or move through the File Provider on a stale mirror row writes a wrong row for good (`StaleMove`;
  `UpsertMatchesExactly`, `StaleRowStays`).
- The unique index of live names does refuse a rename or move with an internal error: with operations one at a time only
  for empty names (`EmptyNameRefused`; `IndexRefusesOnlyEmptyNames`), and for any name when another operation commits
  between the look-up and the update (`ConcurrentRename`; `ConcurrentRefusalExactly`).

Conventions. A uuid is its 128-bit value, as Postgres orders it. Timestamps are integers without further meaning. What a
call takes from its surroundings is a parameter: the caller's grants, drawn ids, the clock, sequence numbers used up by
aborted transactions, the steps that run between two statements, the answers of the object store. Where a query has a
limit and no order, any row may be the answer. `OpInFolder`, that the folder in the URL is the folder of the node or
parent, is a condition on callers: the server compares the two only for the destination of a move. That no scope lies on
a cycle is assumed of readers whose subtree is queried, and that no move in the folder goes into its own subtree of the
commits during a session of pulls. The constraints of the schema are those of its SQLite form. The Postgres form
declares the same ones; there, the foreign key from index rows to nodes may be checked before the cascade over the
versions has removed the index rows, so that a purge can fail where it goes through here.

## Model

| member | source | states |
|---|---|---|
| Tree.LevelIsUp | core/src/metadata/delta.ts:61-65 | a node is in round k of the downward recursive query exactly when k steps up from it lead to the scope, on any parent columns, cyclic ones included |
| Tree.SubtreeIsBelow | core/src/metadata/delta.ts:61-65 | the recursive query answers with exactly the nodes at or below the scope |
| Tree.RecursiveQueryStops | core/src/metadata/delta.ts:61-65 | from a scope that is not on a cycle the recursive query reaches an empty round within as many rounds as there are nodes, whatever cycles there are elsewhere |
| Tree.RecursiveQueryStopsExactly | core/src/metadata/delta.ts:61-65 | the recursive query ends if and only if its scope is not on a cycle of parent ids |
| Tree.GroundedAfterMove | core/src/metadata/ops.ts:72-84 | moving a node keeps its folder free of cycles if and only if the new parent is not in the node's own subtree; the server itself does not ask for that |
| Tree.GroundedElsewhere | core/src/metadata/ops.ts:72-84 | changes in other folders never make a cycle in this one |
| Tree.RootSubtreeIsFolder | core/src/metadata/delta.ts:61-65 | in a folder without cycles the subtree of its only parentless node is the whole folder, whatever cycles there are in other folders |
| Authz.CheckGrant | core/src/metadata/authz.ts:27-69 | granted exactly when the nearest grant within fifty parent steps lets the caller do it, writing by `canWrite`, reading by either column; scope, id and right are that grant's; `no_grant` exactly without one in reach; at most 50 look-ups, on any parent columns |
| Authz.GrantedExactly | core/src/metadata/authz.ts:27-69 | the same of the recursion: granted exactly when the nearest grant in reach suffices by its columns, `insufficient_permission` exactly when there is one that does not, `no_grant` exactly without one |
| Authz.EarliestGrantDecides | core/src/metadata/authz.ts:39-68 | of the grants whose downward subtree holds the target within fifty rounds, the one that reaches it first decides |
| Authz.GrantCoversTarget | core/src/metadata/authz.ts:39-68 | the answer is `no_grant` exactly when no grant's subtree holds the target within fifty rounds; a granted scope always has the target in its subtree |
| Ops.SubmitCases | core/src/metadata/ops.ts:47-172 | an accepted operation took one of four paths with its guards true; any other answer leaves all tables as they were |
| Ops.SubmitShape | core/src/metadata/ops.ts:90-156 | an accepted operation changes one node row and gives it, as answered, the next sequence number; an applied change of an existing node was based on that node's number |
| Ops.SubmitLogs | core/src/metadata/ops.ts:194-201 | an accepted operation appends exactly one log row: the payload as submitted, or for a conflict copy the payload with the drawn version id and the mark |
| Decisions.AnswersByTable | core/src/metadata/ops.ts:47-172 | every operation gets the answer of a decision table over the columns: device, grant in reach, right to write, destination there and a folder, in the right folder, number based on, live names beside it, unused ids and chunk rows, each refusal with its reason and number |
| Decisions.WritesByColumns | core/src/metadata/ops.ts:147-336 | an accepted operation writes exactly one node row and one log row, column by column, and for a new version its row, one index row for each chunk of the manifest, one reference more for each of them and one less for those of the replaced version; any other operation writes nothing |
| Decisions.AcceptedMayWrite | core/src/metadata/ops.ts:54-61 | only a device whose nearest grant has the write column has an operation accepted |
| Invariants.InitInv | core/src/db/schema.sqlite.ts:87-147 | freshly created folders meet the invariant |
| Invariants.SubmitKeepsCore | core/src/metadata/ops.ts:47-172 | every submitted operation keeps references closed, the index true, live sibling names distinct, log and node numbers ordered; and a complete index complete |
| Invariants.PurgeKeepsCore | core/src/db/schema.sqlite.ts:94-146 | so does a purge with its cascades, whichever nodes it selects |
| Invariants.StepKeepsCore | core/src/db/schema.sqlite.ts:87-147 | so does every statement of the collectors, of chunk staging and of the backfill |
| Invariants.RunKeepsInv | core/src/db/schema.sqlite.ts:104-146 | over runs of any length and order the invariant holds: the chunk index is exactly the (version, hash) pairs of the stored manifests with their nodes, live siblings have distinct names, no reference dangles |
| Invariants.LogWithoutSubsequence | core/src/gc/index.ts:246 | truncation removes exactly the rows with the given numbers and keeps the order of the rest |
| Refcounts.ClampNeverTaken | core/src/metadata/ops.ts:315-319 | the decrement never meets a zero count or a missing chunk row, so the clamp to zero has no effect in any reachable state |
| Refcounts.StepKeepsExcess | core/src/metadata/ops.ts:296-324 | every step but a purge leaves each count exactly as far above its references as before; a staged chunk starts even |
| Refcounts.CountsNeverBelow | core/src/metadata/ops.ts:306-319 | over any run, purges included, no count falls below the nodes whose current version holds the chunk plus the conflict copies that hold it |
| Refcounts.CountsStayExact | core/src/metadata/ops.ts:306-319 | over any run without purges every count equals that number |
| Refcounts.PurgeKeepsExact | core/src/gc/index.ts:218-229 | a purge keeps exact counts exact if and only if the purged nodes own no content; otherwise their references leak |
| History.AcceptedAdvances | core/src/metadata/ops.ts:147-156 | an accepted operation raises its node's number above every number given out before and touches no other node; anything else changes nothing |
| History.CompareAndSet | core/src/metadata/ops.ts:100-128 | a stale operation is never applied: a stale new version becomes a conflict copy that leaves the current version alone, any other is answered `superseded` with the true number and changes nothing |
| History.AppliedOncePerBase | core/src/metadata/ops.ts:90-128 | for one node and one base number at most one operation is ever applied, whatever runs in between, a purge and re-creation of the node included |
| History.ContentPersists | core/src/metadata/ops.ts:281-305 | every stored version keeps its row and all chunk rows of its manifest until its node is purged, whatever operations and collections run |
| History.CurrentIsLatestApplied | core/src/metadata/ops.ts:313-324 | the current version stays the one of the latest applied new version; conflict copies, other operations and collections never change it |
| History.RestoreBringsContentBack | core/src/metadata/versions.ts:44-94 | restoring a stored version stores a version with the same content, current if the request is up to date and a conflict copy otherwise, and fails only if the drawn id is taken |
| Decisions.RestoreOnlyOwnVersions | core/src/metadata/versions.ts:44-94 | with a granted write check a restore is answered `version_not_found` exactly when the version is missing or another node's; whatever is accepted restores a version of the node itself; nothing else changes a table |
| History.StoredManifestFits | core/src/metadata/versions.ts:81-90 | the manifest of a stored version can be stored again under an id exactly when the id is unused |
| History.TombstonesStay | core/src/metadata/ops.ts:251-253 | no run lifts a tombstone; a tombstoned id can turn live only by being deleted for good and created again |
| History.PurgeOfLiveNode | core/src/gc/index.ts:226 | the unguarded delete by id removes a live node exactly when one of the ids is live by then, no remaining node has its parent in the batch and no grant or invite is scoped to a node of the batch |
| History.PurgeLeavesNoOrphan | core/src/db/schema.sqlite.ts:94 | after a purge no surviving node misses its parent, and a purge is all or nothing |
| History.PurgeableExactly | core/src/db/schema.sqlite.ts:94-98 | a purge goes through exactly when no remaining node has its parent in the batch and no grant or invite is scoped to a node of the batch |
| History.IndexRefusesOnlyEmptyNames | core/src/metadata/ops.ts:130-145 | with operations one at a time the unique index turns a rename or move down, as an internal error, if and only if the resulting name is empty, the node live and a live sibling nameless too; for all other names the explicit check comes first |
| History.ConcurrentRefusalExactly | core/src/metadata/ops.ts:130-145 | whatever is committed between the look-up and the update, the index refuses the update if and only if some other node has come to the row's live place meanwhile |
| History.CreateAppliedExactly | core/src/metadata/ops.ts:184-221 | creating a new id under an existing parent is applied exactly when no live sibling has the name; otherwise nothing changes and the answer carries that sibling's number |
| Store.LatestIsTop | core/src/metadata/ops.ts:353-366 | the number read back is the highest one logged for the node in the folder, 0 without any |
| Store.LatestIsNewest | core/src/metadata/ops.ts:353-366 | the number read back after appending a log row is that row's |
| Store.MetadataStore.InsertNode | core/src/db/schema.sqlite.ts:87-109 | the insert succeeds exactly when the id is new, the parent exists and the unique index has nothing against it |
| Store.MetadataStore.UpdatePlace | core/src/db/schema.sqlite.ts:104-106 | an update of name or parent fails exactly on the unique index of live names |
| Store.MetadataStore.InsertVersion | core/src/db/schema.sqlite.ts:111-117 | the insert fails exactly on a used id or a missing node |
| Store.MetadataStore.InsertVersionChunks | core/src/db/schema.sqlite.ts:130-146 | the insert fails exactly on a foreign key or a used key |
| Store.MetadataStore.AddReferences | core/src/metadata/ops.ts:306-309 | each of the hashes gains one reference, no other count changes |
| Store.MetadataStore.DropReferences | core/src/metadata/ops.ts:315-319 | each of the hashes loses one reference, not below zero |
| Store.MetadataStore.LinkChunks | core/src/metadata/ops.ts:298-310 | the index rows and the counts of a version's distinct hashes, or failure when a chunk row is missing |
| Store.MetadataStore.StampNode | core/src/metadata/ops.ts:150-154 | the node row gets the number just logged |
| Store.MetadataStore.LogAndStamp | core/src/metadata/ops.ts:327-334 | log row and node row carry the same next number |
| Store.MetadataStore.CurrentVersionManifest | core/src/metadata/ops.ts:338-351 | the manifest of the node's current version, empty without one |
| Store.MetadataStore.InsertVersionRows | core/src/metadata/ops.ts:281-324 | the statements for a version amount to one change of four tables that fails exactly when version id or chunks do not fit |
| Store.MetadataStore.InsertVersionAndOp | core/src/metadata/ops.ts:269-336 | version rows, log row and node row together, as one change of the tables |
| Store.MetadataStore.ApplyMetadataMutation | core/src/metadata/ops.ts:239-254 | the column update of a rename, move or delete, failing exactly on the unique index |
| Store.MetadataStore.CreateNode | core/src/metadata/ops.ts:174-224 | statement by statement, with roll-back and the look-up of the winner, the outcome is that of the atomic create |
| Store.MetadataStore.UpdateNode | core/src/metadata/ops.ts:86-167 | the transaction of the other operations has the outcome of the atomic one |
| Store.MetadataStore.PublishVersion | core/src/metadata/ops.ts:147-156 | an up-to-date new version has the outcome of the atomic one, roll-back included |
| Store.MetadataStore.NameTaken | core/src/metadata/ops.ts:130-145 | true exactly when the name is not empty, there is a parent, and another live child of it in the folder has the name |
| Store.MetadataStore.ChangeNode | core/src/metadata/ops.ts:130-156 | collision look-up, column update and log row have the outcome of the atomic change |
| Store.MetadataStore.SubmitOp | core/src/metadata/ops.ts:47-172 | answer and tables are exactly those of the atomic operation that all runs above are made of |
| Store.MetadataStore.RestoreVersion | core/src/metadata/versions.ts:44-94 | the restore route, with its checks in their order, is the submission of the stored manifest of the node's own version; what that comes to is stated by `RestoreOnlyOwnVersions` and `RestoreBringsContentBack` |
| Store.MetadataStore.HandleUploadObject | core/src/blobstore/index.ts:104-123 | a chunk row of that size at count zero, created now, is staged exactly when the look-up found none and none is there; the answer says whether the chunk is there already |
| Store.MetadataStore.DeleteUnreferencedChunk | core/src/gc/index.ts:147-150 | the row goes exactly when its count is zero and no index row names it; the statement fails exactly when an index row names an unreferenced chunk |
| Store.MetadataStore.DeleteNodesById | core/src/gc/index.ts:226 | the nodes go, and of versions and index rows exactly those of the nodes, or nothing when a foreign key objects |
| Store.MetadataStore.InsertIndexRows | core/src/db/version-chunks-backfill.ts:45-50 | rows already there are kept, all others are added; the insert fails as a whole exactly when a new row breaks a foreign key |
| Gc.SelectRows | core/src/gc/index.ts:291-299 | distinct eligible rows, as many as the limit allows; an error exactly for a finite limit that is not positive |
| Gc.CollectOne | core/src/gc/index.ts:144-160 | whatever ran since the selection, the row goes only if it is unreferenced and unnamed at that instant |
| Gc.CollectRows | core/src/gc/index.ts:144-160 | blob deletes are issued for exactly the rows that this pass deleted; every refused delete and every failed blob delete counts as one error |
| Gc.RunChunkGcOnce | core/src/gc/index.ts:117-167 | with any steps of others between select, count and deletes: every blob delete is for a chunk whose row at the select was unreferenced and older than the cutoff, none for a chunk staged later; the counts are those of such rows, each as of its own query; each blob delete is for a row removed by this pass at a known point of the run; errors are the refused deletes and the unanswered blob deletes; nothing is deleted in audit mode or on a bad limit |
| Gc.RunTombstonePurgeOnce | core/src/gc/index.ts:218-229 | with any steps of others between select, count and delete: the selected nodes were deleted before the cutoff, and below the limit they are all of those; exact counts; the delete by id is all or nothing, and takes no live node if none of the selected ids was re-created in between |
| Gc.RunOpLogTruncationOnce | core/src/gc/index.ts:238-249 | with any steps of others between select, count and delete: the selected rows were applied before the cutoff, and below the limit they are all of those; exact counts; precisely the selected rows leave the log |
| Hazards.ChunkRowRemovedExactly | core/src/gc/index.ts:147-150 | in any step a chunk row disappears if and only if the step is the guarded delete of that chunk, its count is zero and no index row names it |
| Hazards.RowlessStaysUnneeded | core/src/gc/index.ts:147-155 | over any run, no version comes to name a chunk without a row before the chunk has been staged anew |
| Hazards.BlobDeleteSafeExactly | core/src/gc/index.ts:147-155 | the blob delete that follows the row delete is safe, whatever runs later, if and only if the chunk has no row at the moment of the blob delete; otherwise one publication stores a version whose blob is gone |
| Hazards.GraceMissedExactly | core/src/gc/index.ts:131-150 | the guarded delete does not ask for the age again: a chunk found to be older than the cutoff has a younger row by the time of its delete if and only if its old row was removed and the chunk staged anew in between, and not removed since |
| Hazards.LatePurgeSafe | core/src/gc/index.ts:272-282 | deleting selected tombstones by id is safe, however late, as long as no other purge has hit one of them |
| Hazards.RecreatedOnlyAfterPurge | core/src/metadata/ops.ts:184-193 | an existing id can be created again only after a purge of it |
| Hazards.CountsFromStart | core/src/metadata/ops.ts:296-324 | the counting results from the creation of the folders on |
| Mirror.OpsAboveRest | core/src/metadata/delta.ts:68-72 | asking again from the last number of a page gives exactly the rows behind that page |
| Mirror.LastOpIsHead | core/src/metadata/delta.ts:86 | the last row above a cursor carries the folder's head, and without rows the head is not above the cursor |
| Mirror.EntryByColumns | crates/valv-sync/src/persistence/mod.rs:53-175 | one log row, column by column: a create puts its row in the folder of its parent, any other row that is not newer than the mirror's changes nothing and a newer one writes its column and the number; refused exactly when the node, or a create's parent, is unknown |
| Sync.SubmitReplays | crates/valv-sync/src/persistence/mod.rs:53-89 | replaying the one log row of an accepted operation onto the folder's rows makes the change the server made |
| Sync.TruncationBelow | core/src/gc/index.ts:246 | truncating rows of a folder that are not above a cursor takes nothing from the folder's rows above it |
| Sync.PurgeKeepsRowsExactly | core/src/metadata/delta.ts:70 | a purge takes rows above a cursor from the pulls if and only if it goes through and one of its nodes has such a row |
| Sync.RunReproduces | crates/valv-sync/src/persistence/mod.rs:53-89 | a mirror that is behind by the rows above its cursor stays so over any run, besides what is left of purged nodes, as long as purge and truncation take no node and no row of the folder with a number above the cursor |
| Sync.LeftoversDeleted | core/src/gc/index.ts:218-229 | when the purges take tombstones only, nothing but tombstones is left over in the mirrors |
| Sync.LogRebuildsNodes | core/src/metadata/ops.ts:194-203 | from any state on, the log rows since rebuild the node table of each folder exactly: parent, name, type, tombstone, current version and number, besides what is left of purged nodes; nodes and rows from before may be purged and truncated |
| Sync.RecursiveQuery | core/src/metadata/delta.ts:61-65 | the query by rounds ends with exactly the subtree, from any scope that is not on a cycle |
| Sync.ReadableGrantForFolder | core/src/metadata/delta.ts:144-175 | the root's grant if it is readable, else some grant of the reader in the folder |
| Sync.PullDelta | core/src/metadata/delta.ts:48-88 | the page holds the first thousand, in order, of the rows logged in the folder above the cursor whose node is at or below the scope the reader is served by, leaving none out but later ones behind a full page; its number is that of its last row, or else the head as a later query finds it; refusals as by the grant columns; no scope that the reader may be served by lies on a cycle |
| Sync.DeltaByColumns | core/src/metadata/delta.ts:48-88 | whatever the two queries answer has that content, for every scope |
| Sync.PullTree | core/src/metadata/delta.ts:90-127 | the rows are exactly those of the folder's nodes at or below the scope, column by column; the scope node has no parent and every other node's parent is among them; the number is the head as a later query finds it; no scope that the reader may be served by lies on a cycle |
| Sync.TreeByColumns | core/src/metadata/delta.ts:90-127 | whatever the queries answer has that content, for every scope |
| Client.TreeStartsTracking | core/src/metadata/delta.ts:90-127 | a root reader's tree is the whole folder, and a client that takes it tracks the folder from there |
| Client.RootPage | core/src/metadata/delta.ts:58-73 | a root reader's page leaves no row out |
| Client.RootReaderOffCycles | core/src/metadata/delta.ts:144-175 | a root reader is only ever served by the root, which is on no cycle, whatever other grants it has |
| Client.ServedPage | core/src/metadata/delta.ts:58-87 | whatever its scope, a page holds logged rows above the cursor of nodes that still exist |
| Client.HeadNeverBehindExactly | core/src/metadata/delta.ts:129-138 | an answer is not behind the client's cursor if and only if the cursor is 0 or some row at or above it is still logged; truncating a quiet folder's log therefore breaks up-to-date clients |
| Client.PurgedNodeStaysInMirror | core/src/metadata/delta.ts:70 | a purged node is never reported again, so a client that missed the delete keeps its row |
| Client.PageAppliesExactly | crates/valv-sync/src/persistence/mod.rs:53-89 | for readers of any scope: a page can be applied if and only if the node of each row, or for a create the parent, is in the mirror or created earlier in the page |
| Client.TrackedPage | crates/valv-sync/src/sync_engine/delta_pull.rs:59-80 | each page of a root reader continues where the last one ended, and applying it keeps the mirror behind by the rows above the new cursor |
| Client.DeltaClient.ApplyPage | crates/valv-sync/src/sync_engine/delta_pull.rs:70-73 | the loop over a page is its replay, and stops at the first row the mirror cannot take |
| Client.DeltaClient.PullPage | crates/valv-sync/src/sync_engine/delta_pull.rs:39-80 | for a reader of any scope the page taken holds the rows due above the cursor, its number becomes the cursor, and the loop goes on exactly after a non-empty page; it fails, leaving the cursor, only when the server refuses, its head is behind, or a row does not fit the mirror; for a tracking root reader mirror and cursor stay in step |
| Client.DeltaClient.Pull | crates/valv-sync/src/sync_engine/delta_pull.rs:29-81 | the loop terminates; on success the mirror is the replay of the rows pulled, and a reader with one scope, wherever it is, has been sent exactly the rows of its subtree above its cursor, in order; a tracking root reader always succeeds and ends with the folder's rows, besides what is left of purged nodes, and the head |
| Session.SubmitKeepsTree | core/src/metadata/ops.ts:72-84 | a folder that is a tree under one root stays one as long as no move in it goes into its own subtree |
| Session.SessionDeliversRows | crates/valv-sync/src/sync_engine/delta_pull.rs:39-80 | with commits, purges and truncations of others between the pages, the pages delivered and then the rows still to come are exactly the rows above the first cursor followed by the rows that the commits have logged, each once and in order, as long as purge and truncation take nothing of the folder with a number above the cursor and no answer is behind it |
| Session.SessionDelivers | crates/valv-sync/src/sync_engine/delta_pull.rs:39-80 | the same, and replaying the pages keeps the mirror behind by the rows still to come, besides what is left of purged nodes |
| Session.SessionEndsInSync | crates/valv-sync/src/sync_engine/delta_pull.rs:76-78 | when a page comes back empty the mirror is the folder as the server has it at that moment, besides what is left of purged nodes |
| Session.DeliveredAbove | core/src/metadata/delta.ts:68-69 | whoever pulls is only ever sent rows above the cursor it started from |
| Session.LateRowDeliveredExactly | crates/valv-sync/src/sync_engine/delta_pull.rs:39-80 | a row in the log reaches a root reader if and only if its number is above the reader's cursor; one that appears after a pull has passed its number is never sent, to readers of any scope |
| Session.LaterHeadExactly | core/src/metadata/delta.ts:74-88 | with the head of a later state for its cursor an up-to-date client tracks the folder if and only if the folder has logged nothing in between |
| Session.TwoQueriesExactly | core/src/metadata/delta.ts:56-88 | rows and head are read by two queries: a tracking root reader tracks the folder after the answer if and only if the page has a row or the folder has logged nothing between the queries |
| Session.TreeTwoQueriesExactly | core/src/metadata/delta.ts:100-127 | the same for the tree: if and only if the folder has logged nothing between the queries |
| Download.CanDownloadFromCandidateNodes | core/src/blobstore/index.ts:289-302 | true exactly when one of the candidates is readable |
| Download.UnscopedChunkCandidateNodeIds | core/src/blobstore/index.ts:258-277 | exactly the nodes with a stored version that contains the chunk |
| Download.ScopedChunkCandidateNodeIds | core/src/blobstore/index.ts:279-287 | exactly the nodes that the index pairs with the chunk |
| Download.CanDownloadChunkUnscopedForParity | core/src/blobstore/index.ts:244-247 | true exactly when the reader may read a node of which some stored version contains the chunk |
| Download.CanDownloadChunkScopedForParity | core/src/blobstore/index.ts:249-252 | true exactly when the reader may read a node that the index pairs with the chunk |
| Download.LookupNeverAllowsMore | core/src/blobstore/index.ts:279-287 | however partial the index, the look-up allows nothing that the scan refuses |
| Download.ParityExactly | core/src/blobstore/index.ts:244-252 | the two checks agree for every reader if and only if every node with a version that contains the chunk is in the index under it |
| Download.ParityInEveryRun | core/src/blobstore/index.ts:244-252 | they agree in every reachable state, for every reader and chunk |
| Backfill.SelectVersionPage | core/src/db/version-chunks-backfill.ts:61-87 | the next ids above the last one seen, in order, as many as the page takes |
| Backfill.RowsMembers | core/src/db/version-chunks-backfill.ts:36-44 | a version contributes one row for each distinct non-empty hash of its manifest |
| Backfill.SubmitIndexesItself | core/src/metadata/ops.ts:298-305 | a version stored meanwhile comes with its index rows, and no operation removes one |
| Backfill.RunKeepsCovered | core/src/db/version-chunks-backfill.ts:29-56 | no step undoes what the backfill has completed |
| Backfill.InsertPage | core/src/db/version-chunks-backfill.ts:45-53 | whatever runs in between, an insert that goes through covers the page, a refused one changes nothing, and the tables stay in order if and only if no version of the page has been replaced by one without some selected chunk; with no store under an id of the page, the insert goes through if and only if every version of the page that has content, and each of its chunk rows, is still there |
| Backfill.BackfillVersionChunks | core/src/db/version-chunks-backfill.ts:17-59 | terminates; visits ids in order and each at most once; ends with a complete index, or with an error because a version with content, stored when its page was selected, or a chunk row of it is missing, whatever other steps did before and within the pages, purges included; alone it visits every version once with exact counts, and fails, keeping the pages before, if and only if a manifest names a chunk without a row |
| Backfill.InsertSoundExactly | core/src/db/version-chunks-backfill.ts:31-53 | ids purged and stored anew included: an insert that goes through keeps the index true if and only if no version of the page has been replaced by one that lacks a chunk of the old manifest |
| Backfill.ParityAfterBackfill | core/src/blobstore/index.ts:244-252 | once the backfill has gone through, the two download checks agree for every reader and every chunk |
| Backfill.NothingLeftToDo | core/src/db/version-chunks-backfill.ts:17-59 | run on a complete index it succeeds and changes nothing |
| Backfill.CollectionBreaksBackfillExactly | core/src/gc/index.ts:147-150 | the collector takes from the backfill what it needs if and only if it deletes a chunk that a manifest names and the index does not |
| FileProvider.DaemonState.BeginUpload | crates/valvd/src/fp.rs:276 | for every folder and client it is the step of the feed in which an upload starts, and it makes no client miss anything |
| FileProvider.DaemonState.EndUpload | crates/valvd/src/fp.rs:674 | for every folder and client it is the step in which an upload ends: deletes held back stay remembered, and no client misses anything |
| FileProvider.DaemonState.UpsertNode | crates/valvd/src/fp.rs:373-379 | the daemon's own write to the mirror is the write step of every feed |
| FileProvider.DaemonState.SplitChanges | crates/valvd/src/fp.rs:149-156 | deletes of pending nodes are set aside, every other changed row is an item |
| FileProvider.DaemonState.AddReady | crates/valvd/src/fp.rs:174-178 | the present rows of the ready deferred deletes join the items |
| FileProvider.DaemonState.FpChanges | crates/valvd/src/fp.rs:139-193 | items are exactly the present rows of the folder's nodes with a number above the anchor, but for deletes of nodes with a pending upload, plus the formerly deferred ones whose upload is over; deferred become exactly the pending ones of the old and of the newly held back; the number is the folder's cursor; for the client that takes the answer it is the question step of the feed, for other folders nothing happens |
| FileProvider.CallIsAsk | crates/valvd/src/fp.rs:174-192 | what the client knows after the items, in any order and with repetitions, is what one step of the feed says |
| FileProvider.FeedLosesNothing | crates/valvd/src/fp.rs:145-192 | over any run of pulls, uploads, questions and mirror writes, however late, the client knows the present row of every node at or below its anchor, or its delete is still deferred, for each node to whose row no unsafe write was made |
| FileProvider.WriteSafeExactly | crates/valvd/src/fp.rs:373-379 | a write to the mirror, which takes no account of the pulls, makes no client with this anchor miss anything if and only if it concerns another folder, carries a number above the anchor, changes nothing, or is a deleted row of a deferred node |
| FileProvider.AnswerSettles | crates/valvd/src/fp.rs:179-186 | after an answer only deletes of pending nodes are held back, and with nothing pending the client knows every row |
| FileProvider.RestartSafeExactly | crates/valvd/src/main.rs:282-283 | a restart is safe for every client with this anchor if and only if no held-back delete is behind it |
| FileProvider.DroppedAnswerSafeExactly | crates/valvd/src/fp.rs:179-186 | an answer that does not arrive is safe for every client if and only if every held-back delete behind its anchor is still pending |
| FileProvider.LateWriteForgetsDeleteExactly | crates/valvd/src/fp.rs:373-379 | a delete in the mirror stays due after a later write of the node's row if and only if the row written is a deleted one, where its number is above the anchor or the delete is deferred, and if and only if the client has been told of the delete already, elsewhere |
| FileProvider.HeldBackDeleteLost | crates/valvd/src/main.rs:282-283 | an upload, a delete, a question and the end of the upload, and then a restart or a lost answer: a client that knows the node is never told of its delete |
| FileProvider.PullBringsDelete | crates/valv-sync/src/sync_engine/delta_pull.rs:70-76 | a run in which a pull brings the daemon's own rename and then a delete by another client, which is due |
| FileProvider.LateWriteLosesDelete | crates/valvd/src/fp.rs:373-379 | the daemon's copy from before written only now: the client is told of a live node and never of the delete |
| FileProvider.LateWriteUnsafe | crates/valvd/src/fp.rs:373-379 | written after the client was told, it is an unsafe write that brings the node back in the mirror alone |
| FileProvider.PullBringsDeleteLater | crates/valv-sync/src/sync_engine/delta_pull.rs:70-76 | the same run with a question between the rename and the delete |
| FileProvider.LateWriteAtAnchor | crates/valvd/src/fp.rs:373-379 | the copy written under the number that is the client's anchor: no question covers it, the client keeps the live node and is never told of the delete |
| FpMove.SameSeqSameRow | core/src/metadata/ops.ts:100-156 | while a node is not purged, the same number means the same row |
| FpMove.UpsertMatchesExactly | crates/valvd/src/fp.rs:373-379 | what the daemon writes is the server's new row if and only if its own row was right in every column the operation leaves alone |
| FpMove.BasedOnMatches | crates/valvd/src/fp.rs:356-421 | if the row was the server's at the base number and the operation is applied, the written row is the server's, whatever others committed |
| FpMove.SubmitAndWrite | crates/valvd/src/fp.rs:359-381 | only an applied operation reaches the mirror |
| FpMove.RenameThenMove | crates/valvd/src/fp.rs:356-416 | the rename as asked for on the given number, and, unless that is refused, the move as asked for on the number of the rename, unless its target is known to be in another folder; the mirror row changes in the columns asked for and applied, and in its number |
| FpMove.FpMove | crates/valvd/src/fp.rs:338-422 | a request for nothing or for an empty name is bad, an unknown node is answered as such, and both send nothing; otherwise the calls and the answer are those of rename and move; on every outcome the mirror row is the server's row right after the last applied operation of the call, if it was the server's at the base number; exactly the complete calls answer success |
| FpMove.EarlyWriteHarmless | crates/valv-sync/src/persistence/mod.rs:55-61 | writing the row before the pull has seen it keeps the mirror behind by exactly the rows above its cursor |
| FpMove.LateWriteHarmlessExactly | crates/valvd/src/fp.rs:376-379 | once the pulls have taken the node's last row in, a late write is harmless if and only if it writes the row that is there |
| FpMove.StaleRowStays | crates/valv-sync/src/persistence/mod.rs:55-61 | a move on a stale row writes a wrong row that no replay repairs |
| Witness.LivePurged | core/src/gc/index.ts:226 | make, delete, a purge, make again: the other purge that had selected the tombstone takes the live node |
| Witness.PurgeLeaks | core/src/gc/index.ts:226 | make, publish, delete, purge: the chunk keeps a count of one that nothing stands for |
| Witness.BatchHeldUp | core/src/db/schema.sqlite.ts:94-98 | a tombstoned folder with a live file in it keeps another tombstone of its batch from being purged |
| Witness.RestagedBlobLost | core/src/blobstore/index.ts:117-123 | stage, row delete, stage and upload again, blob delete, publish: a stored version has lost its blob, and at the blob delete no version named the chunk yet |
| Witness.FreshRowTaken | core/src/gc/index.ts:131-150 | a chunk selected as old, removed by another pass and staged anew: the select would leave the young row alone, the delete takes it, and the client's publication is refused |
| Witness.EmptyNameRefused | core/src/metadata/ops.ts:130-145 | a rename to the empty name that the index refuses |
| Witness.ConcurrentRename | core/src/metadata/ops.ts:130-145 | two files renamed to one name at a time: both look-ups pass and the index refuses the second |
| Witness.BackfillFailsAfterCollection | core/src/gc/index.ts:147-150 | from before the index, an old version's chunk is collected and the backfill cannot go through |
| Witness.PurgeStopsBackfill | core/src/db/version-chunks-backfill.ts:45-53 | a delete and a purge between the select of a page and its insert make the insert fail |
| Witness.StaleRowInserted | core/src/db/version-chunks-backfill.ts:45-53 | with the id then published again the insert goes through, and the look-up allows a download that the scan refuses |
| Witness.HeadFallsBehind | core/src/metadata/delta.ts:129-138 | make, pull, truncate: every answer has the head 0 while the client's cursor is 1 |
| Witness.ScopedPageStuck | crates/valv-sync/src/sync_engine/delta_pull.rs:67-80 | a file moved into the one folder that a client reads gives it a page that it cannot apply |
| Witness.MoveIntoItself | core/src/metadata/ops.ts:72-84 | a folder moved into a folder inside itself is applied, cuts both off from the root, and a pull scoped to it never ends |
| Witness.LateWriteStays | crates/valvd/src/fp.rs:376-379 | two renames, both pulled, and then the late write of the first one's row: no pull repairs it |
| Witness.StaleMove | crates/valvd/src/fp.rs:356-421 | a mirror row put back by a late write, and a move based on the number pulled before: the written row lacks the version and replay does not bring it |
| Witness.PurgedFileStays | core/src/metadata/delta.ts:70 | delete and purge before the next pull: its page is empty and the client keeps the live row |
| Witness.LateCommitLost | core/src/metadata/delta.ts:58-73 | two creations commit in the other order than that of their numbers, with a pull between: the first is never sent |
| Witness.TornPullSkips | core/src/metadata/delta.ts:74-88 | a creation between the two queries of a pull: the empty page carries its number and no later pull brings it |
| Paths.PrintedUnderMount | crates/valvd/src/nodes.rs:87 | the components of mount path, slash and printed path are the mount's components followed by the printed names |
| Paths.NameSurvivesExactly | crates/valvd/src/path_resolution.rs:59-63 | a name survives printing and parsing if and only if it is not empty, `.` or `..` and has no slash |
| Paths.DotsAndSlashes | crates/valvd/src/path_resolution.rs:59-63 | between slashes an empty piece or a dot drops out of a path and two dots are the parent component |
| Paths.SlashIsRoot | crates/valvd/src/path_resolution.rs:59-63 | a leading slash is the root component, whatever pieces follow |
| Paths.FirstPieceOfRelative | crates/valvd/src/path_resolution.rs:59-63 | the first piece of a relative path is a component, a leading dot too |
| Paths.NoWayBack | crates/valvd/src/nodes.rs:72-85 | without cycles no way down leads back to its start |
| Paths.WayDownIsPrinted | crates/valvd/src/nodes.rs:72-85 | the names on the way down from a mount's top are those collected on the way up |
| Paths.ResolveNodePath | crates/valvd/src/nodes.rs:66-88 | walk, reversal and join print the names from the mount's top to the node |
| Paths.ChooseMount | crates/valvd/src/path_resolution.rs:37-51 | the mount with the longest matching path, the last of several |
| Paths.GetRootNode | crates/valv-sync/src/persistence/nodes.rs:56-68 | a live parentless node of the folder with the least number, or None without any |
| Paths.Descend | crates/valvd/src/path_resolution.rs:59-71 | live child by live child along the names; None only if there is no such way |
| Paths.ResolvePathToNode | crates/valvd/src/path_resolution.rs:31-78 | a path under no mount is answered so, one under several is resolved in the mount with the longest matching path; each of the three answers is right for the chosen mount |
| Paths.PrintedResolves | crates/valvd/src/path_resolution.rs:31-78 | resolving the printed path of any node at or below the mount's top answers that node, for a normaliser that leaves the path's components alone |
| Paths.ResolvedPrints | crates/valvd/src/nodes.rs:66-88 | printing a resolved node gives the names of the path that was resolved |
| Paths.CleanPathPrintsBack | crates/valvd/src/nodes.rs:66-88 | a clean path below the mount comes back letter by letter |
| Paths.SyncedMirrorWalks | core/src/db/schema.sqlite.ts:104-106 | a mirror in sync with a cycle-free server meets the conditions of both round trips |
| Mounts.MountStore.UpdateMountPath | crates/valv-sync/src/persistence/mounts.rs:79-85 | the row moves to a path where nothing stands |
| Mounts.OneMoreContender | crates/valvd/src/main.rs:311-330 | a further row takes the place exactly when it has a token and the present one has none |
| Mounts.MountStore.NormalizePersistedMountPaths | crates/valvd/src/main.rs:303-337 | for any table, listing order and idempotent normaliser: one row for each canonical path that some row leads to, namely the first one with a token, the canonical row first, or else the first one |
| Mounts.TokensSurvive | crates/valvd/src/main.rs:311-330 | every class keeps exactly one row, and one with a token if it had one |
| Mounts.OwnRowStays | crates/valvd/src/main.rs:311-330 | a row that stands at its canonical path stays as it is unless only others of its class have a token |
| Mounts.FirstTokenWins | crates/valvd/src/main.rs:311-330 | where the canonical row is missing or without token, the first listed row with a token gets the place |
| Plist.FindIsFirst | crates/valv-cli/src/update.rs:336 | the position found is that of the first occurrence |
| Plist.EscapeIsPerCharacter | crates/valvd/src/launchd.rs:169-176 | the five ordered replacements are one substitution character by character |
| Plist.UnescapeInverts | crates/valv-cli/src/update.rs:352-359 | unescaping inverts escaping on every string |
| Plist.EscapedHasNoTag | crates/valvd/src/launchd.rs:169-176 | an escaped string holds no opening bracket |
| Plist.KeyFound | crates/valv-cli/src/update.rs:335-337 | the key marker's first occurrence is the one written for the program |
| Plist.ArrayFound | crates/valv-cli/src/update.rs:338-343 | the array's first opening and closing tags are the ones written, whatever the program is called |
| Plist.StringFound | crates/valv-cli/src/update.rs:344-349 | so are those of the first string in it |
| Plist.ProgramReadBack | crates/valvd/src/launchd.rs:113-141 | reading the written file gives back the program path, for every path and log paths |
| Plist.PlistByLines | crates/valvd/src/launchd.rs:113-141 | the written file is the template line by line, with the program as first argument, standard output to the first log path and standard error to the second, each escaped |

## Left out

- Ops.SubmitCases: models the Postgres path, where the body is one transaction under a row lock; on SQLite the operation runs without a transaction (core/src/metadata/common.ts:30-36), and a failure half-way is not modelled.
- Session.SessionDelivers: each pull is one snapshot, and rows appear in the order of their numbers; what happens otherwise is stated by `TwoQueriesExactly`, `TreeTwoQueriesExactly` and `LateRowDeliveredExactly`.
- Session.SessionDeliversRows: the same.
- Backfill.BackfillVersionChunks: of the steps between the select of a page and its insert, a new version under an id of the page is left out, because the loop would go on with an untrue index; `InsertPage` and `InsertSoundExactly` have it in.
- History.PurgeableExactly: the purge conditions are those of the SQLite form of the schema, where the cascades come before the check of the other foreign keys.
- Store.MetadataStore.HandleUploadObject: the variant with an injected look-up (`getExistingChunkForPrincipal`), quotas and the presigned URL are not modelled.
- Gc.RunChunkGcOnce: models the default deletion target, one blob per chunk; injected target resolvers and their clean-up hooks are not modelled. A batch size that is not a number counts as the unbounded sentinel in the source and has no value here.
- Authz.CheckGrant: of several grants of one principal at one scope the query answers with an unspecified one; the model takes the table of chosen grants as given.
- FileProvider.DaemonState.FpChanges: items carry the mirror row; size and content hash, which come from the versions table of the mirror, and the order of items by number are left out.
- FpMove.FpMove: assumes that the node itself is not purged on the server during the call; purges of others are covered.
- Client.DeltaClient.Pull: on a fixed server. That a reader scoped below the root has its whole subtree after pulls between commits of others is not stated; it fails when nodes are moved into the subtree (`ScopedPageStuck`).
- Store.MetadataStore.InsertNode: the foreign key from nodes to folders is left out, as folders are not among the tables; the folder of a new node is that of its parent.
- Store.MetadataStore.InsertVersion: the foreign key from versions to devices is left out; the submitting device is taken as registered.
- History.IndexRefusesOnlyEmptyNames: operations one at a time; for two at a time see `ConcurrentRefusalExactly`.
- Paths.ResolvePathToNode: normalisation of paths by the file system is a parameter, and names are strings, so the answer for names that are not UTF-8 is left out.
- Plist.ProgramReadBack: strings are sequences of characters; the lossy display of paths that are not UTF-8 is left out.
- Mounts.MountStore.NormalizePersistedMountPaths: the normaliser is a fixed idempotent function; a file system that changes during start-up is left out, and so is the uniqueness of folder ids, which renaming a row cannot break.
- Creation of folders, grants and invites: folders are there from the start as bare roots, grants are parameters.
- A `folder_id` that a client puts into a create payload.
- The mirror's versions table and the file contents; `GONE` answers that make a client fetch the tree again.
- Notifications, WebSockets and the callback after a commit.
- HTTP routing, sessions, token hashing, S3, e-mail, subscriptions: input and output, or short branches that say little beyond their own text.
- Chunking, pushing and the rest of the sync engine, the command line, the updater's download and swap, launchctl and systemd calls, the Swift code.
