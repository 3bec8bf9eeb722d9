/** Runs from a freshly created folder in which the code does not do what one would expect. */
module Witness {
  import opened Types
  import opened Tree
  import opened Authz
  import opened Ops
  import opened Steps
  import opened Invariants
  import opened Refcounts
  import opened History
  import opened Hazards
  import Gc
  import opened Mirror
  import opened Sync
  import opened Client
  import opened Store
  import opened Backfill
  import opened Download
  import opened FpMove

  // One folder, one device that may do everything in it, and the operations it submits.

  const FOLDER: Id := 7
  const ROOT: Id := 1
  const FILE: Id := 2

  function Everywhere(): Grants {
    map[(FOLDER, ROOT) := Grant(0, true, true)]
  }

  function RootRow(): NodeRow {
    NodeRow(FOLDER, None, "", Folder, None, None, 0)
  }

  function Start(): Db {
    Db(map[ROOT := RootRow()], map[], map[], map[], [], 0)
  }

  function RequestFor(op: Op): Request {
    Request(FOLDER, Device(5), Everywhere(), op, 99, 0, 0)
  }

  function Make(n: Id, parent: Id, name: string, kind: Kind): Cmd {
    SubmitCmd(RequestFor(Create(n, parent, name, kind)))
  }

  function Change(op: Op): Cmd {
    SubmitCmd(RequestFor(op))
  }

  function Publish(n: Id, basedOn: int, v: Id, hash: Hash): Cmd {
    SubmitCmd(RequestFor(NewVersion(n, basedOn, v, "c", 1, [ChunkRef(hash, 0, 1)])))
  }

  function Stage(hash: Hash): Cmd {
    StageChunk(hash, 1, 0)
  }

  /** The root, or a node directly below it. */
  predicate NearRoot(nodes: Nodes, n: Id) {
    && ROOT in nodes && nodes[ROOT] == RootRow()
    && n in nodes && nodes[n].folder == FOLDER && (n == ROOT || nodes[n].parent == Some(ROOT))
  }

  predicate IsFolder(nodes: Nodes, n: Id) {
    n in nodes && nodes[n].folder == FOLDER && nodes[n].kind == Folder
  }

  lemma RootGrantReaches(nodes: Nodes, n: Id, need: Need)
    requires NearRoot(nodes, n)
    ensures Authorize(nodes, Everywhere(), n, need).Granted?
  {
    assert Walk(nodes, Everywhere(), FOLDER, ROOT, need, 50).Granted?;
    assert Walk(nodes, Everywhere(), FOLDER, ROOT, need, 49).Granted?;
  }

  lemma Made(db: Db, n: Id, parent: Id, name: string, kind: Kind)
    requires NearRoot(db.nodes, parent) && n !in db.nodes
    requires forall m :: !LiveSibling(db.nodes, FOLDER, parent, name, m)
    ensures var cmd := Make(n, parent, name, kind);
            && Enabled(db, cmd)
            && Apply(db, cmd) == Commit(db, cmd.rq, NodeRow(FOLDER, Some(parent), name, kind, None, None, 0),
                                        CreatePayload(parent, name, kind), None)
  {
    hide Submit, Authorize, Walk;
    RootGrantReaches(db.nodes, parent, Write);
    AddressedCreate(db, Make(n, parent, name, kind).rq);
  }

  lemma Changed(db: Db, op: Op)
    requires !op.Create? && !op.NewVersion? && NearRoot(db.nodes, op.nodeId)
    requires op.Move? ==> IsFolder(db.nodes, op.newParentId)
    requires db.nodes[op.nodeId].serverSeq == op.basedOn
    requires !op.Delete? ==>
               var row := Mutated(db.nodes[op.nodeId], op, 0);
               !Collides(db, FOLDER, op.nodeId, row) && !IndexRefuses(db, op.nodeId, row)
    ensures var cmd := Change(op);
            && Enabled(db, cmd)
            && Apply(db, cmd) == Commit(db, cmd.rq, Mutated(db.nodes[op.nodeId], op, 0), PayloadOf(op), Some(op.basedOn))
            && Submit(db, cmd.rq).response.Applied?
  {
    hide Submit, Authorize, Walk, Collides, IndexRefuses;
    RootGrantReaches(db.nodes, op.nodeId, Write);
    AddressedChange(db, RequestFor(op));
  }

  lemma Published(db: Db, n: Id, basedOn: int, v: Id, hash: Hash)
    requires NearRoot(db.nodes, n) && db.nodes[n].serverSeq == basedOn
    requires v !in db.versions && hash in db.chunks && (v, hash) !in db.index
    ensures var cmd := Publish(n, basedOn, v, hash);
            && Enabled(db, cmd) && Hashes(cmd.rq.op.manifest) == {hash}
            && Apply(db, cmd) == Commit(StoreVersion(db, v, VersionOf(cmd.rq, false), Hashes(CurrentManifest(db, n))), cmd.rq,
                                        db.nodes[n].(current := Some(v)), PayloadOf(cmd.rq.op), Some(basedOn))
  {
    hide Submit, Authorize, Walk;
    var rq := Publish(n, basedOn, v, hash).rq;
    RootGrantReaches(db.nodes, n, Write);
    assert rq.op.manifest[0] == ChunkRef(hash, 0, 1);
    assert Hashes(rq.op.manifest) == {hash};
    AddressedVersion(db, rq);
  }

  /** The states that a list of steps leads through. */
  lemma {:induction false} Trail(db: Db, cmds: seq<Cmd>, states: seq<Db>)
    requires |states| == |cmds| + 1 && states[0] == db
    requires forall i :: 0 <= i < |cmds| ==> Enabled(states[i], cmds[i]) && Apply(states[i], cmds[i]) == states[i + 1]
    ensures Runs(db, cmds) && Run(db, cmds) == states[|cmds|]
    ensures forall k :: 0 <= k <= |cmds| ==> Run(db, cmds[..k]) == states[k]
    decreases |cmds|
  {
    if cmds != [] {
      Trail(states[1], cmds[1..], states[1..]);
      forall k | 0 < k <= |cmds|
        ensures Run(db, cmds[..k]) == states[k]
      {
        assert cmds[..k][1..] == cmds[1..][..k - 1];
        assert cmds[..k][0] == cmds[0];
      }
    }
  }

  /** One node row written under the next number, and a log row for it. */
  predicate Writes(db: Db, after: Db, n: Id, row: NodeRow, payload: Payload, basedOn: Option<int>) {
    after == db.(nodes := db.nodes[n := row.(serverSeq := db.lastSeq + 1)],
                 log := db.log + [LogRow(db.lastSeq + 1, FOLDER, n, payload, basedOn, 5, 0)],
                 lastSeq := db.lastSeq + 1)
  }

  lemma MadeNode(db: Db, n: Id, parent: Id, name: string, kind: Kind)
    requires Core(db) && NearRoot(db.nodes, parent) && n !in db.nodes
    requires forall m :: !LiveSibling(db.nodes, FOLDER, parent, name, m)
    ensures var cmd := Make(n, parent, name, kind);
            && Enabled(db, cmd) && Core(Apply(db, cmd))
            && Writes(db, Apply(db, cmd), n, NodeRow(FOLDER, Some(parent), name, kind, None, None, 0),
                      CreatePayload(parent, name, kind), None)
  {
    hide Submit, Core;
    Made(db, n, parent, name, kind);
    StepKeepsCore(db, Make(n, parent, name, kind));
  }

  lemma ChangedNode(db: Db, op: Op)
    requires Core(db) && !op.Create? && !op.NewVersion? && NearRoot(db.nodes, op.nodeId)
    requires op.Move? ==> IsFolder(db.nodes, op.newParentId)
    requires db.nodes[op.nodeId].serverSeq == op.basedOn
    requires !op.Delete? ==>
               var row := Mutated(db.nodes[op.nodeId], op, 0);
               forall m :: m != op.nodeId ==> row.parent.Some? && !LiveSibling(db.nodes, FOLDER, row.parent.value, row.name, m)
    ensures var cmd := Change(op);
            && Enabled(db, cmd) && Core(Apply(db, cmd))
            && Writes(db, Apply(db, cmd), op.nodeId, Mutated(db.nodes[op.nodeId], op, 0), PayloadOf(op), Some(op.basedOn))
  {
    hide Submit, Core;
    Changed(db, op);
    StepKeepsCore(db, Change(op));
  }

  // The folder with one file.

  function FileRow(name: string, current: Option<Id>, deletedAt: Option<Time>, serverSeq: nat): NodeRow {
    NodeRow(FOLDER, Some(ROOT), name, File, current, deletedAt, serverSeq)
  }

  predicate Holds(db: Db, row: NodeRow) {
    db.nodes == map[ROOT := RootRow(), FILE := row] && row.folder == FOLDER && row.parent == Some(ROOT)
  }

  predicate Moves(db: Db, after: Db, row: NodeRow) {
    && Holds(after, row.(serverSeq := db.lastSeq + 1))
    && after == db.(nodes := after.nodes, log := after.log, lastSeq := db.lastSeq + 1)
  }

  lemma MadeFile(db: Db, name: string)
    requires Core(db) && db.nodes == map[ROOT := RootRow()]
    ensures var cmd := Make(FILE, ROOT, name, File);
            Enabled(db, cmd) && Core(Apply(db, cmd)) && Moves(db, Apply(db, cmd), FileRow(name, None, None, 0))
  {
    hide Apply, Core, Enabled, Make;
    MadeNode(db, FILE, ROOT, name, File);
  }

  lemma DeletedFile(db: Db, row: NodeRow)
    requires Core(db) && Holds(db, row)
    ensures var cmd := Change(Delete(FILE, row.serverSeq));
            Enabled(db, cmd) && Core(Apply(db, cmd)) && Moves(db, Apply(db, cmd), row.(deletedAt := Some(0)))
  {
    hide Apply, Core, Enabled, Change;
    ChangedNode(db, Delete(FILE, row.serverSeq));
  }

  lemma PurgedFile(db: Db, row: NodeRow)
    requires Core(db) && Holds(db, row) && forall v :: v in db.versions ==> db.versions[v].node == FILE
    ensures var after := Apply(db, PurgeNodes({FILE}, {}));
            && Enabled(db, PurgeNodes({FILE}, {})) && Core(after) && after == Purged(db, {FILE}, {})
            && after == Db(map[ROOT := RootRow()], map[], map[], db.chunks, db.log, db.lastSeq)
  {
    hide Core, Cascade, Purgeable;
    PurgeKeepsCore(db, {FILE}, {});
    PurgeableExactly(db, {FILE}, {});
    FileCascades(db, row);
  }

  lemma FileCascades(db: Db, row: NodeRow)
    requires Holds(db, row) && forall v :: v in db.versions ==> db.versions[v].node == FILE
    ensures Cascade(db, {FILE}) == Db(map[ROOT := RootRow()], map[], map[], db.chunks, db.log, db.lastSeq)
  {
    var after := Cascade(db, {FILE});
    assert after.versions == map[];
    assert after.index == map[];
    assert after.nodes == map[ROOT := RootRow()];
  }

  ghost predicate Publishes(db: Db, after: Db, row: NodeRow, v: Id, hash: Hash) {
    && Holds(after, row.(current := Some(v), serverSeq := db.lastSeq + 1)) && after.lastSeq == db.lastSeq + 1
    && after.versions == db.versions[v := VersionRow(FILE, [ChunkRef(hash, 0, 1)], "c", 1, 5, false)]
    && Hashes(after.versions[v].manifest) == {hash}
    && after.index == db.index[(v, hash) := FILE]
    && after.chunks == Counted(db.chunks, {hash}, Hashes(CurrentManifest(db, FILE)))
  }

  lemma PublishedFile(db: Db, row: NodeRow, v: Id, hash: Hash)
    requires Core(db) && Holds(db, row) && v !in db.versions && hash in db.chunks
    ensures var cmd := Publish(FILE, row.serverSeq, v, hash);
            var after := Apply(db, cmd);
            Enabled(db, cmd) && Core(after) && Publishes(db, after, row, v, hash)
  {
    VersionUnindexed(db, v, hash);
    hide Submit, Core, Publishes;
    Published(db, FILE, row.serverSeq, v, hash);
    PublishedShape(db, row, v, hash);
    StepKeepsCore(db, Publish(FILE, row.serverSeq, v, hash));
  }

  lemma PublishedShape(db: Db, row: NodeRow, v: Id, hash: Hash)
    requires Holds(db, row) && Hashes([ChunkRef(hash, 0, 1)]) == {hash}
    ensures var rq := Publish(FILE, row.serverSeq, v, hash).rq;
            var stored := StoreVersion(db, v, VersionOf(rq, false), Hashes(CurrentManifest(db, FILE)));
            Publishes(db, Commit(stored, rq, row.(current := Some(v)), PayloadOf(rq.op), Some(row.serverSeq)), row, v, hash)
  {
    hide Hashes, Counted, CurrentManifest, Linked;
    OneRowLinked(db.index, v, hash, FILE);
  }

  lemma StagedChunk(db: Db, hash: Hash)
    requires Core(db) && hash !in db.chunks
    ensures var after := Apply(db, Stage(hash));
            Enabled(db, Stage(hash)) && Core(after) && after == db.(chunks := db.chunks[hash := ChunkRow(1, 0, 0)])
  {
    hide Core;
    StepKeepsCore(db, Stage(hash));
  }

  lemma CollectedChunk(db: Db, hash: Hash)
    requires Core(db) && Collectable(db, hash)
    ensures var after := Apply(db, DeleteChunk(hash));
            Enabled(db, DeleteChunk(hash)) && Core(after) && after == db.(chunks := db.chunks - {hash})
  {
    hide Core, Collectable;
    StepKeepsCore(db, DeleteChunk(hash));
  }

  lemma VersionUnindexed(db: Db, v: Id, hash: Hash)
    requires Core(db) && v !in db.versions
    ensures (v, hash) !in db.index
  {
  }

  lemma OneRowLinked(index: Index, v: Id, hash: Hash, n: Id)
    ensures Linked(index, v, {hash}, n) == index[(v, hash) := n]
  {
  }

  lemma StartsWell()
    ensures Init(Start()) && Inv(Start())
  {
    InitInv(Start());
  }

  lemma NothingNamed(row: NodeRow, db: Db)
    requires Holds(db, row) && row.current.None?
    ensures Hashes(CurrentManifest(db, FILE)) == {}
  {
  }

  lemma FirstCount(chunks: Chunks, hash: Hash)
    requires hash in chunks && chunks[hash] == ChunkRow(1, 0, 0)
    ensures Counted(chunks, {hash}, {}) == chunks[hash := ChunkRow(1, 1, 0)]
  {
  }

  /** Two chunks are staged and the file gets a version with one of them. */
  function FirstLife(): seq<Cmd> {
    [Make(FILE, ROOT, "a", File), Stage("h"), Stage("g"), Publish(FILE, 1, 11, "h")]
  }

  function FirstRow(): NodeRow {
    FileRow("a", Some(11), None, 2)
  }

  function OneChunk(hash: Hash): VersionRow {
    VersionRow(FILE, [ChunkRef(hash, 0, 1)], "c", 1, 5, false)
  }

  ghost predicate HasFirstVersion(db: Db) {
    && Core(db) && Holds(db, FirstRow()) && db.lastSeq == 2
    && db.versions == map[11 := OneChunk("h")] && Hashes(OneChunk("h").manifest) == {"h"}
    && db.index == map[(11, "h") := FILE]
    && db.chunks == map["h" := ChunkRow(1, 1, 0), "g" := ChunkRow(1, 0, 0)]
  }

  lemma FirstLifeRuns()
    ensures Init(Start()) && Runs(Start(), FirstLife()) && HasFirstVersion(Run(Start(), FirstLife()))
  {
    hide Apply, Enabled, Submit, Core, Make, Stage, Publish, Hashes, Counted, CurrentManifest;
    StartsWell();
    var cmds := FirstLife();
    var s1 := Apply(Start(), cmds[0]);
    MadeFile(Start(), "a");
    var s2 := Apply(s1, cmds[1]);
    StagedChunk(s1, "h");
    var s3 := Apply(s2, cmds[2]);
    StagedChunk(s2, "g");
    var s4 := Apply(s3, cmds[3]);
    NothingNamed(FileRow("a", None, None, 1), s3);
    PublishedFile(s3, FileRow("a", None, None, 1), 11, "h");
    FirstCount(s3.chunks, "h");
    Trail(Start(), cmds, [Start(), s1, s2, s3, s4]);
  }

  // Purges.

  /** The file is made and deleted; of two purges that have selected it one deletes it for good; it is made
      again under the same id, and the other purge takes the live node. */
  lemma LivePurged(cmds: seq<Cmd>)
    requires cmds == [Make(FILE, ROOT, "a", File), Change(Delete(FILE, 1)), PurgeNodes({FILE}, {}), Make(FILE, ROOT, "b", File)]
    ensures Init(Start()) && Runs(Start(), cmds)
    ensures Gc.Tombstones(Run(Start(), cmds[..2]), 1) == {FILE}
    ensures var late := Run(Start(), cmds); LiveAt(late, FILE) && FILE !in Purged(late, {FILE}, {}).nodes
  {
    hide Apply, Enabled, Submit, Core, Make, Change, Publish, Stage, Purged;
    StartsWell();
    var s1 := Apply(Start(), cmds[0]);
    MadeFile(Start(), "a");
    var s2 := Apply(s1, cmds[1]);
    DeletedFile(s1, FileRow("a", None, None, 1));
    var s3 := Apply(s2, cmds[2]);
    PurgedFile(s2, FileRow("a", None, Some(0), 2));
    var s4 := Apply(s3, cmds[3]);
    MadeFile(s3, "b");
    PurgedFile(s4, FileRow("b", None, None, 3));
    Trail(Start(), cmds, [Start(), s1, s2, s3, s4]);
    assert cmds[..4] == cmds;
  }

  /** The file of that life is deleted and purged: the one chunk of its content keeps a count that nothing
      stands for, so that it is never collected. */
  lemma PurgeLeaks(cmds: seq<Cmd>)
    requires cmds == FirstLife() + [Change(Delete(FILE, 2))]
    ensures Init(Start()) && Runs(Start(), cmds) && CountsExact(Run(Start(), cmds))
    ensures Gc.Tombstones(Run(Start(), cmds), 1) == {FILE}
    ensures var after := Purged(Run(Start(), cmds), {FILE}, {});
            && "h" in after.chunks && after.chunks["h"].refcount == 1 && BlobUnneeded(after, "h")
            && !CountsExact(after)
  {
    hide Apply, Enabled, Submit, Core, Change, FirstLife, Purged, Hashes, CountsExact, CountsCover, BlobUnneeded, WithoutPurge;
    FirstLifeRuns();
    var s4 := Run(Start(), FirstLife());
    DeletedFile(s4, FirstRow());
    RunOneMore(Start(), FirstLife(), Change(Delete(FILE, 2)));
    PurgedFile(Run(Start(), cmds), FirstRow().(deletedAt := Some(0), serverSeq := 3));
    NoPurgeYet(cmds);
    CountsFromStart(Start(), cmds);
    LeftOver(Purged(Run(Start(), cmds), {FILE}, {}), "h");
  }

  lemma NoPurgeYet(cmds: seq<Cmd>)
    requires cmds == FirstLife() + [Change(Delete(FILE, 2))]
    ensures WithoutPurge(cmds)
  {
  }

  lemma LeftOver(db: Db, hash: Hash)
    requires db.nodes == map[ROOT := RootRow()] && db.versions == map[]
    requires hash in db.chunks && db.chunks[hash].refcount == 1
    ensures !CountsExact(db) && BlobUnneeded(db, hash)
  {
    assert NodesHolding(db, hash) == {} && CopiesHolding(db, hash) == {};
  }

  /** A folder and a file are made, then a second file in the folder; the first two are deleted. Together they
      are not purged, because of the file that stays; the tombstone of the first file alone would be. */
  lemma BatchHeldUp(cmds: seq<Cmd>)
    requires cmds == [Make(FILE, ROOT, "a", File), Make(3, ROOT, "d", Folder), Make(4, 3, "x", File),
                      Change(Delete(FILE, 1)), Change(Delete(3, 2))]
    ensures Init(Start()) && Runs(Start(), cmds)
    ensures var after := Run(Start(), cmds);
            && Gc.Tombstones(after, 1) == {FILE, 3}
            && !Purgeable(after, {FILE, 3}, {}) && Purgeable(after, {FILE}, {})
  {
    hide Apply, Enabled, Submit, Core, Make, Change, Purgeable;
    StartsWell();
    var s1 := Apply(Start(), cmds[0]);
    MadeFile(Start(), "a");
    var s2 := Apply(s1, cmds[1]);
    MadeNode(s1, 3, ROOT, "d", Folder);
    var s3 := Apply(s2, cmds[2]);
    MadeNode(s2, 4, 3, "x", File);
    var s4 := Apply(s3, cmds[3]);
    ChangedNode(s3, Delete(FILE, 1));
    var s5 := Apply(s4, cmds[4]);
    ChangedNode(s4, Delete(3, 2));
    Trail(Start(), cmds, [Start(), s1, s2, s3, s4, s5]);
    assert s5.nodes.Keys == {ROOT, FILE, 3, 4};
    ChildHoldsUp(s5);
  }

  lemma ChildHoldsUp(db: Db)
    requires Core(db) && db.nodes.Keys == {ROOT, FILE, 3, 4} && db.nodes[4].parent == Some(3)
    requires db.nodes[ROOT].parent.None? && db.nodes[3].parent == Some(ROOT)
    ensures !Purgeable(db, {FILE, 3}, {}) && Purgeable(db, {FILE}, {})
  {
    hide Core, Purgeable;
    PurgeableExactly(db, {FILE, 3}, {});
    PurgeableExactly(db, {FILE}, {});
  }

  // Chunks.

  lemma FreshChunkCollectable(db: Db, hash: Hash)
    requires hash in db.chunks && db.chunks[hash].refcount == 0 && db.index == map[]
    ensures Collectable(db, hash)
  {
  }

  /** A chunk is staged, collected and staged again; the collector's blob delete comes only now, when still
      nothing needs the blob; and then a version is published with the chunk. */
  lemma RestagedBlobLost(cmds: seq<Cmd>)
    requires cmds == [Make(FILE, ROOT, "a", File), Stage("h"), DeleteChunk("h"), Stage("h"), Publish(FILE, 1, 11, "h")]
    ensures Init(Start()) && Runs(Start(), cmds)
    ensures "h" in Run(Start(), cmds[..2]).chunks && "h" !in Run(Start(), cmds[..3]).chunks
    ensures BlobUnneeded(Run(Start(), cmds[..4]), "h") && "h" in Run(Start(), cmds[..4]).chunks
    ensures !BlobUnneeded(Run(Start(), cmds), "h")
  {
    hide Apply, Enabled, Submit, Core, Make, Change, Publish, Stage, Counted, Hashes, Collectable;
    StartsWell();
    var s1 := Apply(Start(), cmds[0]);
    MadeFile(Start(), "a");
    var s2 := Apply(s1, cmds[1]);
    StagedChunk(s1, "h");
    var s3 := Apply(s2, cmds[2]);
    FreshChunkCollectable(s2, "h");
    CollectedChunk(s2, "h");
    var s4 := Apply(s3, cmds[3]);
    StagedChunk(s3, "h");
    var s5 := Apply(s4, cmds[4]);
    PublishedFile(s4, FileRow("a", None, None, 1), 11, "h");
    Trail(Start(), cmds, [Start(), s1, s2, s3, s4, s5]);
    assert cmds[..5] == cmds;
    assert "h" in Hashes(s5.versions[11].manifest);
  }

  lemma GraceSelects(db: Db, hash: Hash, createdAt: Time, cutoff: Time)
    requires db.chunks == map[hash := ChunkRow(1, 0, createdAt)]
    ensures Gc.UnreferencedChunks(db, cutoff) == if createdAt < cutoff then {hash} else {}
  {
  }

  /** A pass finds a chunk from time 0 unreferenced and older than its cutoff 400. Before its delete another pass
      removes the row, and at time 1000 a client stages the chunk anew. The select would not find the new row, but
      the delete takes it, and the client's publication is refused. */
  lemma FreshRowTaken(cmds: seq<Cmd>)
    requires cmds == [Make(FILE, ROOT, "a", File), Stage("h"), DeleteChunk("h"), StageChunk("h", 1, 1000), DeleteChunk("h")]
    ensures Init(Start()) && Runs(Start(), cmds)
    ensures Gc.UnreferencedChunks(Run(Start(), cmds[..2]), 400) == {"h"}
    ensures Gc.UnreferencedChunks(Run(Start(), cmds[..4]), 400) == {} && "h" in Run(Start(), cmds[..4]).chunks
    ensures "h" !in Run(Start(), cmds).chunks
    ensures Submit(Run(Start(), cmds), Publish(FILE, 1, 11, "h").rq).response == Rejected(ConstraintViolation)
  {
    hide Apply, Enabled, Submit, Core, Make, Change, Publish, Stage, Counted, Hashes, Collectable, Gc.UnreferencedChunks;
    StartsWell();
    var s1 := Apply(Start(), cmds[0]);
    MadeFile(Start(), "a");
    var s2 := Apply(s1, cmds[1]);
    StagedChunk(s1, "h");
    GraceSelects(s2, "h", 0, 400);
    var s3 := Apply(s2, cmds[2]);
    FreshChunkCollectable(s2, "h");
    CollectedChunk(s2, "h");
    var s4 := Apply(s3, cmds[3]);
    StagedAnew(s3, "h", 1000);
    GraceSelects(s4, "h", 1000, 400);
    var s5 := Apply(s4, cmds[4]);
    FreshChunkCollectable(s4, "h");
    CollectedChunk(s4, "h");
    Trail(Start(), cmds, [Start(), s1, s2, s3, s4, s5]);
    PublicationRefused(s5, FileRow("a", None, None, 1), 11, "h");
  }

  lemma StagedAnew(db: Db, hash: Hash, now: Time)
    requires Core(db) && hash !in db.chunks
    ensures var cmd := StageChunk(hash, 1, now);
            var after := Apply(db, cmd);
            Enabled(db, cmd) && Core(after) && after == db.(chunks := db.chunks[hash := ChunkRow(1, 0, now)])
  {
    hide Core;
    StepKeepsCore(db, StageChunk(hash, 1, now));
  }

  lemma PublicationRefused(db: Db, row: NodeRow, v: Id, hash: Hash)
    requires Holds(db, row) && hash !in db.chunks
    ensures Submit(db, Publish(FILE, row.serverSeq, v, hash).rq).response == Rejected(ConstraintViolation)
  {
    hide Submit, Authorize, Walk;
    var rq := Publish(FILE, row.serverSeq, v, hash).rq;
    RootGrantReaches(db.nodes, FILE, Write);
    assert rq.op.manifest[0] == ChunkRef(hash, 0, 1) && hash in Hashes(rq.op.manifest);
    AddressedVersion(db, rq);
  }

  // Names.

  /** Of two files one has no name; renaming the other to no name is refused by the index. */
  lemma EmptyNameRefused(cmds: seq<Cmd>)
    requires cmds == [Make(FILE, ROOT, "", File), Make(3, ROOT, "x", File)]
    ensures Init(Start()) && Runs(Start(), cmds)
    ensures Submit(Run(Start(), cmds), RequestFor(Rename(3, 2, ""))).response == Rejected(ConstraintViolation)
  {
    hide Apply, Enabled, Submit, Core, Make;
    StartsWell();
    var s1 := Apply(Start(), cmds[0]);
    MadeFile(Start(), "");
    var s2 := Apply(s1, cmds[1]);
    MadeNode(s1, 3, ROOT, "x", File);
    Trail(Start(), cmds, [Start(), s1, s2]);
    NamelessSibling(s2);
  }

  lemma NamelessSibling(db: Db)
    requires Core(db) && NearRoot(db.nodes, FILE) && NearRoot(db.nodes, 3)
    requires db.nodes[FILE].name == "" && db.nodes[FILE].deletedAt.None? && db.nodes[FILE].parent.Some?
    requires db.nodes[3].serverSeq == 2 && db.nodes[3].deletedAt.None? && db.nodes[3].parent.Some?
    ensures Submit(db, RequestFor(Rename(3, 2, ""))).response == Rejected(ConstraintViolation)
  {
    var rq := RequestFor(Rename(3, 2, ""));
    hide Submit, Core, Authorize, Walk;
    RootGrantReaches(db.nodes, 3, Write);
    IndexRefusesOnlyEmptyNames(db, rq);
    assert LiveSibling(db.nodes, FOLDER, ROOT, "", FILE);
  }

  /** Two files are renamed to one name at the same time: both look-ups find the name free, the first rename
      is applied, and the index refuses the second. */
  lemma ConcurrentRename(cmds: seq<Cmd>)
    requires cmds == [Make(FILE, ROOT, "a", File), Make(3, ROOT, "b", File)]
    ensures Init(Start()) && Runs(Start(), cmds)
    ensures var at, first := Run(Start(), cmds), RequestFor(Rename(FILE, 1, "c"));
            && 3 in at.nodes
            && var row := Mutated(at.nodes[3], Rename(3, 2, "c"), 0);
               && !Collides(at, FOLDER, 3, row) && Submit(at, first).response.Applied?
               && IndexRefuses(Submit(at, first).db, 3, row)
  {
    hide Apply, Enabled, Submit, Core, Make;
    StartsWell();
    var s1 := Apply(Start(), cmds[0]);
    MadeFile(Start(), "a");
    var s2 := Apply(s1, cmds[1]);
    MadeNode(s1, 3, ROOT, "b", File);
    Trail(Start(), cmds, [Start(), s1, s2]);
    BothRenamed(s2);
  }

  lemma BothRenamed(db: Db)
    requires db.nodes == map[ROOT := RootRow(), FILE := FileRow("a", None, None, 1), 3 := FileRow("b", None, None, 2)]
    ensures var first := RequestFor(Rename(FILE, 1, "c"));
            var row := Mutated(db.nodes[3], Rename(3, 2, "c"), 0);
            && !Collides(db, FOLDER, 3, row) && Submit(db, first).response.Applied?
            && IndexRefuses(Submit(db, first).db, 3, row)
  {
    hide Submit;
    var first, row := Change(Rename(FILE, 1, "c")), Mutated(db.nodes[3], Rename(3, 2, "c"), 0);
    Changed(db, Rename(FILE, 1, "c"));
    OneStep(db, first);
    ConcurrentRefusalExactly(db, [first], 3, row);
    assert Arrived(db, Run(db, [first]), FILE, row);
  }

  // The chunk index.

  /** In the folder of that life the file gets new content, all before the index exists: the chunk of the old
      version can be collected, and then the backfill cannot index that version. */
  lemma BackfillFailsAfterCollection(cmds: seq<Cmd>)
    requires cmds == FirstLife() + [Publish(FILE, 2, 12, "g")]
    ensures Init(Start()) && Runs(Start(), cmds)
    ensures var early := Run(Start(), cmds).(index := map[]);
            Core(early) && AllStaged(early) && Collectable(early, "h") && !AllStaged(ChunkDeleted(early, "h"))
  {
    hide Apply, Enabled, Submit, Core, FirstLife, Publish, Hashes, Counted, CurrentManifest, AllStaged, Collectable, ChunkDeleted;
    FirstLifeRuns();
    var s4 := Run(Start(), FirstLife());
    CurrentNamed(FirstRow(), s4, 11);
    PublishedFile(s4, FirstRow(), 12, "g");
    CountMoves(s4.chunks, "g", "h");
    RunOneMore(Start(), FirstLife(), Publish(FILE, 2, 12, "g"));
    CoreWithoutIndex(Run(Start(), cmds));
    OldChunkCollectable(Run(Start(), cmds).(index := map[]));
  }

  lemma CurrentNamed(row: NodeRow, db: Db, v: Id)
    requires Holds(db, row) && row.current == Some(v) && v in db.versions
    ensures CurrentManifest(db, FILE) == db.versions[v].manifest
  {
  }

  lemma CountMoves(chunks: Chunks, gained: Hash, lost: Hash)
    requires gained in chunks && lost in chunks && gained != lost && chunks[lost] == ChunkRow(1, 1, 0)
    ensures var after := Counted(chunks, {gained}, {lost});
            after.Keys == chunks.Keys && after[lost] == ChunkRow(1, 0, 0)
  {
  }

  lemma CoreWithoutIndex(db: Db)
    requires Core(db)
    ensures Core(db.(index := map[]))
  {
  }

  lemma OldChunkCollectable(db: Db)
    requires db.index == map[] && db.chunks.Keys == {"h", "g"} && db.chunks["h"].refcount == 0
    requires db.versions.Keys == {11, 12}
    requires Hashes(db.versions[11].manifest) == {"h"} && Hashes(db.versions[12].manifest) == {"g"}
    ensures AllStaged(db) && Collectable(db, "h") && !AllStaged(ChunkDeleted(db, "h"))
  {
    hide Hashes;
    assert AllStaged(db);
    FreshChunkCollectable(db, "h");
    hide Collectable, ChunkDeleted;
    CollectionBreaksBackfillExactly(db, "h");
  }

  /** The state of that life with its index still to be built. */
  ghost function Unindexed(): Db {
    Run(Start(), FirstLife()).(index := map[])
  }

  lemma UnindexedStands()
    ensures Core(Unindexed()) && RowsOf(Unindexed().versions, [11]) == map[(11, "h") := FILE]
    ensures Unindexed() == Run(Start(), FirstLife()).(index := map[]) && HasFirstVersion(Run(Start(), FirstLife()))
  {
    hide Core, FirstLife, Run, Hashes;
    FirstLifeRuns();
    CoreWithoutIndex(Run(Start(), FirstLife()));
    RowsMembers(Unindexed().versions, [11]);
    assert RowsOf(Unindexed().versions, [11]).Keys == {(11, "h")};
  }

  function PurgeGap(): seq<Cmd> {
    [Change(Delete(FILE, 2)), PurgeNodes({FILE}, {})]
  }

  lemma PurgeGapRuns()
    ensures Runs(Unindexed(), PurgeGap())
    ensures var at := Run(Unindexed(), PurgeGap());
            && Core(at) && at.nodes == map[ROOT := RootRow()] && at.versions == map[] && at.index == map[]
            && at.chunks.Keys == {"h", "g"} && at.lastSeq == 3
  {
    hide Apply, Enabled, Submit, Core, Change, Unindexed, Purged, RowsOf, FirstLife, Hashes;
    UnindexedStands();
    var s0 := Unindexed();
    var s1 := Apply(s0, PurgeGap()[0]);
    DeletedFile(s0, FirstRow());
    var s2 := Apply(s1, PurgeGap()[1]);
    PurgedFile(s1, FirstRow().(deletedAt := Some(0), serverSeq := 3));
    Trail(s0, PurgeGap(), [s0, s1, s2]);
  }

  /** Between the select of the page with the one version and its insert, the file is deleted and purged: the
      insert fails on the foreign key, and with it the backfill. */
  lemma PurgeStopsBackfill()
    ensures Core(Unindexed()) && Runs(Unindexed(), PurgeGap())
    ensures !RowsFit(Run(Unindexed(), PurgeGap()), RowsOf(Unindexed().versions, [11]))
  {
    hide Core, Run, Runs, Unindexed, PurgeGap, RowsOf, HasFirstVersion;
    UnindexedStands();
    PurgeGapRuns();
    assert (11, "h") in RowsOf(Unindexed().versions, [11]);
  }

  /** If the file is then made again and its version published under the old id with the other chunk, the
      insert goes through and puts a row into the index that no manifest stands for: the look-up allows a
      download that the scan refuses. */
  lemma StaleRowInserted(gap: seq<Cmd>)
    requires gap == PurgeGap() + [Make(FILE, ROOT, "b", File), Publish(FILE, 4, 11, "g")]
    ensures Core(Unindexed()) && Runs(Unindexed(), gap)
    ensures var rows := RowsOf(Unindexed().versions, [11]);
            var after := Indexed(Run(Unindexed(), gap), rows);
            && RowsFit(Run(Unindexed(), gap), rows) && !IndexSound(after)
            && IndexAllows(after, Everywhere(), "h") && !ScanAllows(after, Everywhere(), "h")
  {
    hide Apply, Enabled, Core, Make, Publish, Unindexed, PurgeGap, RowsOf, Counted, CurrentManifest,
      IndexSound, IndexAllows, ScanAllows, Indexed, RowsFit, Hashes, HasFirstVersion;
    UnindexedStands();
    PurgeGapRuns();
    var again := [Make(FILE, ROOT, "b", File), Publish(FILE, 4, 11, "g")];
    var s2 := Run(Unindexed(), PurgeGap());
    var s3 := Apply(s2, again[0]);
    MadeFile(s2, "b");
    var s4 := Apply(s3, again[1]);
    PublishedFile(s3, FileRow("b", None, None, 4), 11, "g");
    CountsKeepRows(s3.chunks, {"g"}, Hashes(CurrentManifest(s3, FILE)));
    Trail(s2, again, [s2, s3, s4]);
    RunAppend(Unindexed(), PurgeGap(), again);
    StaleRowAllows(s4);
  }

  lemma CountsKeepRows(chunks: Chunks, gained: set<Hash>, lost: set<Hash>)
    ensures Counted(chunks, gained, lost).Keys == chunks.Keys
  {
  }

  lemma StaleRowAllows(db: Db)
    requires Holds(db, FileRow("b", Some(11), None, 5)) && db.chunks.Keys == {"h", "g"}
    requires db.versions == map[11 := OneChunk("g")] && Hashes(OneChunk("g").manifest) == {"g"}
    requires db.index == map[(11, "g") := FILE]
    ensures var after := Indexed(db, map[(11, "h") := FILE]);
            && RowsFit(db, map[(11, "h") := FILE]) && !IndexSound(after)
            && IndexAllows(after, Everywhere(), "h") && !ScanAllows(after, Everywhere(), "h")
  {
    hide Authorize, Walk, Hashes, Indexed;
    var rows := map[(11, "h") := FILE];
    IndexedHolds(db, rows);
    IndexedAdds(db, rows);
    var after := Indexed(db, rows);
    RootGrantReaches(db.nodes, FILE, Read);
    assert (11, "h") in after.index && after.index[(11, "h")] == FILE;
  }

  // Pulling.

  lemma OneLogged(e: LogRow, folder: Id, cursor: nat)
    ensures OpsAbove([], folder, cursor) == [] && Head([], folder) == 0
    ensures OpsAbove([e], folder, cursor) == if e.folder == folder && e.serverSeq > cursor then [e] else []
    ensures Head([e], folder) == if e.folder == folder && e.serverSeq > 0 then e.serverSeq else 0
  {
    OpsAboveAppend([], e, folder, cursor);
    assert [] + [e] == [e];
  }

  /** A file is made, a client pulls up to that, and truncation takes the only log row: every answer now has
      the head 0, below the client's cursor. */
  lemma HeadFallsBehind(cmds: seq<Cmd>)
    requires cmds == [Make(FILE, ROOT, "a", File), TruncateLog({1})]
    ensures Init(Start()) && Runs(Start(), cmds)
    ensures var pulled := Run(Start(), cmds[..1]);
            && Tracks(View(pulled.nodes, FOLDER), 1, pulled, FOLDER, map[]) && Gc.OldOps(pulled.log, 1) == {1}
    ensures forall reply :: ServesDelta(Run(Start(), cmds), Everywhere(), FOLDER, 1, reply) <==> reply == Delta(DeltaPage([], 0))
  {
    hide Apply, Enabled, Submit, Core, Make, OpsAbove, Head, ServesDelta;
    StartsWell();
    var s1 := Apply(Start(), cmds[0]);
    MadeNode(Start(), FILE, ROOT, "a", File);
    var s2 := Apply(s1, cmds[1]);
    Truncated(s1, {1});
    Trail(Start(), cmds, [Start(), s1, s2]);
    assert cmds[..2] == cmds;
    OneLogged(s1.log[0], FOLDER, 1);
    assert s1.log == [s1.log[0]];
    NothingToReplay(s1, FOLDER, 1);
    forall reply
      ensures ServesDelta(s2, Everywhere(), FOLDER, 1, reply) <==> reply == Delta(DeltaPage([], 0))
    {
      NothingServed(s2, 1, reply);
    }
  }

  lemma Truncated(db: Db, seqs: set<nat>)
    requires |db.log| == 1 && db.log[0].serverSeq in seqs
    ensures Enabled(db, TruncateLog(seqs)) && Apply(db, TruncateLog(seqs)) == db.(log := [])
  {
    assert db.log == db.log[..0] + [db.log[0]];
    assert LogWithout(db.log[..0], seqs) == [];
    assert LogWithout(db.log, seqs) == [];
  }

  /** With one root and one possible grant there is one answer. */
  lemma OneAnswer(db: Db, grants: Grants, root: Id, answer: AuthzResult, since: nat, reply: DeltaReply)
    requires IsRoot(db.nodes, FOLDER, root) && forall r :: IsRoot(db.nodes, FOLDER, r) ==> r == root
    requires answer.Granted? && forall a :: ReadableGrant(db, grants, FOLDER, root, a) <==> a == answer
    ensures ServesDelta(db, grants, FOLDER, since, reply) <==> reply == ReplyWithin(db, FOLDER, answer.scope, since)
  {
    hide ReplyWithin, ReadableGrant, IsRoot;
    if reply == ReplyWithin(db, FOLDER, answer.scope, since) {
      assert IsRoot(db.nodes, FOLDER, root) && ReadableGrant(db, grants, FOLDER, root, answer);
    }
  }

  lemma NothingServed(db: Db, since: nat, reply: DeltaReply)
    requires NearRoot(db.nodes, ROOT) && OpsAbove(db.log, FOLDER, since) == []
    requires forall r :: IsRoot(db.nodes, FOLDER, r) <==> r == ROOT
    ensures ServesDelta(db, Everywhere(), FOLDER, since, reply) <==> reply == Delta(DeltaPage([], Head(db.log, FOLDER)))
  {
    hide Authorize, Walk, ServesDelta, OpsAbove, Head;
    RootGrantReaches(db.nodes, ROOT, Read);
    var answer := Authorize(db.nodes, Everywhere(), ROOT, Read);
    OneAnswer(db, Everywhere(), ROOT, answer, since, reply);
    assert ReplyWithin(db, FOLDER, answer.scope, since) == Delta(DeltaPage([], Head(db.log, FOLDER)));
  }

  lemma LogTail(log: seq<LogRow>, e: LogRow, folder: Id, cursor: nat)
    requires e.folder == folder && e.serverSeq > cursor && forall r :: r in log ==> r.serverSeq <= cursor
    ensures OpsAbove(log, folder, cursor) == [] && OpsAbove(log + [e], folder, cursor) == [e]
    ensures Head(log + [e], folder) == e.serverSeq
  {
    NothingAboveTop(log, folder, cursor);
    OpsAboveAppend(log, e, folder, cursor);
    HeadIsTop(log, folder);
  }

  /** The reader may read the folder node 3 and nothing else. */
  function ScopeOnly(): Grants {
    map[(FOLDER, 3) := Grant(0, true, false)]
  }

  /** The root, a file and a folder node. */
  predicate HoldsBoth(db: Db, file: NodeRow, dir: NodeRow) {
    db.nodes == map[ROOT := RootRow(), FILE := file, 3 := dir] && dir.folder == FOLDER && dir.parent == Some(ROOT)
    && file.folder == FOLDER && file.parent.Some?
  }

  lemma ScopeGrants(db: Db, file: NodeRow, dir: NodeRow)
    requires HoldsBoth(db, file, dir)
    ensures forall r :: IsRoot(db.nodes, FOLDER, r) <==> r == ROOT
    ensures forall answer :: ReadableGrant(db, ScopeOnly(), FOLDER, ROOT, answer) <==> answer == Granted(0, 3, false)
  {
    assert Authorize(db.nodes, ScopeOnly(), ROOT, Read).Denied?;
    assert (FOLDER, 3) in ScopeOnly();
  }

  lemma ScopeServes(db: Db, file: NodeRow, dir: NodeRow, since: nat)
    requires HoldsBoth(db, file, dir)
    ensures forall reply :: ServesDelta(db, ScopeOnly(), FOLDER, since, reply) <==> reply == ReplyWithin(db, FOLDER, 3, since)
    ensures ServesTree(db, ScopeOnly(), FOLDER,
                       TreeReply.Tree(TreeRows(db.nodes, FOLDER, 3, Subtree(db.nodes, 3)), Head(db.log, FOLDER)))
  {
    hide ReplyWithin, TreeRows, Subtree, ServesDelta, ReadableGrant, IsRoot, Head;
    ScopeGrants(db, file, dir);
    forall reply
      ensures ServesDelta(db, ScopeOnly(), FOLDER, since, reply) <==> reply == ReplyWithin(db, FOLDER, 3, since)
    {
      OneAnswer(db, ScopeOnly(), ROOT, Granted(0, 3, false), since, reply);
    }
    assert IsRoot(db.nodes, FOLDER, ROOT) && ReadableGrant(db, ScopeOnly(), FOLDER, ROOT, Granted(0, 3, false));
  }

  lemma InScope(db: Db, file: NodeRow, dir: NodeRow)
    requires HoldsBoth(db, file, dir)
    ensures FILE in Subtree(db.nodes, 3) <==> file.parent == Some(3) || (file.parent == Some(FILE) && Below(db.nodes, FILE, 3))
  {
    SubtreeIsBelow(db.nodes, 3, FILE);
    BelowStep(db.nodes, FILE, 3);
    if file.parent.value == 3 || file.parent.value == ROOT {
      BelowStep(db.nodes, file.parent.value, 3);
    } else if file.parent.value != FILE {
      NotBelowAbsent(db.nodes, file.parent.value, 3);
    }
  }

  lemma NotBelowAbsent(nodes: Nodes, n: Id, scope: Id)
    requires n !in nodes
    ensures !Below(nodes, n, scope)
  {
  }

  /** A file is moved into the one folder that a client may read, after the client has pulled its tree: the
      next page is the move of a node that it does not have, and cannot be applied. */
  lemma ScopedPageStuck(cmds: seq<Cmd>)
    requires cmds == [Make(FILE, ROOT, "a", File), Make(3, ROOT, "d", Folder), Change(Move(FILE, 1, 3))]
    ensures Init(Start()) && Runs(Start(), cmds)
    ensures var pulled, after := Run(Start(), cmds[..2]), Run(Start(), cmds);
            var mirror := TreeRows(pulled.nodes, FOLDER, 3, Subtree(pulled.nodes, 3));
            && ServesTree(pulled, ScopeOnly(), FOLDER, TreeReply.Tree(mirror, 2))
            && forall reply :: ServesDelta(after, ScopeOnly(), FOLDER, 2, reply) ==>
                 reply.Delta? && |reply.page.ops| == 1 && Replay(mirror, reply.page.ops).None?
  {
    hide Apply, Enabled, Submit, Core, Make, Change, OpsAbove, Head, ServesDelta, ServesTree, Subtree, TreeRows, Replay,
      ReplyWithin;
    StartsWell();
    var s1 := Apply(Start(), cmds[0]);
    MadeNode(Start(), FILE, ROOT, "a", File);
    var s2 := Apply(s1, cmds[1]);
    MadeNode(s1, 3, ROOT, "d", Folder);
    var s3 := Apply(s2, cmds[2]);
    ChangedNode(s2, Move(FILE, 1, 3));
    Trail(Start(), cmds, [Start(), s1, s2, s3]);
    assert cmds[..3] == cmds;
    var dir := NodeRow(FOLDER, Some(ROOT), "d", Folder, None, None, 2);
    ScopeServes(s2, FileRow("a", None, None, 1), dir, 2);
    ScopeServes(s3, FileRow("a", None, None, 3).(parent := Some(3)), dir, 2);
    LogTail(s1.log, s2.log[1], FOLDER, 1);
    LogTail(s2.log, s3.log[2], FOLDER, 2);
    MovedIn(s2, s3, s3.log[2], dir);
  }

  lemma MovedIn(pulled: Db, after: Db, move: LogRow, dir: NodeRow)
    requires HoldsBoth(pulled, FileRow("a", None, None, 1), dir)
    requires HoldsBoth(after, FileRow("a", None, None, 3).(parent := Some(3)), dir)
    requires move.node == FILE && move.payload == MovePayload(3) && OpsAbove(after.log, FOLDER, 2) == [move]
    ensures ReplyWithin(after, FOLDER, 3, 2) == Delta(DeltaPage([move], move.serverSeq))
    ensures Replay(TreeRows(pulled.nodes, FOLDER, 3, Subtree(pulled.nodes, 3)), [move]).None?
  {
    hide OpsAbove, Replay, Subtree;
    InScope(pulled, FileRow("a", None, None, 1), dir);
    InScope(after, FileRow("a", None, None, 3).(parent := Some(3)), dir);
    AllInNodes([move], Subtree(after.nodes, 3));
    var mirror := TreeRows(pulled.nodes, FOLDER, 3, Subtree(pulled.nodes, 3));
    PageAppliesExactly(mirror, [move]);
    assert !KnownBy(mirror.Keys, [move], 0);
  }

  /** A folder is moved into a folder inside itself: the two are cut off from the root, and a pull by a reader
      of one of them never ends. */
  lemma MoveIntoItself(cmds: seq<Cmd>)
    requires cmds == [Make(3, ROOT, "d", Folder), Make(4, 3, "e", Folder), Change(Move(3, 1, 4))]
    ensures Init(Start()) && Runs(Start(), cmds)
    ensures var nodes := Run(Start(), cmds).nodes;
            && OnCycle(nodes, 3) && (forall rounds: nat :: !EmptyFrom(nodes, 3, rounds))
            && 3 in nodes && nodes[3].deletedAt.None? && !InSubtree(nodes, ROOT, 3)
  {
    hide Apply, Enabled, Submit, Core, Make, Change;
    StartsWell();
    var s1 := Apply(Start(), cmds[0]);
    MadeNode(Start(), 3, ROOT, "d", Folder);
    var s2 := Apply(s1, cmds[1]);
    MadeNode(s1, 4, 3, "e", Folder);
    var s3 := Apply(s2, cmds[2]);
    ChangedNode(s2, Move(3, 1, 4));
    Trail(Start(), cmds, [Start(), s1, s2, s3]);
    CutOff(s3.nodes);
  }

  lemma CutOff(nodes: Nodes)
    requires 3 in nodes && 4 in nodes && nodes[3].parent == Some(4) && nodes[4].parent == Some(3)
    ensures OnCycle(nodes, 3) && (forall rounds: nat :: !EmptyFrom(nodes, 3, rounds)) && !InSubtree(nodes, ROOT, 3)
  {
    assert Up(nodes, 4, 1) == Up(nodes, 3, 0) == Some(3);
    assert Up(nodes, 3, 2) == Some(3);
    hide EmptyFrom;
    RecursiveQueryStopsExactly(nodes, 3);
    SubtreeIsBelow(nodes, ROOT, 3);
    if Below(nodes, 3, ROOT) {
      var k: nat :| Up(nodes, 3, k) == Some(ROOT);
      UpAlternates(nodes, k);
    }
  }

  lemma {:induction false} UpAlternates(nodes: Nodes, k: nat)
    requires 3 in nodes && 4 in nodes && nodes[3].parent == Some(4) && nodes[4].parent == Some(3)
    ensures Up(nodes, 3, k) != Some(ROOT) && Up(nodes, 4, k) != Some(ROOT)
  {
    if k > 0 {
      UpAlternates(nodes, k - 1);
    }
  }

  // Writes of the daemon to its mirror.

  /** A file is renamed by the daemon and then by somebody else; the daemon has pulled both before it writes
      the row that its own rename was answered with, and from then on the mirror has the old name. */
  lemma LateWriteStays(cmds: seq<Cmd>)
    requires cmds == [Make(FILE, ROOT, "a", File), Change(Rename(FILE, 1, "b")), Change(Rename(FILE, 2, "c"))]
    ensures Init(Start()) && Runs(Start(), cmds)
    ensures var first, after := Run(Start(), cmds[..2]), Run(Start(), cmds);
            var mirror := View(after.nodes, FOLDER);
            && FILE in first.nodes && Tracks(mirror, 3, after, FOLDER, map[])
            && !Reproduces(mirror[FILE := Local(first.nodes[FILE])], 3, after, FOLDER, map[])
  {
    hide Apply, Enabled, Submit, Core, Make, Change, OpsAbove, Head, Reproduces;
    StartsWell();
    var s1 := Apply(Start(), cmds[0]);
    MadeNode(Start(), FILE, ROOT, "a", File);
    var s2 := Apply(s1, cmds[1]);
    ChangedNode(s1, Rename(FILE, 1, "b"));
    var s3 := Apply(s2, cmds[2]);
    ChangedNode(s2, Rename(FILE, 2, "c"));
    Trail(Start(), cmds, [Start(), s1, s2, s3]);
    assert cmds[..3] == cmds;
    LogTail(s2.log, s3.log[2], FOLDER, 2);
    NothingAboveTop(s3.log, FOLDER, 3);
    NothingToReplay(s3, FOLDER, 3);
    LateWriteHarmlessExactly(View(s3.nodes, FOLDER), 3, s3, FOLDER, map[], FILE, Local(s2.nodes[FILE]));
  }

  lemma NothingToReplay(db: Db, folder: Id, cursor: nat)
    requires OpsAbove(db.log, folder, cursor) == []
    ensures Reproduces(View(db.nodes, folder), cursor, db, folder, map[])
  {
    assert map[] + View(db.nodes, folder) == View(db.nodes, folder);
  }

  function RenamedFile(): seq<Cmd> {
    [Make(FILE, ROOT, "a", File), Make(3, ROOT, "d", Folder), Change(Rename(FILE, 1, "b"))]
  }

  function FolderRow(): NodeRow {
    NodeRow(FOLDER, Some(ROOT), "d", Folder, None, None, 2)
  }

  lemma RenamedFileRuns()
    ensures Init(Start()) && Runs(Start(), RenamedFile())
    ensures var at := Run(Start(), RenamedFile());
            && Core(at) && HoldsBoth(at, FileRow("b", None, None, 3), FolderRow())
            && |at.log| == at.lastSeq == 3 && at.versions == map[] && at.chunks == map[]
  {
    hide Apply, Enabled, Submit, Core, Make, Change;
    StartsWell();
    var cmds := RenamedFile();
    var s1 := Apply(Start(), cmds[0]);
    MadeNode(Start(), FILE, ROOT, "a", File);
    var s2 := Apply(s1, cmds[1]);
    MadeNode(s1, 3, ROOT, "d", Folder);
    var s3 := Apply(s2, cmds[2]);
    ChangedNode(s2, Rename(FILE, 1, "b"));
    Trail(Start(), cmds, [Start(), s1, s2, s3]);
  }

  function RenamedThenPublished(): seq<Cmd> {
    RenamedFile() + [Stage("h"), Publish(FILE, 3, 11, "h")]
  }

  lemma RenamedThenPublishedRuns(cmds: seq<Cmd>)
    requires cmds == RenamedThenPublished()
    ensures Init(Start()) && Runs(Start(), cmds) && Core(Run(Start(), cmds))
    ensures var renamed, at := Run(Start(), cmds[..3]), Run(Start(), cmds);
            && FILE in renamed.nodes && renamed.nodes[FILE] == FileRow("b", None, None, 3)
            && HoldsBoth(at, FileRow("b", Some(11), None, 4), FolderRow())
            && at.lastSeq == |at.log| == 4 && at.log[3].folder == FOLDER && at.log[3].node == FILE
            && at.log[3].serverSeq == 4 && at.log[3].payload.VersionPayload?
  {
    hide Apply, Enabled, Submit, Core, Stage, Publish, Run, Runs;
    RenamedFileRuns();
    assert cmds[..3] == RenamedFile();
    var added := [Stage("h"), Publish(FILE, 3, 11, "h")];
    var s3 := Run(Start(), RenamedFile());
    var s4 := Apply(s3, added[0]);
    StagedChunk(s3, "h");
    var s5 := Apply(s4, added[1]);
    PublishedNode(s4, FILE, 3, 11, "h");
    Trail(s3, added, [s3, s4, s5]);
    RunAppend(Start(), RenamedFile(), added);
    InitInv(Start());
    RunKeepsInv(Start(), cmds);
  }

  /** The daemon renames a file, another client then gives it its content, the daemon pulls both and tells its
      client the number 4, and then writes the row of its own rename: the mirror is back at number 3. The user
      moves the file, based on 4: the server applies the move, the daemon writes its row without the content,
      and pulling the version's log row would leave it so. */
  lemma StaleMove(cmds: seq<Cmd>)
    requires cmds == RenamedThenPublished()
    ensures Init(Start()) && Runs(Start(), cmds)
    ensures var renamed, at := Run(Start(), cmds[..3]), Run(Start(), cmds);
            var mirror, rq := View(at.nodes, FOLDER), RequestFor(Move(FILE, 4, 3));
            && Tracks(mirror, 4, at, FOLDER, map[]) && FILE in mirror && mirror[FILE].serverSeq == 4
            && FILE in renamed.nodes
            && var late := mirror[FILE := Local(renamed.nodes[FILE])];
               var written := late[FILE := Updated(late[FILE], rq.op, 5)];
               && Submit(at, rq).response == Applied(5, FILE) && FILE in Submit(at, rq).db.nodes
               && written[FILE] != Local(Submit(at, rq).db.nodes[FILE])
               && |at.log| == 4 && at.log[3].payload.VersionPayload? && ApplyEntry(written, at.log[3]) == Some(written)
  {
    hide Submit, Tracks, Updated, ApplyEntry, View, RenamedThenPublished, Run, Runs;
    RenamedThenPublishedRuns(cmds);
    var at := Run(Start(), cmds);
    PulledUp(at, at.log[3], 4);
    MovedStale(at, Local(FileRow("b", None, None, 3)));
  }

  /** A client whose cursor is at the last number tracks the folder with the folder's rows for its mirror. */
  lemma PulledUp(db: Db, last: LogRow, top: nat)
    requires |db.log| > 0 && db.log[|db.log| - 1] == last && last.folder == FOLDER && last.serverSeq == top
    requires LogOrdered(db) && db.lastSeq == top
    ensures Tracks(View(db.nodes, FOLDER), top, db, FOLDER, map[])
  {
    NothingAboveTop(db.log, FOLDER, top);
    HeadIsTop(db.log, FOLDER);
    assert last in db.log;
    NothingToReplay(db, FOLDER, top);
  }

  lemma PublishedNode(db: Db, n: Id, basedOn: int, v: Id, hash: Hash)
    requires Core(db) && NearRoot(db.nodes, n) && db.nodes[n].serverSeq == basedOn && v !in db.versions && hash in db.chunks
    ensures var cmd := Publish(n, basedOn, v, hash);
            var after := Apply(db, cmd);
            && Enabled(db, cmd) && after.lastSeq == db.lastSeq + 1
            && after.nodes == db.nodes[n := db.nodes[n].(current := Some(v), serverSeq := db.lastSeq + 1)]
            && after.log == db.log + [LogRow(db.lastSeq + 1, FOLDER, n, PayloadOf(cmd.rq.op), Some(basedOn), 5, 0)]
            && PayloadOf(cmd.rq.op).VersionPayload?
  {
    VersionUnindexed(db, v, hash);
    hide Submit, Core, Linked, Counted, Hashes;
    Published(db, n, basedOn, v, hash);
  }

  lemma MovedStale(db: Db, stale: LocalNode)
    requires HoldsBoth(db, FileRow("b", Some(11), None, 4), FolderRow())
    requires db.lastSeq == 4 && stale.current.None?
    requires |db.log| == 4 && db.log[3].node == FILE && db.log[3].serverSeq == 4 && db.log[3].payload.VersionPayload?
    ensures var rq, mirror := RequestFor(Move(FILE, 4, 3)), View(db.nodes, FOLDER);
            && FILE in mirror && mirror[FILE].serverSeq == 4
            && var late := mirror[FILE := stale];
               var written := late[FILE := Updated(late[FILE], rq.op, 5)];
               && Submit(db, rq).response == Applied(5, FILE) && FILE in Submit(db, rq).db.nodes
               && ApplyEntry(written, db.log[3]) == Some(written) && written[FILE] != Local(Submit(db, rq).db.nodes[FILE])
  {
    hide Submit, Authorize, Walk;
    Changed(db, Move(FILE, 4, 3));
    SubmitShape(db, RequestFor(Move(FILE, 4, 3)));
    StaleRowStays(db, RequestFor(Move(FILE, 4, 3)), stale, db.log[3]);
  }

  // Purges and late commits against pulls.

  /** A client pulls a file, which is then deleted and purged before the client asks again: the next page is
      empty, its number is that of the delete, and the client keeps the live row. */
  lemma PurgedFileStays(cmds: seq<Cmd>)
    requires cmds == [Make(FILE, ROOT, "a", File), Change(Delete(FILE, 1)), PurgeNodes({FILE}, {})]
    ensures Init(Start()) && Runs(Start(), cmds)
    ensures var pulled, after := Run(Start(), cmds[..1]), Run(Start(), cmds);
            var mirror := View(pulled.nodes, FOLDER);
            && Tracks(mirror, 1, pulled, FOLDER, map[]) && FILE in mirror && !mirror[FILE].deleted && FILE !in after.nodes
            && forall reply :: ServesDelta(after, Everywhere(), FOLDER, 1, reply) <==> reply == Delta(DeltaPage([], 2))
  {
    hide Apply, Enabled, Submit, Core, Make, Change, OpsAbove, Head, ServesDelta, Reproduces, Purged;
    StartsWell();
    var s1 := Apply(Start(), cmds[0]);
    MadeNode(Start(), FILE, ROOT, "a", File);
    var s2 := Apply(s1, cmds[1]);
    ChangedNode(s1, Delete(FILE, 1));
    var s3 := Apply(s2, cmds[2]);
    PurgedFile(s2, FileRow("a", None, Some(0), 2));
    Trail(Start(), cmds, [Start(), s1, s2, s3]);
    assert cmds[..3] == cmds;
    PulledUp(s1, s1.log[0], 1);
    LogTail(s1.log, s2.log[1], FOLDER, 1);
    forall reply
      ensures ServesDelta(s3, Everywhere(), FOLDER, 1, reply) <==> reply == Delta(DeltaPage([], 2))
    {
      RootServes(s3, 1, [s2.log[1]], reply);
    }
  }

  lemma {:induction false} NoneInNodes(ops: seq<LogRow>, nodes: set<Id>)
    requires forall e :: e in ops ==> e.node !in nodes
    ensures InNodes(ops, nodes) == []
  {
    if ops != [] {
      NoneInNodes(ops[1..], nodes);
    }
  }

  /** What a root reader is served in the empty folder: no row of a node that is gone. */
  lemma RootServes(db: Db, since: nat, above: seq<LogRow>, reply: DeltaReply)
    requires db.nodes == map[ROOT := RootRow()] && OpsAbove(db.log, FOLDER, since) == above
    requires forall e :: e in above ==> e.node != ROOT
    ensures ServesDelta(db, Everywhere(), FOLDER, since, reply) <==> reply == Delta(DeltaPage([], Head(db.log, FOLDER)))
  {
    hide Authorize, Walk, ServesDelta, OpsAbove, Head;
    RootGrantReaches(db.nodes, ROOT, Read);
    var answer := Authorize(db.nodes, Everywhere(), ROOT, Read);
    OneAnswer(db, Everywhere(), ROOT, answer, since, reply);
    var subtree := Subtree(db.nodes, answer.scope);
    NoneInNodes(above, subtree);
    assert ReplyWithin(db, FOLDER, answer.scope, since) == Delta(DeltaPage([], Head(db.log, FOLDER)));
  }

  /** The second of two creations that run at the same time, as it commits before the first one has: under
      number 2, as number 1 is drawn already. */
  function SecondFirst(): Cmd {
    SubmitCmd(RequestFor(Create(3, ROOT, "b", File)).(gap := 1))
  }

  lemma SecondFirstCommits()
    ensures var at := Apply(Start(), SecondFirst());
            && Enabled(Start(), SecondFirst()) && Core(at) && at.lastSeq == 2
            && at.nodes == map[ROOT := RootRow(), 3 := FileRow("b", None, None, 2)]
            && |at.log| == 1 && at.log[0].serverSeq == 2 && at.log[0].folder == FOLDER
  {
    StartsWell();
    hide Submit, Authorize, Walk, Core;
    RootGrantReaches(Start().nodes, ROOT, Write);
    AddressedCreate(Start(), SecondFirst().rq);
    StepKeepsCore(Start(), SecondFirst());
  }

  lemma InOrderCommits(cmds: seq<Cmd>)
    requires cmds == [Make(FILE, ROOT, "a", File), Make(3, ROOT, "b", File)]
    ensures Init(Start()) && Runs(Start(), cmds)
    ensures var at := Run(Start(), cmds);
            && at.nodes == map[ROOT := RootRow(), FILE := FileRow("a", None, None, 1), 3 := FileRow("b", None, None, 2)]
            && OpsAbove(at.log, FOLDER, 2) == [] && Head(at.log, FOLDER) == 2
  {
    hide Apply, Enabled, Submit, Core, Make, OpsAbove, Head;
    StartsWell();
    var s1 := Apply(Start(), cmds[0]);
    MadeNode(Start(), FILE, ROOT, "a", File);
    var s2 := Apply(s1, cmds[1]);
    MadeNode(s1, 3, ROOT, "b", File);
    Trail(Start(), cmds, [Start(), s1, s2]);
    NothingAboveTop(s2.log, FOLDER, 2);
    LogTail(s1.log, s2.log[1], FOLDER, 1);
  }

  /** A client pulls between the two commits. The tables end as if the creations had run one after the other,
      with the number 2 for the last one, and the client, whose cursor is 2, is never sent the first. */
  lemma LateCommitLost(cmds: seq<Cmd>)
    requires cmds == [Make(FILE, ROOT, "a", File), Make(3, ROOT, "b", File)]
    ensures Init(Start()) && Runs(Start(), cmds) && Runs(Start(), [SecondFirst()])
    ensures var between, after := Run(Start(), [SecondFirst()]), Run(Start(), cmds);
            var mirror := View(between.nodes, FOLDER);
            && Tracks(mirror, 2, between, FOLDER, map[]) && FILE !in mirror && LiveAt(after, FILE)
            && 3 in between.nodes && 3 in after.nodes && after.nodes[3] == between.nodes[3]
            && forall reply :: ServesDelta(after, Everywhere(), FOLDER, 2, reply) <==> reply == Delta(DeltaPage([], 2))
  {
    hide Apply, Enabled, Core, Make, OpsAbove, Head, ServesDelta, Reproduces, SecondFirst, Run, Runs;
    SecondFirstCommits();
    OneStep(Start(), SecondFirst());
    var between := Run(Start(), [SecondFirst()]);
    PulledUp(between, between.log[0], 2);
    InOrderCommits(cmds);
    forall reply
      ensures ServesDelta(Run(Start(), cmds), Everywhere(), FOLDER, 2, reply) <==> reply == Delta(DeltaPage([], 2))
    {
      NothingServed(Run(Start(), cmds), 2, reply);
    }
  }

  /** A file is made between the two queries of a pull: the page has no rows and the number of the creation,
      and the next pull has nothing either. */
  lemma TornPullSkips(cmds: seq<Cmd>)
    requires cmds == [Make(FILE, ROOT, "a", File)]
    ensures Init(Start()) && Runs(Start(), cmds)
    ensures var after, mirror := Run(Start(), cmds), View(Start().nodes, FOLDER);
            && Tracks(mirror, 0, Start(), FOLDER, map[]) && FILE !in mirror && LiveAt(after, FILE)
            && ServesOver(Start(), after, Everywhere(), FOLDER, 0, Delta(DeltaPage([], 1)))
            && forall reply :: ServesDelta(after, Everywhere(), FOLDER, 1, reply) <==> reply == Delta(DeltaPage([], 1))
  {
    hide Apply, Enabled, Submit, Core, Make, OpsAbove, Head, ServesDelta, Reproduces;
    StartsWell();
    var s1 := Apply(Start(), cmds[0]);
    MadeNode(Start(), FILE, ROOT, "a", File);
    Trail(Start(), cmds, [Start(), s1]);
    assert cmds[..1] == cmds;
    OneLogged(s1.log[0], FOLDER, 0);
    NothingToReplay(Start(), FOLDER, 0);
    NothingServed(Start(), 0, Delta(DeltaPage([], 0)));
    assert s1.log == [s1.log[0]];
    OneLogged(s1.log[0], FOLDER, 1);
    assert Delta(DeltaPage([], 1)) == WithHead(Delta(DeltaPage([], 0)), Head(s1.log, FOLDER));
    forall reply
      ensures ServesDelta(s1, Everywhere(), FOLDER, 1, reply) <==> reply == Delta(DeltaPage([], 1))
    {
      NothingServed(s1, 1, reply);
    }
  }
}
