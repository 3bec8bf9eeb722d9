/** What holds of the tables in every reachable state. */
module Invariants {
  import opened Types
  import opened Tree
  import opened Ops
  import opened Steps

  /** Every index row names a hash of its version's manifest and that version's node. */
  ghost predicate IndexSound(db: Db) {
    forall k :: k in db.index ==>
      k.0 in db.versions && k.1 in Hashes(db.versions[k.0].manifest) && db.index[k] == db.versions[k.0].node
  }

  /** No stored manifest misses an index row. */
  ghost predicate IndexComplete(db: Db) {
    forall v, h :: v in db.versions && h in Hashes(db.versions[v].manifest) ==> (v, h) in db.index
  }

  /** A current version belongs to its node and is not a conflict copy. */
  ghost predicate CurrentOwned(db: Db) {
    forall n :: n in db.nodes && db.nodes[n].current.Some? ==>
      var v := db.nodes[n].current.value;
      v in db.versions && db.versions[v].node == n && !db.versions[v].conflict
  }

  ghost predicate SameLivePlace(a: NodeRow, b: NodeRow) {
    && a.deletedAt.None? && b.deletedAt.None?
    && a.parent.Some? && a.parent == b.parent && a.folder == b.folder && a.name == b.name
  }

  ghost predicate SiblingsDistinct(nodes: Nodes) {
    forall m, n :: m in nodes && n in nodes && SameLivePlace(nodes[m], nodes[n]) ==> m == n
  }

  ghost predicate LogOrdered(db: Db) {
    && (forall i, j :: 0 <= i < j < |db.log| ==> db.log[i].serverSeq < db.log[j].serverSeq)
    && (forall i :: 0 <= i < |db.log| ==> 0 < db.log[i].serverSeq <= db.lastSeq)
  }

  /** A node's sequence number is at least that of every op logged for it. */
  ghost predicate SeqsCurrent(db: Db) {
    && (forall n :: n in db.nodes ==> db.nodes[n].serverSeq <= db.lastSeq)
    && (forall i :: 0 <= i < |db.log| && db.log[i].node in db.nodes ==>
          db.log[i].serverSeq <= db.nodes[db.log[i].node].serverSeq)
  }

  /** The invariant of a database whose index may still be partial, as before the backfill. */
  ghost predicate Core(db: Db) {
    && ForeignKeysHold(db) && IndexSound(db) && CurrentOwned(db)
    && ParentsInFolder(db.nodes) && SiblingsDistinct(db.nodes)
    && LogOrdered(db) && SeqsCurrent(db)
  }

  ghost predicate Inv(db: Db) {
    Core(db) && IndexComplete(db)
  }

  /** Shared folders as they are created: a root each, nothing stored, nothing logged. */
  predicate Init(db: Db) {
    && db.versions == map[] && db.index == map[] && db.chunks == map[] && db.log == [] && db.lastSeq == 0
    && forall n :: n in db.nodes ==>
         var row := db.nodes[n];
         row.parent.None? && row.current.None? && row.deletedAt.None? && row.serverSeq == 0
  }

  lemma InitInv(db: Db)
    requires Init(db)
    ensures Inv(db)
  {
  }

  // Submitted operations.

  lemma CommitKeepsOrder(db: Db, rq: Request, row: NodeRow, payload: Payload, basedOn: Option<int>)
    requires LogOrdered(db) && SeqsCurrent(db) && rq.principal.Device?
    ensures LogOrdered(Commit(db, rq, row, payload, basedOn)) && SeqsCurrent(Commit(db, rq, row, payload, basedOn))
  {
  }

  /** The row refers to what exists, in its own folder, and its current version is its own. */
  ghost predicate RowFits(db: Db, n: Id, row: NodeRow) {
    && (n in db.nodes ==> db.nodes[n].folder == row.folder)
    && (row.parent.Some? ==> row.parent.value in db.nodes && db.nodes[row.parent.value].folder == row.folder)
    && (row.current.Some? ==>
          var v := row.current.value;
          v in db.versions && db.versions[v].node == n && !db.versions[v].conflict)
  }

  lemma CommitKeepsReferences(db: Db, rq: Request, row: NodeRow, payload: Payload, basedOn: Option<int>)
    requires ForeignKeysHold(db) && CurrentOwned(db) && ParentsInFolder(db.nodes) && rq.principal.Device?
    requires RowFits(db, rq.op.nodeId, row)
    ensures var after := Commit(db, rq, row, payload, basedOn);
            ForeignKeysHold(after) && CurrentOwned(after) && ParentsInFolder(after.nodes)
  {
  }

  lemma ChangeKeepsSiblings(db: Db, n: Id, row: NodeRow)
    requires SiblingsDistinct(db.nodes)
    requires !IndexRefuses(db, n, row)
    ensures SiblingsDistinct(db.nodes[n := row])
  {
    forall m | m in db.nodes && m != n
      ensures !SameLivePlace(db.nodes[m], row) && !SameLivePlace(row, db.nodes[m])
    {
      if row.deletedAt.None? && row.parent.Some? {
        assert !LiveSibling(db.nodes, row.folder, row.parent.value, row.name, m);
      }
    }
  }

  lemma SamePlaceKeepsSiblings(nodes: Nodes, n: Id, row: NodeRow)
    requires SiblingsDistinct(nodes) && n in nodes
    requires forall other: NodeRow ::
               && SameLivePlace(other, row) == SameLivePlace(other, nodes[n])
               && SameLivePlace(row, other) == SameLivePlace(nodes[n], other)
    ensures SiblingsDistinct(nodes[n := row])
  {
  }

  lemma CreateKeepsCore(db: Db, rq: Request)
    requires Core(db) && OpInFolder(db, rq) && rq.op.Create? && rq.principal.Device?
    ensures Core(CreateNode(db, rq).db)
    ensures IndexComplete(db) ==> IndexComplete(CreateNode(db, rq).db)
  {
    if CreateFits(db, rq.folder, rq.op) {
      var op := rq.op;
      var row := NodeRow(rq.folder, Some(op.parentId), op.name, op.kind, None, None, 0);
      var payload := CreatePayload(op.parentId, op.name, op.kind);
      CommitKeepsOrder(db, rq, row, payload, None);
      CommitKeepsReferences(db, rq, row, payload, None);
      ChangeKeepsSiblings(db, op.nodeId, row.(serverSeq := NextSeq(db, rq)));
    }
  }

  lemma ChangeKeepsCore(db: Db, rq: Request)
    requires Core(db) && rq.principal.Device? && !rq.op.Create? && !rq.op.NewVersion?
    requires rq.op.nodeId in db.nodes && db.nodes[rq.op.nodeId].folder == rq.folder
    requires rq.op.Move? ==> rq.op.newParentId in db.nodes && db.nodes[rq.op.newParentId].folder == rq.folder
    ensures Core(ChangeNode(db, rq).db)
    ensures IndexComplete(db) ==> IndexComplete(ChangeNode(db, rq).db)
  {
    var op := rq.op;
    var row := Mutated(db.nodes[op.nodeId], op, rq.now);
    if ChangeNode(db, rq).response.Applied? {
      CommitKeepsOrder(db, rq, row, PayloadOf(op), Some(op.basedOn));
      CommitKeepsReferences(db, rq, row, PayloadOf(op), Some(op.basedOn));
      ChangeKeepsSiblings(db, op.nodeId, row.(serverSeq := NextSeq(db, rq)));
    }
  }

  lemma AddedRows(index: Index, v: Id, hashes: set<Hash>, node: Id)
    ensures var after := Linked(index, v, hashes, node);
            && (forall k :: k in after ==> k in index || (k.0 == v && k.1 in hashes && after[k] == node))
            && (forall k :: k in index && k.0 != v ==> k in after && after[k] == index[k])
            && (forall h :: h in hashes ==> (v, h) in after)
  {
  }

  lemma StoreKeepsReferences(db: Db, v: Id, row: VersionRow, replaced: set<Hash>)
    requires ForeignKeysHold(db) && IndexSound(db) && CurrentOwned(db)
    requires VersionFits(db, v, row.manifest) && row.node in db.nodes
    ensures var after := StoreVersion(db, v, row, replaced);
            && ForeignKeysHold(after) && IndexSound(after) && CurrentOwned(after)
            && (IndexComplete(db) ==> IndexComplete(after))
  {
    StoreKeepsIndex(db, v, row, replaced);
    var after := StoreVersion(db, v, row, replaced);
    assert after.nodes == db.nodes && after.versions == db.versions[v := row];
    hide StoreVersion, IndexSound, IndexComplete, VersionFits;
  }

  /** An index row after the store is an old one or one of the new version. */
  lemma StoredRow(db: Db, v: Id, row: VersionRow, replaced: set<Hash>, k: (Id, Hash))
    requires ForeignKeysHold(db) && IndexSound(db) && VersionFits(db, v, row.manifest) && row.node in db.nodes
    requires k in StoreVersion(db, v, row, replaced).index
    ensures var after := StoreVersion(db, v, row, replaced);
            && k.0 in after.versions && k.1 in after.chunks && after.index[k] in after.nodes
            && k.1 in Hashes(after.versions[k.0].manifest) && after.index[k] == after.versions[k.0].node
  {
    var after := StoreVersion(db, v, row, replaced);
    AddedRows(db.index, v, Hashes(row.manifest), row.node);
    hide Linked, Hashes;
    if k in db.index {
      assert k.0 in db.versions && k.0 != v;
    }
  }

  lemma StoreKeepsIndex(db: Db, v: Id, row: VersionRow, replaced: set<Hash>)
    requires ForeignKeysHold(db) && IndexSound(db) && VersionFits(db, v, row.manifest) && row.node in db.nodes
    ensures var after := StoreVersion(db, v, row, replaced);
            && IndexSound(after) && (IndexComplete(db) ==> IndexComplete(after))
            && forall k :: k in after.index ==> k.0 in after.versions && k.1 in after.chunks && after.index[k] in after.nodes
  {
    var after := StoreVersion(db, v, row, replaced);
    forall k | k in after.index
      ensures k.0 in after.versions && k.1 in after.chunks && after.index[k] in after.nodes
      ensures k.1 in Hashes(after.versions[k.0].manifest) && after.index[k] == after.versions[k.0].node
    {
      StoredRow(db, v, row, replaced, k);
    }
    if IndexComplete(db) {
      StoreKeepsComplete(db, v, row, replaced);
    }
    hide StoreVersion, ForeignKeysHold, VersionFits, IndexComplete;
  }

  lemma StoreKeepsComplete(db: Db, v: Id, row: VersionRow, replaced: set<Hash>)
    requires IndexComplete(db) && v !in db.versions
    ensures IndexComplete(StoreVersion(db, v, row, replaced))
  {
    AddedRows(db.index, v, Hashes(row.manifest), row.node);
    hide Linked, Hashes;
    var after := StoreVersion(db, v, row, replaced);
    forall w, h | w in after.versions && h in Hashes(after.versions[w].manifest)
      ensures (w, h) in after.index
    {
      if w != v {
        assert (w, h) in db.index;
      }
    }
  }

  lemma StoreKeepsRest(db: Db, v: Id, row: VersionRow, replaced: set<Hash>)
    ensures var after := StoreVersion(db, v, row, replaced);
            && after.nodes == db.nodes && after.log == db.log && after.lastSeq == db.lastSeq
            && after.versions == db.versions[v := row]
  {
  }

  lemma CommitKeepsIndex(db: Db, rq: Request, row: NodeRow, payload: Payload, basedOn: Option<int>)
    requires rq.principal.Device?
    ensures IndexSound(db) ==> IndexSound(Commit(db, rq, row, payload, basedOn))
    ensures IndexComplete(db) ==> IndexComplete(Commit(db, rq, row, payload, basedOn))
  {
  }

  lemma StoreKeepsCore(db: Db, rq: Request, v: Id, conflict: bool, replaced: set<Hash>, payload: Payload)
    requires Core(db) && rq.principal.Device? && rq.op.NewVersion? && rq.op.nodeId in db.nodes
    requires db.nodes[rq.op.nodeId].folder == rq.folder && VersionFits(db, v, rq.op.manifest)
    ensures var row := if conflict then db.nodes[rq.op.nodeId] else db.nodes[rq.op.nodeId].(current := Some(v));
            var after := Commit(StoreVersion(db, v, VersionOf(rq, conflict), replaced), rq, row, payload, Some(rq.op.basedOn));
            Core(after) && (IndexComplete(db) ==> IndexComplete(after))
  {
    hide IndexSound, IndexComplete, VersionFits, StoreVersion;
    var n := rq.op.nodeId;
    var row := if conflict then db.nodes[n] else db.nodes[n].(current := Some(v));
    var stored := StoreVersion(db, v, VersionOf(rq, conflict), replaced);
    StoreKeepsReferences(db, v, VersionOf(rq, conflict), replaced);
    StoreKeepsRest(db, v, VersionOf(rq, conflict), replaced);
    CommitKeepsIndex(stored, rq, row, payload, Some(rq.op.basedOn));
    CommitKeepsOrder(stored, rq, row, payload, Some(rq.op.basedOn));
    CommitKeepsReferences(stored, rq, row, payload, Some(rq.op.basedOn));
    SamePlaceKeepsSiblings(db.nodes, n, row.(serverSeq := NextSeq(stored, rq)));
  }

  lemma UpdateKeepsCore(db: Db, rq: Request)
    requires Core(db) && OpInFolder(db, rq) && rq.principal.Device? && !rq.op.Create?
    ensures Core(UpdateNode(db, rq).db)
    ensures IndexComplete(db) ==> IndexComplete(UpdateNode(db, rq).db)
  {
    hide Core, IndexComplete, Inv;
    var op, after := rq.op, UpdateNode(db, rq);
    if Accepted(after.response) {
      if !op.NewVersion? {
        ChangeKeepsCore(db, rq);
      } else if after.response.ConflictCopy? {
        StoreKeepsCore(db, rq, rq.freshId, true, {},
                       VersionPayload(rq.freshId, op.contentHash, op.size, op.manifest, true));
      } else {
        StoreKeepsCore(db, rq, op.versionId, false, Hashes(CurrentManifest(db, op.nodeId)), PayloadOf(op));
      }
    }
  }

  lemma SubmitKeepsCore(db: Db, rq: Request)
    requires Core(db) && OpInFolder(db, rq)
    ensures Core(Submit(db, rq).db)
    ensures IndexComplete(db) ==> IndexComplete(Submit(db, rq).db)
  {
    if rq.principal.Device? {
      if rq.op.Create? {
        CreateKeepsCore(db, rq);
      } else {
        UpdateKeepsCore(db, rq);
      }
    }
  }

  // Collection, truncation and backfill.

  lemma {:induction false} LogWithoutSubsequence(log: seq<LogRow>, seqs: set<nat>)
    ensures forall r :: r in LogWithout(log, seqs) <==> r in log && r.serverSeq !in seqs
    ensures (forall i, j :: 0 <= i < j < |log| ==> log[i].serverSeq < log[j].serverSeq) ==>
            (forall i, j :: 0 <= i < j < |LogWithout(log, seqs)| ==>
              LogWithout(log, seqs)[i].serverSeq < LogWithout(log, seqs)[j].serverSeq)
  {
    if log != [] {
      var front, last := log[..|log| - 1], log[|log| - 1];
      LogWithoutSubsequence(front, seqs);
      assert log == front + [last];
    }
  }

  lemma TruncateKeepsCore(db: Db, seqs: set<nat>)
    requires Core(db)
    ensures Core(Apply(db, TruncateLog(seqs)))
  {
    LogWithoutSubsequence(db.log, seqs);
    var after := Apply(db, TruncateLog(seqs));
    assert forall i :: 0 <= i < |after.log| ==> after.log[i] in db.log;
  }

  lemma PurgeKeepsCore(db: Db, ids: set<Id>, granted: set<Id>)
    requires Core(db)
    ensures Core(Purged(db, ids, granted))
    ensures IndexComplete(db) ==> IndexComplete(Purged(db, ids, granted))
  {
  }

  lemma DeleteChunkKeepsCore(db: Db, hash: Hash)
    requires Core(db)
    ensures Core(ChunkDeleted(db, hash))
    ensures IndexComplete(db) ==> IndexComplete(ChunkDeleted(db, hash))
  {
    assert forall k :: k in db.index && k.1 == hash ==> Named(db, hash);
  }

  lemma IndexKeepsSound(db: Db, rows: Index)
    requires ForeignKeysHold(db) && IndexSound(db) && RowsDescribe(db, rows)
    ensures ForeignKeysHold(Indexed(db, rows)) && IndexSound(Indexed(db, rows))
  {
    var added, after := rows - db.index.Keys, Indexed(db, rows);
    forall k | k in after.index
      ensures k.0 in db.versions && k.1 in Hashes(db.versions[k.0].manifest)
      ensures k.1 in db.chunks && after.index[k] in db.nodes && after.index[k] == db.versions[k.0].node
    {
      assert k in db.index || k in added;
    }
  }

  lemma IndexKeepsCore(db: Db, rows: Index)
    requires Core(db) && RowsDescribe(db, rows)
    ensures Core(Indexed(db, rows))
    ensures IndexComplete(db) ==> IndexComplete(Indexed(db, rows))
  {
    hide Indexed, ForeignKeysHold, IndexSound, IndexComplete, CurrentOwned, SiblingsDistinct, ParentsInFolder, LogOrdered,
      SeqsCurrent, RowsDescribe, Hashes;
    IndexKeepsSound(db, rows);
    IndexOnlyGrows(db, rows);
    OnlyIndexDiffers(db, Indexed(db, rows));
  }

  lemma OnlyIndexDiffers(db: Db, after: Db)
    requires after == db.(index := after.index) && forall k :: k in db.index ==> k in after.index
    ensures CurrentOwned(db) ==> CurrentOwned(after)
    ensures LogOrdered(db) ==> LogOrdered(after)
    ensures SeqsCurrent(db) ==> SeqsCurrent(after)
    ensures IndexComplete(db) ==> IndexComplete(after)
  {
    hide Hashes;
  }

  lemma IndexOnlyGrows(db: Db, rows: Index)
    ensures Indexed(db, rows) == db.(index := Indexed(db, rows).index)
    ensures forall k :: k in db.index ==> k in Indexed(db, rows).index
  {
  }

  lemma StepKeepsCore(db: Db, cmd: Cmd)
    requires Core(db) && Enabled(db, cmd)
    ensures Core(Apply(db, cmd))
    ensures IndexComplete(db) ==> IndexComplete(Apply(db, cmd))
  {
    match cmd
    case SubmitCmd(rq) => SubmitKeepsCore(db, rq);
    case StageChunk(hash, size, now) =>
    case DeleteChunk(hash) => DeleteChunkKeepsCore(db, hash);
    case PurgeNodes(ids, granted) => PurgeKeepsCore(db, ids, granted);
    case TruncateLog(seqs) => TruncateKeepsCore(db, seqs);
    case IndexRows(rows) => IndexKeepsCore(db, rows);
  }

  /** Whatever the steps and their order, references stay closed, the index stays exactly the stored
      manifests, live siblings stay distinctly named and sequence numbers stay ordered. */
  lemma {:induction false} RunKeepsInv(db: Db, cmds: seq<Cmd>)
    requires Core(db) && Runs(db, cmds)
    ensures Core(Run(db, cmds))
    ensures IndexComplete(db) ==> Inv(Run(db, cmds))
    decreases |cmds|
  {
    if cmds != [] {
      StepKeepsCore(db, cmds[0]);
      RunKeepsInv(Apply(db, cmds[0]), cmds[1..]);
    }
  }
}
