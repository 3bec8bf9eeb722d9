/** The server's writes statement by statement, inside transactions that roll back as a whole. */
module Store {
  import opened Types
  import opened Authz
  import opened Ops
  import opened Steps
  import opened Invariants
  import opened History

  /** The highest number logged for the node in the folder, 0 without one. */
  function LatestSeq(log: seq<LogRow>, folder: Id, n: Id): nat {
    if log == [] then 0
    else
      var last, before := log[|log| - 1], LatestSeq(log[..|log| - 1], folder, n);
      if last.folder == folder && last.node == n && last.serverSeq > before then last.serverSeq else before
  }

  lemma {:induction false} LatestWithin(log: seq<LogRow>, folder: Id, n: Id, bound: nat)
    requires forall i :: 0 <= i < |log| ==> log[i].serverSeq <= bound
    ensures LatestSeq(log, folder, n) <= bound
  {
    if log != [] {
      LatestWithin(log[..|log| - 1], folder, n, bound);
    }
  }

  /** It is the number of such a row, and none has a higher one. */
  lemma {:induction false} LatestIsTop(log: seq<LogRow>, folder: Id, n: Id)
    ensures var top := LatestSeq(log, folder, n);
            && (forall e :: e in log && e.folder == folder && e.node == n ==> e.serverSeq <= top)
            && (top == 0 || exists e :: e in log && e.folder == folder && e.node == n && e.serverSeq == top)
  {
    if log != [] {
      LatestIsTop(log[..|log| - 1], folder, n);
      assert log == log[..|log| - 1] + [log[|log| - 1]];
    }
  }

  lemma LatestIsNewest(log: seq<LogRow>, e: LogRow)
    requires forall i :: 0 <= i < |log| ==> log[i].serverSeq < e.serverSeq
    ensures LatestSeq(log + [e], e.folder, e.node) == e.serverSeq
  {
    assert (log + [e])[..|log|] == log;
    if log != [] {
      assert log[0].serverSeq < e.serverSeq;
      LatestWithin(log, e.folder, e.node, e.serverSeq - 1);
    }
  }

  ghost predicate OnlyFrom(trace: seq<Cmd>, cmds: seq<Cmd>) {
    forall cmd :: cmd in trace ==> cmd in cmds
  }

  class MetadataStore {
    var nodes: Nodes
    var versions: Versions
    var versionChunks: Index
    var chunks: Chunks
    var opLog: seq<LogRow>
    var lastSeq: nat

    function Snapshot(): Db
      reads this
    {
      Db(nodes, versions, versionChunks, chunks, opLog, lastSeq)
    }

    constructor (db: Db)
      ensures Snapshot() == db
    {
      nodes, versions, versionChunks := db.nodes, db.versions, db.index;
      chunks, opLog, lastSeq := db.chunks, db.log, db.lastSeq;
    }

    method Rollback(saved: Db)
      modifies this
      ensures Snapshot() == saved
    {
      nodes, versions, versionChunks := saved.nodes, saved.versions, saved.index;
      chunks, opLog, lastSeq := saved.chunks, saved.log, saved.lastSeq;
    }

    // Single statements with the constraints they run into.

    method InsertNode(id: Id, row: NodeRow) returns (ok: bool)
      modifies `nodes
      ensures ok <==>
                && id !in old(nodes) && (row.parent.Some? ==> row.parent.value in old(nodes))
                && !IndexRefuses(old(Snapshot()), id, row)
      ensures nodes == if ok then old(nodes)[id := row] else old(nodes)
    {
      if id in nodes || (row.parent.Some? && row.parent.value !in nodes) {
        return false;
      }
      if row.deletedAt.None? && row.parent.Some? {
        if m :| m in nodes && m != id && LiveSibling(nodes, row.folder, row.parent.value, row.name, m) {
          return false;
        }
      }
      nodes := nodes[id := row];
      ok := true;
    }

    /** An update of name or parent columns. */
    method UpdatePlace(id: Id, row: NodeRow) returns (ok: bool)
      requires id in nodes && (row.parent.Some? ==> row.parent.value in nodes)
      modifies `nodes
      ensures ok <==> !IndexRefuses(old(Snapshot()), id, row)
      ensures nodes == if ok then old(nodes)[id := row] else old(nodes)
    {
      if row.deletedAt.None? && row.parent.Some? {
        if m :| m in nodes && m != id && LiveSibling(nodes, row.folder, row.parent.value, row.name, m) {
          return false;
        }
      }
      nodes := nodes[id := row];
      ok := true;
    }

    method InsertVersion(id: Id, row: VersionRow) returns (ok: bool)
      modifies `versions
      ensures ok <==> id !in old(versions) && row.node in nodes
      ensures versions == if ok then old(versions)[id := row] else old(versions)
    {
      if id in versions || row.node !in nodes {
        return false;
      }
      versions := versions[id := row];
      ok := true;
    }

    method InsertVersionChunks(version: Id, node: Id, hashes: set<Hash>) returns (ok: bool)
      modifies `versionChunks
      ensures ok <==>
                && version in versions && node in nodes && hashes <= chunks.Keys
                && forall h :: h in hashes ==> (version, h) !in old(versionChunks)
      ensures versionChunks == if ok then Linked(old(versionChunks), version, hashes, node) else old(versionChunks)
    {
      if version !in versions || node !in nodes || !(hashes <= chunks.Keys)
         || exists h :: h in hashes && (version, h) in versionChunks {
        return false;
      }
      versionChunks := Linked(versionChunks, version, hashes, node);
      ok := true;
    }

    method AddReferences(hashes: set<Hash>)
      modifies `chunks
      ensures chunks == Counted(old(chunks), hashes, {})
    {
      chunks := map h | h in chunks ::
        if h in hashes then chunks[h].(refcount := chunks[h].refcount + 1) else chunks[h];
    }

    method DropReferences(hashes: set<Hash>)
      modifies `chunks
      ensures chunks == Counted(old(chunks), {}, hashes)
    {
      chunks := map h | h in chunks ::
        if h in hashes then chunks[h].(refcount := if chunks[h].refcount > 0 then chunks[h].refcount - 1 else 0)
        else chunks[h];
    }

    method LinkChunks(version: Id, node: Id, hashes: set<Hash>) returns (ok: bool)
      requires version in versions && node in nodes
      modifies `versionChunks, `chunks
      ensures ok <==> hashes <= old(chunks).Keys && forall h :: h in hashes ==> (version, h) !in old(versionChunks)
      ensures ok ==> chunks == Counted(old(chunks), hashes, {})
      ensures ok ==> versionChunks == Linked(old(versionChunks), version, hashes, node)
    {
      ok := true;
      if hashes != {} {
        ok := InsertVersionChunks(version, node, hashes);
        if ok {
          AddReferences(hashes);
        }
      } else {
        CountsCompose(chunks, {}, {});
        NothingLinked(versionChunks, version, node);
      }
    }

    method AppendLog(rq: Request, payload: Payload, basedOn: Option<int>)
      requires rq.principal.Device?
      modifies `opLog, `lastSeq
      ensures lastSeq == NextSeq(old(Snapshot()), rq)
      ensures opLog == old(opLog) +
                [LogRow(lastSeq, rq.folder, rq.op.nodeId, payload, basedOn, rq.principal.device, rq.now)]
    {
      lastSeq := lastSeq + 1 + rq.gap;
      opLog := opLog + [LogRow(lastSeq, rq.folder, rq.op.nodeId, payload, basedOn, rq.principal.device, rq.now)];
    }

    /** Reads the number just logged back and writes it to the node row. */
    method StampNode(rq: Request) returns (serverSeq: nat)
      requires rq.op.nodeId in nodes && opLog != []
      requires var e := opLog[|opLog| - 1];
               && e.folder == rq.folder && e.node == rq.op.nodeId
               && forall i :: 0 <= i < |opLog| - 1 ==> opLog[i].serverSeq < e.serverSeq
      modifies `nodes
      ensures serverSeq == opLog[|opLog| - 1].serverSeq
      ensures nodes == old(nodes)[rq.op.nodeId := old(nodes)[rq.op.nodeId].(serverSeq := serverSeq)]
    {
      serverSeq := LatestSeq(opLog, rq.folder, rq.op.nodeId);
      assert opLog == opLog[..|opLog| - 1] + [opLog[|opLog| - 1]];
      LatestIsNewest(opLog[..|opLog| - 1], opLog[|opLog| - 1]);
      nodes := nodes[rq.op.nodeId := nodes[rq.op.nodeId].(serverSeq := serverSeq)];
    }

    // The operations.

    method CreateNode(rq: Request) returns (response: Response)
      requires Core(Snapshot()) && rq.op.Create? && rq.principal.Device?
      modifies this
      ensures Outcome(Snapshot(), response) == Ops.CreateNode(old(Snapshot()), rq)
    {
      var saved, op := Snapshot(), rq.op;
      var row := NodeRow(rq.folder, Some(op.parentId), op.name, op.kind, None, None, 0);
      var ok := InsertNode(op.nodeId, row);
      assert ok <==> CreateFits(saved, rq.folder, op) by {
        InsertFitsExactly(saved, rq.folder, op, row);
      }
      if ok {
        AppendLog(rq, CreatePayload(op.parentId, op.name, op.kind), None);
        var serverSeq := StampNode(rq);
        assert nodes == saved.nodes[op.nodeId := row.(serverSeq := serverSeq)];
        return Applied(serverSeq, op.nodeId);
      }
      Rollback(saved);
      if w :| w in nodes && LiveSibling(nodes, rq.folder, op.parentId, op.name, w) {
        OnlyOneSibling(saved, rq.folder, op.parentId, op.name);
        return Superseded(nodes[w].serverSeq);
      }
      return Rejected(ConstraintViolation);
    }

    method CurrentVersionManifest(n: Id) returns (manifest: seq<ChunkRef>)
      ensures manifest == CurrentManifest(Snapshot(), n)
    {
      if n in nodes && nodes[n].current.Some? && nodes[n].current.value in versions {
        return versions[nodes[n].current.value].manifest;
      }
      return [];
    }

    /** The rows of a new version: false when one of the statements fails, with whatever was written before. */
    method InsertVersionRows(rq: Request, versionId: Id, conflict: bool) returns (ok: bool)
      requires rq.op.NewVersion? && rq.principal.Device? && rq.op.nodeId in nodes
      modifies `nodes, `versions, `versionChunks, `chunks
      ensures ok <==> VersionFits(old(Snapshot()), versionId, rq.op.manifest)
      ensures ok ==>
                var before := old(Snapshot());
                var replaced := if conflict then {} else Hashes(CurrentManifest(before, rq.op.nodeId));
                var row := before.nodes[rq.op.nodeId];
                Snapshot() == StoreVersion(before, versionId, VersionOf(rq, conflict), replaced)
                                .(nodes := before.nodes[rq.op.nodeId := if conflict then row else row.(current := Some(versionId))])
    {
      var before, op := Snapshot(), rq.op;
      var previousManifest := [];
      if !conflict {
        previousManifest := CurrentVersionManifest(op.nodeId);
      }
      ok := InsertVersion(versionId, VersionOf(rq, conflict));
      if !ok {
        return;
      }
      var chunkHashes := Hashes(op.manifest);
      ok := LinkChunks(versionId, op.nodeId, chunkHashes);
      if !ok {
        return;
      }
      var previousHashes := Hashes(previousManifest);
      if !conflict {
        if previousHashes != {} {
          DropReferences(previousHashes);
        }
        nodes := nodes[op.nodeId := nodes[op.nodeId].(current := Some(versionId))];
      }
      CountsCompose(before.chunks, chunkHashes, previousHashes);
    }

    /** The log row and the write of its number to the node row. */
    method LogAndStamp(rq: Request, payload: Payload, basedOn: Option<int>) returns (serverSeq: nat)
      requires rq.principal.Device? && rq.op.nodeId in nodes && LogOrdered(Snapshot())
      modifies this
      ensures serverSeq == NextSeq(old(Snapshot()), rq)
      ensures Snapshot() == Commit(old(Snapshot()), rq, old(nodes[rq.op.nodeId]), payload, basedOn)
    {
      AppendLog(rq, payload, basedOn);
      serverSeq := StampNode(rq);
    }

    /** `insertVersionAndOp` and the write of the new number to the node row. */
    method InsertVersionAndOp(rq: Request, conflict: bool) returns (ok: bool, versionId: Id, serverSeq: nat)
      requires rq.principal.Device? && !rq.op.Create? && rq.op.nodeId in nodes && (conflict ==> rq.op.NewVersion?)
      requires LogOrdered(Snapshot())
      modifies this
      ensures versionId == if rq.op.NewVersion? then (if conflict then rq.freshId else rq.op.versionId) else 0
      ensures ok <==> (rq.op.NewVersion? ==> VersionFits(old(Snapshot()), versionId, rq.op.manifest))
      ensures ok ==>
                var before, row := old(Snapshot()), old(nodes[rq.op.nodeId]);
                var replaced := if conflict then {} else Hashes(CurrentManifest(before, rq.op.nodeId));
                && serverSeq == NextSeq(before, rq)
                && Snapshot() ==
                   if !rq.op.NewVersion? then Commit(before, rq, row, PayloadOf(rq.op), Some(rq.op.basedOn))
                   else Commit(StoreVersion(before, versionId, VersionOf(rq, conflict), replaced), rq,
                               if conflict then row else row.(current := Some(versionId)),
                               VersionPayload(versionId, rq.op.contentHash, rq.op.size, rq.op.manifest, conflict),
                               Some(rq.op.basedOn))
    {
      hide VersionFits, StoreVersion, Ops.Commit, CurrentManifest, Hashes;
      ghost var before := Snapshot();
      var op := rq.op;
      ok, versionId, serverSeq := true, 0, 0;
      if op.NewVersion? {
        versionId := if conflict then rq.freshId else op.versionId;
        ok := InsertVersionRows(rq, versionId, conflict);
        if !ok {
          return;
        }
        StoreKeepsRest(before, versionId, VersionOf(rq, conflict),
                       if conflict then {} else Hashes(CurrentManifest(before, op.nodeId)));
      }
      SameLogOrdered(before, Snapshot());
      var payload := if conflict then VersionPayload(versionId, op.contentHash, op.size, op.manifest, true) else PayloadOf(op);
      if op.NewVersion? {
        CommitsRow(before, StoreVersion(before, versionId, VersionOf(rq, conflict),
                                        if conflict then {} else Hashes(CurrentManifest(before, op.nodeId))),
                   Snapshot(), rq, payload, Some(op.basedOn));
      }
      serverSeq := LogAndStamp(rq, payload, Some(op.basedOn));
    }

    method ApplyMetadataMutation(rq: Request) returns (ok: bool)
      requires !rq.op.Create? && rq.op.nodeId in nodes && (rq.op.Move? ==> rq.op.newParentId in nodes)
      requires ForeignKeysHold(Snapshot())
      modifies `nodes
      ensures var row := Mutated(old(nodes[rq.op.nodeId]), rq.op, rq.now);
              && (ok <==> ((rq.op.Rename? || rq.op.Move?) ==> !IndexRefuses(old(Snapshot()), rq.op.nodeId, row)))
              && nodes == if ok then old(nodes)[rq.op.nodeId := row] else old(nodes)
    {
      var n := rq.op.nodeId;
      ok := true;
      match rq.op {
        case Rename(_, _, newName) => ok := UpdatePlace(n, nodes[n].(name := newName));
        case Move(_, _, newParent) => ok := UpdatePlace(n, nodes[n].(parent := Some(newParent)));
        case Delete(_, _) => nodes := nodes[n := nodes[n].(deletedAt := Some(rq.now))];
        case NewVersion(_, _, _, _, _, _) =>
      }
      assert rq.op.NewVersion? ==> nodes == old(nodes)[n := old(nodes)[n]];
    }

    method UpdateNode(rq: Request) returns (response: Response)
      requires Core(Snapshot()) && OpInFolder(Snapshot(), rq) && !rq.op.Create? && rq.principal.Device?
      modifies this
      ensures Outcome(Snapshot(), response) == Ops.UpdateNode(old(Snapshot()), rq)
    {
      var saved, op, n := Snapshot(), rq.op, rq.op.nodeId;
      if op.Move? {
        if op.newParentId !in nodes || nodes[op.newParentId].kind != Folder {
          return Rejected(ParentNotFound);
        }
        if nodes[op.newParentId].folder != rq.folder {
          return Rejected(CrossFolderMove);
        }
      }
      if n !in nodes {
        return Rejected(NodeNotFound);
      }
      if nodes[n].serverSeq != op.basedOn {
        if !op.NewVersion? {
          return Superseded(nodes[n].serverSeq);
        }
        var kept, copyId, copySeq := InsertVersionAndOp(rq, true);
        if !kept {
          Rollback(saved);
          return Rejected(ConstraintViolation);
        }
        return ConflictCopy(copySeq, n, copyId);
      }
      if op.NewVersion? {
        response := PublishVersion(rq);
      } else {
        response := ChangeNode(rq);
      }
    }

    method PublishVersion(rq: Request) returns (response: Response)
      requires Core(Snapshot()) && rq.op.NewVersion? && rq.principal.Device? && rq.op.nodeId in nodes
      modifies this
      ensures Outcome(Snapshot(), response) == Ops.PublishVersion(old(Snapshot()), rq)
    {
      var saved := Snapshot();
      var stored, _, serverSeq := InsertVersionAndOp(rq, false);
      if !stored {
        Rollback(saved);
        return Rejected(ConstraintViolation);
      }
      response := Applied(serverSeq, rq.op.nodeId);
    }

    /** The look-up for a live sibling with the name that the node is to have. */
    method NameTaken(rq: Request) returns (taken: bool)
      requires (rq.op.Rename? || rq.op.Move?) && rq.op.nodeId in nodes
      ensures taken <==> Collides(Snapshot(), rq.folder, rq.op.nodeId, Mutated(nodes[rq.op.nodeId], rq.op, rq.now))
    {
      var op, n := rq.op, rq.op.nodeId;
      var nextName := if op.Rename? then op.newName else nodes[n].name;
      var nextParentId := if op.Move? then Some(op.newParentId) else nodes[n].parent;
      if nextName != "" && nextParentId.Some? {
        if m :| m in nodes && m != n && LiveSibling(nodes, rq.folder, nextParentId.value, nextName, m) {
          return true;
        }
      }
      return false;
    }

    /** The collision look-up, the column update and the log row of a rename, move or delete. */
    method ChangeNode(rq: Request) returns (response: Response)
      requires Core(Snapshot()) && !rq.op.Create? && !rq.op.NewVersion? && rq.principal.Device?
      requires rq.op.nodeId in nodes && (rq.op.Move? ==> rq.op.newParentId in nodes)
      modifies this
      ensures Outcome(Snapshot(), response) == Ops.ChangeNode(old(Snapshot()), rq)
    {
      assert ForeignKeysHold(Snapshot()) && LogOrdered(Snapshot());
      hide Core, ForeignKeysHold, LogOrdered, IndexRefuses, Collides;
      var saved, op, n := Snapshot(), rq.op, rq.op.nodeId;
      if op.Rename? || op.Move? {
        var taken := NameTaken(rq);
        if taken {
          return Rejected(NameCollision);
        }
      }
      var changed := ApplyMetadataMutation(rq);
      if !changed {
        Rollback(saved);
        return Rejected(ConstraintViolation);
      }
      SameLogOrdered(saved, Snapshot());
      CommitsRow(saved, saved, Snapshot(), rq, PayloadOf(op), Some(op.basedOn));
      var _, _, serverSeq := InsertVersionAndOp(rq, false);
      response := Applied(serverSeq, n);
    }

    /** `submitOp`: the answer and the tables are exactly those of the atomic operation. */
    method SubmitOp(rq: Request) returns (response: Response)
      requires Core(Snapshot()) && OpInFolder(Snapshot(), rq)
      modifies this
      ensures Outcome(Snapshot(), response) == Submit(old(Snapshot()), rq)
    {
      if rq.principal.User? {
        return Rejected(DeviceRequired);
      }
      var grant, _ := CheckGrant(nodes, rq.grants, if rq.op.Create? then rq.op.parentId else rq.op.nodeId, Write);
      if grant.Denied? {
        return Rejected(Forbidden(grant.denial));
      }
      if rq.op.Create? {
        response := CreateNode(rq);
      } else {
        response := UpdateNode(rq);
      }
    }

    /** The restore route. */
    method RestoreVersion(rq: Request, nodeId: Id, versionId: Id, basedOn: int, uuid: Id) returns (response: Response)
      requires Core(Snapshot()) && (nodeId in nodes ==> nodes[nodeId].folder == rq.folder)
      modifies this
      ensures Outcome(Snapshot(), response) == Restore(old(Snapshot()), rq, nodeId, versionId, basedOn, uuid)
    {
      var grant, _ := CheckGrant(nodes, rq.grants, nodeId, Write);
      if grant.Denied? {
        return Rejected(Forbidden(grant.denial));
      }
      if versionId !in versions || versions[versionId].node != nodeId {
        return Rejected(VersionNotFound);
      }
      if nodeId !in nodes {
        return Rejected(NodeNotFound);
      }
      var version := versions[versionId];
      response := SubmitOp(rq.(op := NewVersion(nodeId, basedOn, uuid, version.contentHash, version.size, version.manifest)));
    }

    /** `handleUploadObject`, given the chunk's count as it was looked up before the batch: whether it
        answers that the chunk is there already, and the row it stages. */
    method HandleUploadObject(oid: Hash, size: nat, now: Time, existing: Option<nat>) returns (alreadyExists: bool)
      modifies `chunks
      ensures Snapshot() == if existing.None? then Staged(old(Snapshot()), oid, size, now) else old(Snapshot())
      ensures chunks == if existing.None? && oid !in old(chunks) then old(chunks)[oid := ChunkRow(size, 0, now)] else old(chunks)
      ensures alreadyExists <==> if existing.None? then oid in old(chunks) else existing.value > 0
    {
      if existing.Some? && existing.value > 0 {
        return true;
      }
      if existing.None? {
        if oid in chunks {
          return true;
        }
        chunks := chunks[oid := ChunkRow(size, 0, now)];
      }
      alreadyExists := false;
    }

    /** The guarded delete of one chunk row; false when the statement fails on the index's foreign key. */
    method DeleteUnreferencedChunk(hash: Hash) returns (ok: bool, deleted: bool)
      modifies `chunks
      ensures Snapshot() == ChunkDeleted(old(Snapshot()), hash)
      ensures deleted <==> Collectable(old(Snapshot()), hash)
      ensures deleted <==> hash in old(chunks) && old(chunks)[hash].refcount == 0 && forall k :: k in versionChunks ==> k.1 != hash
      ensures chunks == if deleted then old(chunks) - {hash} else old(chunks)
      ensures ok <==> deleted || hash !in old(chunks) || old(chunks)[hash].refcount > 0
    {
      if hash !in chunks || chunks[hash].refcount != 0 {
        return true, false;
      }
      if exists k :: k in versionChunks && k.1 == hash {
        return false, false;
      }
      chunks := chunks - {hash};
      return true, true;
    }

    method DeleteNodesById(ids: set<Id>, granted: set<Id>) returns (ok: bool)
      modifies this
      ensures Snapshot() == Purged(old(Snapshot()), ids, granted)
      ensures ok <==> Purgeable(old(Snapshot()), ids, granted)
      ensures !ok ==> Snapshot() == old(Snapshot())
      ensures ok ==>
                && nodes == old(nodes) - ids && chunks == old(chunks) && opLog == old(opLog) && lastSeq == old(lastSeq)
                && (forall v :: v in versions <==> v in old(versions) && old(versions)[v].node !in ids)
                && (forall v :: v in versions ==> versions[v] == old(versions)[v])
                && (forall k :: k in versionChunks <==> k in old(versionChunks) && k.0 in versions)
                && (forall k :: k in versionChunks ==> versionChunks[k] == old(versionChunks)[k])
    {
      hide ForeignKeysHold;
      var before := Snapshot();
      nodes := nodes - ids;
      versions := map v | v in versions && versions[v].node !in ids :: versions[v];
      versionChunks := map k | k in versionChunks && k.0 in versions :: versionChunks[k];
      assert Snapshot() == Cascade(before, ids);
      ok := ForeignKeysHold(Snapshot()) && ids * before.nodes.Keys * granted == {};
      if !ok {
        Rollback(before);
      }
    }

    method DeleteLogRows(seqs: set<nat>)
      modifies `opLog
      ensures Snapshot() == old(Snapshot()).(log := LogWithout(old(opLog), seqs))
    {
      opLog := LogWithout(opLog, seqs);
    }

    /** An insert that skips the rows whose key is there; false when a foreign key fails. */
    method InsertIndexRows(rows: Index) returns (ok: bool)
      modifies `versionChunks
      ensures Snapshot() == Indexed(old(Snapshot()), rows)
      ensures ok <==> forall k :: k in rows && k !in old(versionChunks) ==>
                        k.0 in versions && k.1 in chunks && rows[k] in nodes
      ensures if !ok then versionChunks == old(versionChunks) else
                && versionChunks.Keys == old(versionChunks).Keys + rows.Keys
                && forall k :: k in versionChunks ==>
                     versionChunks[k] == if k in old(versionChunks) then old(versionChunks)[k] else rows[k]
    {
      var added := rows - versionChunks.Keys;
      ok := forall k :: k in added ==> k.0 in versions && k.1 in chunks && added[k] in nodes;
      if ok {
        versionChunks := versionChunks + added;
      }
    }

    /** Steps of other requests and jobs; those that their callers may not issue by now are dropped. */
    method Interfere(cmds: seq<Cmd>) returns (ghost trace: seq<Cmd>)
      requires Core(Snapshot())
      modifies this
      ensures Runs(old(Snapshot()), trace) && Snapshot() == Run(old(Snapshot()), trace) && Core(Snapshot())
      ensures OnlyFrom(trace, cmds)
    {
      trace := [];
      var i := 0;
      while i < |cmds|
        invariant 0 <= i <= |cmds|
        invariant Core(Snapshot()) && Runs(old(Snapshot()), trace) && Snapshot() == Run(old(Snapshot()), trace)
        invariant OnlyFrom(trace, cmds)
      {
        if Enabled(Snapshot(), cmds[i]) {
          RunOneMore(old(Snapshot()), trace, cmds[i]);
          Execute(cmds[i]);
          trace := trace + [cmds[i]];
        }
        i := i + 1;
      }
    }

    method Execute(cmd: Cmd)
      requires Core(Snapshot()) && Enabled(Snapshot(), cmd)
      modifies this
      ensures Snapshot() == Apply(old(Snapshot()), cmd) && Core(Snapshot())
    {
      StepKeepsCore(Snapshot(), cmd);
      match cmd {
        case SubmitCmd(rq) => var _ := SubmitOp(rq);
        case StageChunk(hash, size, now) => var _ := HandleUploadObject(hash, size, now, None);
        case DeleteChunk(hash) => var _, _ := DeleteUnreferencedChunk(hash);
        case PurgeNodes(ids, granted) => var _ := DeleteNodesById(ids, granted);
        case TruncateLog(seqs) => DeleteLogRows(seqs);
        case IndexRows(rows) => var _ := InsertIndexRows(rows);
      }
    }
  }

  lemma RunOneMore(db: Db, trace: seq<Cmd>, cmd: Cmd)
    requires Runs(db, trace) && Enabled(Run(db, trace), cmd)
    ensures Runs(db, trace + [cmd]) && Run(db, trace + [cmd]) == Apply(Run(db, trace), cmd)
  {
    RunAppend(db, trace, [cmd]);
    var last := Run(db, trace);
    assert [cmd][1..] == [];
    assert Run(last, [cmd]) == Run(Apply(last, cmd), []) && Runs(Apply(last, cmd), []);
  }

  lemma SameLogOrdered(db: Db, after: Db)
    requires LogOrdered(db) && after.log == db.log && after.lastSeq == db.lastSeq
    ensures LogOrdered(after)
  {
  }

  /** Committing a row comes to the same whether the row was put into the table before or not. */
  lemma CommitsRow(db: Db, stored: Db, changed: Db, rq: Request, payload: Payload, basedOn: Option<int>)
    requires rq.principal.Device? && rq.op.nodeId in changed.nodes && stored.nodes == db.nodes
    requires changed == stored.(nodes := db.nodes[rq.op.nodeId := changed.nodes[rq.op.nodeId]])
    ensures Commit(changed, rq, changed.nodes[rq.op.nodeId], payload, basedOn) ==
            Commit(stored, rq, changed.nodes[rq.op.nodeId], payload, basedOn)
  {
    var n, row := rq.op.nodeId, changed.nodes[rq.op.nodeId].(serverSeq := NextSeq(db, rq));
    assert db.nodes[n := changed.nodes[n]][n := row] == db.nodes[n := row];
  }

  /** Raising the counts of the new hashes and then lowering those of the old ones. */
  lemma CountsCompose(chunks: Chunks, gained: set<Hash>, lost: set<Hash>)
    ensures Counted(Counted(chunks, gained, {}), {}, lost) == Counted(chunks, gained, lost)
    ensures Counted(chunks, {}, {}) == chunks
  {
  }

  lemma NothingLinked(index: Index, v: Id, node: Id)
    ensures Linked(index, v, {}, node) == index
  {
    assert forall k :: k in Linked(index, v, {}, node) ==> k in index;
  }

  lemma InsertFitsExactly(db: Db, folder: Id, op: Op, row: NodeRow)
    requires op.Create? && row.folder == folder && row.parent == Some(op.parentId) && row.name == op.name
    requires row.deletedAt.None?
    ensures CreateFits(db, folder, op) <==>
            op.nodeId !in db.nodes && op.parentId in db.nodes && !IndexRefuses(db, op.nodeId, row)
  {
    if CreateFits(db, folder, op) {
      assert forall m :: !LiveSibling(db.nodes, folder, op.parentId, op.name, m);
    }
    if op.nodeId !in db.nodes && !IndexRefuses(db, op.nodeId, row) {
      forall m
        ensures !LiveSibling(db.nodes, folder, op.parentId, op.name, m)
      {
        assert m == op.nodeId || !LiveSibling(db.nodes, row.folder, row.parent.value, row.name, m);
      }
    }
  }

  lemma OnlyOneSibling(db: Db, folder: Id, parent: Id, name: string)
    requires SiblingsDistinct(db.nodes)
    ensures forall m, w ::
              LiveSibling(db.nodes, folder, parent, name, m) && LiveSibling(db.nodes, folder, parent, name, w) ==> m == w
  {
    forall m, w | LiveSibling(db.nodes, folder, parent, name, m) && LiveSibling(db.nodes, folder, parent, name, w)
      ensures m == w
    {
      assert SameLivePlace(db.nodes[m], db.nodes[w]);
    }
  }
}
