/** What each operation answers and writes, written down once more from the columns alone. */
module Decisions {
  import opened Types
  import opened Authz
  import opened Ops
  import opened Invariants
  import opened History

  // Answers.

  /** A live node of the folder has that parent and that name. */
  predicate Occupies(nodes: Nodes, folder: Id, parent: Option<Id>, name: string, m: Id) {
    && m in nodes && nodes[m].folder == folder && nodes[m].parent == parent && nodes[m].name == name
    && nodes[m].deletedAt == None
  }

  /** Another node than n does. */
  ghost predicate OccupiedBeside(nodes: Nodes, folder: Id, parent: Option<Id>, name: string, n: Id) {
    exists m :: m != n && Occupies(nodes, folder, parent, name, m)
  }

  /** A version can be stored under an unused id when all its chunks have rows. */
  ghost predicate Storable(db: Db, v: Id, manifest: seq<ChunkRef>) {
    v !in db.versions && forall c :: c in manifest ==> c.hash in db.chunks
  }

  ghost predicate RightCreateAnswer(db: Db, rq: Request, r: Response)
    requires rq.op.Create?
  {
    var op := rq.op;
    if exists m :: Occupies(db.nodes, rq.folder, Some(op.parentId), op.name, m) then
      exists m :: Occupies(db.nodes, rq.folder, Some(op.parentId), op.name, m) && r == Superseded(db.nodes[m].serverSeq)
    else if op.nodeId in db.nodes then r == Rejected(ConstraintViolation)
    else r == Applied(db.lastSeq + 1 + rq.gap, op.nodeId)
  }

  ghost predicate RightVersionAnswer(db: Db, rq: Request, r: Response)
    requires rq.op.NewVersion? && rq.op.nodeId in db.nodes
  {
    var op, s := rq.op, db.lastSeq + 1 + rq.gap;
    if db.nodes[op.nodeId].serverSeq == op.basedOn then
      r == if Storable(db, op.versionId, op.manifest) then Applied(s, op.nodeId) else Rejected(ConstraintViolation)
    else
      r == if Storable(db, rq.freshId, op.manifest) then ConflictCopy(s, op.nodeId, rq.freshId) else Rejected(ConstraintViolation)
  }

  /** A rename or a move to that parent and name, on a node that has not changed. */
  ghost predicate RightPlaceAnswer(db: Db, rq: Request, parent: Option<Id>, name: string, r: Response)
    requires rq.op.nodeId in db.nodes
  {
    var n, row := rq.op.nodeId, db.nodes[rq.op.nodeId];
    r ==
    if name != "" && parent != None && OccupiedBeside(db.nodes, rq.folder, parent, name, n) then Rejected(NameCollision)
    else if row.deletedAt == None && parent != None && OccupiedBeside(db.nodes, row.folder, parent, name, n)
    then Rejected(ConstraintViolation)
    else Applied(db.lastSeq + 1 + rq.gap, n)
  }

  ghost predicate RightUpdateAnswer(db: Db, rq: Request, r: Response)
    requires !rq.op.Create? && rq.op.nodeId in db.nodes
  {
    var n, row := rq.op.nodeId, db.nodes[rq.op.nodeId];
    match rq.op
    case NewVersion(_, _, _, _, _, _) => RightVersionAnswer(db, rq, r)
    case Rename(_, basedOn, newName) =>
      if row.serverSeq != basedOn then r == Superseded(row.serverSeq)
      else RightPlaceAnswer(db, rq, row.parent, newName, r)
    case Move(_, basedOn, newParent) =>
      if newParent !in db.nodes || db.nodes[newParent].kind == File then r == Rejected(ParentNotFound)
      else if db.nodes[newParent].folder != rq.folder then r == Rejected(CrossFolderMove)
      else if row.serverSeq != basedOn then r == Superseded(row.serverSeq)
      else RightPlaceAnswer(db, rq, Some(newParent), row.name, r)
    case Delete(_, basedOn) =>
      r == if row.serverSeq != basedOn then Superseded(row.serverSeq) else Applied(db.lastSeq + 1 + rq.gap, n)
  }

  /** The one right answer. */
  ghost predicate RightAnswer(db: Db, rq: Request, r: Response) {
    var target := if rq.op.Create? then rq.op.parentId else rq.op.nodeId;
    if rq.principal.User? then r == Rejected(DeviceRequired)
    else if !GrantInReach(db.nodes, rq.grants, target) then r == Rejected(Forbidden(NoGrant))
    else if !Permitted(db.nodes, rq.grants, target, Write) then r == Rejected(Forbidden(InsufficientPermission))
    else if rq.op.Create? then RightCreateAnswer(db, rq, r)
    else target in db.nodes && RightUpdateAnswer(db, rq, r)
  }

  lemma FitsStorable(db: Db, v: Id, manifest: seq<ChunkRef>)
    requires Core(db)
    ensures VersionFits(db, v, manifest) <==> Storable(db, v, manifest)
  {
    forall c | c in manifest
      ensures c.hash in Hashes(manifest)
    {
    }
    if Storable(db, v, manifest) {
      forall h | h in Hashes(manifest)
        ensures h in db.chunks && (v, h) !in db.index
      {
      }
    }
  }

  lemma CreateAnswers(db: Db, rq: Request)
    requires rq.op.Create? && rq.principal.Device? && rq.op.parentId in db.nodes
    ensures RightCreateAnswer(db, rq, CreateNode(db, rq).response)
  {
    var op := rq.op;
    forall m
      ensures Occupies(db.nodes, rq.folder, Some(op.parentId), op.name, m) <==>
              LiveSibling(db.nodes, rq.folder, op.parentId, op.name, m)
    {
    }
  }

  lemma SiblingsOccupy(db: Db, folder: Id, parent: Id, name: string, n: Id)
    ensures OccupiedBeside(db.nodes, folder, Some(parent), name, n) <==>
            exists m :: m != n && LiveSibling(db.nodes, folder, parent, name, m)
  {
    forall m
      ensures Occupies(db.nodes, folder, Some(parent), name, m) <==> LiveSibling(db.nodes, folder, parent, name, m)
    {
    }
  }

  lemma PlaceAnswers(db: Db, rq: Request)
    requires (rq.op.Rename? || rq.op.Move?) && rq.principal.Device? && rq.op.nodeId in db.nodes
    ensures var row := db.nodes[rq.op.nodeId];
            RightPlaceAnswer(db, rq, if rq.op.Move? then Some(rq.op.newParentId) else row.parent,
                             if rq.op.Rename? then rq.op.newName else row.name, ChangeNode(db, rq).response)
  {
    var row := Mutated(db.nodes[rq.op.nodeId], rq.op, rq.now);
    if row.parent.Some? {
      SiblingsOccupy(db, rq.folder, row.parent.value, row.name, rq.op.nodeId);
      SiblingsOccupy(db, row.folder, row.parent.value, row.name, rq.op.nodeId);
    }
    hide OccupiedBeside, LiveSibling;
  }

  lemma UpdateAnswers(db: Db, rq: Request)
    requires Core(db) && !rq.op.Create? && rq.principal.Device? && rq.op.nodeId in db.nodes
    ensures RightUpdateAnswer(db, rq, UpdateNode(db, rq).response)
  {
    hide Core, Collides, IndexRefuses, OccupiedBeside, VersionFits, Storable, StoreVersion, Commit;
    if rq.op.NewVersion? {
      FitsStorable(db, rq.freshId, rq.op.manifest);
      FitsStorable(db, rq.op.versionId, rq.op.manifest);
    } else if !rq.op.Delete? {
      PlaceAnswers(db, rq);
    }
  }

  /** Every submitted operation is answered by the table. */
  lemma AnswersByTable(db: Db, rq: Request)
    requires Core(db)
    ensures RightAnswer(db, rq, Submit(db, rq).response)
  {
    var target := if rq.op.Create? then rq.op.parentId else rq.op.nodeId;
    GrantedExactly(db.nodes, rq.grants, target, Write);
    PermittedInReach(db.nodes, rq.grants, target, Write);
    hide Core, Permitted, GrantInReach, Authorize, CreateNode, UpdateNode, RightCreateAnswer, RightUpdateAnswer;
    if rq.principal.Device? && Permitted(db.nodes, rq.grants, target, Write) {
      if rq.op.Create? {
        CreateAnswers(db, rq);
      } else {
        UpdateAnswers(db, rq);
      }
    }
  }

  lemma PermittedInReach(nodes: Nodes, grants: Grants, target: Id, need: Need)
    ensures Permitted(nodes, grants, target, need) ==> target in nodes && GrantInReach(nodes, grants, target)
  {
    if target in nodes {
      if k: nat :| PermittedAt(nodes, grants, nodes[target].folder, target, need, k) {
        assert NearestGrant(nodes, grants, nodes[target].folder, target, k);
      }
    }
  }

  // Writes.

  /** The chunk occurs in the manifest. */
  predicate Lists(manifest: seq<ChunkRef>, h: Hash) {
    exists i :: 0 <= i < |manifest| && manifest[i].hash == h
  }

  /** The chunk occurs in the version that is current at the node. */
  predicate ListedByCurrent(db: Db, n: Id, h: Hash) {
    && n in db.nodes && db.nodes[n].current.Some? && db.nodes[n].current.value in db.versions
    && Lists(db.versions[db.nodes[n].current.value].manifest, h)
  }

  function WrittenRow(db: Db, rq: Request, s: nat, stale: bool): NodeRow
    requires !rq.op.Create? ==> rq.op.nodeId in db.nodes
  {
    match rq.op
    case Create(_, parent, name, kind) => NodeRow(rq.folder, Some(parent), name, kind, None, None, s)
    case Rename(n, _, newName) => db.nodes[n].(name := newName, serverSeq := s)
    case Move(n, _, newParent) => db.nodes[n].(parent := Some(newParent), serverSeq := s)
    case Delete(n, _) => db.nodes[n].(deletedAt := Some(rq.now), serverSeq := s)
    case NewVersion(n, _, v, _, _, _) =>
      if stale then db.nodes[n].(serverSeq := s) else db.nodes[n].(current := Some(v), serverSeq := s)
  }

  function WrittenPayload(rq: Request, stale: bool): Payload {
    match rq.op
    case Create(_, parent, name, kind) => CreatePayload(parent, name, kind)
    case Rename(_, _, newName) => RenamePayload(newName)
    case Move(_, _, newParent) => MovePayload(newParent)
    case Delete(_, _) => DeletePayload
    case NewVersion(_, _, v, contentHash, size, manifest) =>
      VersionPayload(if stale then rq.freshId else v, contentHash, size, manifest, stale)
  }

  /** Node row and log row, under the next number. */
  ghost predicate NodeAndLogWritten(db: Db, rq: Request, stale: bool, after: Db) {
    var s, n := db.lastSeq + 1 + rq.gap, rq.op.nodeId;
    && rq.principal.Device? && (!rq.op.Create? ==> n in db.nodes)
    && after.lastSeq == s && after.nodes == db.nodes[n := WrittenRow(db, rq, s, stale)]
    && after.log == db.log + [LogRow(s, rq.folder, n, WrittenPayload(rq, stale),
                                     if rq.op.Create? then None else Some(rq.op.basedOn), rq.principal.device, rq.now)]
  }

  /** One index row for each chunk of the version. */
  ghost predicate IndexWritten(db: Db, rq: Request, v: Id, after: Db)
    requires rq.op.NewVersion?
  {
    && (forall k :: k in after.index <==> k in db.index || (k.0 == v && Lists(rq.op.manifest, k.1)))
    && (forall k :: k in db.index ==> after.index[k] == db.index[k])
    && (forall k :: k in after.index && k !in db.index ==> after.index[k] == rq.op.nodeId)
  }

  /** Each chunk of the version gains a reference; unless it is a conflict copy, each chunk of the version that
      was current loses one, not below zero. Sizes and times stay. */
  ghost predicate CountsWritten(db: Db, rq: Request, stale: bool, after: Db)
    requires rq.op.NewVersion?
  {
    && after.chunks.Keys == db.chunks.Keys
    && forall h :: h in db.chunks ==>
         var raised := db.chunks[h].refcount + if Lists(rq.op.manifest, h) then 1 else 0;
         after.chunks[h] == db.chunks[h].(refcount :=
           if !stale && ListedByCurrent(db, rq.op.nodeId, h) && raised > 0 then raised - 1 else raised)
  }

  ghost predicate VersionWritten(db: Db, rq: Request, stale: bool, after: Db)
    requires rq.op.NewVersion? && rq.principal.Device?
  {
    var op, v := rq.op, if stale then rq.freshId else rq.op.versionId;
    && after.versions ==
       db.versions[v := VersionRow(op.nodeId, op.manifest, op.contentHash, op.size, rq.principal.device, stale)]
    && IndexWritten(db, rq, v, after) && CountsWritten(db, rq, stale, after)
  }

  ghost predicate RightWrites(db: Db, rq: Request, stale: bool, after: Db) {
    && NodeAndLogWritten(db, rq, stale, after)
    && if rq.op.NewVersion? then VersionWritten(db, rq, stale, after)
       else after.versions == db.versions && after.index == db.index && after.chunks == db.chunks
  }

  lemma HashesListed(manifest: seq<ChunkRef>, h: Hash)
    ensures h in Hashes(manifest) <==> Lists(manifest, h)
  {
    if h in Hashes(manifest) {
      var c :| c in manifest && c.hash == h;
      var i :| 0 <= i < |manifest| && manifest[i] == c;
    }
  }

  lemma IndexByColumns(db: Db, rq: Request, v: Id, after: Db)
    requires rq.op.NewVersion? && VersionFits(db, v, rq.op.manifest)
    requires after.index == Linked(db.index, v, Hashes(rq.op.manifest), rq.op.nodeId)
    ensures IndexWritten(db, rq, v, after)
  {
    forall h
      ensures h in Hashes(rq.op.manifest) <==> Lists(rq.op.manifest, h)
    {
      HashesListed(rq.op.manifest, h);
    }
    hide Hashes, Lists;
    AddedRows(db.index, v, Hashes(rq.op.manifest), rq.op.nodeId);
    forall k
      ensures k in after.index <==> k in db.index || (k.0 == v && Lists(rq.op.manifest, k.1))
    {
      assert k == (k.0, k.1);
    }
  }

  lemma CountsByColumns(db: Db, rq: Request, stale: bool, after: Db)
    requires rq.op.NewVersion?
    requires after.chunks ==
             Counted(db.chunks, Hashes(rq.op.manifest), if stale then {} else Hashes(CurrentManifest(db, rq.op.nodeId)))
    ensures CountsWritten(db, rq, stale, after)
  {
    forall h
      ensures h in Hashes(rq.op.manifest) <==> Lists(rq.op.manifest, h)
      ensures h in Hashes(CurrentManifest(db, rq.op.nodeId)) <==> ListedByCurrent(db, rq.op.nodeId, h)
    {
      HashesListed(rq.op.manifest, h);
      HashesListed(CurrentManifest(db, rq.op.nodeId), h);
    }
    hide Hashes, Lists, ListedByCurrent, CurrentManifest;
  }

  lemma StoredByColumns(db: Db, rq: Request, stale: bool, after: Db)
    requires rq.op.NewVersion? && rq.principal.Device?
    requires var v := if stale then rq.freshId else rq.op.versionId;
             && VersionFits(db, v, rq.op.manifest)
             && after == StoreVersion(db, v, VersionOf(rq, stale), if stale then {} else Hashes(CurrentManifest(db, rq.op.nodeId)))
    ensures VersionWritten(db, rq, stale, after)
  {
    hide VersionFits, Hashes, CurrentManifest, Linked, Counted, IndexWritten, CountsWritten;
    IndexByColumns(db, rq, if stale then rq.freshId else rq.op.versionId, after);
    CountsByColumns(db, rq, stale, after);
  }

  lemma VersionKept(db: Db, rq: Request, stale: bool, stored: Db, after: Db)
    requires rq.op.NewVersion? && rq.principal.Device? && VersionWritten(db, rq, stale, stored)
    requires after.versions == stored.versions && after.index == stored.index && after.chunks == stored.chunks
    ensures VersionWritten(db, rq, stale, after)
  {
  }

  /** An accepted operation writes exactly this, and any other nothing. */
  lemma WritesByColumns(db: Db, rq: Request)
    ensures var Outcome(after, response) := Submit(db, rq);
            if Accepted(response) then RightWrites(db, rq, response.ConflictCopy?, after) else after == db
  {
    hide Submit, VersionWritten, VersionFits, CreateFits, StoreVersion;
    SubmitCases(db, rq);
    var Outcome(after, response) := Submit(db, rq);
    if Accepted(response) && rq.op.NewVersion? {
      var stale := response.ConflictCopy?;
      var v := if stale then rq.freshId else rq.op.versionId;
      var stored := StoreVersion(db, v, VersionOf(rq, stale), if stale then {} else Hashes(CurrentManifest(db, rq.op.nodeId)));
      StoreKeepsRest(db, v, VersionOf(rq, stale), if stale then {} else Hashes(CurrentManifest(db, rq.op.nodeId)));
      StoredByColumns(db, rq, stale, stored);
      VersionKept(db, rq, stale, stored, after);
    }
  }

  /** Whoever has had an operation accepted is a device with a grant to write. */
  lemma AcceptedMayWrite(db: Db, rq: Request)
    requires Accepted(Submit(db, rq).response)
    ensures rq.principal.Device?
    ensures Permitted(db.nodes, rq.grants, if rq.op.Create? then rq.op.parentId else rq.op.nodeId, Write)
  {
    GrantedExactly(db.nodes, rq.grants, if rq.op.Create? then rq.op.parentId else rq.op.nodeId, Write);
    hide Permitted, GrantInReach, Authorize;
  }

  // Restoring.

  /** A restore whose write check is passed is refused as not found exactly when the version is not one of the
      node's, and then changes nothing; whatever is accepted was the node's own version. */
  lemma RestoreOnlyOwnVersions(db: Db, rq: Request, nodeId: Id, versionId: Id, basedOn: int, uuid: Id)
    ensures var Outcome(after, response) := Restore(db, rq, nodeId, versionId, basedOn, uuid);
            var own := versionId in db.versions && db.versions[versionId].node == nodeId;
            && (Accepted(response) ==> own && rq.principal.Device? && Permitted(db.nodes, rq.grants, nodeId, Write))
            && (!Accepted(response) ==> after == db)
            && (Permitted(db.nodes, rq.grants, nodeId, Write) ==> (response == Rejected(VersionNotFound) <==> !own))
            && (!Permitted(db.nodes, rq.grants, nodeId, Write) ==> response.Rejected? && response.reason.Forbidden?)
  {
    GrantedExactly(db.nodes, rq.grants, nodeId, Write);
    hide Permitted, GrantInReach, Authorize, Submit;
    if versionId in db.versions && nodeId in db.nodes {
      var stored := db.versions[versionId];
      var rq' := rq.(op := NewVersion(nodeId, basedOn, uuid, stored.contentHash, stored.size, stored.manifest));
      SubmitCases(db, rq');
      NeverVersionNotFound(db, rq');
    }
  }

  lemma NeverVersionNotFound(db: Db, rq: Request)
    ensures Submit(db, rq).response != Rejected(VersionNotFound)
  {
    hide Authorize;
  }
}
