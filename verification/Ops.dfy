/** What one submitted operation does to the tables, as one transaction. */
module Ops {
  import opened Types
  import opened Authz

  datatype Principal = Device(device: Id) | User(user: Id)

  datatype Op =
    | Create(nodeId: Id, parentId: Id, name: string, kind: Kind)
    | Rename(nodeId: Id, basedOn: int, newName: string)
    | Move(nodeId: Id, basedOn: int, newParentId: Id)
    | Delete(nodeId: Id, basedOn: int)
    | NewVersion(nodeId: Id, basedOn: int, versionId: Id, contentHash: string, size: nat, manifest: seq<ChunkRef>)

  /** One call of `submitOp` with what it takes from its surroundings: the caller's grants, the id that
      `newId` would return, the clock, and how many sequence numbers aborted transactions have used up. */
  datatype Request = Request(
    folder: Id, principal: Principal, grants: Grants, op: Op, freshId: Id, now: Time, gap: nat)

  datatype Reason =
    | DeviceRequired
    | Forbidden(denial: Denial)
    | ParentNotFound
    | CrossFolderMove
    | NodeNotFound
    | VersionNotFound
    | NameCollision
    | ConstraintViolation

  datatype Response =
    | Applied(serverSeq: nat, nodeId: Id)
    | ConflictCopy(serverSeq: nat, nodeId: Id, versionId: Id)
    | Superseded(currentSeq: nat)
    | Rejected(reason: Reason)

  datatype Outcome = Outcome(db: Db, response: Response)

  predicate LiveSibling(nodes: Nodes, folder: Id, parent: Id, name: string, m: Id) {
    && m in nodes && nodes[m].folder == folder && nodes[m].parent == Some(parent)
    && nodes[m].name == name && nodes[m].deletedAt.None?
  }

  function NextSeq(db: Db, rq: Request): nat {
    db.lastSeq + 1 + rq.gap
  }

  /** Writes the node's row and its log row under the next sequence number. */
  function Commit(db: Db, rq: Request, row: NodeRow, payload: Payload, basedOn: Option<int>): Db
    requires rq.principal.Device?
  {
    var s := NextSeq(db, rq);
    db.(nodes := db.nodes[rq.op.nodeId := row.(serverSeq := s)],
        log := db.log + [LogRow(s, rq.folder, rq.op.nodeId, payload, basedOn, rq.principal.device, rq.now)],
        lastSeq := s)
  }

  /** The manifest of the node's current version, empty without one. */
  function CurrentManifest(db: Db, n: Id): seq<ChunkRef> {
    if n in db.nodes && db.nodes[n].current.Some? && db.nodes[n].current.value in db.versions
    then db.versions[db.nodes[n].current.value].manifest else []
  }

  function Recount(count: nat, gained: bool, lost: bool): nat {
    var raised := if gained then count + 1 else count;
    if lost && raised > 0 then raised - 1 else raised
  }

  function Counted(chunks: Chunks, gained: set<Hash>, lost: set<Hash>): Chunks {
    map h | h in chunks :: chunks[h].(refcount := Recount(chunks[h].refcount, h in gained, h in lost))
  }

  /** Index rows for the version's distinct hashes. */
  function Linked(index: Index, v: Id, hashes: set<Hash>, node: Id): Index {
    index + map h | h in hashes :: (v, h) := node
  }

  /** A new version with its index rows; its chunks gain one reference each, the replaced ones lose one. */
  function StoreVersion(db: Db, v: Id, row: VersionRow, replaced: set<Hash>): Db {
    db.(versions := db.versions[v := row],
        index := Linked(db.index, v, Hashes(row.manifest), row.node),
        chunks := Counted(db.chunks, Hashes(row.manifest), replaced))
  }

  /** The primary keys and the chunk foreign key that a new version has to respect. */
  ghost predicate VersionFits(db: Db, v: Id, manifest: seq<ChunkRef>) {
    && v !in db.versions
    && Hashes(manifest) <= db.chunks.Keys
    && forall h :: h in Hashes(manifest) ==> (v, h) !in db.index
  }

  ghost predicate CreateFits(db: Db, folder: Id, op: Op)
    requires op.Create?
  {
    && op.nodeId !in db.nodes && op.parentId in db.nodes
    && forall m :: !LiveSibling(db.nodes, folder, op.parentId, op.name, m)
  }

  ghost function CreateNode(db: Db, rq: Request): Outcome
    requires rq.op.Create? && rq.principal.Device?
  {
    var op := rq.op;
    if CreateFits(db, rq.folder, op) then
      Outcome(Commit(db, rq, NodeRow(rq.folder, Some(op.parentId), op.name, op.kind, None, None, 0),
                     CreatePayload(op.parentId, op.name, op.kind), None),
              Applied(NextSeq(db, rq), op.nodeId))
    else if w :| LiveSibling(db.nodes, rq.folder, op.parentId, op.name, w) then
      Outcome(db, Superseded(db.nodes[w].serverSeq))
    else
      Outcome(db, Rejected(ConstraintViolation))
  }

  /** The row after the column updates of a rename, a move or a delete. */
  function Mutated(row: NodeRow, op: Op, now: Time): NodeRow
    requires !op.Create?
  {
    match op
    case Rename(_, _, newName) => row.(name := newName)
    case Move(_, _, newParent) => row.(parent := Some(newParent))
    case Delete(_, _) => row.(deletedAt := Some(now))
    case NewVersion(_, _, _, _, _, _) => row
  }

  function PayloadOf(op: Op): Payload {
    match op
    case Create(_, parent, name, kind) => CreatePayload(parent, name, kind)
    case Rename(_, _, newName) => RenamePayload(newName)
    case Move(_, _, newParent) => MovePayload(newParent)
    case Delete(_, _) => DeletePayload
    case NewVersion(_, _, v, contentHash, size, manifest) => VersionPayload(v, contentHash, size, manifest, false)
  }

  /** The explicit look-up before a rename or a move; an empty name or an absent parent skips it. */
  ghost predicate Collides(db: Db, folder: Id, n: Id, row: NodeRow) {
    && row.name != "" && row.parent.Some?
    && exists m :: m != n && LiveSibling(db.nodes, folder, row.parent.value, row.name, m)
  }

  /** What the partial unique index on live names refuses. */
  ghost predicate IndexRefuses(db: Db, n: Id, row: NodeRow) {
    && row.deletedAt.None? && row.parent.Some?
    && exists m :: m != n && LiveSibling(db.nodes, row.folder, row.parent.value, row.name, m)
  }

  function VersionOf(rq: Request, conflict: bool): VersionRow
    requires rq.op.NewVersion? && rq.principal.Device?
  {
    VersionRow(rq.op.nodeId, rq.op.manifest, rq.op.contentHash, rq.op.size, rq.principal.device, conflict)
  }

  ghost function KeepConflictCopy(db: Db, rq: Request): Outcome
    requires rq.op.NewVersion? && rq.principal.Device? && rq.op.nodeId in db.nodes
  {
    var op, v := rq.op, rq.freshId;
    if VersionFits(db, v, op.manifest) then
      Outcome(Commit(StoreVersion(db, v, VersionOf(rq, true), {}), rq, db.nodes[op.nodeId],
                     VersionPayload(v, op.contentHash, op.size, op.manifest, true), Some(op.basedOn)),
              ConflictCopy(NextSeq(db, rq), op.nodeId, v))
    else
      Outcome(db, Rejected(ConstraintViolation))
  }

  ghost function PublishVersion(db: Db, rq: Request): Outcome
    requires rq.op.NewVersion? && rq.principal.Device? && rq.op.nodeId in db.nodes
  {
    var op, v := rq.op, rq.op.versionId;
    if VersionFits(db, v, op.manifest) then
      Outcome(Commit(StoreVersion(db, v, VersionOf(rq, false), Hashes(CurrentManifest(db, op.nodeId))), rq,
                     db.nodes[op.nodeId].(current := Some(v)), PayloadOf(op), Some(op.basedOn)),
              Applied(NextSeq(db, rq), op.nodeId))
    else
      Outcome(db, Rejected(ConstraintViolation))
  }

  ghost function ChangeNode(db: Db, rq: Request): Outcome
    requires !rq.op.Create? && !rq.op.NewVersion? && rq.principal.Device? && rq.op.nodeId in db.nodes
  {
    var op := rq.op;
    var row := Mutated(db.nodes[op.nodeId], op, rq.now);
    if !op.Delete? && Collides(db, rq.folder, op.nodeId, row) then
      Outcome(db, Rejected(NameCollision))
    else if !op.Delete? && IndexRefuses(db, op.nodeId, row) then
      Outcome(db, Rejected(ConstraintViolation))
    else
      Outcome(Commit(db, rq, row, PayloadOf(op), Some(op.basedOn)), Applied(NextSeq(db, rq), op.nodeId))
  }

  /** The optimistic-concurrency check on the locked row, then the write. */
  ghost function UpdateNode(db: Db, rq: Request): Outcome
    requires !rq.op.Create? && rq.principal.Device?
  {
    var op := rq.op;
    if op.Move? && (op.newParentId !in db.nodes || db.nodes[op.newParentId].kind != Folder) then
      Outcome(db, Rejected(ParentNotFound))
    else if op.Move? && db.nodes[op.newParentId].folder != rq.folder then
      Outcome(db, Rejected(CrossFolderMove))
    else if op.nodeId !in db.nodes then
      Outcome(db, Rejected(NodeNotFound))
    else if db.nodes[op.nodeId].serverSeq != op.basedOn then
      if op.NewVersion? then KeepConflictCopy(db, rq) else Outcome(db, Superseded(db.nodes[op.nodeId].serverSeq))
    else if op.NewVersion? then PublishVersion(db, rq)
    else ChangeNode(db, rq)
  }

  ghost function Submit(db: Db, rq: Request): Outcome {
    if rq.principal.User? then Outcome(db, Rejected(DeviceRequired))
    else
      match Authorize(db.nodes, rq.grants, if rq.op.Create? then rq.op.parentId else rq.op.nodeId, Write)
      case Denied(denial) => Outcome(db, Rejected(Forbidden(denial)))
      case Granted(_, _, _) => if rq.op.Create? then CreateNode(db, rq) else UpdateNode(db, rq)
  }

  predicate Accepted(response: Response) {
    response.Applied? || response.ConflictCopy?
  }

  /** An accepted op took one of four paths, whose writes the constraints let through; any other answer
      comes with unchanged tables. */
  lemma SubmitCases(db: Db, rq: Request)
    ensures !Accepted(Submit(db, rq).response) ==> Submit(db, rq).db == db
    ensures Accepted(Submit(db, rq).response) ==>
              && rq.principal.Device?
              && if rq.op.Create? then
                   CreateFits(db, rq.folder, rq.op) && Submit(db, rq) == CreateNode(db, rq)
                 else
                   && rq.op.nodeId in db.nodes
                   && if db.nodes[rq.op.nodeId].serverSeq != rq.op.basedOn then
                        && rq.op.NewVersion? && VersionFits(db, rq.freshId, rq.op.manifest)
                        && Submit(db, rq) == KeepConflictCopy(db, rq)
                      else if rq.op.NewVersion? then
                        VersionFits(db, rq.op.versionId, rq.op.manifest) && Submit(db, rq) == PublishVersion(db, rq)
                      else
                        && (rq.op.Move? ==>
                              rq.op.newParentId in db.nodes && db.nodes[rq.op.newParentId].folder == rq.folder)
                        && Submit(db, rq) == ChangeNode(db, rq) && ChangeNode(db, rq).response.Applied?
  {
  }

  /** Every answer comes with either unchanged tables, or one node row and one log row written under the
      next sequence number. */
  lemma SubmitShape(db: Db, rq: Request)
    ensures var Outcome(after, response) := Submit(db, rq);
            if !Accepted(response) then after == db else
              && rq.principal.Device? && rq.op.nodeId in after.nodes
              && after.nodes == db.nodes[rq.op.nodeId := after.nodes[rq.op.nodeId]]
              && response.nodeId == rq.op.nodeId
              && response.serverSeq == after.nodes[rq.op.nodeId].serverSeq == after.lastSeq == NextSeq(db, rq)
    ensures var Outcome(after, response) := Submit(db, rq);
            response.Applied? && !rq.op.Create? ==>
              rq.op.nodeId in db.nodes && db.nodes[rq.op.nodeId].serverSeq == rq.op.basedOn
  {
    hide Submit;
    SubmitCases(db, rq);
  }

  /** The row an accepted op leaves in the log: its payload as submitted, but for a conflict copy, whose
      payload names the drawn version id and is marked. */
  ghost function Logged(db: Db, rq: Request, response: Response): LogRow
    requires rq.principal.Device? && (response.ConflictCopy? ==> rq.op.NewVersion?)
  {
    var op := rq.op;
    var payload :=
      if response.ConflictCopy? then VersionPayload(rq.freshId, op.contentHash, op.size, op.manifest, true)
      else PayloadOf(op);
    LogRow(NextSeq(db, rq), rq.folder, op.nodeId, payload, if op.Create? then None else Some(op.basedOn),
           rq.principal.device, rq.now)
  }

  lemma SubmitLogs(db: Db, rq: Request)
    ensures var Outcome(after, response) := Submit(db, rq);
            Accepted(response) ==>
              && rq.principal.Device? && (response.ConflictCopy? ==> rq.op.NewVersion?)
              && after.log == db.log + [Logged(db, rq, response)]
  {
    hide Submit;
    SubmitCases(db, rq);
  }

  /** The folder in the URL is the folder of the node, or of the new node's parent. The server relies on
      its callers for this: it compares the two only for the destination of a move. */
  predicate OpInFolder(db: Db, rq: Request) {
    var n := if rq.op.Create? then rq.op.parentId else rq.op.nodeId;
    n in db.nodes ==> db.nodes[n].folder == rq.folder
  }
}
