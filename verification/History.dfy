/** What whole runs keep: no lost update, no overwritten content, stable tombstones. */
module History {
  import opened Types
  import opened Authz
  import opened Ops
  import opened Steps
  import opened Invariants

  // Optimistic concurrency.

  /** An answer other than `applied` and `conflict_copy` leaves every table as it was; an accepted op
      gives its node, and only its node, a sequence number above every number given out before. */
  lemma AcceptedAdvances(db: Db, rq: Request)
    requires Core(db)
    ensures var Outcome(after, response) := Submit(db, rq);
            if !Accepted(response) then after == db else
              && response.nodeId == rq.op.nodeId && rq.op.nodeId in after.nodes
              && response.serverSeq == after.nodes[rq.op.nodeId].serverSeq == after.lastSeq > db.lastSeq
              && (rq.op.nodeId in db.nodes ==> db.nodes[rq.op.nodeId].serverSeq < response.serverSeq)
              && forall m :: m != rq.op.nodeId ==>
                   && (m in db.nodes <==> m in after.nodes)
                   && (m in db.nodes ==> after.nodes[m] == db.nodes[m])
  {
    hide Submit;
    SubmitShape(db, rq);
  }

  /** An authorised change of an existing node, which for a move has a folder of this tree to go to. */
  ghost predicate Addressed(db: Db, rq: Request) {
    && rq.principal.Device? && !rq.op.Create? && rq.op.nodeId in db.nodes
    && Authorize(db.nodes, rq.grants, rq.op.nodeId, Write).Granted?
    && (rq.op.Move? ==>
          && rq.op.newParentId in db.nodes && db.nodes[rq.op.newParentId].kind == Folder
          && db.nodes[rq.op.newParentId].folder == rq.folder)
  }

  /** Compare and set: a stale op is never applied. A stale new version is kept as a conflict copy when its
      rows fit; every other stale op is answered `superseded` with the node's true number. */
  lemma CompareAndSet(db: Db, rq: Request)
    requires Addressed(db, rq)
    ensures var Outcome(after, response) := Submit(db, rq);
            && (response.Applied? ==> db.nodes[rq.op.nodeId].serverSeq == rq.op.basedOn)
            && (response.Superseded? <==> !rq.op.NewVersion? && db.nodes[rq.op.nodeId].serverSeq != rq.op.basedOn)
            && (response.Superseded? ==> response.currentSeq == db.nodes[rq.op.nodeId].serverSeq && after == db)
            && (response.ConflictCopy? <==>
                  && rq.op.NewVersion? && db.nodes[rq.op.nodeId].serverSeq != rq.op.basedOn
                  && VersionFits(db, rq.freshId, rq.op.manifest))
            && (response.ConflictCopy? ==> after.nodes[rq.op.nodeId].current == db.nodes[rq.op.nodeId].current)
  {
  }

  /** Any row of the node carries at least this number, now and whenever the node exists again. */
  ghost predicate SeqFloor(db: Db, n: Id, floor: nat) {
    floor <= db.lastSeq && (n in db.nodes ==> floor <= db.nodes[n].serverSeq)
  }

  lemma StepKeepsFloor(db: Db, cmd: Cmd, n: Id, floor: nat)
    requires Core(db) && SeqFloor(db, n, floor)
    ensures SeqFloor(Apply(db, cmd), n, floor)
  {
    if cmd.SubmitCmd? {
      AcceptedAdvances(db, cmd.rq);
    }
  }

  lemma {:induction false} RunKeepsFloor(db: Db, cmds: seq<Cmd>, n: Id, floor: nat)
    requires Core(db) && Runs(db, cmds) && SeqFloor(db, n, floor)
    ensures SeqFloor(Run(db, cmds), n, floor) && Core(Run(db, cmds))
    decreases |cmds|
  {
    if cmds != [] {
      StepKeepsFloor(db, cmds[0], n, floor);
      StepKeepsCore(db, cmds[0]);
      RunKeepsFloor(Apply(db, cmds[0]), cmds[1..], n, floor);
    }
  }

  /** No lost update: once an op of a node based on some number has been applied, no later op of that
      node based on the same number is applied, whatever happens in between, be it that the node is
      purged and created again. */
  lemma AppliedOncePerBase(db: Db, first: Request, between: seq<Cmd>, second: Request)
    requires Core(db) && Runs(db, [SubmitCmd(first)] + between)
    requires !first.op.Create? && Submit(db, first).response.Applied?
    requires !second.op.Create? && second.op.nodeId == first.op.nodeId && second.op.basedOn == first.op.basedOn
    ensures !Submit(Run(db, [SubmitCmd(first)] + between), second).response.Applied?
  {
    var next := Submit(db, first).db;
    assert ([SubmitCmd(first)] + between)[1..] == between;
    AcceptedAdvances(db, first);
    SubmitKeepsCore(db, first);
    SubmitShape(db, first);
    RunKeepsFloor(next, between, first.op.nodeId, next.lastSeq);
    SubmitShape(Run(next, between), second);
  }

  // Content.

  lemma SubmitKeepsVersions(db: Db, rq: Request, v: Id)
    requires v in db.versions
    ensures var after := Submit(db, rq).db; v in after.versions && after.versions[v] == db.versions[v]
  {
    hide Submit;
    SubmitCases(db, rq);
  }

  /** A stored version, current, superseded or conflict copy, keeps its row and every chunk row of its
      manifest through any run in which its node is not purged. */
  lemma {:induction false} ContentPersists(db: Db, cmds: seq<Cmd>, v: Id)
    requires Inv(db) && Runs(db, cmds) && v in db.versions
    requires Spares(cmds, db.versions[v].node)
    ensures var after := Run(db, cmds);
            && v in after.versions && after.versions[v] == db.versions[v]
            && Hashes(after.versions[v].manifest) <= after.chunks.Keys
    decreases |cmds|
  {
    if cmds == [] {
      StoredChunksThere(db, v);
    } else {
      StepKeepsCore(db, cmds[0]);
      StepKeepsVersion(db, cmds[0], v);
      hide Core, IndexComplete, Hashes, Apply, Enabled;
      ContentPersists(Apply(db, cmds[0]), cmds[1..], v);
    }
  }

  lemma StoredChunksThere(db: Db, v: Id)
    requires Inv(db) && v in db.versions
    ensures Hashes(db.versions[v].manifest) <= db.chunks.Keys
  {
    forall h | h in Hashes(db.versions[v].manifest)
      ensures h in db.chunks
    {
      assert (v, h) in db.index;
    }
  }

  lemma StepKeepsVersion(db: Db, cmd: Cmd, v: Id)
    requires v in db.versions && (cmd.PurgeNodes? ==> db.versions[v].node !in cmd.ids)
    ensures v in Apply(db, cmd).versions && Apply(db, cmd).versions[v] == db.versions[v]
  {
    if cmd.SubmitCmd? {
      SubmitKeepsVersions(db, cmd.rq, v);
    }
  }

  /** The step publishes a new current version of the node, or deletes the node. */
  ghost predicate Replaces(db: Db, cmd: Cmd, n: Id) {
    match cmd
    case SubmitCmd(rq) => rq.op.NewVersion? && rq.op.nodeId == n && Submit(db, rq).response.Applied?
    case PurgeNodes(ids, _) => n in ids
    case _ => false
  }

  ghost predicate NeverReplaced(db: Db, cmds: seq<Cmd>, n: Id)
    decreases |cmds|
  {
    cmds == [] || (!Replaces(db, cmds[0], n) && NeverReplaced(Apply(db, cmds[0]), cmds[1..], n))
  }

  lemma CurrentAfterSubmit(db: Db, rq: Request, n: Id)
    requires n in db.nodes
    ensures var after := Submit(db, rq).db;
            n in after.nodes && after.nodes[n].current ==
            if rq.op.NewVersion? && rq.op.nodeId == n && Submit(db, rq).response.Applied?
            then Some(rq.op.versionId) else db.nodes[n].current
  {
    hide Submit;
    SubmitCases(db, rq);
  }

  /** The current version is the one of the latest applied new version: conflict copies, renames, moves,
      deletes and collection passes in between do not touch it. */
  lemma {:induction false} CurrentIsLatestApplied(db: Db, cmds: seq<Cmd>, n: Id)
    requires n in db.nodes && NeverReplaced(db, cmds, n)
    ensures n in Run(db, cmds).nodes && Run(db, cmds).nodes[n].current == db.nodes[n].current
    decreases |cmds|
  {
    if cmds != [] {
      if cmds[0].SubmitCmd? {
        CurrentAfterSubmit(db, cmds[0].rq, n);
      }
      CurrentIsLatestApplied(Apply(db, cmds[0]), cmds[1..], n);
    }
  }

  /** The restore route: `uuid` is the id drawn for the new version. */
  ghost function Restore(db: Db, rq: Request, nodeId: Id, versionId: Id, basedOn: int, uuid: Id): Outcome {
    match Authorize(db.nodes, rq.grants, nodeId, Write)
    case Denied(denial) => Outcome(db, Rejected(Forbidden(denial)))
    case Granted(_, _, _) =>
      if versionId !in db.versions || db.versions[versionId].node != nodeId then
        Outcome(db, Rejected(VersionNotFound))
      else if nodeId !in db.nodes then
        Outcome(db, Rejected(NodeNotFound))
      else
        var stored := db.versions[versionId];
        Submit(db, rq.(op := NewVersion(nodeId, basedOn, uuid, stored.contentHash, stored.size, stored.manifest)))
  }

  lemma AddressedVersion(db: Db, rq: Request)
    requires Addressed(db, rq) && rq.op.NewVersion?
    ensures Submit(db, rq) ==
            if db.nodes[rq.op.nodeId].serverSeq != rq.op.basedOn then KeepConflictCopy(db, rq) else PublishVersion(db, rq)
  {
  }

  /** What the two paths of a new version leave of it. */
  lemma StoredUnder(db: Db, rq: Request)
    requires rq.op.NewVersion? && rq.principal.Device? && rq.op.nodeId in db.nodes
    ensures var Outcome(after, response) := KeepConflictCopy(db, rq);
            if VersionFits(db, rq.freshId, rq.op.manifest) then
              && response.ConflictCopy? && after.versions == db.versions[rq.freshId := VersionOf(rq, true)]
              && rq.op.nodeId in after.nodes && after.nodes[rq.op.nodeId].current == db.nodes[rq.op.nodeId].current
            else after == db && response == Rejected(ConstraintViolation)
    ensures var Outcome(after, response) := PublishVersion(db, rq);
            if VersionFits(db, rq.op.versionId, rq.op.manifest) then
              && response.Applied? && after.versions == db.versions[rq.op.versionId := VersionOf(rq, false)]
              && rq.op.nodeId in after.nodes && after.nodes[rq.op.nodeId].current == Some(rq.op.versionId)
            else after == db && response == Rejected(ConstraintViolation)
  {
  }

  /** The version stored under `v` has the content of the stored version `from`. */
  ghost predicate Restored(db: Db, outcome: Outcome, rq: Request, n: Id, from: Id, v: Id, stale: bool)
    requires n in db.nodes && from in db.versions && rq.principal.Device?
  {
    var Outcome(after, response) := outcome;
    && after.versions == db.versions[v := db.versions[from].(author := rq.principal.device, conflict := stale)]
    && n in after.nodes && after.nodes[n].current == (if stale then db.nodes[n].current else Some(v))
    && (if stale then response.ConflictCopy? else response.Applied?)
  }

  /** Restoring a stored version of a node as a device with write access stores a version with the same
      content, unless the id drawn for it is taken: the chunks of a stored version are never missing.
      Based on the node's present row it becomes the current version. */
  lemma RestoreBringsContentBack(db: Db, rq: Request, nodeId: Id, versionId: Id, basedOn: int, uuid: Id)
    requires Inv(db) && rq.principal.Device?
    requires Authorize(db.nodes, rq.grants, nodeId, Write).Granted?
    requires versionId in db.versions && db.versions[versionId].node == nodeId
    ensures nodeId in db.nodes
    ensures var outcome := Restore(db, rq, nodeId, versionId, basedOn, uuid);
            var stale := db.nodes[nodeId].serverSeq != basedOn;
            var v := if stale then rq.freshId else uuid;
            if v in db.versions then outcome == Outcome(db, Rejected(ConstraintViolation))
            else Restored(db, outcome, rq, nodeId, versionId, v, stale)
  {
    hide Submit, KeepConflictCopy, PublishVersion, VersionFits;
    var stored := db.versions[versionId];
    var rq' := rq.(op := NewVersion(nodeId, basedOn, uuid, stored.contentHash, stored.size, stored.manifest));
    AddressedVersion(db, rq');
    StoredUnder(db, rq');
    StoredManifestFits(db, versionId, rq.freshId);
    StoredManifestFits(db, versionId, uuid);
  }

  /** The manifest of a stored version fits under any unused id. */
  lemma StoredManifestFits(db: Db, v: Id, unused: Id)
    requires Inv(db) && v in db.versions
    ensures VersionFits(db, unused, db.versions[v].manifest) <==> unused !in db.versions
  {
    forall h | h in Hashes(db.versions[v].manifest)
      ensures h in db.chunks && (unused !in db.versions ==> (unused, h) !in db.index)
    {
      assert (v, h) in db.index;
    }
  }

  // Tombstones.

  ghost predicate Recreates(db: Db, cmd: Cmd, n: Id) {
    cmd.SubmitCmd? && cmd.rq.op.Create? && cmd.rq.op.nodeId == n && Submit(db, cmd.rq).response.Applied?
  }

  ghost predicate NeverRecreated(db: Db, cmds: seq<Cmd>, n: Id)
    decreases |cmds|
  {
    cmds == [] || (!Recreates(db, cmds[0], n) && NeverRecreated(Apply(db, cmds[0]), cmds[1..], n))
  }

  ghost predicate LiveAt(db: Db, n: Id) {
    n in db.nodes && db.nodes[n].deletedAt.None?
  }

  lemma StepKeepsTombstone(db: Db, cmd: Cmd, n: Id)
    requires !LiveAt(db, n)
    ensures LiveAt(Apply(db, cmd), n) <==> Recreates(db, cmd, n)
  {
    hide Submit;
    if cmd.SubmitCmd? {
      SubmitCases(db, cmd.rq);
    }
  }

  /** A tombstone is never lifted: between the selection of an id and its deletion the node can turn live
      only by being deleted for good and created again under the same id. */
  lemma {:induction false} TombstonesStay(db: Db, cmds: seq<Cmd>, n: Id)
    requires !LiveAt(db, n)
    ensures LiveAt(Run(db, cmds), n) ==> !NeverRecreated(db, cmds, n)
    decreases |cmds|
  {
    if cmds != [] {
      StepKeepsTombstone(db, cmds[0], n);
      if !LiveAt(Apply(db, cmds[0]), n) {
        TombstonesStay(Apply(db, cmds[0]), cmds[1..], n);
      }
    }
  }

  /** For databases in the invariant a purge goes through exactly when no node outside the batch has its
      parent in the batch and no grant or invite is scoped to a node of the batch. One tombstoned folder
      with a remaining child therefore holds up its whole batch. */
  lemma PurgeableExactly(db: Db, ids: set<Id>, granted: set<Id>)
    requires Core(db)
    ensures Purgeable(db, ids, granted) <==>
            && (forall n :: n in db.nodes && n !in ids && db.nodes[n].parent.Some? ==> db.nodes[n].parent.value !in ids)
            && (forall n :: n in db.nodes && n in ids ==> n !in granted)
  {
    var after := Cascade(db, ids);
    if ids * db.nodes.Keys * granted == {} {
      forall n | n in db.nodes && n in ids
        ensures n !in granted
      {
        assert n !in ids * db.nodes.Keys * granted;
      }
    }
    assert forall k :: k in after.index ==> k in db.index && k.0 in after.versions;
    if forall n :: n in db.nodes && n !in ids && db.nodes[n].parent.Some? ==> db.nodes[n].parent.value !in ids {
      assert ForeignKeysHold(after);
    }
    if ForeignKeysHold(after) {
      forall n | n in db.nodes && n !in ids && db.nodes[n].parent.Some?
        ensures db.nodes[n].parent.value !in ids
      {
        assert n in after.nodes;
      }
    }
  }

  /** Deleting by id checks nothing again: the statement removes a live node exactly when one of the ids
      selected before is live by now, no node outside the batch has its parent in the batch, and no grant or
      invite is scoped to a node of the batch. */
  lemma PurgeOfLiveNode(db: Db, ids: set<Id>, granted: set<Id>)
    requires Core(db)
    ensures (exists n :: LiveAt(db, n) && n !in Purged(db, ids, granted).nodes) <==>
            && (exists n :: n in ids && LiveAt(db, n))
            && (forall n :: n in db.nodes && n !in ids && db.nodes[n].parent.Some? ==> db.nodes[n].parent.value !in ids)
            && (forall n :: n in db.nodes && n in ids ==> n !in granted)
  {
    PurgeableExactly(db, ids, granted);
    hide Core, Purgeable;
    if Purgeable(db, ids, granted) {
      if n :| n in ids && LiveAt(db, n) {
        assert n !in Purged(db, ids, granted).nodes;
      }
    }
  }

  /** No surviving node is left without its parent, and a purge is all or nothing. */
  lemma PurgeLeavesNoOrphan(db: Db, ids: set<Id>, granted: set<Id>)
    requires Core(db)
    ensures var after := Purged(db, ids, granted);
            && (forall n :: n in after.nodes && after.nodes[n].parent.Some? ==> after.nodes[n].parent.value in after.nodes)
            && (after.nodes.Keys == db.nodes.Keys - ids || after == db)
            && (after != db ==>
                  forall n :: n in db.nodes && n !in ids && db.nodes[n].parent.Some? ==> db.nodes[n].parent.value !in ids)
  {
    PurgeKeepsCore(db, ids, granted);
    PurgeableExactly(db, ids, granted);
  }

  // Names.

  /** The explicit collision check covers the unique index except for one case: the index turns down a
      rename or move, as an internal error instead of `name_collision`, if and only if the resulting name
      is empty, the node is live, and a live sibling has the empty name too. */
  lemma IndexRefusesOnlyEmptyNames(db: Db, rq: Request)
    requires Core(db) && OpInFolder(db, rq) && Addressed(db, rq)
    requires (rq.op.Rename? || rq.op.Move?) && db.nodes[rq.op.nodeId].serverSeq == rq.op.basedOn
    ensures var row := Mutated(db.nodes[rq.op.nodeId], rq.op, rq.now);
            Submit(db, rq).response == Rejected(ConstraintViolation) <==>
            && row.name == "" && row.deletedAt.None? && row.parent.Some?
            && exists m :: m != rq.op.nodeId && LiveSibling(db.nodes, rq.folder, row.parent.value, "", m)
  {
    hide Submit, Core, Collides, IndexRefuses;
    AddressedChange(db, rq);
    RefusedBehindCollision(db, rq.op.nodeId, Mutated(db.nodes[rq.op.nodeId], rq.op, rq.now));
  }

  /** Where the collision check has let a row pass, what is left for the index to refuse. */
  lemma RefusedBehindCollision(db: Db, n: Id, row: NodeRow)
    ensures !Collides(db, row.folder, n, row) && IndexRefuses(db, n, row) <==>
            && row.name == "" && row.deletedAt.None? && row.parent.Some?
            && exists m :: m != n && LiveSibling(db.nodes, row.folder, row.parent.value, "", m)
  {
  }

  lemma AddressedChange(db: Db, rq: Request)
    requires Addressed(db, rq) && !rq.op.NewVersion? && db.nodes[rq.op.nodeId].serverSeq == rq.op.basedOn
    ensures Submit(db, rq) == ChangeNode(db, rq)
  {
  }

  /** The node has come to the live place of the row since the look-up. */
  ghost predicate Arrived(db: Db, at: Db, m: Id, row: NodeRow) {
    && m in at.nodes && SameLivePlace(at.nodes[m], row)
    && !(m in db.nodes && SameLivePlace(db.nodes[m], row))
  }

  /** The above is for operations one at a time. The look-up and the update of a rename or move are two
      statements: whatever is committed between them, the index turns the update down if and only if some other
      node has come to the row's live place meanwhile. */
  lemma ConcurrentRefusalExactly(db: Db, between: seq<Cmd>, n: Id, row: NodeRow)
    requires row.name != "" && !Collides(db, row.folder, n, row)
    ensures IndexRefuses(Run(db, between), n, row) <==> exists m :: m != n && Arrived(db, Run(db, between), m, row)
  {
    var at := Run(db, between);
    if m :| m != n && Arrived(db, at, m, row) {
      assert LiveSibling(at.nodes, row.folder, row.parent.value, row.name, m);
    }
    if IndexRefuses(at, n, row) {
      var w :| w != n && LiveSibling(at.nodes, row.folder, row.parent.value, row.name, w);
      assert w in db.nodes && SameLivePlace(db.nodes[w], row) ==>
          LiveSibling(db.nodes, row.folder, row.parent.value, row.name, w);
      assert Arrived(db, at, w, row);
    }
  }

  /** For a new id under an existing parent, create is applied exactly when no live sibling has the name;
      otherwise nothing changes and the answer carries that sibling's number. */
  lemma CreateAppliedExactly(db: Db, rq: Request)
    requires Core(db) && rq.principal.Device? && rq.op.Create?
    requires Authorize(db.nodes, rq.grants, rq.op.parentId, Write).Granted?
    requires rq.op.nodeId !in db.nodes
    ensures var Outcome(after, response) := Submit(db, rq);
            && (response.Applied? <==> forall m :: !LiveSibling(db.nodes, rq.folder, rq.op.parentId, rq.op.name, m))
            && (!response.Applied? ==> after == db && response.Superseded?)
            && (forall m :: LiveSibling(db.nodes, rq.folder, rq.op.parentId, rq.op.name, m) ==>
                  response == Superseded(db.nodes[m].serverSeq))
  {
    hide Submit;
    AddressedCreate(db, rq);
    forall m, w | LiveSibling(db.nodes, rq.folder, rq.op.parentId, rq.op.name, m)
                  && LiveSibling(db.nodes, rq.folder, rq.op.parentId, rq.op.name, w)
      ensures m == w
    {
      assert SameLivePlace(db.nodes[m], db.nodes[w]);
    }
  }

  lemma AddressedCreate(db: Db, rq: Request)
    requires rq.principal.Device? && rq.op.Create?
    requires Authorize(db.nodes, rq.grants, rq.op.parentId, Write).Granted?
    ensures rq.op.parentId in db.nodes && Submit(db, rq) == CreateNode(db, rq)
  {
  }
}
