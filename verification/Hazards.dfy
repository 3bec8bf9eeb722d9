/** Where collection meets running clients: what exactly can go wrong, and what cannot. */
module Hazards {
  import opened Types
  import opened Authz
  import opened Ops
  import opened Steps
  import opened Invariants
  import opened Refcounts
  import opened History

  // Chunk rows and blobs.

  /** A chunk row disappears in one step only: the guarded delete of that chunk, at an instant when its count
      is zero and no index row names it. */
  lemma ChunkRowRemovedExactly(db: Db, cmd: Cmd, hash: Hash)
    requires hash in db.chunks
    ensures hash !in Apply(db, cmd).chunks <==> cmd == DeleteChunk(hash) && Collectable(db, hash)
  {
    if cmd.SubmitCmd? {
      SubmitKeepsChunkRows(db, cmd.rq);
    }
  }

  /** No stored version names the chunk. */
  ghost predicate BlobUnneeded(db: Db, hash: Hash) {
    forall v :: v in db.versions ==> hash !in Hashes(db.versions[v].manifest)
  }

  /** No step among these stages the chunk, which is what makes a client upload its blob. */
  ghost predicate NotStaged(cmds: seq<Cmd>, hash: Hash) {
    forall cmd :: cmd in cmds ==> !(cmd.StageChunk? && cmd.hash == hash)
  }

  lemma RowlessUnneeded(db: Db, hash: Hash)
    requires Inv(db) && hash !in db.chunks
    ensures BlobUnneeded(db, hash)
  {
    ManifestsStaged(db);
  }

  lemma StepKeepsRowless(db: Db, cmd: Cmd, hash: Hash)
    requires hash !in db.chunks && !(cmd.StageChunk? && cmd.hash == hash)
    ensures hash !in Apply(db, cmd).chunks
  {
    if cmd.SubmitCmd? {
      SubmitKeepsChunkRows(db, cmd.rq);
    }
  }

  /** Without its row a chunk is not named by any version before it has been staged, and uploaded, anew. */
  lemma {:induction false} RowlessStaysUnneeded(db: Db, cmds: seq<Cmd>, hash: Hash)
    requires Inv(db) && Runs(db, cmds) && hash !in db.chunks && NotStaged(cmds, hash)
    ensures BlobUnneeded(Run(db, cmds), hash)
    decreases |cmds|
  {
    if cmds == [] {
      RowlessUnneeded(db, hash);
    } else {
      StepKeepsCore(db, cmds[0]);
      StepKeepsRowless(db, cmds[0], hash);
      RowlessStaysUnneeded(Apply(db, cmds[0]), cmds[1..], hash);
    }
  }

  lemma {:induction false} UnusedId(ids: set<Id>) returns (unused: Id)
    ensures forall v :: v in ids ==> v < unused
    decreases |ids|
  {
    if ids == {} {
      unused := 0;
    } else {
      var some :| some in ids;
      var above := UnusedId(ids - {some});
      unused := if some < above then above else some + 1;
      assert forall v :: v in ids ==> v == some || v in ids - {some};
    }
  }

  /** Whoever may write some node can publish a version with a chunk whose row is there. */
  lemma ChunkCanBePublished(db: Db, n: Id, hash: Hash) returns (rq: Request)
    requires Inv(db) && n in db.nodes && hash in db.chunks
    ensures OpInFolder(db, rq) && !BlobUnneeded(Submit(db, rq).db, hash)
  {
    var v := UnusedId(db.versions.Keys);
    var folder, chunk := db.nodes[n].folder, ChunkRef(hash, 0, 1);
    rq := Request(folder, Device(0), map[(folder, n) := Grant(0, true, true)],
                  NewVersion(n, db.nodes[n].serverSeq, v, "", 1, [chunk]), v, 0, 0);
    assert Walk(db.nodes, rq.grants, folder, n, Write, 50).Granted?;
    assert rq.op.manifest[0] == chunk && Hashes(rq.op.manifest) == {hash};
    hide Submit, Authorize, Walk;
    AddressedVersion(db, rq);
    StoredUnder(db, rq);
    assert hash in Hashes(Submit(db, rq).db.versions[v].manifest);
  }

  /** The blob delete follows the row delete without a lock. It is safe, whatever runs later, if and only if
      the chunk has no row at that moment: from then on no version can name the chunk before it has been
      staged and uploaded anew. If a client has staged the chunk again in the meantime, one publication is
      enough to store a version whose blob is gone. */
  lemma BlobDeleteSafeExactly(db: Db, hash: Hash)
    requires Inv(db) && db.nodes != map[]
    ensures (forall cmds :: Runs(db, cmds) && NotStaged(cmds, hash) ==> BlobUnneeded(Run(db, cmds), hash))
            <==> hash !in db.chunks
  {
    if hash !in db.chunks {
      forall cmds | Runs(db, cmds) && NotStaged(cmds, hash)
        ensures BlobUnneeded(Run(db, cmds), hash)
      {
        RowlessStaysUnneeded(db, cmds, hash);
      }
    } else {
      var n :| n in db.nodes;
      var rq := ChunkCanBePublished(db, n, hash);
      OneStep(db, SubmitCmd(rq));
      assert NotStaged([SubmitCmd(rq)], hash);
    }
  }

  /** Position p of the run gives the chunk a new row at or after the cutoff. */
  ghost predicate StagedLateAt(db: Db, cmds: seq<Cmd>, p: nat, hash: Hash, cutoff: Time) {
    && p < |cmds| && cmds[p].StageChunk? && cmds[p].hash == hash && cmds[p].now >= cutoff
    && hash !in Run(db, cmds[..p]).chunks
  }

  ghost predicate RemovedAt(db: Db, cmds: seq<Cmd>, p: nat, hash: Hash) {
    p < |cmds| && cmds[p] == DeleteChunk(hash) && Collectable(Run(db, cmds[..p]), hash)
  }

  /** The chunk was given a row at or after the cutoff that has not been removed since. */
  ghost predicate StagedLate(db: Db, cmds: seq<Cmd>, hash: Hash, cutoff: Time) {
    exists p: nat :: StagedLateAt(db, cmds, p, hash, cutoff) && forall q: nat :: p < q < |cmds| ==> !RemovedAt(db, cmds, q, hash)
  }

  ghost predicate YoungRow(db: Db, hash: Hash, cutoff: Time) {
    hash in db.chunks && db.chunks[hash].createdAt >= cutoff
  }

  lemma StepKeepsAge(db: Db, cmd: Cmd, hash: Hash, cutoff: Time)
    ensures YoungRow(Apply(db, cmd), hash, cutoff) <==>
              if hash !in db.chunks then cmd.StageChunk? && cmd.hash == hash && cmd.now >= cutoff
              else YoungRow(db, hash, cutoff) && !(cmd == DeleteChunk(hash) && Collectable(db, hash))
  {
    hide Submit, Collectable, Purgeable, LogWithout;
    if hash in db.chunks {
      ChunkRowRemovedExactly(db, cmd, hash);
    } else if !(cmd.StageChunk? && cmd.hash == hash) {
      StepKeepsRowless(db, cmd, hash);
    }
    if cmd.SubmitCmd? && hash in db.chunks {
      SubmitKeepsAges(db, cmd.rq, hash);
    }
  }

  lemma SubmitKeepsAges(db: Db, rq: Request, hash: Hash)
    requires hash in db.chunks
    ensures var after := Submit(db, rq).db;
            hash in after.chunks && after.chunks[hash].createdAt == db.chunks[hash].createdAt
  {
    hide Submit;
    SubmitCases(db, rq);
  }

  lemma StagedLateOneMore(db: Db, cmds: seq<Cmd>, cmd: Cmd, hash: Hash, cutoff: Time)
    ensures var at := Run(db, cmds);
            StagedLate(db, cmds + [cmd], hash, cutoff) <==>
              || (StagedLate(db, cmds, hash, cutoff) && !(cmd == DeleteChunk(hash) && Collectable(at, hash)))
              || (cmd.StageChunk? && cmd.hash == hash && cmd.now >= cutoff && hash !in at.chunks)
  {
    hide Run, Collectable;
    var longer := cmds + [cmd];
    assert longer[..|cmds|] == cmds && forall p :: 0 <= p < |cmds| ==> longer[..p] == cmds[..p];
    assert forall p: nat :: p < |cmds| ==> RemovedAt(db, longer, p, hash) == RemovedAt(db, cmds, p, hash);
    assert forall p: nat :: p < |cmds| ==>
             StagedLateAt(db, longer, p, hash, cutoff) == StagedLateAt(db, cmds, p, hash, cutoff);
    assert RemovedAt(db, longer, |cmds|, hash) <==> cmd == DeleteChunk(hash) && Collectable(Run(db, cmds), hash);
    assert StagedLateAt(db, longer, |cmds|, hash, cutoff) <==>
             cmd.StageChunk? && cmd.hash == hash && cmd.now >= cutoff && hash !in Run(db, cmds).chunks;
    if StagedLate(db, cmds, hash, cutoff) && !RemovedAt(db, longer, |cmds|, hash) {
      var p: nat :| StagedLateAt(db, cmds, p, hash, cutoff) && forall q: nat :: p < q < |cmds| ==> !RemovedAt(db, cmds, q, hash);
      assert StagedLateAt(db, longer, p, hash, cutoff);
    }
  }

  /** The guarded delete does not ask for the age of the row again. After the select that found the chunk to be
      old, its row is a young one if and only if some other pass removed the old row and a client staged the
      chunk anew; then the delete that follows takes the row of an upload under way. */
  lemma {:induction false} GraceMissedExactly(db: Db, cmds: seq<Cmd>, hash: Hash, cutoff: Time)
    requires !YoungRow(db, hash, cutoff)
    ensures YoungRow(Run(db, cmds), hash, cutoff) <==> StagedLate(db, cmds, hash, cutoff)
    decreases |cmds|
  {
    hide *;
    if cmds == [] {
      EmptyRun(db);
      NeverStaged(db, hash, cutoff);
    } else {
      var front, last := cmds[..|cmds| - 1], cmds[|cmds| - 1];
      assert cmds == front + [last];
      GraceMissedExactly(db, front, hash, cutoff);
      RunAppend(db, front, [last]);
      OneStep(Run(db, front), last);
      StepKeepsAge(Run(db, front), last, hash, cutoff);
      StagedLateOneMore(db, front, last, hash, cutoff);
      YoungIsThere(Run(db, front), hash, cutoff);
    }
  }

  lemma NeverStaged(db: Db, hash: Hash, cutoff: Time)
    ensures !StagedLate(db, [], hash, cutoff)
  {
  }

  lemma YoungIsThere(db: Db, hash: Hash, cutoff: Time)
    ensures YoungRow(db, hash, cutoff) ==> hash in db.chunks
  {
  }

  lemma OneStep(db: Db, cmd: Cmd)
    ensures Run(db, [cmd]) == Apply(db, cmd) && (Runs(db, [cmd]) <==> Enabled(db, cmd))
  {
    assert [cmd][1..] == [];
    EmptyRun(Apply(db, cmd));
  }

  // Purges.

  /** A node that is there can only be created again after a purge of it. */
  lemma {:induction false} RecreatedOnlyAfterPurge(db: Db, cmds: seq<Cmd>, n: Id)
    requires n in db.nodes && Spares(cmds, n)
    ensures NeverRecreated(db, cmds, n) && n in Run(db, cmds).nodes
    decreases |cmds|
  {
    if cmds != [] {
      if cmds[0].SubmitCmd? {
        CurrentAfterSubmit(db, cmds[0].rq, n);
        SubmitCases(db, cmds[0].rq);
      }
      RecreatedOnlyAfterPurge(Apply(db, cmds[0]), cmds[1..], n);
    }
  }

  /** Deleting selected tombstones by id is safe, however late, as long as no other purge has hit any of
      them in the meantime. */
  lemma LatePurgeSafe(db: Db, cmds: seq<Cmd>, ids: set<Id>, granted: set<Id>)
    requires forall n :: n in ids ==> n in db.nodes && db.nodes[n].deletedAt.Some?
    requires forall cmd :: cmd in cmds && cmd.PurgeNodes? ==> cmd.ids !! ids
    ensures forall n :: LiveAt(Run(db, cmds), n) ==> n in Purged(Run(db, cmds), ids, granted).nodes
  {
    forall n | n in ids
      ensures !LiveAt(Run(db, cmds), n)
    {
      RecreatedOnlyAfterPurge(db, cmds, n);
      TombstonesStay(db, cmds, n);
    }
  }

  lemma InitExact(db: Db)
    requires Init(db)
    ensures Inv(db) && CountsExact(db)
  {
  }

  /** The two counting results for whole lives of a server, from the creation of its folders on. */
  lemma CountsFromStart(db: Db, cmds: seq<Cmd>)
    requires Init(db) && Runs(db, cmds)
    ensures CountsCover(Run(db, cmds))
    ensures WithoutPurge(cmds) ==> CountsExact(Run(db, cmds))
  {
    InitExact(db);
    CountsNeverBelow(db, cmds);
    if WithoutPurge(cmds) {
      CountsStayExact(db, cmds);
    }
  }
}
