/** Reference counting of chunks: what `chunks.refcount` counts, and what tombstone purges do to it. */
module Refcounts {
  import opened Types
  import opened Ops
  import opened Steps
  import opened Invariants

  /** The nodes whose current version contains the chunk. */
  ghost function NodesHolding(db: Db, h: Hash): set<Id> {
    set n | n in db.nodes && h in Hashes(CurrentManifest(db, n))
  }

  /** The conflict copies that contain the chunk. */
  ghost function CopiesHolding(db: Db, h: Hash): set<Id> {
    set v | v in db.versions && db.versions[v].conflict && h in Hashes(db.versions[v].manifest)
  }

  ghost function References(db: Db, h: Hash): nat {
    |NodesHolding(db, h)| + |CopiesHolding(db, h)|
  }

  ghost predicate CountsExact(db: Db) {
    forall h :: h in db.chunks ==> db.chunks[h].refcount == References(db, h)
  }

  ghost predicate CountsCover(db: Db) {
    forall h :: h in db.chunks ==> db.chunks[h].refcount >= References(db, h)
  }

  lemma CardinalityAfterToggle<T>(s: set<T>, x: T, keep: bool)
    ensures |if keep then s + {x} else s - {x}| ==
            |s| - (if x in s then 1 else 0) + (if keep then 1 else 0)
  {
    if x in s && keep {
      assert s + {x} == s;
    }
    if x !in s && !keep {
      assert s - {x} == s;
    }
  }

  lemma ManifestsStaged(db: Db)
    requires Inv(db)
    ensures forall v :: v in db.versions ==> Hashes(db.versions[v].manifest) <= db.chunks.Keys
    ensures forall n :: n in db.nodes ==> Hashes(CurrentManifest(db, n)) <= db.chunks.Keys
  {
    forall v | v in db.versions
      ensures Hashes(db.versions[v].manifest) <= db.chunks.Keys
    {
      forall h | h in Hashes(db.versions[v].manifest)
        ensures h in db.chunks
      {
        assert (v, h) in db.index;
      }
    }
  }

  lemma PublishedManifests(db: Db, after: Db, n: Id, v: Id)
    requires CurrentOwned(db) && n in db.nodes && v !in db.versions
    requires v in after.versions && after.versions == db.versions[v := after.versions[v]]
    requires n in after.nodes && after.nodes == db.nodes[n := after.nodes[n]] && after.nodes[n].current == Some(v)
    ensures CurrentManifest(after, n) == after.versions[v].manifest
    ensures forall m :: m in db.nodes && m != n ==> CurrentManifest(after, m) == CurrentManifest(db, m)
  {
  }

  lemma SameCopies(db: Db, after: Db, v: Id, h: Hash)
    requires v !in db.versions && v in after.versions && after.versions == db.versions[v := after.versions[v]]
    requires !after.versions[v].conflict
    ensures CopiesHolding(after, h) == CopiesHolding(db, h)
  {
    hide Hashes;
  }

  /** Publishing a version moves the node from the old manifest's hashes to the new one's. */
  lemma PublishedReferences(db: Db, after: Db, n: Id, v: Id, h: Hash)
    requires CurrentOwned(db) && n in db.nodes && v !in db.versions
    requires v in after.versions && after.versions == db.versions[v := after.versions[v]] && !after.versions[v].conflict
    requires n in after.nodes && after.nodes == db.nodes[n := after.nodes[n]] && after.nodes[n].current == Some(v)
    ensures References(after, h) ==
            References(db, h) + (if h in Hashes(after.versions[v].manifest) then 1 else 0)
            - (if h in Hashes(CurrentManifest(db, n)) then 1 else 0)
  {
    hide CurrentManifest, CurrentOwned, Hashes, CopiesHolding;
    SameCopies(db, after, v, h);
    PublishedManifests(db, after, n, v);
    var keep := h in Hashes(CurrentManifest(after, n));
    assert NodesHolding(after, h) == if keep then NodesHolding(db, h) + {n} else NodesHolding(db, h) - {n};
    CardinalityAfterToggle(NodesHolding(db, h), n, keep);
  }

  lemma CopiedReferences(db: Db, after: Db, v: Id, h: Hash)
    requires CurrentOwned(db) && v !in db.versions
    requires v in after.versions && after.versions == db.versions[v := after.versions[v]] && after.versions[v].conflict
    requires after.nodes.Keys == db.nodes.Keys
    requires forall n :: n in db.nodes ==> after.nodes[n].current == db.nodes[n].current
    ensures References(after, h) == References(db, h) + (if h in Hashes(after.versions[v].manifest) then 1 else 0)
  {
    forall m | m in db.nodes
      ensures CurrentManifest(after, m) == CurrentManifest(db, m)
    {
    }
    assert NodesHolding(after, h) == NodesHolding(db, h);
    var keep := h in Hashes(after.versions[v].manifest);
    assert CopiesHolding(after, h) == if keep then CopiesHolding(db, h) + {v} else CopiesHolding(db, h);
    CardinalityAfterToggle(CopiesHolding(db, h), v, keep);
  }

  /** The current manifests that an op without a new version leaves behind are the ones it found. */
  lemma SameReferences(db: Db, after: Db, h: Hash)
    requires after.versions == db.versions
    requires forall n :: n in db.nodes ==> n in after.nodes && after.nodes[n].current == db.nodes[n].current
    requires forall n :: n in after.nodes && n !in db.nodes ==> after.nodes[n].current == None
    ensures References(after, h) == References(db, h)
  {
    assert NodesHolding(after, h) == NodesHolding(db, h);
    assert CopiesHolding(after, h) == CopiesHolding(db, h);
  }

  /** The decrement finds a positive count on every hash of the replaced manifest: clamping to zero is
      never what saves the count from going negative. */
  lemma ClampNeverTaken(db: Db, n: Id, h: Hash)
    requires Inv(db) && CountsCover(db) && n in db.nodes && h in Hashes(CurrentManifest(db, n))
    ensures h in db.chunks && db.chunks[h].refcount > 0
  {
    ManifestsStaged(db);
    assert n in NodesHolding(db, h);
  }

  lemma PublishKeepsExcess(db: Db, rq: Request, h: Hash)
    requires Inv(db) && CountsCover(db) && rq.principal.Device? && rq.op.NewVersion? && h in db.chunks
    requires rq.op.nodeId in db.nodes && VersionFits(db, rq.op.versionId, rq.op.manifest)
    ensures var after := PublishVersion(db, rq).db;
            h in after.chunks
            && after.chunks[h].refcount - References(after, h) == db.chunks[h].refcount - References(db, h)
  {
    var n, after := rq.op.nodeId, PublishVersion(db, rq).db;
    PublishedReferences(db, after, n, rq.op.versionId, h);
    if h in Hashes(CurrentManifest(db, n)) {
      ClampNeverTaken(db, n, h);
    }
  }

  lemma CopyKeepsExcess(db: Db, rq: Request, h: Hash)
    requires Inv(db) && rq.principal.Device? && rq.op.NewVersion? && h in db.chunks
    requires rq.op.nodeId in db.nodes && VersionFits(db, rq.freshId, rq.op.manifest)
    ensures var after := KeepConflictCopy(db, rq).db;
            h in after.chunks
            && after.chunks[h].refcount - References(after, h) == db.chunks[h].refcount - References(db, h)
  {
    CopiedReferences(db, KeepConflictCopy(db, rq).db, rq.freshId, h);
  }

  lemma SubmitKeepsExcess(db: Db, rq: Request, h: Hash)
    requires Inv(db) && CountsCover(db) && h in db.chunks
    ensures var after := Submit(db, rq).db;
            h in after.chunks
            && after.chunks[h].refcount - References(after, h) == db.chunks[h].refcount - References(db, h)
  {
    hide Submit;
    var outcome := Submit(db, rq);
    if rq.op.NewVersion? && Accepted(outcome.response) {
      SubmitCases(db, rq);
      if outcome.response.ConflictCopy? {
        CopyKeepsExcess(db, rq, h);
      } else {
        PublishKeepsExcess(db, rq, h);
      }
    } else {
      SubmitWithoutVersion(db, rq);
      SameReferences(db, outcome.db, h);
    }
  }

  lemma SubmitWithoutVersion(db: Db, rq: Request)
    requires !rq.op.NewVersion? || !Accepted(Submit(db, rq).response)
    ensures var after := Submit(db, rq).db;
            && after.versions == db.versions && after.chunks == db.chunks && after.index == db.index
            && (forall n :: n in db.nodes ==> n in after.nodes && after.nodes[n].current == db.nodes[n].current)
            && (forall n :: n in after.nodes && n !in db.nodes ==> after.nodes[n].current == None)
  {
    hide Submit;
    SubmitCases(db, rq);
  }

  /** A chunk row is staged at zero, and no stored manifest names a chunk without a row. */
  lemma UnstagedUnreferenced(db: Db, h: Hash)
    requires Inv(db) && h !in db.chunks
    ensures References(db, h) == 0
  {
    ManifestsStaged(db);
    assert NodesHolding(db, h) == {} && CopiesHolding(db, h) == {};
  }

  function VersionsOf(db: Db, ids: set<Id>): set<Id> {
    set v | v in db.versions && db.versions[v].node in ids
  }

  lemma PurgedManifests(db: Db, ids: set<Id>)
    requires Core(db)
    ensures forall n :: n in db.nodes && n !in ids ==> CurrentManifest(Cascade(db, ids), n) == CurrentManifest(db, n)
  {
  }

  lemma PurgedReferences(db: Db, ids: set<Id>, h: Hash)
    requires Core(db)
    ensures var after := Cascade(db, ids);
            && NodesHolding(after, h) == NodesHolding(db, h) - ids
            && CopiesHolding(after, h) == CopiesHolding(db, h) - VersionsOf(db, ids)
  {
    hide Core, CurrentManifest, Hashes;
    PurgedManifests(db, ids);
  }

  lemma DifferenceCardinality<T>(s: set<T>, gone: set<T>)
    ensures |s - gone| <= |s| && (|s - gone| == |s| <==> s !! gone)
  {
    assert s == (s - gone) + (s * gone);
    assert |s| == |s - gone| + |s * gone|;
  }

  /** A submitted operation changes no chunk row's existence. */
  lemma SubmitKeepsChunkRows(db: Db, rq: Request)
    ensures Submit(db, rq).db.chunks.Keys == db.chunks.Keys
  {
    hide Submit;
    SubmitCases(db, rq);
  }

  /** Every step but a purge leaves each surviving count exactly as far above its references as before. */
  lemma StepKeepsExcess(db: Db, cmd: Cmd, h: Hash)
    requires Inv(db) && CountsCover(db) && Enabled(db, cmd) && !cmd.PurgeNodes? && h in Apply(db, cmd).chunks
    ensures var after := Apply(db, cmd);
            after.chunks[h].refcount - References(after, h) ==
            if h in db.chunks then db.chunks[h].refcount - References(db, h) else 0
  {
    if cmd.SubmitCmd? {
      SubmitKeepsChunkRows(db, cmd.rq);
      SubmitKeepsExcess(db, cmd.rq, h);
    } else {
      OtherStepsKeepVersions(db, cmd);
      SameReferences(db, Apply(db, cmd), h);
      if h !in db.chunks {
        UnstagedUnreferenced(db, h);
      }
    }
  }

  lemma OtherStepsKeepVersions(db: Db, cmd: Cmd)
    requires !cmd.SubmitCmd? && !cmd.PurgeNodes?
    ensures var after := Apply(db, cmd);
            && after.nodes == db.nodes && after.versions == db.versions
            && forall h :: h in after.chunks ==>
                 if h in db.chunks then after.chunks[h] == db.chunks[h] else after.chunks[h].refcount == 0
  {
  }

  lemma PurgeKeepsCover(db: Db, ids: set<Id>, granted: set<Id>)
    requires Inv(db) && CountsCover(db)
    ensures CountsCover(Purged(db, ids, granted))
  {
    if Purgeable(db, ids, granted) {
      var after := Purged(db, ids, granted);
      forall h | h in after.chunks
        ensures after.chunks[h].refcount >= References(after, h)
      {
        PurgedReferences(db, ids, h);
        DifferenceCardinality(NodesHolding(db, h), ids);
        DifferenceCardinality(CopiesHolding(db, h), VersionsOf(db, ids));
      }
    }
  }

  lemma StepKeepsCover(db: Db, cmd: Cmd)
    requires Inv(db) && CountsCover(db) && Enabled(db, cmd)
    ensures CountsCover(Apply(db, cmd))
  {
    if cmd.PurgeNodes? {
      PurgeKeepsCover(db, cmd.ids, cmd.granted);
    } else {
      forall h | h in Apply(db, cmd).chunks
        ensures Apply(db, cmd).chunks[h].refcount >= References(Apply(db, cmd), h)
      {
        StepKeepsExcess(db, cmd, h);
      }
    }
  }

  /** Whatever steps run, purges included, no count ever falls below its references. */
  lemma {:induction false} CountsNeverBelow(db: Db, cmds: seq<Cmd>)
    requires Inv(db) && CountsCover(db) && Runs(db, cmds)
    ensures CountsCover(Run(db, cmds))
    decreases |cmds|
  {
    if cmds != [] {
      StepKeepsCore(db, cmds[0]);
      StepKeepsCover(db, cmds[0]);
      CountsNeverBelow(Apply(db, cmds[0]), cmds[1..]);
    }
  }

  /** Without purges each count is the number of nodes whose current version contains the chunk plus the
      number of conflict copies that contain it. */
  lemma {:induction false} CountsStayExact(db: Db, cmds: seq<Cmd>)
    requires Inv(db) && CountsExact(db) && Runs(db, cmds)
    requires WithoutPurge(cmds)
    ensures CountsExact(Run(db, cmds))
    decreases |cmds|
  {
    if cmds != [] {
      var next := Apply(db, cmds[0]);
      StepKeepsCore(db, cmds[0]);
      forall h | h in next.chunks
        ensures next.chunks[h].refcount == References(next, h)
      {
        StepKeepsExcess(db, cmds[0], h);
      }
      CountsStayExact(next, cmds[1..]);
    }
  }

  /** None of the nodes holds the chunk, neither through its current version nor through a conflict copy. */
  ghost predicate Unheld(db: Db, ids: set<Id>, h: Hash) {
    NodesHolding(db, h) !! ids && CopiesHolding(db, h) !! VersionsOf(db, ids)
  }

  lemma PurgeKeepsExactAt(db: Db, ids: set<Id>, h: Hash)
    requires Core(db)
    ensures References(Cascade(db, ids), h) == References(db, h) <==> Unheld(db, ids, h)
  {
    PurgedReferences(db, ids, h);
    DifferenceCardinality(NodesHolding(db, h), ids);
    DifferenceCardinality(CopiesHolding(db, h), VersionsOf(db, ids));
  }

  /** The deleted nodes own no content: their current versions and conflict copies are empty. */
  ghost predicate Contentless(db: Db, ids: set<Id>) {
    && (forall n :: n in ids && n in db.nodes ==> Hashes(CurrentManifest(db, n)) == {})
    && (forall v :: v in db.versions && db.versions[v].conflict && db.versions[v].node in ids ==>
          Hashes(db.versions[v].manifest) == {})
  }

  lemma ContentlessHoldsNothing(db: Db, ids: set<Id>)
    requires Inv(db)
    ensures Contentless(db, ids) <==> forall h :: h in db.chunks ==> Unheld(db, ids, h)
  {
    ManifestsStaged(db);
    if forall h :: h in db.chunks ==> Unheld(db, ids, h) {
      forall n, h | n in ids && n in db.nodes && h in db.chunks
        ensures h !in Hashes(CurrentManifest(db, n))
      {
        assert Unheld(db, ids, h) && n !in NodesHolding(db, h);
      }
      forall v, h | v in db.versions && db.versions[v].conflict && db.versions[v].node in ids && h in db.chunks
        ensures h !in Hashes(db.versions[v].manifest)
      {
        assert Unheld(db, ids, h) && v !in CopiesHolding(db, h);
      }
    }
  }

  /** A purge keeps exact counts exact if and only if the nodes it deletes own no content: nothing gives
      the references of a deleted node back, so its chunks are never collected. */
  lemma PurgeKeepsExact(db: Db, ids: set<Id>, granted: set<Id>)
    requires Inv(db) && CountsExact(db) && Purgeable(db, ids, granted)
    ensures CountsExact(Purged(db, ids, granted)) <==> Contentless(db, ids)
  {
    forall h | h in db.chunks
      ensures References(Cascade(db, ids), h) == db.chunks[h].refcount <==> Unheld(db, ids, h)
    {
      PurgeKeepsExactAt(db, ids, h);
    }
    ContentlessHoldsNothing(db, ids);
  }
}
