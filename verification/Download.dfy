/** Who may download a chunk: the scan of all manifests and the look-up in the index. */
module Download {
  import opened Types
  import opened Authz
  import opened Steps
  import opened Invariants

  /** The reader may read some node of which a stored version contains the chunk. */
  ghost predicate ScanAllows(db: Db, grants: Grants, oid: Hash) {
    exists v :: v in db.versions && oid in Hashes(db.versions[v].manifest)
                && Authorize(db.nodes, grants, db.versions[v].node, Read).Granted?
  }

  /** The reader may read some node that an index row pairs with the chunk. */
  ghost predicate IndexAllows(db: Db, grants: Grants, oid: Hash) {
    exists k :: k in db.index && k.1 == oid && Authorize(db.nodes, grants, db.index[k], Read).Granted?
  }

  method CanDownloadFromCandidateNodes(nodes: Nodes, grants: Grants, nodeIds: seq<Id>) returns (granted: bool)
    ensures granted <==> exists n :: n in nodeIds && Authorize(nodes, grants, n, Read).Granted?
  {
    var i := 0;
    while i < |nodeIds|
      invariant 0 <= i <= |nodeIds|
      invariant forall j :: 0 <= j < i ==> !Authorize(nodes, grants, nodeIds[j], Read).Granted?
    {
      var grant, _ := CheckGrant(nodes, grants, nodeIds[i], Read);
      if grant.Granted? {
        return true;
      }
      i := i + 1;
    }
    granted := false;
  }

  /** Reads every version with its node, in any order, and keeps the nodes whose manifest has the chunk. */
  method UnscopedChunkCandidateNodeIds(db: Db, oid: Hash) returns (nodeIds: seq<Id>)
    ensures forall n :: n in nodeIds <==>
              n in db.nodes && exists v :: v in db.versions && db.versions[v].node == n && oid in Hashes(db.versions[v].manifest)
  {
    nodeIds := [];
    var unread := db.versions.Keys;
    while unread != {}
      invariant unread <= db.versions.Keys
      invariant forall n :: n in nodeIds <==>
                  n in db.nodes && exists v :: v in db.versions && v !in unread && db.versions[v].node == n
                                               && oid in Hashes(db.versions[v].manifest)
    {
      var v :| v in unread;
      var row := db.versions[v];
      unread := unread - {v};
      if row.node in db.nodes && exists i :: 0 <= i < |row.manifest| && row.manifest[i].hash == oid {
        nodeIds := nodeIds + [row.node];
      }
    }
  }

  /** The distinct node ids of the index rows of the chunk. */
  method ScopedChunkCandidateNodeIds(db: Db, oid: Hash) returns (nodeIds: seq<Id>)
    ensures forall n :: n in nodeIds <==> exists k :: k in db.index && k.1 == oid && db.index[k] == n
  {
    nodeIds := [];
    var unread := set k | k in db.index && k.1 == oid :: db.index[k];
    while unread != {}
      invariant forall n :: (n in nodeIds || n in unread) <==> exists k :: k in db.index && k.1 == oid && db.index[k] == n
    {
      var n :| n in unread;
      nodeIds, unread := nodeIds + [n], unread - {n};
    }
  }

  method CanDownloadChunkUnscopedForParity(db: Db, grants: Grants, oid: Hash) returns (granted: bool)
    ensures granted <==> ScanAllows(db, grants, oid)
  {
    var nodeIds := UnscopedChunkCandidateNodeIds(db, oid);
    granted := CanDownloadFromCandidateNodes(db.nodes, grants, nodeIds);
    if granted {
      var n :| n in nodeIds && Authorize(db.nodes, grants, n, Read).Granted?;
      assert exists v :: v in db.versions && db.versions[v].node == n && oid in Hashes(db.versions[v].manifest);
    }
  }

  method CanDownloadChunkScopedForParity(db: Db, grants: Grants, oid: Hash) returns (granted: bool)
    ensures granted <==> IndexAllows(db, grants, oid)
  {
    var nodeIds := ScopedChunkCandidateNodeIds(db, oid);
    granted := CanDownloadFromCandidateNodes(db.nodes, grants, nodeIds);
    if granted {
      var n :| n in nodeIds && Authorize(db.nodes, grants, n, Read).Granted?;
      assert exists k :: k in db.index && k.1 == oid && db.index[k] == n;
    }
  }

  /** Every node with a version that contains the chunk has some index row for it. */
  ghost predicate NodesIndexed(db: Db, oid: Hash) {
    forall v :: v in db.versions && oid in Hashes(db.versions[v].manifest) ==>
      exists k :: k in db.index && k.1 == oid && db.index[k] == db.versions[v].node
  }

  /** The look-up never allows what the scan refuses, however partial the index. */
  lemma LookupNeverAllowsMore(db: Db, grants: Grants, oid: Hash)
    requires IndexSound(db)
    ensures IndexAllows(db, grants, oid) ==> ScanAllows(db, grants, oid)
  {
  }

  /** Grants under which one node is readable and no other. */
  ghost function OnlyReads(nodes: Nodes, n: Id): Grants {
    map m | m in nodes :: (nodes[m].folder, m) := Grant(0, m == n, false)
  }

  lemma OnlyReadsOnly(nodes: Nodes, n: Id, m: Id)
    ensures Authorize(nodes, OnlyReads(nodes, n), m, Read).Granted? <==> m == n && n in nodes
  {
    if m in nodes {
      assert (nodes[m].folder, m) in OnlyReads(nodes, n);
    }
  }

  /** The two checks answer alike for every reader if and only if every node with a version that contains
      the chunk is in the index under that chunk. */
  lemma ParityExactly(db: Db, oid: Hash)
    requires Core(db)
    ensures (forall grants :: ScanAllows(db, grants, oid) <==> IndexAllows(db, grants, oid)) <==> NodesIndexed(db, oid)
  {
    if NodesIndexed(db, oid) {
      forall grants
        ensures ScanAllows(db, grants, oid) <==> IndexAllows(db, grants, oid)
      {
        LookupNeverAllowsMore(db, grants, oid);
        IndexedAllows(db, grants, oid);
      }
    }
    if forall grants :: ScanAllows(db, grants, oid) <==> IndexAllows(db, grants, oid) {
      forall v | v in db.versions && oid in Hashes(db.versions[v].manifest)
        ensures exists k :: k in db.index && k.1 == oid && db.index[k] == db.versions[v].node
      {
        AllowedAlone(db, oid, v);
      }
    }
  }

  lemma IndexedAllows(db: Db, grants: Grants, oid: Hash)
    requires NodesIndexed(db, oid)
    ensures ScanAllows(db, grants, oid) ==> IndexAllows(db, grants, oid)
  {
  }

  /** The reader of that version's node alone passes the scan, and passes the look-up by an index row of it. */
  lemma AllowedAlone(db: Db, oid: Hash, v: Id)
    requires Core(db) && v in db.versions && oid in Hashes(db.versions[v].manifest)
    requires forall grants :: ScanAllows(db, grants, oid) <==> IndexAllows(db, grants, oid)
    ensures exists k :: k in db.index && k.1 == oid && db.index[k] == db.versions[v].node
  {
    var n := db.versions[v].node;
    var grants := OnlyReads(db.nodes, n);
    OnlyReadsOnly(db.nodes, n, n);
    assert ScanAllows(db, grants, oid);
    var k :| k in db.index && k.1 == oid && Authorize(db.nodes, grants, db.index[k], Read).Granted?;
    OnlyReadsOnly(db.nodes, n, db.index[k]);
  }

  /** No stored manifest with the chunk misses its index row. */
  ghost predicate IndexedFor(db: Db, oid: Hash) {
    forall v :: v in db.versions && oid in Hashes(db.versions[v].manifest) ==> (v, oid) in db.index
  }

  lemma IndexedForNodes(db: Db, oid: Hash)
    requires IndexSound(db) && IndexedFor(db, oid)
    ensures NodesIndexed(db, oid)
  {
    forall v | v in db.versions && oid in Hashes(db.versions[v].manifest)
      ensures exists k :: k in db.index && k.1 == oid && db.index[k] == db.versions[v].node
    {
      assert db.index[(v, oid)] == db.versions[v].node;
    }
  }

  lemma InvIndexes(db: Db, oid: Hash)
    requires Inv(db)
    ensures IndexSound(db) && IndexedFor(db, oid)
  {
  }

  /** The fast check refines the slow one in every reachable state, for every reader and every chunk. */
  lemma ParityInEveryRun(db: Db, cmds: seq<Cmd>, grants: Grants, oid: Hash)
    requires Inv(db) && Runs(db, cmds)
    ensures var at := Run(db, cmds); ScanAllows(at, grants, oid) <==> IndexAllows(at, grants, oid)
  {
    hide Run, Runs, Core, ScanAllows, IndexAllows, NodesIndexed;
    RunKeepsInv(db, cmds);
    InvIndexes(Run(db, cmds), oid);
    IndexedForNodes(Run(db, cmds), oid);
    LookupNeverAllowsMore(Run(db, cmds), grants, oid);
    IndexedAllows(Run(db, cmds), grants, oid);
  }
}
