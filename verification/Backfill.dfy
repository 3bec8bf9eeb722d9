/** Rebuilding the chunk index page by page, on a resting server and among other steps. */
module Backfill {
  import opened Types
  import opened Ops
  import opened Steps
  import opened Authz
  import opened Invariants
  import opened Store
  import opened Download

  datatype BackfillResult = BackfillResult(versionsScanned: nat, rowsAttempted: nat)

  predicate After(lastSeen: Option<Id>, v: Id) {
    lastSeen.Some? ==> lastSeen.value < v
  }

  ghost predicate Ascends(ids: seq<Id>) {
    forall i, j :: 0 <= i < j < |ids| ==> ids[i] < ids[j]
  }

  /** The next ids above the last one seen, in order, as many as the page takes. */
  ghost predicate IsPage(keys: set<Id>, lastSeen: Option<Id>, size: nat, page: seq<Id>) {
    && Ascends(page) && |page| <= size
    && (forall v :: v in page ==> v in keys && After(lastSeen, v))
    && (forall v :: v in keys && After(lastSeen, v) && v !in page ==> |page| == size && forall w :: w in page ==> w < v)
  }

  method LeastId(ids: set<Id>) returns (least: Id)
    requires |ids| > 0
    ensures least in ids && forall v :: v in ids ==> least <= v
    decreases |ids|
  {
    assert ids != {};
    var some :| some in ids;
    assert forall v :: v in ids ==> v == some || v in ids - {some};
    least := some;
    if |ids - {some}| > 0 {
      var other := LeastId(ids - {some});
      least := if other < some then other else some;
    }
  }

  /** What has been read of the versions above the last one seen, and what has not. */
  ghost predicate ReadSoFar(keys: set<Id>, lastSeen: Option<Id>, page: seq<Id>, unread: set<Id>) {
    && Ascends(page)
    && (forall v :: v in keys && After(lastSeen, v) <==> v in page || v in unread)
    && (forall w :: w in unread ==> |page| == 0 || page[|page| - 1] < w)
  }

  lemma ReadOneMore(keys: set<Id>, lastSeen: Option<Id>, page: seq<Id>, unread: set<Id>, v: Id)
    requires ReadSoFar(keys, lastSeen, page, unread) && v in unread && forall w :: w in unread ==> v <= w
    ensures ReadSoFar(keys, lastSeen, page + [v], unread - {v})
  {
  }

  lemma PageRead(keys: set<Id>, lastSeen: Option<Id>, page: seq<Id>, unread: set<Id>, size: nat)
    requires ReadSoFar(keys, lastSeen, page, unread) && |page| <= size && (|unread| == 0 || |page| == size)
    ensures IsPage(keys, lastSeen, size, page)
  {
    forall w | w in page
      ensures w <= page[|page| - 1]
    {
      var i :| 0 <= i < |page| && page[i] == w;
    }
  }

  method SelectVersionPage(versions: Versions, pageSize: nat, lastSeen: Option<Id>) returns (page: seq<Id>)
    ensures IsPage(versions.Keys, lastSeen, pageSize, page)
  {
    page := [];
    var unread := set v | v in versions && After(lastSeen, v);
    assert ReadSoFar(versions.Keys, lastSeen, page, unread);
    hide ReadSoFar, IsPage, After;
    while |unread| > 0 && |page| < pageSize
      invariant |page| <= pageSize && ReadSoFar(versions.Keys, lastSeen, page, unread)
    {
      var v := LeastId(unread);
      ReadOneMore(versions.Keys, lastSeen, page, unread, v);
      page, unread := page + [v], unread - {v};
    }
    PageRead(versions.Keys, lastSeen, page, unread, pageSize);
  }

  ghost function Ids(page: seq<Id>): set<Id> {
    set v | v in page
  }

  /** The rows that the backfill derives from some versions: one for each distinct non-empty hash. */
  function RowsOf(versions: Versions, ids: seq<Id>): Index {
    map v, h | v in ids && v in versions && h in Hashes(versions[v].manifest) && h != "" :: (v, h) := versions[v].node
  }

  lemma RowsMembers(versions: Versions, ids: seq<Id>)
    ensures forall k :: k in RowsOf(versions, ids) <==>
              k.0 in ids && k.0 in versions && k.1 in Hashes(versions[k.0].manifest) && k.1 != ""
    ensures forall k :: k in RowsOf(versions, ids) ==> RowsOf(versions, ids)[k] == versions[k.0].node
  {
    forall k
      ensures k in RowsOf(versions, ids) <==>
              k.0 in ids && k.0 in versions && k.1 in Hashes(versions[k.0].manifest) && k.1 != ""
    {
      assert k == (k.0, k.1);
    }
  }

  /** All versions but the pending ones have their index rows. */
  ghost predicate Covered(db: Db, pending: set<Id>) {
    forall v, h :: v in db.versions && v !in pending && h in Hashes(db.versions[v].manifest) && h != "" ==>
      (v, h) in db.index
  }

  // What other steps do to the work done so far.

  /** A version stored by a submitted operation comes with its index rows, and rows once written stay. */
  lemma SubmitIndexesItself(db: Db, rq: Request)
    ensures var after := Submit(db, rq).db;
            && (forall k :: k in db.index ==> k in after.index)
            && (forall v :: v in db.versions ==> v in after.versions && after.versions[v] == db.versions[v])
            && (forall v, h :: v in after.versions && v !in db.versions && h in Hashes(after.versions[v].manifest) ==>
                  (v, h) in after.index)
  {
    hide Submit;
    SubmitCases(db, rq);
  }

  lemma StepKeepsCovered(db: Db, cmd: Cmd, pending: set<Id>)
    requires Covered(db, pending)
    ensures Covered(Apply(db, cmd), pending)
  {
    if cmd.SubmitCmd? {
      SubmitIndexesItself(db, cmd.rq);
    }
  }

  /** New versions, renames, collections and purges leave complete what the backfill has completed. */
  lemma {:induction false} RunKeepsCovered(db: Db, cmds: seq<Cmd>, pending: set<Id>)
    requires Covered(db, pending)
    ensures Covered(Run(db, cmds), pending)
    decreases |cmds|
  {
    if cmds != [] {
      StepKeepsCovered(db, cmds[0], pending);
      RunKeepsCovered(Apply(db, cmds[0]), cmds[1..], pending);
    }
  }

  /** The step may store a version under one of the ids. */
  predicate MayStore(cmd: Cmd, ids: seq<Id>) {
    cmd.SubmitCmd? && cmd.rq.op.NewVersion? && (cmd.rq.op.versionId in ids || cmd.rq.freshId in ids)
  }

  /** Every version of a page that is still there is the one that was selected; the others have gone with
      their nodes. */
  ghost predicate KeptOrGone(selected: Db, at: Db, page: seq<Id>) {
    forall v :: v in page && v in at.versions ==> v in selected.versions && at.versions[v] == selected.versions[v]
  }

  lemma StepKeepsOrDrops(selected: Db, at: Db, cmd: Cmd, page: seq<Id>)
    requires KeptOrGone(selected, at, page) && !MayStore(cmd, page)
    ensures KeptOrGone(selected, Apply(at, cmd), page)
  {
    if cmd.SubmitCmd? {
      hide Submit;
      SubmitCases(at, cmd.rq);
    }
  }

  lemma {:induction false} RunKeepsOrDrops(selected: Db, at: Db, cmds: seq<Cmd>, page: seq<Id>)
    requires KeptOrGone(selected, at, page) && forall cmd :: cmd in cmds ==> !MayStore(cmd, page)
    ensures KeptOrGone(selected, Run(at, cmds), page)
    decreases |cmds|
  {
    if cmds != [] {
      StepKeepsOrDrops(selected, at, cmds[0], page);
      RunKeepsOrDrops(selected, Apply(at, cmds[0]), cmds[1..], page);
    }
  }

  /** Rows derived from stored versions still describe those that are left of them. */
  lemma RowsStillDescribe(selected: Db, at: Db, page: seq<Id>)
    requires KeptOrGone(selected, at, page)
    ensures RowsDescribe(at, RowsOf(selected.versions, page))
  {
  }

  lemma RowsRefer(db: Db, page: seq<Id>)
    requires Core(db)
    ensures forall k :: k in RowsOf(db.versions, page) ==> k.0 in db.versions && RowsOf(db.versions, page)[k] in db.nodes
  {
  }

  lemma IndexedHolds(db: Db, rows: Index)
    ensures RowsFit(db, rows) ==>
              && (forall k :: k in db.index || k in rows ==> k in Indexed(db, rows).index)
              && Indexed(db, rows) == db.(index := Indexed(db, rows).index)
  {
  }

  lemma NoRowsNothing(db: Db)
    ensures Indexed(db, map[]) == db
  {
    assert db.index + map[] == db.index;
  }

  // The page loop.

  ghost predicate RowsFit(db: Db, rows: Index) {
    forall k :: k in rows && k !in db.index ==> k.0 in db.versions && k.1 in db.chunks && rows[k] in db.nodes
  }

  lemma RefusedChangesNothing(db: Db, rows: Index)
    requires !RowsFit(db, rows)
    ensures Indexed(db, rows) == db
  {
    var k :| k in rows && k !in db.index && !(k.0 in db.versions && k.1 in db.chunks && rows[k] in db.nodes);
    assert k in rows - db.index.Keys;
  }

  ghost predicate Stored(db: Db, page: seq<Id>) {
    forall v :: v in page ==> v in db.versions
  }

  /** Every version of the page that has content is still stored, and so are the rows of its chunks. */
  ghost predicate StillThere(selected: Db, at: Db, page: seq<Id>) {
    forall v :: v in page && v in selected.versions ==> ContentThere(at, v, selected.versions[v].manifest)
  }

  ghost predicate ContentThere(at: Db, v: Id, manifest: seq<ChunkRef>) {
    forall h :: h in Hashes(manifest) && h != "" ==> v in at.versions && h in at.chunks
  }

  lemma StillThereFits(selected: Db, at: Db, page: seq<Id>)
    requires ForeignKeysHold(at) && KeptOrGone(selected, at, page)
    ensures RowsFit(at, RowsOf(selected.versions, page)) <==> StillThere(selected, at, page)
  {
    var rows := RowsOf(selected.versions, page);
    RowsMembers(selected.versions, page);
    if RowsFit(at, rows) {
      forall v, h | v in page && v in selected.versions && h in Hashes(selected.versions[v].manifest) && h != ""
        ensures v in at.versions && h in at.chunks
      {
        assert (v, h) in rows;
      }
    }
    if StillThere(selected, at, page) {
      forall k | k in rows && k !in at.index
        ensures k.0 in at.versions && k.1 in at.chunks && rows[k] in at.nodes
      {
        var v, h := k.0, k.1;
        assert ContentThere(at, v, selected.versions[v].manifest) && h in Hashes(selected.versions[v].manifest);
      }
    }
  }

  method InsertValues(store: MetadataStore, values: Index) returns (ok: bool)
    modifies store
    ensures store.Snapshot() == Indexed(old(store.Snapshot()), values)
    ensures ok <==> RowsFit(old(store.Snapshot()), values)
  {
    ok := true;
    NoRowsNothing(store.Snapshot());
    if values != map[] {
      ok := store.InsertIndexRows(values);
    }
  }

  // Ids stored anew between the select and the insert.

  /** Every version of the page is the one that was selected, or has all its index rows, or is gone. */
  ghost predicate KeptOrIndexed(selected: Db, at: Db, page: seq<Id>) {
    forall v :: v in page && v in at.versions ==>
      (v in selected.versions && at.versions[v] == selected.versions[v]) || SelfIndexed(at, v, at.versions[v].manifest)
  }

  ghost predicate SelfIndexed(at: Db, v: Id, manifest: seq<ChunkRef>) {
    forall h :: h in Hashes(manifest) ==> (v, h) in at.index
  }

  lemma StepKeepsIndexed(selected: Db, at: Db, cmd: Cmd, page: seq<Id>)
    requires KeptOrIndexed(selected, at, page)
    ensures KeptOrIndexed(selected, Apply(at, cmd), page)
  {
    if cmd.SubmitCmd? {
      hide Submit;
      SubmitIndexesItself(at, cmd.rq);
    }
  }

  lemma {:induction false} RunKeepsIndexed(selected: Db, at: Db, cmds: seq<Cmd>, page: seq<Id>)
    requires KeptOrIndexed(selected, at, page)
    ensures KeptOrIndexed(selected, Run(at, cmds), page)
    decreases |cmds|
  {
    if cmds != [] {
      StepKeepsIndexed(selected, at, cmds[0], page);
      RunKeepsIndexed(selected, Apply(at, cmds[0]), cmds[1..], page);
    }
  }

  /** What the selected manifests name, the manifests now stored under the same ids still name. */
  ghost predicate StillNamed(selected: Db, at: Db, page: seq<Id>) {
    forall v :: v in page && v in selected.versions && v in at.versions ==>
      forall h :: h in Hashes(selected.versions[v].manifest) && h != "" ==> h in Hashes(at.versions[v].manifest)
  }

  /** Whatever ran since the select, ids purged and stored anew included: an insert that goes through keeps
      the index true if and only if no version of the page has been replaced by one without some chunk of
      the old manifest. The source does not look. */
  lemma InsertSoundExactly(selected: Db, cmds: seq<Cmd>, page: seq<Id>)
    requires Core(selected) && Runs(selected, cmds)
    ensures var at, rows := Run(selected, cmds), RowsOf(selected.versions, page);
            IndexSound(Indexed(at, rows)) <==> !RowsFit(at, rows) || StillNamed(selected, at, page)
  {
    var at := Run(selected, cmds);
    RunKeepsInv(selected, cmds);
    RunKeepsIndexed(selected, selected, cmds, page);
    hide Run, Runs;
    InsertedSound(selected, at, page);
  }

  lemma InsertedSound(selected: Db, at: Db, page: seq<Id>)
    requires IndexSound(at) && KeptOrIndexed(selected, at, page)
    ensures var rows := RowsOf(selected.versions, page);
            IndexSound(Indexed(at, rows)) <==> !RowsFit(at, rows) || StillNamed(selected, at, page)
  {
    var rows := RowsOf(selected.versions, page);
    RowsMembers(selected.versions, page);
    hide RowsOf, Hashes;
    if !RowsFit(at, rows) {
      RefusedChangesNothing(at, rows);
    } else {
      IndexedAdds(at, rows);
      if StillNamed(selected, at, page) {
        forall k | k in rows && k !in at.index
          ensures k.1 in Hashes(at.versions[k.0].manifest) && rows[k] == at.versions[k.0].node
        {
          assert (k.0, k.1) == k;
        }
      }
      if IndexSound(Indexed(at, rows)) {
        forall v, h | v in page && v in selected.versions && v in at.versions
                      && h in Hashes(selected.versions[v].manifest) && h != ""
          ensures h in Hashes(at.versions[v].manifest)
        {
          assert (v, h) in rows;
          assert (v, h) in Indexed(at, rows).index;
        }
      }
    }
  }

  /** Inserting a page's rows covers its versions: the selected ones by these rows, later ones by their own. */
  lemma PageCovers(selected: Db, db: Db, after: Db, pending: set<Id>, page: seq<Id>)
    requires Covered(db, pending) && KeptOrIndexed(selected, db, page)
    requires after == db.(index := after.index) && forall k :: k in db.index || k in RowsOf(selected.versions, page) ==> k in after.index
    ensures Covered(after, pending - Ids(page))
  {
    forall v, h | v in after.versions && h in Hashes(after.versions[v].manifest) && h != "" && (v in page || v !in pending)
      ensures (v, h) in after.index
    {
      if v in page && v in selected.versions && db.versions[v] == selected.versions[v] {
        assert (v, h) in RowsOf(selected.versions, page);
      } else if v in page {
        assert SelfIndexed(db, v, db.versions[v].manifest);
      }
    }
  }

  /** The page was selected in one state and its rows reach the tables in a later one, whatever ran between. */
  lemma PageInserted(selected: Db, trace: seq<Cmd>, page: seq<Id>, pending: set<Id>)
    requires Core(selected) && Runs(selected, trace) && Covered(selected, pending) && Stored(selected, page)
    ensures var values, at := RowsOf(selected.versions, page), Run(selected, trace);
            var after := Indexed(at, values);
            && (RowsFit(at, values) ==> Covered(after, pending - Ids(page)))
            && (!RowsFit(at, values) ==> after == at)
            && (Core(after) <==> !RowsFit(at, values) || StillNamed(selected, at, page))
  {
    var values, at := RowsOf(selected.versions, page), Run(selected, trace);
    RunKeepsCovered(selected, trace, pending);
    RunKeepsInv(selected, trace);
    SelfKept(selected, page);
    RunKeepsIndexed(selected, selected, trace, page);
    InsertSoundExactly(selected, trace, page);
    CoreButIndex(at, values);
    hide Core, Run, Runs, Covered, RowsOf, KeptOrIndexed, StillNamed, Indexed, RowsFit;
    IndexedHolds(at, values);
    if RowsFit(at, values) {
      PageCovers(selected, at, Indexed(at, values), pending, page);
    } else {
      RefusedChangesNothing(at, values);
    }
  }

  lemma SelfKept(db: Db, page: seq<Id>)
    ensures KeptOrIndexed(db, db, page)
  {
  }

  /** What an insert can break is the truth of the index alone. */
  lemma CoreButIndex(db: Db, rows: Index)
    requires Core(db)
    ensures Core(Indexed(db, rows)) <==> IndexSound(Indexed(db, rows))
  {
    IndexOnlyGrows(db, rows);
    OnlyIndexDiffers(db, Indexed(db, rows));
    IndexedRefers(db, rows);
    hide Indexed, ForeignKeysHold, IndexSound, CurrentOwned, SiblingsDistinct, LogOrdered, SeqsCurrent;
  }

  lemma IndexedRefers(db: Db, rows: Index)
    requires ForeignKeysHold(db)
    ensures ForeignKeysHold(Indexed(db, rows))
  {
  }

  /** As long as no version is stored anew under an id of the page, the insert is a step of the run, and goes
      through exactly when all content of the page is still there. */
  lemma PageUndisturbed(selected: Db, trace: seq<Cmd>, page: seq<Id>)
    requires Core(selected) && Runs(selected, trace) && forall cmd :: cmd in trace ==> !MayStore(cmd, page)
    ensures var values, at := RowsOf(selected.versions, page), Run(selected, trace);
            && Runs(selected, trace + [IndexRows(values)]) && Indexed(at, values) == Run(selected, trace + [IndexRows(values)])
            && Core(Indexed(at, values)) && (RowsFit(at, values) <==> StillThere(selected, at, page))
  {
    var values, at := RowsOf(selected.versions, page), Run(selected, trace);
    KeptAtFirst(selected, page);
    RunKeepsInv(selected, trace);
    CoreRefers(at);
    hide Core, Run, Runs, RowsOf, KeptOrGone, RowsDescribe, Indexed, ForeignKeysHold, StillThere, RowsFit;
    RunKeepsOrDrops(selected, selected, trace, page);
    RowsStillDescribe(selected, at, page);
    RunOneMore(selected, trace, IndexRows(values));
    StepKeepsCore(at, IndexRows(values));
    StillThereFits(selected, at, page);
  }

  lemma KeptAtFirst(db: Db, page: seq<Id>)
    ensures KeptOrGone(db, db, page)
  {
  }

  lemma CoreRefers(db: Db)
    ensures Core(db) ==> ForeignKeysHold(db)
  {
  }

  /** The steps that store no version under one of the ids. */
  function NotStoring(cmds: seq<Cmd>, ids: seq<Id>): (kept: seq<Cmd>)
    ensures forall cmd :: cmd in kept ==> cmd in cmds && !MayStore(cmd, ids)
    ensures (forall cmd :: cmd in cmds ==> !MayStore(cmd, ids)) ==> kept == cmds
  {
    if cmds == [] then []
    else (if MayStore(cmds[0], ids) then [] else [cmds[0]]) + NotStoring(cmds[1..], ids)
  }

  /** Other steps, then the insert of a page's rows: false when a foreign key fails. Whatever runs in between,
      an insert that goes through covers the page, and it keeps the tables in order if and only if no version
      of the page has been replaced by one that lacks a chunk of the selected manifest. As long as none is
      stored anew under its id, the insert fails exactly when a purge has removed a version of the page or a
      collection one of its chunks. */
  method InsertPage(store: MetadataStore, values: Index, others: seq<Cmd>, page: seq<Id>, ghost pending: set<Id>)
    returns (ok: bool, ghost trace: seq<Cmd>)
    requires Core(store.Snapshot())
    requires values == RowsOf(store.Snapshot().versions, page) && Stored(store.Snapshot(), page)
    requires Covered(store.Snapshot(), pending)
    modifies store
    ensures Runs(old(store.Snapshot()), trace) && OnlyFrom(trace, others)
    ensures var at := Run(old(store.Snapshot()), trace);
            && store.Snapshot() == Indexed(at, values) && (ok <==> RowsFit(at, values))
            && (Core(store.Snapshot()) <==> !ok || StillNamed(old(store.Snapshot()), at, page))
            && (if ok then Covered(store.Snapshot(), pending - Ids(page)) else store.Snapshot() == at)
    ensures (forall cmd :: cmd in trace ==> !MayStore(cmd, page)) ==>
              && Runs(old(store.Snapshot()), trace + [IndexRows(values)])
              && store.Snapshot() == Run(old(store.Snapshot()), trace + [IndexRows(values)]) && Core(store.Snapshot())
              && (ok <==> StillThere(old(store.Snapshot()), Run(old(store.Snapshot()), trace), page))
  {
    hide *;
    ghost var selected := store.Snapshot();
    trace := store.Interfere(others);
    PageInserted(selected, trace, page, pending);
    if forall cmd :: cmd in trace ==> !MayStore(cmd, page) {
      PageUndisturbed(selected, trace, page);
    }
    ok := InsertValues(store, values);
  }

  lemma NoneStored(trace: seq<Cmd>, others: seq<Cmd>, page: seq<Id>)
    requires OnlyFrom(trace, NotStoring(others, page))
    ensures forall cmd :: cmd in trace ==> !MayStore(cmd, page)
  {
  }

  lemma NoCommands(trace: seq<Cmd>, cmds: seq<Cmd>, page: seq<Id>)
    requires OnlyFrom(trace, cmds) || OnlyFrom(trace, NotStoring(cmds, page))
    ensures |cmds| == 0 ==> trace == []
  {
    if trace != [] {
      assert trace[0] in trace;
    }
  }

  // What the rebuilt index is for.

  /** Once a backfill has gone through, the two download checks agree for every reader and every chunk. */
  lemma ParityAfterBackfill(db: Db, grants: Grants, oid: Hash)
    requires Core(db) && Covered(db, {}) && oid != ""
    ensures ScanAllows(db, grants, oid) <==> IndexAllows(db, grants, oid)
  {
    CoreSound(db);
    hide Core, ScanAllows, IndexAllows, NodesIndexed;
    IndexedForNodes(db, oid);
    LookupNeverAllowsMore(db, grants, oid);
    IndexedAllows(db, grants, oid);
  }

  lemma CoreSound(db: Db)
    ensures Core(db) ==> IndexSound(db)
  {
  }

  // The count of pages done on a server where nothing else runs.

  /** Every chunk that a stored manifest names has its row. */
  ghost predicate AllStaged(db: Db) {
    forall v, h :: v in db.versions && h in Hashes(db.versions[v].manifest) && h != "" ==> h in db.chunks
  }

  ghost predicate Visited(start: Db, lastSeen: Option<Id>, visited: seq<Id>) {
    forall v :: v in visited <==> v in start.versions && lastSeen.Some? && v <= lastSeen.value
  }

  ghost predicate Written(start: Db, db: Db, visited: seq<Id>, attempted: nat) {
    && db == start.(index := start.index + RowsOf(start.versions, visited))
    && attempted == |RowsOf(start.versions, visited)|
    && (forall k :: k in RowsOf(start.versions, visited) ==> k.1 in start.chunks)
  }

  ghost predicate Progress(start: Db, db: Db, lastSeen: Option<Id>, visited: seq<Id>, attempted: nat) {
    Visited(start, lastSeen, visited) && Written(start, db, visited, attempted)
  }

  lemma DisjointSize<K, V>(a: map<K, V>, b: map<K, V>)
    requires a.Keys !! b.Keys
    ensures |a + b| == |a| + |b|
  {
    assert (a + b).Keys == a.Keys + b.Keys;
    assert |(a + b).Keys| == |a.Keys| + |b.Keys|;
  }

  lemma RowsOfBoth(versions: Versions, visited: seq<Id>, page: seq<Id>)
    requires forall v :: v in page ==> v !in visited
    ensures RowsOf(versions, visited + page) == RowsOf(versions, visited) + RowsOf(versions, page)
    ensures |RowsOf(versions, visited + page)| == |RowsOf(versions, visited)| + |RowsOf(versions, page)|
  {
    hide RowsOf, Hashes;
    RowsMembers(versions, visited);
    RowsMembers(versions, page);
    RowsMembers(versions, visited + page);
    var done, added, both := RowsOf(versions, visited), RowsOf(versions, page), RowsOf(versions, visited + page);
    assert both.Keys == (done + added).Keys;
    assert both == done + added;
    DisjointSize(done, added);
  }

  lemma NothingDone(db: Db)
    ensures Progress(db, db, None, [], 0)
  {
    assert db.index + RowsOf(db.versions, []) == db.index;
  }

  lemma PageVisits(start: Db, lastSeen: Option<Id>, visited: seq<Id>, size: nat, page: seq<Id>)
    requires Visited(start, lastSeen, visited) && IsPage(start.versions.Keys, lastSeen, size, page) && page != []
    ensures forall v :: v in page ==> v !in visited
    ensures Visited(start, Some(page[|page| - 1]), visited + page)
  {
    var last := page[|page| - 1];
    assert last in page;
    forall v
      ensures v in visited + page <==> v in start.versions && v <= last
    {
      if v in page {
        var i :| 0 <= i < |page| && page[i] == v;
      }
    }
  }

  /** Adding rows that are not there yet, when no key has two values. */
  lemma AddedTwice(index: Index, first: Index, second: Index)
    requires forall k :: k in second && k in index ==> index[k] == second[k]
    requires first.Keys !! second.Keys
    ensures (index + first) + (second - (index + first).Keys) == index + (first + second)
  {
  }

  lemma RowsAgree(db: Db, ids: seq<Id>)
    requires Core(db)
    ensures forall k :: k in RowsOf(db.versions, ids) ==>
              && k.0 in db.versions && RowsOf(db.versions, ids)[k] in db.nodes
              && (k in db.index ==> k.1 in db.chunks && db.index[k] == RowsOf(db.versions, ids)[k])
  {
  }

  /** The insert of rows into an index that holds some of them already. */
  lemma IndexedAdds(db: Db, rows: Index)
    requires RowsFit(db, rows)
    ensures Indexed(db, rows) == db.(index := db.index + (rows - db.index.Keys))
  {
  }

  lemma RowsStaged(start: Db, db: Db, visited: seq<Id>, page: seq<Id>)
    requires Core(start) && db.versions == start.versions && db.chunks == start.chunks
    requires db.index == start.index + RowsOf(start.versions, visited)
    requires RowsFit(db, RowsOf(db.versions, page)) && forall v :: v in page ==> v !in visited
    ensures forall k :: k in RowsOf(start.versions, page) ==> k.1 in start.chunks
  {
    hide RowsOf, Hashes, Core;
    RowsAgree(start, page);
    RowsMembers(start.versions, visited);
    RowsMembers(start.versions, page);
  }

  lemma RowsAdded(start: Db, db: Db, visited: seq<Id>, attempted: nat, page: seq<Id>)
    requires Core(start) && Written(start, db, visited, attempted)
    requires RowsFit(db, RowsOf(db.versions, page)) && forall v :: v in page ==> v !in visited
    ensures var rows := RowsOf(db.versions, page);
            Written(start, Indexed(db, rows), visited + page, attempted + |rows|)
  {
    hide RowsOf, Hashes, Core, RowsFit, Indexed;
    RowsAgree(start, page);
    RowsStaged(start, db, visited, page);
    IndexedAdds(db, RowsOf(db.versions, page));
    RowsMembers(start.versions, visited);
    RowsMembers(start.versions, page);
    RowsOfBoth(start.versions, visited, page);
    AddedTwice(start.index, RowsOf(start.versions, visited), RowsOf(start.versions, page));
  }

  lemma ProgressPage(start: Db, db: Db, lastSeen: Option<Id>, visited: seq<Id>, attempted: nat, size: nat, page: seq<Id>)
    requires Core(start) && Progress(start, db, lastSeen, visited, attempted)
    requires IsPage(db.versions.Keys, lastSeen, size, page) && page != [] && RowsFit(db, RowsOf(db.versions, page))
    ensures var values := RowsOf(db.versions, page);
            Progress(start, Indexed(db, values), Some(page[|page| - 1]), visited + page, attempted + |values|)
  {
    assert db.versions == start.versions;
    hide RowsOf, Core, RowsFit, IsPage, Indexed, Visited, Written;
    PageVisits(start, lastSeen, visited, size, page);
    RowsAdded(start, db, visited, attempted, page);
  }

  /** What a backfill achieves when nothing else runs. It stops with an error, keeping the pages before, if
      and only if some stored manifest names a chunk without a row; otherwise it has visited every version
      and added every missing row. */
  ghost predicate DoneAlone(start: Db, after: Db, result: Option<BackfillResult>, visited: seq<Id>) {
    && (result.Some? <==> AllStaged(start))
    && (result.Some? ==>
          && (forall v :: v in visited <==> v in start.versions)
          && result.value == BackfillResult(|visited|, |RowsOf(start.versions, visited)|)
          && after.index == start.index + RowsOf(start.versions, visited))
    && after == start.(index := after.index) && start.index.Keys <= after.index.Keys
  }

  lemma StoppedAlone(start: Db, db: Db, lastSeen: Option<Id>, visited: seq<Id>, attempted: nat, size: nat, page: seq<Id>)
    requires Core(start) && Progress(start, db, lastSeen, visited, attempted)
    requires IsPage(db.versions.Keys, lastSeen, size, page) && !RowsFit(db, RowsOf(db.versions, page))
    ensures DoneAlone(start, Indexed(db, RowsOf(db.versions, page)), None, visited)
  {
    var values := RowsOf(db.versions, page);
    var k :| k in values && k !in db.index && !(k.0 in db.versions && k.1 in db.chunks && values[k] in db.nodes);
    RowsRefer(start, page);
    assert k.1 !in start.chunks;
    assert k !in db.index && k in values - db.index.Keys;
    assert Indexed(db, values) == db;
  }

  lemma FinishedAlone(start: Db, db: Db, lastSeen: Option<Id>, visited: seq<Id>, attempted: nat, size: nat)
    requires Core(start) && Progress(start, db, lastSeen, visited, attempted)
    requires IsPage(db.versions.Keys, lastSeen, size, []) && size > 0
    ensures DoneAlone(start, db, Some(BackfillResult(|visited|, attempted)), visited)
  {
    forall v | v in start.versions
      ensures v in visited
    {
      assert !After(lastSeen, v);
    }
    forall v, h | v in start.versions && h in Hashes(start.versions[v].manifest) && h != ""
      ensures h in start.chunks
    {
      assert (v, h) in RowsOf(start.versions, visited);
    }
  }

  lemma CoveredStaged(db: Db)
    requires ForeignKeysHold(db) && Covered(db, {})
    ensures AllStaged(db)
  {
    forall v, h | v in db.versions && h in Hashes(db.versions[v].manifest) && h != ""
      ensures h in db.chunks
    {
      assert (v, h) in db.index;
    }
  }

  lemma CoveredHasThem(db: Db, ids: seq<Id>)
    requires Core(db) && Covered(db, {})
    ensures forall k :: k in RowsOf(db.versions, ids) ==> k in db.index && db.index[k] == RowsOf(db.versions, ids)[k]
  {
    RowsAgree(db, ids);
    RowsMembers(db.versions, ids);
    hide RowsOf, Core, Hashes;
    forall k | k in RowsOf(db.versions, ids)
      ensures k in db.index
    {
      assert k == (k.0, k.1);
    }
  }

  lemma CoveredHasRows(db: Db, ids: seq<Id>)
    requires Core(db) && Covered(db, {})
    ensures db.index + RowsOf(db.versions, ids) == db.index
  {
    hide RowsOf, Covered, Core;
    CoveredHasThem(db, ids);
  }

  /** A complete index is left as it is by a further run. */
  lemma NothingLeftToDo(db: Db, after: Db, result: Option<BackfillResult>, visited: seq<Id>)
    requires Core(db) && Covered(db, {}) && DoneAlone(db, after, result, visited)
    ensures result.Some? && after == db
  {
    CoveredStaged(db);
    hide RowsOf, Covered, Core, AllStaged;
    CoveredHasRows(db, visited);
  }

  ghost function AboveLast(versions: Versions, lastSeen: Option<Id>): set<Id> {
    set v | v in versions && After(lastSeen, v)
  }

  lemma FewerAbove(versions: Versions, lastSeen: Option<Id>, size: nat, page: seq<Id>)
    requires IsPage(versions.Keys, lastSeen, size, page) && page != []
    ensures |AboveLast(versions, Some(page[|page| - 1]))| < |AboveLast(versions, lastSeen)|
  {
    var last := page[|page| - 1];
    assert last in page && last in AboveLast(versions, lastSeen);
    SmallerSet(AboveLast(versions, Some(last)), AboveLast(versions, lastSeen), last);
  }

  lemma SmallerSet<T>(a: set<T>, b: set<T>, x: T)
    requires a <= b && x in b && x !in a
    ensures |a| < |b|
  {
    assert a <= b - {x};
    SubsetSize(a, b - {x});
  }

  lemma {:induction false} SubsetSize<T>(a: set<T>, b: set<T>)
    requires a <= b
    ensures |a| <= |b|
  {
    assert b == a + (b - a);
  }

  /** The versions that are still to be indexed lie above the last one seen. */
  ghost predicate PendingAbove(db: Db, lastSeen: Option<Id>, pending: set<Id>) {
    Covered(db, pending) && forall v :: v in pending ==> After(lastSeen, v)
  }

  lemma PendingShrinks(db: Db, after: Db, lastSeen: Option<Id>, pending: set<Id>, size: nat, page: seq<Id>)
    requires IsPage(db.versions.Keys, lastSeen, size, page) && page != [] && PendingAbove(db, lastSeen, pending)
    requires Covered(after, pending * db.versions.Keys - Ids(page))
    ensures PendingAbove(after, Some(page[|page| - 1]), pending * db.versions.Keys - Ids(page))
  {
    var last := page[|page| - 1];
    forall v | v in pending && v in db.versions && v !in page
      ensures last < v
    {
      assert last in page;
    }
  }

  lemma PendingStored(db: Db, lastSeen: Option<Id>, pending: set<Id>)
    requires PendingAbove(db, lastSeen, pending)
    ensures Covered(db, pending * db.versions.Keys)
  {
  }

  lemma NothingPending(db: Db, lastSeen: Option<Id>, pending: set<Id>, size: nat)
    requires PendingAbove(db, lastSeen, pending) && IsPage(db.versions.Keys, lastSeen, size, []) && size > 0
    ensures Covered(db, {})
  {
    assert pending * db.versions.Keys == {};
    PendingStored(db, lastSeen, pending);
  }

  /** The versions seen so far, in order. */
  ghost predicate InOrder(lastSeen: Option<Id>, visited: seq<Id>) {
    Ascends(visited) && forall v :: v in visited ==> !After(lastSeen, v)
  }

  lemma OrderGrows(keys: set<Id>, lastSeen: Option<Id>, visited: seq<Id>, size: nat, page: seq<Id>)
    requires InOrder(lastSeen, visited) && IsPage(keys, lastSeen, size, page) && page != []
    ensures InOrder(Some(page[|page| - 1]), visited + page) && |visited + page| == |visited| + |page|
  {
    var last, longer := page[|page| - 1], visited + page;
    assert last in page;
    forall i, j | 0 <= i < j < |longer|
      ensures longer[i] < longer[j]
    {
      assert i < |visited| ==> longer[i] in visited;
      assert j >= |visited| ==> longer[j] in page;
    }
    forall v | v in longer
      ensures v <= last
    {
      if v in page {
        var i :| 0 <= i < |page| && page[i] == v;
      }
    }
  }

  function Batch(batches: seq<seq<Cmd>>, i: nat): seq<Cmd> {
    if i < |batches| then batches[i] else []
  }

  function Remaining(before: seq<seq<Cmd>>, during: seq<seq<Cmd>>, i: nat): nat {
    if i < |before| + |during| then |before| + |during| - i else 0
  }

  /** A page, the versions that it was selected from, and those that are still to be indexed after it. */
  datatype PageStep = PageStep(page: seq<Id>, attempted: nat, ok: bool, keys: set<Id>, left: set<Id>)

  /** All versions of the page were stored at one point of the run; at its end one that has content, or a chunk
      row of it, is missing. */
  ghost predicate LostSince(start: Db, trace: seq<Cmd>, cut: nat, page: seq<Id>) {
    && cut <= |trace| && Stored(Run(start, trace[..cut]), page)
    && !StillThere(Run(start, trace[..cut]), Run(start, trace), page)
  }

  ghost predicate Lost(start: Db, trace: seq<Cmd>, page: seq<Id>) {
    exists cut: nat :: LostSince(start, trace, cut, page)
  }

  lemma RunOfPrefix(start: Db, trace: seq<Cmd>, more: seq<Cmd>, cut: nat)
    requires cut <= |more|
    ensures Run(start, (trace + more)[..|trace| + cut]) == Run(Run(start, trace), more[..cut])
  {
    RunAppend(start, trace, more[..cut]);
    assert (trace + more)[..|trace| + cut] == trace + more[..cut];
  }

  lemma LostAtSelect(start: Db, trace: seq<Cmd>, more: seq<Cmd>, page: seq<Id>)
    requires Stored(Run(start, trace), page)
    requires !StillThere(Run(start, trace), Run(Run(start, trace), more), page)
    ensures Lost(start, trace + more, page)
  {
    hide Stored, StillThere;
    RunAppend(start, trace, more);
    assert (trace + more)[..|trace|] == trace;
    assert LostSince(start, trace + more, |trace|, page);
  }

  lemma LostLater(start: Db, trace: seq<Cmd>, more: seq<Cmd>, page: seq<Id>)
    requires Lost(Run(start, trace), more, page)
    ensures Lost(start, trace + more, page)
  {
    hide Stored, StillThere, Run;
    var cut: nat :| LostSince(Run(start, trace), more, cut, page);
    RunAppend(start, trace, more);
    RunOfPrefix(start, trace, more, cut);
    assert LostSince(start, trace + more, |trace| + cut, page);
  }

  /** Other steps ran, the page was selected, and its rows were inserted or refused. */
  ghost predicate PageDone(at: Db, after: Db, more: seq<Cmd>, size: nat, lastSeen: Option<Id>, step: PageStep, quiet: bool) {
    && Core(after) && Runs(at, more) && after == Run(at, more)
    && IsPage(step.keys, lastSeen, size, step.page)
    && (|step.page| == 0 ==> step.ok && (size > 0 ==> Covered(after, {})))
    && (|step.page| > 0 && step.ok ==> PendingAbove(after, Some(step.page[|step.page| - 1]), step.left))
    && (!step.ok ==> Lost(at, more, step.page))
    && (|step.page| == 0 && quiet ==> after == at)
    && (quiet ==>
          var rows := RowsOf(at.versions, step.page);
          && after.versions == at.versions && step.keys == at.versions.Keys && step.attempted == |rows|
          && after == Indexed(at, rows) && (step.ok <==> RowsFit(at, rows)))
  }

  /** Other steps, the select of a page, and its insert. */
  method NextPage(
    store: MetadataStore, pageSize: nat, lastSeen: Option<Id>, before: seq<Cmd>, during: seq<Cmd>, ghost pending: set<Id>)
    returns (page: seq<Id>, attempted: nat, ok: bool, ghost trace: seq<Cmd>, ghost keys: set<Id>, ghost left: set<Id>)
    requires Core(store.Snapshot()) && PendingAbove(store.Snapshot(), lastSeen, pending)
    modifies store
    ensures PageDone(old(store.Snapshot()), store.Snapshot(), trace, pageSize, lastSeen,
                     PageStep(page, attempted, ok, keys, left), |before| == |during| == 0)
  {
    hide *;
    ghost var start := store.Snapshot();
    EmptyRun(start);
    trace := store.Interfere(before);
    NoCommands(trace, before, []);
    ghost var selected := store.Snapshot();
    StillPending(start, trace, lastSeen, pending);
    assert |before| == 0 ==> selected == start;
    page := SelectVersionPage(store.Snapshot().versions, pageSize, lastSeen);
    keys := selected.versions.Keys;
    if |page| == 0 {
      left := {};
      EmptyPageDone(start, trace, selected, pageSize, lastSeen, pending, PageStep(page, 0, true, keys, left), |before| == 0, |during| == 0);
      return page, 0, true, trace, keys, left;
    }
    var values := RowsOf(store.Snapshot().versions, page);
    attempted := |values|;
    PendingStored(selected, lastSeen, pending);
    PageWithin(selected, lastSeen, pageSize, page);
    ghost var more;
    ok, more := InsertPage(store, values, NotStoring(during, page), page, pending * keys);
    NoneStored(more, during, page);
    NoCommands(more, during, page);
    EmptyRun(selected);
    more := more + [IndexRows(values)];
    left := pending * keys - Ids(page);
    FullPageDone(start, trace, selected, more, store.Snapshot(), pageSize, lastSeen, pending,
                 PageStep(page, attempted, ok, keys, left), |before| == 0, |during| == 0);
    trace := trace + more;
  }

  lemma EmptyPageDone(start: Db, trace: seq<Cmd>, selected: Db, size: nat, lastSeen: Option<Id>, pending: set<Id>,
                      step: PageStep, noneBefore: bool, noneDuring: bool)
    requires Core(selected) && Runs(start, trace) && selected == Run(start, trace) && (noneBefore ==> selected == start)
    requires PendingAbove(selected, lastSeen, pending)
    requires step == PageStep([], 0, true, selected.versions.Keys, {}) && IsPage(step.keys, lastSeen, size, [])
    ensures PageDone(start, selected, trace, size, lastSeen, step, noneBefore && noneDuring)
  {
    NoRows(start);
    hide Core, Runs, Run, PendingAbove, IsPage, RowsOf, Indexed, RowsFit, Covered, Lost;
    if size > 0 {
      NothingPending(selected, lastSeen, pending, size);
    }
  }

  lemma FullPageDone(start: Db, trace: seq<Cmd>, selected: Db, more: seq<Cmd>, after: Db, size: nat, lastSeen: Option<Id>,
                     pending: set<Id>, step: PageStep, noneBefore: bool, noneDuring: bool)
    requires Core(after) && Runs(start, trace) && selected == Run(start, trace) && (noneBefore ==> selected == start)
    requires Runs(selected, more) && after == Run(selected, more) && PendingAbove(selected, lastSeen, pending)
    requires |step.page| > 0 && step.keys == selected.versions.Keys && IsPage(step.keys, lastSeen, size, step.page)
    requires step.left == pending * step.keys - Ids(step.page) && (step.ok ==> Covered(after, step.left))
    requires step.attempted == |RowsOf(selected.versions, step.page)|
    requires !step.ok ==> Stored(selected, step.page) && !StillThere(selected, after, step.page)
    requires noneDuring ==>
               var rows := RowsOf(selected.versions, step.page);
               after == Indexed(selected, rows) && (step.ok <==> RowsFit(selected, rows))
    ensures PageDone(start, after, trace + more, size, lastSeen, step, noneBefore && noneDuring)
  {
    hide Core, Runs, Run, PendingAbove, IsPage, RowsOf, Indexed, RowsFit, Covered, Ids, Stored, StillThere, Lost;
    if step.ok {
      PendingShrinks(selected, after, lastSeen, pending, size, step.page);
    } else {
      LostAtSelect(start, trace, more, step.page);
    }
    RunAppend(start, trace, more);
    IndexedKeepsVersions(selected, RowsOf(selected.versions, step.page));
  }

  lemma IndexedKeepsVersions(db: Db, rows: Index)
    ensures Indexed(db, rows).versions == db.versions
  {
  }

  lemma StillPending(db: Db, cmds: seq<Cmd>, lastSeen: Option<Id>, pending: set<Id>)
    requires PendingAbove(db, lastSeen, pending)
    ensures PendingAbove(Run(db, cmds), lastSeen, pending)
  {
    RunKeepsCovered(db, cmds, pending);
  }

  lemma PageWithin(db: Db, lastSeen: Option<Id>, size: nat, page: seq<Id>)
    requires IsPage(db.versions.Keys, lastSeen, size, page)
    ensures Stored(db, page)
  {
  }

  lemma NoRows(db: Db)
    ensures RowsOf(db.versions, []) == map[] && Indexed(db, map[]) == db && RowsFit(db, map[])
  {
    NoRowsNothing(db);
  }

  /** The loop's variables, and the versions that are still to be indexed. */
  datatype Position = Position(lastSeen: Option<Id>, visited: seq<Id>, attempted: nat, pending: set<Id>)

  /** Between two pages; `alone` says that no other step runs from the start to the end. */
  ghost predicate Midway(start: Db, db: Db, trace: seq<Cmd>, pos: Position, alone: bool) {
    && Core(db) && Runs(start, trace) && db == Run(start, trace)
    && PendingAbove(db, pos.lastSeen, pos.pending) && InOrder(pos.lastSeen, pos.visited)
    && (alone ==> Progress(start, db, pos.lastSeen, pos.visited, pos.attempted))
  }

  lemma MidwayAtStart(start: Db, alone: bool)
    requires Core(start)
    ensures Midway(start, start, [], Position(None, [], 0, start.versions.Keys), alone)
  {
    NothingDone(start);
  }

  lemma MidwayNext(start: Db, at: Db, after: Db, trace: seq<Cmd>, more: seq<Cmd>, size: nat, pos: Position, step: PageStep,
                   next: Position, quiet: bool, alone: bool)
    requires Core(start) && Midway(start, at, trace, pos, alone) && (alone ==> quiet)
    requires PageDone(at, after, more, size, pos.lastSeen, step, quiet) && |step.page| > 0 && step.ok
    requires next == Position(Some(step.page[|step.page| - 1]), pos.visited + step.page, pos.attempted + step.attempted, step.left)
    ensures Midway(start, after, trace + more, next, alone)
    ensures quiet ==> |AboveLast(after.versions, next.lastSeen)| < |AboveLast(at.versions, pos.lastSeen)|
    ensures |next.visited| == |pos.visited| + |step.page|
  {
    hide Core, Run, Runs, PendingAbove, InOrder, IsPage, Progress, AboveLast, RowsOf, RowsFit, Indexed, Covered, Lost;
    RunAppend(start, trace, more);
    OrderGrows(step.keys, pos.lastSeen, pos.visited, size, step.page);
    if quiet {
      FewerAbove(at.versions, pos.lastSeen, size, step.page);
    }
    if alone {
      ProgressPage(start, at, pos.lastSeen, pos.visited, pos.attempted, size, step.page);
    }
  }

  /** The last page is empty, or its insert has failed. */
  lemma MidwayEnds(start: Db, at: Db, after: Db, trace: seq<Cmd>, more: seq<Cmd>, size: nat, pos: Position, step: PageStep,
                   quiet: bool, alone: bool)
    requires Core(start) && Midway(start, at, trace, pos, alone) && (alone ==> quiet)
    requires PageDone(at, after, more, size, pos.lastSeen, step, quiet) && (|step.page| == 0 || !step.ok)
    ensures Runs(start, trace + more) && after == Run(start, trace + more) && Core(after)
    ensures Ascends(pos.visited) && (step.ok && size > 0 ==> Covered(after, {})) && (|step.page| == 0 ==> step.ok)
    ensures !step.ok ==> Lost(start, trace + more, step.page)
    ensures alone && size > 0 ==>
              DoneAlone(start, after, if step.ok then Some(BackfillResult(|pos.visited|, pos.attempted)) else None, pos.visited)
  {
    hide Core, Run, Runs, PendingAbove, Ascends, IsPage, Progress, AboveLast, RowsOf, RowsFit, Indexed, Covered, DoneAlone,
      Lost;
    RunAppend(start, trace, more);
    if !step.ok {
      LostLater(start, trace, more, step.page);
    }
    if alone && size > 0 {
      if step.ok {
        FinishedAlone(start, at, pos.lastSeen, pos.visited, pos.attempted, size);
      } else {
        StoppedAlone(start, at, pos.lastSeen, pos.visited, pos.attempted, size, step.page);
      }
    }
  }

  lemma MidwayOnly(start: Db, db: Db, trace: seq<Cmd>, pos: Position, alone: bool)
    requires Midway(start, db, trace, pos, alone)
    ensures Core(db) && PendingAbove(db, pos.lastSeen, pos.pending)
  {
  }

  lemma BatchesQuiet(before: seq<seq<Cmd>>, during: seq<seq<Cmd>>, i: nat)
    ensures Remaining(before, during, i) == 0 || |before| == |during| == 0 ==> |Batch(before, i)| == |Batch(during, i)| == 0
  {
  }

  /** `backfillVersionChunks`, with batches of other steps before each select and between a select and its
      insert. Visits versions in the order of their ids, each at most once, and ends with every row in place,
      whichever versions the other steps have added or purged. None is the error of an insert that a foreign
      key turned down, which means that a version with content, stored when its page was selected, or one of
      its chunk rows is missing by then. As in `InsertPage`, the steps of a gap that may store a version anew
      under an id of the page are left out. */
  method BackfillVersionChunks(store: MetadataStore, pageSize: nat, before: seq<seq<Cmd>>, during: seq<seq<Cmd>>)
    returns (result: Option<BackfillResult>, ghost trace: seq<Cmd>, ghost visited: seq<Id>)
    requires Core(store.Snapshot())
    modifies store
    ensures Runs(old(store.Snapshot()), trace) && store.Snapshot() == Run(old(store.Snapshot()), trace) && Core(store.Snapshot())
    ensures Ascends(visited) && (result.Some? ==> result.value.versionsScanned == |visited|)
    ensures result.Some? && pageSize > 0 ==> Covered(store.Snapshot(), {})
    ensures result.None? ==> exists page :: Lost(old(store.Snapshot()), trace, page)
    ensures pageSize > 0 && |before| == |during| == 0 ==>
              DoneAlone(old(store.Snapshot()), store.Snapshot(), result, visited)
  {
    hide *;
    ghost var start, alone := store.Snapshot(), |before| == |during| == 0;
    var lastSeen: Option<Id> := None;
    var versionsScanned, rowsAttempted, i := 0, 0, 0;
    ghost var pos := Position(None, [], 0, start.versions.Keys);
    trace := [];
    MidwayAtStart(start, alone);
    while true
      invariant Midway(start, store.Snapshot(), trace, pos, alone)
      invariant lastSeen == pos.lastSeen && rowsAttempted == pos.attempted && versionsScanned == |pos.visited|
      decreases Remaining(before, during, i), |AboveLast(store.Snapshot().versions, lastSeen)|
    {
      ghost var at, quiet := store.Snapshot(), |Batch(before, i)| == |Batch(during, i)| == 0;
      MidwayOnly(start, at, trace, pos, alone);
      BatchesQuiet(before, during, i);
      var page, attempted, ok;
      ghost var more, keys, left;
      page, attempted, ok, more, keys, left :=
        NextPage(store, pageSize, lastSeen, Batch(before, i), Batch(during, i), pos.pending);
      ghost var step := PageStep(page, attempted, ok, keys, left);
      if |page| == 0 {
        MidwayEnds(start, at, store.Snapshot(), trace, more, pageSize, pos, step, quiet, alone);
        return Some(BackfillResult(versionsScanned, rowsAttempted)), trace + more, pos.visited;
      }
      if !ok {
        MidwayEnds(start, at, store.Snapshot(), trace, more, pageSize, pos, step, quiet, alone);
        return None, trace + more, pos.visited;
      }
      lastSeen := Some(page[|page| - 1]);
      rowsAttempted := rowsAttempted + attempted;
      ghost var next := Position(lastSeen, pos.visited + page, rowsAttempted, left);
      MidwayNext(start, at, store.Snapshot(), trace, more, pageSize, pos, step, next, quiet, alone);
      RemainingFalls(before, during, i);
      trace, pos := trace + more, next;
      versionsScanned := versionsScanned + |page|;
      i := i + 1;
    }
  }

  lemma RemainingFalls(before: seq<seq<Cmd>>, during: seq<seq<Cmd>>, i: nat)
    ensures if Remaining(before, during, i) == 0 then Remaining(before, during, i + 1) == 0
            else Remaining(before, during, i + 1) < Remaining(before, during, i)
  {
  }

  /** A collection takes away what the backfill needs if and only if it deletes the row of a chunk that some
      stored manifest names and the index does not name yet. */
  lemma CollectionBreaksBackfillExactly(db: Db, hash: Hash)
    requires AllStaged(db)
    ensures AllStaged(ChunkDeleted(db, hash)) <==>
            !Collectable(db, hash) || hash == "" || forall v :: v in db.versions ==> hash !in Hashes(db.versions[v].manifest)
  {
    if Collectable(db, hash) && hash != "" {
      forall v | v in db.versions && hash in Hashes(db.versions[v].manifest)
        ensures !AllStaged(ChunkDeleted(db, hash))
      {
        assert hash !in ChunkDeleted(db, hash).chunks;
      }
    }
  }
}
