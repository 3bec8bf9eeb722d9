/** The three collection passes, with other requests and jobs running between their statements. */
module Gc {
  import opened Types
  import opened Steps
  import opened Invariants
  import opened History
  import opened Store

  datatype Mode = Audit | Delete

  datatype PassResult = PassResult(eligible: nat, totalEligible: nat, deleted: nat, errors: nat)

  /** A batch size: None is the unbounded sentinel. */
  type BatchSize = Option<int>

  ghost predicate Distinct<T>(rows: seq<T>) {
    forall i, j :: 0 <= i < j < |rows| ==> rows[i] != rows[j]
  }

  /** Distinct eligible rows, as many as the limit allows; which ones is up to the database. */
  ghost predicate Selection<T>(eligible: set<T>, batchSize: BatchSize, rows: seq<T>) {
    && Distinct(rows)
    && (forall i :: 0 <= i < |rows| ==> rows[i] in eligible)
    && |rows| == if batchSize.Some? && batchSize.value < |eligible| then batchSize.value else |eligible|
  }

  /** The select with its limit; None where a finite limit is not positive, which is an error. */
  method SelectRows<T(==)>(eligible: set<T>, batchSize: BatchSize) returns (rows: Option<seq<T>>)
    ensures rows.None? <==> batchSize.Some? && batchSize.value <= 0
    ensures rows.Some? ==> Selection(eligible, batchSize, rows.value)
  {
    if batchSize.Some? && batchSize.value <= 0 {
      return None;
    }
    var picked, remaining := [], eligible;
    while remaining != {} && (batchSize.None? || |picked| < batchSize.value)
      invariant remaining <= eligible && |picked| + |remaining| == |eligible|
      invariant batchSize.Some? ==> |picked| <= batchSize.value
      invariant forall i :: 0 <= i < |picked| ==> picked[i] in eligible && picked[i] !in remaining
      invariant Distinct(picked)
    {
      var x :| x in remaining;
      picked, remaining := picked + [x], remaining - {x};
    }
    return Some(picked);
  }

  function UnreferencedChunks(db: Db, cutoff: Time): set<Hash> {
    set h | h in db.chunks && db.chunks[h].refcount == 0 && db.chunks[h].createdAt < cutoff
  }

  /** The blob deletes that the object store turned down. */
  function Failures(blobDeletes: seq<Hash>, answersOk: set<Hash>): nat {
    if blobDeletes == [] then 0
    else Failures(blobDeletes[..|blobDeletes| - 1], answersOk)
         + if blobDeletes[|blobDeletes| - 1] in answersOk then 0 else 1
  }

  /** Position p of the run deletes the row of an unreferenced chunk that no index row names. */
  ghost predicate DeletesAt(start: Db, trace: seq<Cmd>, p: nat, hash: Hash) {
    p < |trace| && trace[p] == DeleteChunk(hash) && Collectable(Run(start, trace[..p]), hash)
  }

  /** Position p tries to delete an unreferenced chunk row that a stored version still names, and fails. */
  ghost predicate RefusedAt(start: Db, trace: seq<Cmd>, p: nat) {
    && p < |trace| && trace[p].DeleteChunk?
    && var at, hash := Run(start, trace[..p]), trace[p].hash;
       hash in at.chunks && at.chunks[hash].refcount == 0 && Named(at, hash)
  }

  /** A run so far, with the rows that the pass deleted in it, where it did, and where it was refused. */
  datatype Ledger = Ledger(trace: seq<Cmd>, deleted: seq<Hash>, positions: seq<nat>, refused: seq<nat>)

  ghost predicate Accounted(start: Db, ledger: Ledger) {
    && Runs(start, ledger.trace) && |ledger.deleted| == |ledger.positions|
    && (forall i :: 0 <= i < |ledger.deleted| ==> DeletesAt(start, ledger.trace, ledger.positions[i], ledger.deleted[i]))
    && (forall i :: 0 <= i < |ledger.refused| ==> RefusedAt(start, ledger.trace, ledger.refused[i]))
  }

  lemma NothingYet(start: Db, before: seq<Cmd>)
    requires Runs(start, before)
    ensures Accounted(start, Ledger(before, [], [], []))
  {
  }

  lemma AccountsKept(start: Db, ledger: Ledger, longer: seq<Cmd>)
    requires Accounted(start, ledger) && ledger.trace <= longer && Runs(start, longer)
    ensures Accounted(start, ledger.(trace := longer))
  {
    assert forall k :: 0 <= k <= |ledger.trace| ==> longer[..k] == ledger.trace[..k];
  }

  /** Other steps, then one guarded delete. */
  method CollectOne(store: MetadataStore, hash: Hash, others: seq<Cmd>, ghost start: Db, ghost ledger: Ledger)
    returns (ok: bool, deleted: bool, ghost next: Ledger)
    requires Core(store.Snapshot()) && Accounted(start, ledger) && store.Snapshot() == Run(start, ledger.trace)
    modifies store
    ensures Core(store.Snapshot()) && Accounted(start, next) && store.Snapshot() == Run(start, next.trace)
    ensures ledger.trace <= next.trace
    ensures next.deleted == ledger.deleted + if deleted then [hash] else []
    ensures |next.refused| == |ledger.refused| + if ok then 0 else 1
    ensures deleted ==> ok
  {
    hide Core, Run, Runs, Accounted, Named, Staged, Cascade, Purged, Purgeable, LogWithout, Indexed;
    ghost var more := store.Interfere(others);
    ghost var before := ledger.trace + more;
    assert Runs(start, before) && store.Snapshot() == Run(start, before) by {
      Extended(start, ledger, more);
    }
    RunOneMore(start, before, DeleteChunk(hash));
    StepKeepsCore(store.Snapshot(), DeleteChunk(hash));
    ok, deleted := store.DeleteUnreferencedChunk(hash);
    ghost var longer := before + [DeleteChunk(hash)];
    assert longer[..|longer| - 1] == before;
    AccountsKept(start, ledger, longer);
    next := Ledger(
      longer,
      ledger.deleted + if deleted then [hash] else [],
      ledger.positions + if deleted then [|longer| - 1] else [],
      ledger.refused + if ok then [] else [|longer| - 1]);
    OneMoreAccount(start, ledger.(trace := longer), next, hash, ok, deleted);
  }

  lemma Extended(start: Db, ledger: Ledger, more: seq<Cmd>)
    requires Accounted(start, ledger)
    ensures Runs(start, ledger.trace + more) <==> Runs(Run(start, ledger.trace), more)
    ensures Run(start, ledger.trace + more) == Run(Run(start, ledger.trace), more)
  {
    RunAppend(start, ledger.trace, more);
  }

  lemma OneMoreAccount(start: Db, ledger: Ledger, next: Ledger, hash: Hash, ok: bool, deleted: bool)
    requires Accounted(start, ledger) && ledger.trace != []
    requires var last := |ledger.trace| - 1;
             && (deleted ==> DeletesAt(start, ledger.trace, last, hash)) && (!ok ==> RefusedAt(start, ledger.trace, last))
             && next == Ledger(
                  ledger.trace,
                  ledger.deleted + if deleted then [hash] else [],
                  ledger.positions + if deleted then [last] else [],
                  ledger.refused + if ok then [] else [last])
    ensures Accounted(start, next)
  {
  }

  lemma OneMoreFailure(blobDeletes: seq<Hash>, answersOk: set<Hash>, hash: Hash)
    ensures Failures(blobDeletes + [hash], answersOk) == Failures(blobDeletes, answersOk) + if hash in answersOk then 0 else 1
  {
    assert (blobDeletes + [hash])[..|blobDeletes|] == blobDeletes;
  }

  /** Distinct rows among the first n. */
  ghost predicate PickedFrom(chunks: seq<Hash>, n: nat, picked: seq<Hash>) {
    && n <= |chunks| && |picked| <= n
    && (forall j :: 0 <= j < |picked| ==> picked[j] in chunks[..n])
    && Distinct(picked)
  }

  lemma PickNext(chunks: seq<Hash>, n: nat, picked: seq<Hash>, next: seq<Hash>)
    requires PickedFrom(chunks, n, picked) && n < |chunks| && (next == picked || next == picked + [chunks[n]])
    requires Distinct(chunks)
    ensures PickedFrom(chunks, n + 1, next)
  {
    assert chunks[..n + 1] == chunks[..n] + [chunks[n]];
  }

  lemma NothingPicked(chunks: seq<Hash>, answersOk: set<Hash>)
    ensures PickedFrom(chunks, 0, []) && Failures([], answersOk) == 0
  {
  }

  /** The loop over the selected rows, `others[i]` running before the i-th delete; `before` has run already. */
  method CollectRows(
    store: MetadataStore, chunks: seq<Hash>, others: seq<seq<Cmd>>, answersOk: set<Hash>, ghost start: Db, ghost before: seq<Cmd>)
    returns (blobDeletes: seq<Hash>, errors: nat, ghost ledger: Ledger)
    requires Core(store.Snapshot()) && Runs(start, before) && store.Snapshot() == Run(start, before)
    requires Distinct(chunks)
    modifies store
    ensures before <= ledger.trace && store.Snapshot() == Run(start, ledger.trace)
    ensures Accounted(start, ledger) && ledger.deleted == blobDeletes
    ensures PickedFrom(chunks, |chunks|, blobDeletes)
    ensures errors == |ledger.refused| + Failures(blobDeletes, answersOk)
  {
    hide *;
    blobDeletes, errors, ledger := [], 0, Ledger(before, [], [], []);
    NothingYet(start, before);
    NothingPicked(chunks, answersOk);
    var i := 0;
    while i < |chunks|
      invariant 0 <= i <= |chunks|
      invariant Core(store.Snapshot()) && store.Snapshot() == Run(start, ledger.trace)
      invariant before <= ledger.trace && Accounted(start, ledger) && ledger.deleted == blobDeletes
      invariant PickedFrom(chunks, i, blobDeletes) && errors == |ledger.refused| + Failures(blobDeletes, answersOk)
    {
      var chunkHash := chunks[i];
      var ok, deleted;
      ok, deleted, ledger := CollectOne(store, chunkHash, if i < |others| then others[i] else [], start, ledger);
      PickNext(chunks, i, blobDeletes, ledger.deleted);
      if !ok {
        errors := errors + 1;
      } else if deleted {
        OneMoreFailure(blobDeletes, answersOk, chunkHash);
        blobDeletes := blobDeletes + [chunkHash];
        if chunkHash !in answersOk {
          errors := errors + 1;
        }
      }
      i := i + 1;
    }
  }

  /** Every one of these chunks was unreferenced and old enough at the start; none was staged after the cutoff. */
  ghost predicate GraceKept(db: Db, cutoff: Time, hashes: seq<Hash>) {
    && (forall h :: h in hashes ==> h in UnreferencedChunks(db, cutoff))
    && (forall h :: h in hashes ==> h in db.chunks && db.chunks[h].refcount == 0 && db.chunks[h].createdAt < cutoff)
    && (forall h :: h in db.chunks && db.chunks[h].createdAt >= cutoff ==> h !in hashes)
  }

  lemma GraceKeptByPicking(start: Db, cutoff: Time, hashes: seq<Hash>)
    requires forall h :: h in hashes ==> h in UnreferencedChunks(start, cutoff)
    ensures GraceKept(start, cutoff, hashes)
  {
  }

  lemma NoneFrom(counting: seq<Cmd>)
    ensures OnlyFrom([], counting)
  {
  }

  lemma SelectionHolds<T>(eligible: set<T>, batchSize: BatchSize, rows: seq<T>)
    requires Selection(eligible, batchSize, rows)
    ensures Distinct(rows) && forall x :: x in rows ==> x in eligible
    ensures |rows| == if batchSize.Some? && batchSize.value < |eligible| then batchSize.value else |eligible|
  {
  }

  lemma PickedHolds(chunks: seq<Hash>, picked: seq<Hash>)
    requires PickedFrom(chunks, |chunks|, picked)
    ensures |picked| <= |chunks| && Distinct(picked) && forall h :: h in picked ==> h in chunks
  {
    assert chunks[..|chunks|] == chunks;
    forall h | h in picked
      ensures h in chunks
    {
      var j :| 0 <= j < |picked| && picked[j] == h;
    }
  }

  /** The number of unreferenced chunk rows from before the cutoff, as far as the limit goes. */
  ghost predicate CountsOld(db: Db, cutoff: Time, limit: BatchSize, count: nat) {
    exists due: set<Hash> ::
      && (forall h :: h in due <==> h in db.chunks && db.chunks[h].refcount == 0 && db.chunks[h].createdAt < cutoff)
      && count == if limit.Some? && 0 <= limit.value < |due| then limit.value else |due|
  }

  lemma UnreferencedByColumns(db: Db, cutoff: Time)
    ensures forall h :: h in UnreferencedChunks(db, cutoff) <==>
              h in db.chunks && db.chunks[h].refcount == 0 && db.chunks[h].createdAt < cutoff
    ensures forall limit: BatchSize, count: nat ::
              (count == if limit.Some? && 0 <= limit.value < |UnreferencedChunks(db, cutoff)| then limit.value
                        else |UnreferencedChunks(db, cutoff)|) ==>
                CountsOld(db, cutoff, limit, count)
  {
  }

  lemma NoFailures(answersOk: set<Hash>)
    ensures Failures([], answersOk) == |set h: Hash | h in [] && h !in answersOk| == 0
  {
    assert (set h: Hash | h in [] && h !in answersOk) == {};
  }

  lemma {:induction false} FailuresByAnswer(blobDeletes: seq<Hash>, answersOk: set<Hash>)
    requires Distinct(blobDeletes)
    ensures Failures(blobDeletes, answersOk) == |set h | h in blobDeletes && h !in answersOk|
  {
    if blobDeletes == [] {
      NoFailures(answersOk);
    } else {
      var front, last := blobDeletes[..|blobDeletes| - 1], blobDeletes[|blobDeletes| - 1];
      FailuresByAnswer(front, answersOk);
      assert blobDeletes == front + [last];
      var failed := set h | h in front && h !in answersOk;
      assert (set h | h in blobDeletes && h !in answersOk) == if last in answersOk then failed else failed + {last};
    }
  }

  /** Deletes unreferenced chunk rows one by one, and issues a blob delete for each row that this pass removed
      and for no other. `counting` runs between the select and the count query, `others[i]` before the i-th
      delete; `counted` is what has run when the count is taken. */
  method RunChunkGcOnce(
    store: MetadataStore, cutoff: Time, mode: Mode, batchSize: BatchSize, counting: seq<Cmd>, others: seq<seq<Cmd>>,
    answersOk: set<Hash>)
    returns (result: PassResult, blobDeletes: seq<Hash>, ghost ledger: Ledger, ghost counted: seq<Cmd>)
    requires Core(store.Snapshot())
    modifies store
    ensures counted <= ledger.trace && store.Snapshot() == Run(old(store.Snapshot()), ledger.trace)
    ensures Accounted(old(store.Snapshot()), ledger) && ledger.deleted == blobDeletes
    ensures GraceKept(old(store.Snapshot()), cutoff, blobDeletes)
    ensures Distinct(blobDeletes)
    ensures OnlyFrom(counted, counting)
    ensures mode.Audit? || (batchSize.Some? && batchSize.value <= 0) ==> ledger.trace == counted && blobDeletes == []
    ensures result.deleted == |blobDeletes| <= result.eligible
    ensures var start := old(store.Snapshot());
            var all := |UnreferencedChunks(start, cutoff)|;
            if batchSize.Some? && batchSize.value <= 0 then result == PassResult(0, 0, 0, 1) && counted == []
            else
              && result.totalEligible == |UnreferencedChunks(Run(start, counted), cutoff)|
              && result.eligible == (if batchSize.Some? && batchSize.value < all then batchSize.value else all)
              && result.errors == |ledger.refused| + Failures(blobDeletes, answersOk)
    ensures batchSize.None? || batchSize.value > 0 ==>
              && CountsOld(old(store.Snapshot()), cutoff, batchSize, result.eligible)
              && CountsOld(Run(old(store.Snapshot()), counted), cutoff, None, result.totalEligible)
              && result.errors == |ledger.refused| + |set h | h in blobDeletes && h !in answersOk|
  {
    ghost var start := store.Snapshot();
    EmptyRun(start);
    NothingYet(start, []);
    hide *;
    UnreferencedByColumns(start, cutoff);
    GraceKeptByPicking(start, cutoff, []);
    blobDeletes, ledger, counted := [], Ledger([], [], [], []), [];
    var eligible := UnreferencedChunks(store.Snapshot(), cutoff);
    var rows := SelectRows(eligible, batchSize);
    NoneFrom(counting);
    if rows.None? {
      return PassResult(0, 0, 0, 1), blobDeletes, ledger, counted;
    }
    var chunks := rows.value;
    SelectionHolds(eligible, batchSize, chunks);
    counted := store.Interfere(counting);
    NothingYet(start, counted);
    ledger := Ledger(counted, [], [], []);
    result := PassResult(|chunks|, |UnreferencedChunks(store.Snapshot(), cutoff)|, 0, 0);
    UnreferencedByColumns(store.Snapshot(), cutoff);
    NoFailures(answersOk);
    if mode.Audit? {
      return;
    }
    var errors;
    blobDeletes, errors, ledger := CollectRows(store, chunks, others, answersOk, start, counted);
    PickedHolds(chunks, blobDeletes);
    GraceKeptByPicking(start, cutoff, blobDeletes);
    FailuresByAnswer(blobDeletes, answersOk);
    result := result.(deleted := |blobDeletes|, errors := errors);
  }

  lemma WholeSelection<T>(picked: set<T>, eligible: set<T>)
    ensures picked <= eligible && |picked| == |eligible| ==> picked == eligible
  {
    if picked <= eligible && |picked| == |eligible| {
      assert eligible == picked + (eligible - picked);
    }
  }

  predicate DeletedBefore(row: NodeRow, cutoff: Time) {
    row.deletedAt != None && row.deletedAt.value < cutoff
  }

  /** These nodes were deleted before the cutoff, and unless the limit is reached they are all that were. */
  ghost predicate RetentionKept(nodes: Nodes, cutoff: Time, limit: BatchSize, ids: set<Id>) {
    && (forall n :: n in ids ==> n in nodes && DeletedBefore(nodes[n], cutoff))
    && (limit.None? || limit.value > |ids| ==>
          forall n :: n in nodes && DeletedBefore(nodes[n], cutoff) ==> n in ids)
  }

  lemma RetentionBySelection(db: Db, cutoff: Time, limit: BatchSize, ids: set<Id>)
    requires ids <= Tombstones(db, cutoff)
    requires limit.None? || limit.value > |ids| ==> |ids| == |Tombstones(db, cutoff)|
    ensures RetentionKept(db.nodes, cutoff, limit, ids)
  {
    WholeSelection(ids, Tombstones(db, cutoff));
  }

  function Tombstones(db: Db, cutoff: Time): set<Id> {
    set n | n in db.nodes && db.nodes[n].deletedAt.Some? && db.nodes[n].deletedAt.value < cutoff
  }

  lemma DistinctSize<T>(rows: seq<T>)
    requires Distinct(rows)
    ensures |set x | x in rows| == |rows|
  {
    if rows != [] {
      var front, last := rows[..|rows| - 1], rows[|rows| - 1];
      DistinctSize(front);
      assert rows == front + [last];
      assert (set x | x in rows) == (set x | x in front) + {last};
    }
  }

  /** The steps of two batches, one after the other. */
  method InterfereTwice(store: MetadataStore, ghost start: Db, ghost before: seq<Cmd>, cmds: seq<Cmd>)
    returns (ghost trace: seq<Cmd>)
    requires Core(store.Snapshot()) && Runs(start, before) && store.Snapshot() == Run(start, before)
    modifies store
    ensures before <= trace && Runs(start, trace) && store.Snapshot() == Run(start, trace) && Core(store.Snapshot())
  {
    hide *;
    ghost var more := store.Interfere(cmds);
    RunAppend(start, before, more);
    trace := before + more;
  }

  lemma SelectedStayDead(start: Db, between: seq<Cmd>, ids: set<Id>, granted: set<Id>)
    requires forall n :: n in ids ==> !LiveAt(start, n)
    ensures (forall n :: n in ids ==> NeverRecreated(start, between, n)) ==>
              forall n :: LiveAt(Run(start, between), n) ==> n in Purged(Run(start, between), ids, granted).nodes
  {
    forall n | n in ids
      ensures LiveAt(Run(start, between), n) ==> !NeverRecreated(start, between, n)
    {
      TombstonesStay(start, between, n);
    }
  }

  /** Selects tombstoned nodes, counts them, and deletes the selected ones by id, whatever `counting` did
      before the count and `others` before the delete. */
  method RunTombstonePurgeOnce(
    store: MetadataStore, cutoff: Time, mode: Mode, batchSize: BatchSize, counting: seq<Cmd>, others: seq<Cmd>, granted: set<Id>)
    returns (result: PassResult, ids: set<Id>, ghost counted: seq<Cmd>, ghost between: seq<Cmd>)
    requires Core(store.Snapshot())
    modifies store
    ensures ids <= Tombstones(old(store.Snapshot()), cutoff) && |ids| == result.eligible
    ensures RetentionKept(old(store.nodes), cutoff, batchSize, ids)
    ensures Runs(old(store.Snapshot()), between) && counted <= between
    ensures var start := old(store.Snapshot());
            var before := Run(start, between);
            var all := |Tombstones(start, cutoff)|;
            if batchSize.Some? && batchSize.value <= 0 then
              store.Snapshot() == start && result == PassResult(0, 0, 0, 1)
            else
              && result.totalEligible == |Tombstones(Run(start, counted), cutoff)|
              && result.eligible == (if batchSize.Some? && batchSize.value < all then batchSize.value else all)
              && if mode.Audit? || ids == {} then
                   store.Snapshot() == before && between == counted && result.deleted == result.errors == 0
                 else
                   && store.Snapshot() == Purged(before, ids, granted)
                   && (if Purgeable(before, ids, granted) then result.deleted == result.eligible && result.errors == 0
                       else result.deleted == 0 && result.errors == 1)
    ensures (forall n :: n in ids ==> NeverRecreated(old(store.Snapshot()), between, n)) ==>
              forall n :: LiveAt(Run(old(store.Snapshot()), between), n) ==> n in store.Snapshot().nodes
  {
    hide Core, Run, Runs, Purgeable, Purged, NeverRecreated, RetentionKept;
    ghost var start := store.Snapshot();
    EmptyRun(start);
    ids, counted, between := {}, [], [];
    var eligible := Tombstones(store.Snapshot(), cutoff);
    var rows := SelectRows(eligible, batchSize);
    if rows.None? {
      RetentionBySelection(start, cutoff, batchSize, {});
      return PassResult(0, 0, 0, 1), {}, [], [];
    }
    ids := set n | n in rows.value;
    DistinctSize(rows.value);
    RetentionBySelection(start, cutoff, batchSize, ids);
    counted := store.Interfere(counting);
    between := counted;
    result := PassResult(|rows.value|, |Tombstones(store.Snapshot(), cutoff)|, 0, 0);
    if mode.Audit? || rows.value == [] {
      return;
    }
    assert rows.value[0] in ids;
    between := InterfereTwice(store, start, counted, others);
    SelectedStayDead(start, between, ids, granted);
    var ok := store.DeleteNodesById(ids, granted);
    result := if ok then result.(deleted := |rows.value|) else result.(errors := 1);
  }

  /** These are numbers of rows from before the cutoff, and unless the limit is reached all of them. */
  ghost predicate LogRetentionKept(log: seq<LogRow>, cutoff: Time, limit: BatchSize, seqs: set<nat>) {
    && (forall s :: s in seqs ==> exists r :: r in log && r.serverSeq == s && r.appliedAt < cutoff)
    && (limit.None? || limit.value > |seqs| ==> forall r :: r in log && r.appliedAt < cutoff ==> r.serverSeq in seqs)
  }

  lemma LogRetentionBySelection(log: seq<LogRow>, cutoff: Time, limit: BatchSize, seqs: set<nat>)
    requires seqs <= OldOps(log, cutoff)
    requires limit.None? || limit.value > |seqs| ==> |seqs| == |OldOps(log, cutoff)|
    ensures LogRetentionKept(log, cutoff, limit, seqs)
  {
    WholeSelection(seqs, OldOps(log, cutoff));
  }

  function OldOps(log: seq<LogRow>, cutoff: Time): set<nat> {
    set r | r in log && r.appliedAt < cutoff :: r.serverSeq
  }

  /** Selects log rows by age, counts them, and deletes the selected ones by number, with other steps before
      the count and before the delete. */
  method RunOpLogTruncationOnce(
    store: MetadataStore, cutoff: Time, mode: Mode, batchSize: BatchSize, counting: seq<Cmd>, others: seq<Cmd>)
    returns (result: PassResult, seqs: set<nat>, ghost counted: seq<Cmd>, ghost between: seq<Cmd>)
    requires Core(store.Snapshot())
    modifies store
    ensures Core(store.Snapshot()) && Runs(old(store.Snapshot()), between) && counted <= between
    ensures seqs <= OldOps(old(store.opLog), cutoff) && |seqs| == result.eligible
    ensures LogRetentionKept(old(store.opLog), cutoff, batchSize, seqs)
    ensures var start, all := old(store.Snapshot()), |OldOps(old(store.opLog), cutoff)|;
            var before := Run(start, between);
            if batchSize.Some? && batchSize.value <= 0 then
              store.Snapshot() == start && result == PassResult(0, 0, 0, 1)
            else
              && result.totalEligible == |OldOps(Run(start, counted).log, cutoff)| && result.errors == 0
              && result.eligible == (if batchSize.Some? && batchSize.value < all then batchSize.value else all)
              && if mode.Audit? || seqs == {} then store.Snapshot() == before && between == counted && result.deleted == 0
                 else
                   && store.Snapshot() == Apply(before, TruncateLog(seqs))
                   && result.deleted == result.eligible
                   && forall r :: r in store.opLog <==> r in before.log && r.serverSeq !in seqs
  {
    hide Core, Run, Runs, LogWithout, LogRetentionKept;
    ghost var start := store.Snapshot();
    EmptyRun(start);
    seqs, counted, between := {}, [], [];
    var eligible := OldOps(store.opLog, cutoff);
    var rows := SelectRows(eligible, batchSize);
    if rows.None? {
      LogRetentionBySelection(start.log, cutoff, batchSize, {});
      return PassResult(0, 0, 0, 1), {}, [], [];
    }
    seqs := set s | s in rows.value;
    DistinctSize(rows.value);
    LogRetentionBySelection(start.log, cutoff, batchSize, seqs);
    counted := store.Interfere(counting);
    between := counted;
    result := PassResult(|rows.value|, |OldOps(store.opLog, cutoff)|, 0, 0);
    if mode.Audit? || rows.value == [] {
      return;
    }
    assert rows.value[0] in seqs;
    between := InterfereTwice(store, start, counted, others);
    StepKeepsCore(store.Snapshot(), TruncateLog(seqs));
    LogWithoutSubsequence(store.opLog, seqs);
    store.DeleteLogRows(seqs);
    result := result.(deleted := |rows.value|);
  }
}
