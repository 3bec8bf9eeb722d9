/** Every statement that changes the tables, as a step of one state machine, and runs of steps. */
module Steps {
  import opened Types
  import opened Ops

  datatype Cmd =
    | SubmitCmd(rq: Request)
    | StageChunk(hash: Hash, size: nat, now: Time)
    | DeleteChunk(hash: Hash)
    | PurgeNodes(ids: set<Id>, granted: set<Id>)
    | TruncateLog(seqs: set<nat>)
    | IndexRows(rows: Index)

  predicate ForeignKeysHold(db: Db) {
    && (forall n :: n in db.nodes && db.nodes[n].parent.Some? ==> db.nodes[n].parent.value in db.nodes)
    && (forall n :: n in db.nodes && db.nodes[n].current.Some? ==> db.nodes[n].current.value in db.versions)
    && (forall v :: v in db.versions ==> db.versions[v].node in db.nodes)
    && (forall k :: k in db.index ==> k.0 in db.versions && k.1 in db.chunks && db.index[k] in db.nodes)
  }

  /** `handleUploadObject`: a chunk row without references, unless there is one already. */
  function Staged(db: Db, hash: Hash, size: nat, now: Time): Db {
    if hash in db.chunks then db else db.(chunks := db.chunks[hash := ChunkRow(size, 0, now)])
  }

  predicate Named(db: Db, hash: Hash) {
    exists k :: k in db.index && k.1 == hash
  }

  /** The guarded delete of the chunk collector; the foreign key of the index makes it fail on a named hash. */
  predicate Collectable(db: Db, hash: Hash) {
    hash in db.chunks && db.chunks[hash].refcount == 0 && !Named(db, hash)
  }

  function ChunkDeleted(db: Db, hash: Hash): Db {
    if Collectable(db, hash) then db.(chunks := db.chunks - {hash}) else db
  }

  /** The rows left when node rows go and their versions and index rows follow by cascade. */
  function Cascade(db: Db, ids: set<Id>): Db {
    var versions := map v | v in db.versions && db.versions[v].node !in ids :: db.versions[v];
    db.(nodes := db.nodes - ids,
        versions := versions,
        index := map k | k in db.index && k.0 in versions :: db.index[k])
  }

  /** Deleting by id is one statement: it goes through when nothing that remains refers to a deleted row,
      neither in these tables nor in the grant and invite tables, whose scope nodes are `granted`. */
  predicate Purgeable(db: Db, ids: set<Id>, granted: set<Id>) {
    ForeignKeysHold(Cascade(db, ids)) && ids * db.nodes.Keys * granted == {}
  }

  function Purged(db: Db, ids: set<Id>, granted: set<Id>): Db {
    if Purgeable(db, ids, granted) then Cascade(db, ids) else db
  }

  function LogWithout(log: seq<LogRow>, seqs: set<nat>): seq<LogRow> {
    if log == [] then []
    else
      var last := log[|log| - 1];
      LogWithout(log[..|log| - 1], seqs) + if last.serverSeq in seqs then [] else [last]
  }

  /** One page of the backfill: rows already there are skipped, the others have to satisfy the foreign keys. */
  function Indexed(db: Db, rows: Index): Db {
    var added := rows - db.index.Keys;
    if forall k :: k in added ==> k.0 in db.versions && k.1 in db.chunks && added[k] in db.nodes
    then db.(index := db.index + added) else db
  }

  ghost function Apply(db: Db, cmd: Cmd): Db {
    match cmd
    case SubmitCmd(rq) => Submit(db, rq).db
    case StageChunk(hash, size, now) => Staged(db, hash, size, now)
    case DeleteChunk(hash) => ChunkDeleted(db, hash)
    case PurgeNodes(ids, granted) => Purged(db, ids, granted)
    case TruncateLog(seqs) => db.(log := LogWithout(db.log, seqs))
    case IndexRows(rows) => Indexed(db, rows)
  }

  /** The backfill inserts rows that it has read off stored manifests, which never change. */
  predicate RowsDescribe(db: Db, rows: Index) {
    forall k :: k in rows && k.0 in db.versions ==>
      k.1 in Hashes(db.versions[k.0].manifest) && rows[k] == db.versions[k.0].node
  }

  predicate Enabled(db: Db, cmd: Cmd) {
    match cmd
    case SubmitCmd(rq) => OpInFolder(db, rq)
    case IndexRows(rows) => RowsDescribe(db, rows)
    case _ => true
  }

  ghost function Run(db: Db, cmds: seq<Cmd>): Db
    decreases |cmds|
  {
    if cmds == [] then db else Run(Apply(db, cmds[0]), cmds[1..])
  }

  ghost predicate Runs(db: Db, cmds: seq<Cmd>)
    decreases |cmds|
  {
    cmds == [] || (Enabled(db, cmds[0]) && Runs(Apply(db, cmds[0]), cmds[1..]))
  }

  ghost predicate WithoutPurge(cmds: seq<Cmd>) {
    forall cmd :: cmd in cmds ==> !cmd.PurgeNodes?
  }

  /** No purge among the steps has selected the node. */
  ghost predicate Spares(cmds: seq<Cmd>, n: Id) {
    forall cmd :: cmd in cmds && cmd.PurgeNodes? ==> n !in cmd.ids
  }

  lemma EmptyRun(db: Db)
    ensures Run(db, []) == db && Runs(db, [])
  {
  }

  lemma {:induction false} RunAppend(db: Db, first: seq<Cmd>, second: seq<Cmd>)
    ensures Run(db, first + second) == Run(Run(db, first), second)
    ensures Runs(db, first + second) <==> Runs(db, first) && Runs(Run(db, first), second)
    decreases |first|
  {
    if first == [] {
      assert first + second == second;
    } else {
      assert (first + second)[1..] == first[1..] + second;
      RunAppend(Apply(db, first[0]), first[1..], second);
    }
  }
}
