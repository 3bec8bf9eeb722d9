/** The five tables of the metadata server and the requests that change them.

    A uuid is modelled by its 128-bit value, which orders ids as Postgres orders them; every uuid
    string is non-empty, so the source's truthiness tests on ids are tests for presence. */
module Types {
  datatype Option<+T> = None | Some(value: T)

  type Id = nat
  type Time = int
  type Hash = string

  datatype Kind = File | Folder

  datatype ChunkRef = ChunkRef(hash: Hash, offset: nat, length: nat)

  /** The distinct chunk hashes of a manifest. */
  function Hashes(manifest: seq<ChunkRef>): set<Hash> {
    set c | c in manifest :: c.hash
  }

  datatype NodeRow = NodeRow(
    folder: Id, parent: Option<Id>, name: string, kind: Kind,
    current: Option<Id>, deletedAt: Option<Time>, serverSeq: nat)

  datatype VersionRow = VersionRow(
    node: Id, manifest: seq<ChunkRef>, contentHash: string, size: nat, author: Id, conflict: bool)

  datatype ChunkRow = ChunkRow(size: nat, refcount: nat, createdAt: Time)

  datatype Payload =
    | CreatePayload(parent: Id, name: string, kind: Kind)
    | RenamePayload(newName: string)
    | MovePayload(newParent: Id)
    | DeletePayload
    | VersionPayload(version: Id, contentHash: string, size: nat, manifest: seq<ChunkRef>, conflict: bool)

  datatype LogRow = LogRow(
    serverSeq: nat, folder: Id, node: Id, payload: Payload, basedOn: Option<int>, actor: Id, appliedAt: Time)

  type Nodes = map<Id, NodeRow>
  type Versions = map<Id, VersionRow>

  /** `version_chunks`: the primary key (version, hash) leads to the node id column. */
  type Index = map<(Id, Hash), Id>
  type Chunks = map<Hash, ChunkRow>

  /** `lastSeq` is the position of the sequence behind `op_log.server_seq`. */
  datatype Db = Db(nodes: Nodes, versions: Versions, index: Index, chunks: Chunks, log: seq<LogRow>, lastSeq: nat)
}
