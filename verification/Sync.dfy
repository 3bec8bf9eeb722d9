/** The log reproduces the node table, and a client that pulls the log page by page ends with it. */
module Sync {
  import opened Types
  import opened Tree
  import opened Authz
  import opened Ops
  import opened Steps
  import opened Invariants
  import opened History
  import opened Mirror

  lemma ViewAfterChange(nodes: Nodes, n: Id, row: NodeRow, folder: Id)
    requires n in nodes ==> nodes[n].folder == row.folder
    ensures View(nodes[n := row], folder) ==
            if row.folder == folder then View(nodes, folder)[n := Local(row)] else View(nodes, folder)
  {
  }

  // One accepted op is one log row, and replaying that row is the change it made.

  lemma CreateReplays(db: Db, rq: Request)
    requires Core(db) && OpInFolder(db, rq) && rq.principal.Device? && rq.op.Create?
    requires CreateFits(db, rq.folder, rq.op)
    ensures var Outcome(after, response) := CreateNode(db, rq);
            ApplyEntry(View(db.nodes, rq.folder), Logged(db, rq, response)) == Some(View(after.nodes, rq.folder))
  {
    ViewAfterChange(db.nodes, rq.op.nodeId, CreateNode(db, rq).db.nodes[rq.op.nodeId], rq.folder);
  }

  /** The server row changes; the logged row makes the same change to the mirror row. */
  lemma RowReplays(nodes: Nodes, n: Id, row: NodeRow, e: LogRow)
    requires n in nodes && nodes[n].folder == row.folder && row.serverSeq == e.serverSeq > nodes[n].serverSeq
    requires e.node == n && !e.payload.CreatePayload?
    requires match e.payload
             case RenamePayload(newName) => row == nodes[n].(name := newName, serverSeq := e.serverSeq)
             case MovePayload(newParent) => row == nodes[n].(parent := Some(newParent), serverSeq := e.serverSeq)
             case DeletePayload =>
               row.deletedAt.Some? && row == nodes[n].(deletedAt := row.deletedAt, serverSeq := e.serverSeq)
             case VersionPayload(v, _, _, _, conflict) =>
               row == if conflict then nodes[n].(serverSeq := e.serverSeq)
                      else nodes[n].(current := Some(v), serverSeq := e.serverSeq)
    ensures ApplyEntry(View(nodes, row.folder), e) == Some(View(nodes[n := row], row.folder))
  {
    ViewAfterChange(nodes, n, row, row.folder);
  }

  lemma UpdateReplays(db: Db, rq: Request)
    requires SeqsCurrent(db) && rq.principal.Device? && !rq.op.Create?
    requires rq.op.nodeId in db.nodes && db.nodes[rq.op.nodeId].folder == rq.folder
    requires Accepted(UpdateNode(db, rq).response)
    ensures var Outcome(after, response) := UpdateNode(db, rq);
            ApplyEntry(View(db.nodes, rq.folder), Logged(db, rq, response)) == Some(View(after.nodes, rq.folder))
  {
    var Outcome(after, response) := UpdateNode(db, rq);
    var n, row := rq.op.nodeId, after.nodes[rq.op.nodeId];
    assert after.nodes == db.nodes[n := row];
    RowReplays(db.nodes, n, row, Logged(db, rq, response));
  }

  lemma SubmitReplays(db: Db, rq: Request)
    requires Core(db) && OpInFolder(db, rq) && Accepted(Submit(db, rq).response)
    ensures var Outcome(after, response) := Submit(db, rq);
            && rq.principal.Device? && (response.ConflictCopy? ==> rq.op.NewVersion?)
            && ApplyEntry(View(db.nodes, rq.folder), Logged(db, rq, response)) == Some(View(after.nodes, rq.folder))
  {
    SubmitLogs(db, rq);
    if rq.op.Create? {
      CreateReplays(db, rq);
    } else {
      UpdateReplays(db, rq);
    }
  }

  lemma SubmitRowFolder(db: Db, rq: Request)
    requires OpInFolder(db, rq) && Accepted(Submit(db, rq).response)
    ensures var n, after := rq.op.nodeId, Submit(db, rq).db;
            n in after.nodes && after.nodes[n].folder == rq.folder && (n in db.nodes ==> db.nodes[n].folder == rq.folder)
  {
  }

  lemma SubmitKeepsOtherViews(db: Db, rq: Request, folder: Id)
    requires OpInFolder(db, rq) && folder != rq.folder
    ensures View(Submit(db, rq).db.nodes, folder) == View(db.nodes, folder)
  {
    SubmitShape(db, rq);
    if Accepted(Submit(db, rq).response) {
      SubmitRowFolder(db, rq);
      ViewAfterChange(db.nodes, rq.op.nodeId, Submit(db, rq).db.nodes[rq.op.nodeId], folder);
    }
  }

  /** Every row of the folder above the cursor is about a node that is there. */
  ghost predicate RowsHaveNodes(db: Db, folder: Id, cursor: nat) {
    forall e :: e in OpsAbove(db.log, folder, cursor) ==> e.node in View(db.nodes, folder)
  }

  /** Replaying the folder's rows above the cursor onto the mirror gives the folder's node rows, besides what is
      left of nodes that have been purged. */
  ghost predicate Reproduces(mirror: Mirror, cursor: nat, db: Db, folder: Id, left: Mirror) {
    && RowsHaveNodes(db, folder, cursor)
    && Replay(mirror, OpsAbove(db.log, folder, cursor)) == Some(left + View(db.nodes, folder))
  }

  /** Rows of other nodes lie still under a replay. */
  lemma EntryAbove(left: Mirror, view: Mirror, after: Mirror, e: LogRow)
    requires ApplyEntry(view, e) == Some(after)
    ensures ApplyEntry(left + view, e) == Some(left + after)
  {
    if e.payload.CreatePayload? || view[e.node].serverSeq < e.serverSeq {
      assert after == view[e.node := after[e.node]];
      assert (left + view)[e.node := after[e.node]] == left + after;
    }
  }

  lemma OneMoreRowReproduces(mirror: Mirror, cursor: nat, db: Db, after: Db, folder: Id, left: Mirror, e: LogRow)
    requires after.log == db.log + [e] && e.serverSeq > cursor && Reproduces(mirror, cursor, db, folder, left)
    requires View(db.nodes, folder).Keys <= View(after.nodes, folder).Keys
    requires if e.folder == folder then
               e.node in View(after.nodes, folder) && ApplyEntry(View(db.nodes, folder), e) == Some(View(after.nodes, folder))
             else View(after.nodes, folder) == View(db.nodes, folder)
    ensures Reproduces(mirror, cursor, after, folder, left)
  {
    hide ApplyEntry, View;
    var ops, view, next := OpsAbove(db.log, folder, cursor), View(db.nodes, folder), View(after.nodes, folder);
    OpsAboveAppend(db.log, e, folder, cursor);
    if e.folder == folder {
      EntryAbove(left, view, next, e);
      ReplayAppend(mirror, ops, [e]);
      assert Replay(left + view, [e]) == Replay(left + next, [e][1..]);
    } else {
      assert ops + [] == ops;
    }
  }

  lemma SubmitKeepsView(db: Db, rq: Request, folder: Id)
    requires OpInFolder(db, rq) && Accepted(Submit(db, rq).response)
    ensures View(db.nodes, folder).Keys <= View(Submit(db, rq).db.nodes, folder).Keys
    ensures rq.folder == folder ==> rq.op.nodeId in View(Submit(db, rq).db.nodes, folder)
  {
    hide Submit;
    SubmitRowFolder(db, rq);
    SubmitShape(db, rq);
  }

  lemma SubmitReproduces(mirror: Mirror, cursor: nat, db: Db, folder: Id, left: Mirror, rq: Request)
    requires Core(db) && OpInFolder(db, rq) && Accepted(Submit(db, rq).response)
    requires cursor <= db.lastSeq && Reproduces(mirror, cursor, db, folder, left)
    ensures Reproduces(mirror, cursor, Submit(db, rq).db, folder, left)
  {
    SubmitLogs(db, rq);
    hide Submit, Reproduces, View, ApplyEntry;
    SubmitKeepsView(db, rq, folder);
    if folder == rq.folder {
      SubmitReplays(db, rq);
    } else {
      SubmitKeepsOtherViews(db, rq, folder);
    }
    OneMoreRowReproduces(mirror, cursor, db, Submit(db, rq).db, folder, left, Logged(db, rq, Submit(db, rq).response));
  }

  /** Truncating rows of a folder that are not above the cursor takes nothing from those that are. */
  lemma {:induction false} TruncationBelow(log: seq<LogRow>, seqs: set<nat>, folder: Id, cursor: nat)
    requires forall e :: e in log && e.folder == folder && e.serverSeq in seqs ==> e.serverSeq <= cursor
    ensures OpsAbove(LogWithout(log, seqs), folder, cursor) == OpsAbove(log, folder, cursor)
  {
    if log != [] {
      var front, last := log[..|log| - 1], log[|log| - 1];
      TruncationBelow(front, seqs, folder, cursor);
      if last.serverSeq in seqs {
        assert LogWithout(log, seqs) == LogWithout(front, seqs);
      } else {
        OpsAboveAppend(LogWithout(front, seqs), last, folder, cursor);
      }
    }
  }

  /** Of this folder, the step purges no node and truncates no row with a number above the cursor. */
  ghost predicate Keeps(db: Db, cmd: Cmd, folder: Id, cursor: nat) {
    match cmd
    case PurgeNodes(ids, _) =>
      forall n :: n in ids && n in db.nodes && db.nodes[n].folder == folder ==> db.nodes[n].serverSeq <= cursor
    case TruncateLog(seqs) =>
      forall e :: e in db.log && e.folder == folder && e.serverSeq in seqs ==> e.serverSeq <= cursor
    case _ => true
  }

  ghost predicate AllKeep(db: Db, cmds: seq<Cmd>, folder: Id, cursor: nat)
    decreases |cmds|
  {
    cmds == [] || (Keeps(db, cmds[0], folder, cursor) && AllKeep(Apply(db, cmds[0]), cmds[1..], folder, cursor))
  }

  /** The rows of the folder that a purge removes, as a mirror has them. */
  ghost function Leaves(db: Db, cmd: Cmd, folder: Id): Mirror {
    if cmd.PurgeNodes? then View(db.nodes, folder) - Apply(db, cmd).nodes.Keys else map[]
  }

  ghost function LeftBy(db: Db, cmds: seq<Cmd>, folder: Id, left: Mirror): Mirror
    decreases |cmds|
  {
    if cmds == [] then left else LeftBy(Apply(db, cmds[0]), cmds[1..], folder, left + Leaves(db, cmds[0], folder))
  }

  /** A purge takes rows above the cursor from the pulls if and only if it removes a node that has one. */
  lemma PurgeKeepsRowsExactly(db: Db, ids: set<Id>, granted: set<Id>, folder: Id, cursor: nat)
    requires RowsHaveNodes(db, folder, cursor)
    ensures RowsHaveNodes(Purged(db, ids, granted), folder, cursor) <==>
            !Purgeable(db, ids, granted) || forall e :: e in OpsAbove(db.log, folder, cursor) ==> e.node !in ids
  {
    hide Purgeable, OpsAbove;
  }

  lemma PurgedRowsBelow(db: Db, ids: set<Id>, granted: set<Id>, folder: Id, cursor: nat)
    requires SeqsCurrent(db) && Keeps(db, PurgeNodes(ids, granted), folder, cursor) && RowsHaveNodes(db, folder, cursor)
    ensures RowsHaveNodes(Purged(db, ids, granted), folder, cursor)
  {
    OpsAboveMembers(db.log, folder, cursor);
    forall e | e in OpsAbove(db.log, folder, cursor)
      ensures e.node !in ids
    {
      var i :| 0 <= i < |db.log| && db.log[i] == e;
    }
    PurgeKeepsRowsExactly(db, ids, granted, folder, cursor);
  }

  lemma PurgeReproduces(mirror: Mirror, cursor: nat, db: Db, folder: Id, left: Mirror, ids: set<Id>, granted: set<Id>)
    requires SeqsCurrent(db) && Keeps(db, PurgeNodes(ids, granted), folder, cursor)
    requires Reproduces(mirror, cursor, db, folder, left)
    ensures Reproduces(mirror, cursor, Purged(db, ids, granted), folder, left + Leaves(db, PurgeNodes(ids, granted), folder))
  {
    PurgedRowsBelow(db, ids, granted, folder, cursor);
    PurgedView(db, ids, granted, folder, left);
    hide Purgeable, Cascade, OpsAbove, Replay, RowsHaveNodes, View;
  }

  /** What is left and what is there, after a purge, make up what was there before. */
  lemma PurgedView(db: Db, ids: set<Id>, granted: set<Id>, folder: Id, left: Mirror)
    ensures left + View(db.nodes, folder) ==
            (left + Leaves(db, PurgeNodes(ids, granted), folder)) + View(Purged(db, ids, granted).nodes, folder)
  {
    hide Purgeable, Purged;
    var after := Purged(db, ids, granted).nodes;
    PurgedNodes(db, ids, granted);
    ViewWithout(db.nodes, after, folder);
    RestAndView(left, View(db.nodes, folder), View(after, folder), after.Keys);
  }

  lemma PurgedNodes(db: Db, ids: set<Id>, granted: set<Id>)
    ensures var after := Purged(db, ids, granted).nodes; after.Keys <= db.nodes.Keys && forall n :: n in after ==> after[n] == db.nodes[n]
  {
    hide Purgeable;
  }

  lemma ViewWithout(nodes: Nodes, after: Nodes, folder: Id)
    requires after.Keys <= nodes.Keys && forall n :: n in after ==> after[n] == nodes[n]
    ensures forall n :: n in View(after, folder) <==> n in View(nodes, folder) && n in after
    ensures forall n :: n in View(after, folder) ==> View(after, folder)[n] == View(nodes, folder)[n]
  {
  }

  lemma RestAndView(left: Mirror, view: Mirror, after: Mirror, keys: set<Id>)
    requires forall n :: n in after <==> n in view && n in keys
    requires forall n :: n in after ==> after[n] == view[n]
    ensures left + view == (left + (view - keys)) + after
  {
  }

  lemma TruncationReproduces(mirror: Mirror, cursor: nat, db: Db, folder: Id, left: Mirror, seqs: set<nat>)
    requires Keeps(db, TruncateLog(seqs), folder, cursor) && Reproduces(mirror, cursor, db, folder, left)
    ensures Reproduces(mirror, cursor, db.(log := LogWithout(db.log, seqs)), folder, left)
  {
    TruncationBelow(db.log, seqs, folder, cursor);
  }

  lemma QuietReproduces(mirror: Mirror, cursor: nat, db: Db, after: Db, folder: Id, left: Mirror)
    ensures after.nodes == db.nodes && after.log == db.log && Reproduces(mirror, cursor, db, folder, left) ==>
              Reproduces(mirror, cursor, after, folder, left)
  {
  }

  lemma StepReproduces(mirror: Mirror, cursor: nat, db: Db, folder: Id, left: Mirror, cmd: Cmd)
    requires Core(db) && Enabled(db, cmd) && Keeps(db, cmd, folder, cursor)
    requires cursor <= db.lastSeq && Reproduces(mirror, cursor, db, folder, left)
    ensures Reproduces(mirror, cursor, Apply(db, cmd), folder, left + Leaves(db, cmd, folder))
    ensures cursor <= Apply(db, cmd).lastSeq
  {
    NothingLeaves(db, cmd, folder, left);
    CoreSeqs(db);
    hide Core, Leaves, View, OpsAbove, Replay, Reproduces, Submit, Purged, Keeps, LogWithout;
    match cmd {
      case SubmitCmd(rq) => SubmitStepReproduces(mirror, cursor, db, folder, left, rq);
      case PurgeNodes(ids, granted) => PurgeReproduces(mirror, cursor, db, folder, left, ids, granted);
      case TruncateLog(seqs) => TruncationReproduces(mirror, cursor, db, folder, left, seqs);
      case _ => QuietReproduces(mirror, cursor, db, Apply(db, cmd), folder, left);
    }
    LastSeqStays(db, cmd);
  }

  lemma NothingLeaves(db: Db, cmd: Cmd, folder: Id, left: Mirror)
    ensures !cmd.PurgeNodes? ==> left + Leaves(db, cmd, folder) == left
  {
    assert left + map[] == left;
  }

  lemma CoreSeqs(db: Db)
    ensures Core(db) ==> SeqsCurrent(db)
  {
  }

  lemma LastSeqStays(db: Db, cmd: Cmd)
    ensures db.lastSeq <= Apply(db, cmd).lastSeq
  {
    hide Submit, Purgeable;
    if cmd.SubmitCmd? {
      SubmitShape(db, cmd.rq);
    }
  }

  lemma SubmitStepReproduces(mirror: Mirror, cursor: nat, db: Db, folder: Id, left: Mirror, rq: Request)
    requires Core(db) && OpInFolder(db, rq) && cursor <= db.lastSeq && Reproduces(mirror, cursor, db, folder, left)
    ensures Reproduces(mirror, cursor, Submit(db, rq).db, folder, left)
  {
    hide Submit, Reproduces, Core;
    SubmitShape(db, rq);
    if Accepted(Submit(db, rq).response) {
      SubmitReproduces(mirror, cursor, db, folder, left, rq);
    }
  }

  lemma {:induction false} RunReproduces(mirror: Mirror, cursor: nat, db: Db, folder: Id, left: Mirror, cmds: seq<Cmd>)
    requires Core(db) && Runs(db, cmds) && AllKeep(db, cmds, folder, cursor)
    requires cursor <= db.lastSeq && Reproduces(mirror, cursor, db, folder, left)
    ensures Reproduces(mirror, cursor, Run(db, cmds), folder, LeftBy(db, cmds, folder, left))
    ensures cursor <= Run(db, cmds).lastSeq
    decreases |cmds|
  {
    if cmds != [] {
      StepReproduces(mirror, cursor, db, folder, left, cmds[0]);
      StepKeepsCore(db, cmds[0]);
      hide Core, Reproduces, Keeps, Leaves, Apply, Enabled;
      RunReproduces(mirror, cursor, Apply(db, cmds[0]), folder, left + Leaves(db, cmds[0], folder), cmds[1..]);
    }
  }

  ghost predicate AllDeleted(mirror: Mirror) {
    forall n :: n in mirror ==> mirror[n].deleted
  }

  ghost predicate PurgesTombstones(db: Db, cmds: seq<Cmd>)
    decreases |cmds|
  {
    cmds == []
    || ((cmds[0].PurgeNodes? ==> forall n :: n in cmds[0].ids ==> !LiveAt(db, n))
        && PurgesTombstones(Apply(db, cmds[0]), cmds[1..]))
  }

  /** When the purges take tombstones only, nothing but tombstones is left in the mirrors. */
  lemma {:induction false} LeftoversDeleted(db: Db, cmds: seq<Cmd>, folder: Id, left: Mirror)
    requires AllDeleted(left) && PurgesTombstones(db, cmds)
    ensures AllDeleted(LeftBy(db, cmds, folder, left))
    decreases |cmds|
  {
    if cmds != [] {
      LeftoversDeleted(Apply(db, cmds[0]), cmds[1..], folder, left + Leaves(db, cmds[0], folder));
    }
  }

  /** The log equals the state: from any state on, replaying the rows logged since onto the folder's rows of that
      state rebuilds the folder's rows exactly, besides what is left of purged nodes, as long as purge and
      truncation take only what has not changed since. */
  lemma LogRebuildsNodes(db: Db, cmds: seq<Cmd>, folder: Id)
    requires Core(db) && Runs(db, cmds) && AllKeep(db, cmds, folder, db.lastSeq)
    ensures var after := Run(db, cmds);
            Replay(View(db.nodes, folder), OpsAbove(after.log, folder, db.lastSeq)) ==
            Some(LeftBy(db, cmds, folder, map[]) + View(after.nodes, folder))
  {
    NothingAboveTop(db.log, folder, db.lastSeq);
    assert map[] + View(db.nodes, folder) == View(db.nodes, folder);
    RunReproduces(View(db.nodes, folder), db.lastSeq, db, folder, map[], cmds);
  }

  // What the server answers to a pull.

  const PAGE_LIMIT: nat := 1000

  datatype DeltaPage = DeltaPage(ops: seq<LogRow>, upTo: nat)

  datatype DeltaReply = Delta(page: DeltaPage) | FolderNotFound | NotReadable(denial: Denial)

  function InNodes(ops: seq<LogRow>, nodes: set<Id>): seq<LogRow> {
    if ops == [] then []
    else (if ops[0].node in nodes then [ops[0]] else []) + InNodes(ops[1..], nodes)
  }

  function FirstOps(ops: seq<LogRow>, limit: nat): seq<LogRow> {
    if |ops| <= limit then ops else ops[..limit]
  }

  lemma {:induction false} InNodesMembers(ops: seq<LogRow>, nodes: set<Id>)
    ensures forall e :: e in InNodes(ops, nodes) <==> e in ops && e.node in nodes
  {
    if ops != [] {
      InNodesMembers(ops[1..], nodes);
    }
  }

  lemma {:induction false} InNodesAscending(ops: seq<LogRow>, nodes: set<Id>)
    requires Ascending(ops)
    ensures Ascending(InNodes(ops, nodes))
  {
    if ops != [] {
      InNodesAscending(ops[1..], nodes);
      InNodesMembers(ops[1..], nodes);
    }
  }

  /** One page for a reader whose granted subtree is given. */
  function PageFor(log: seq<LogRow>, folder: Id, subtree: set<Id>, since: nat): DeltaPage {
    var ops := FirstOps(InNodes(OpsAbove(log, folder, since), subtree), PAGE_LIMIT);
    DeltaPage(ops, if ops != [] then ops[|ops| - 1].serverSeq else Head(log, folder))
  }

  ghost function Subtree(nodes: Nodes, scope: Id): set<Id> {
    set n | n in nodes && InSubtree(nodes, scope, n)
  }

  /** The recursive query: each round adds the children of the rows of the round before. */
  method RecursiveQuery(nodes: Nodes, scope: Id) returns (subtree: set<Id>)
    requires !OnCycle(nodes, scope)
    ensures subtree == Subtree(nodes, scope)
  {
    RecursiveQueryStops(nodes, scope);
    ghost var k: nat := 0;
    var working := if scope in nodes then {scope} else {};
    subtree := {};
    while working != {}
      invariant working == Level(nodes, scope, k)
      invariant forall n :: n in subtree <==> exists j: nat :: j < k && n in Level(nodes, scope, j)
      decreases |nodes.Keys| - k
    {
      subtree := subtree + working;
      working := set n | n in nodes && nodes[n].parent.Some? && nodes[n].parent.value in working;
      k := k + 1;
    }
    EmptyRoundEnds(nodes, scope, k);
  }

  lemma {:induction false} EmptyRoundEnds(nodes: Nodes, scope: Id, k: nat)
    requires Level(nodes, scope, k) == {}
    ensures forall j: nat :: k <= j ==> Level(nodes, scope, j) == {}
    ensures forall n, j: nat :: n in Level(nodes, scope, j) ==> n in nodes && j < k
  {
    forall j: nat | k <= j
      ensures Level(nodes, scope, j) == {}
    {
      EmptyAfterEmpty(nodes, scope, k, j);
    }
    forall n, j: nat | n in Level(nodes, scope, j)
      ensures n in nodes && j < k
    {
    }
  }

  predicate IsRoot(nodes: Nodes, folder: Id, root: Id) {
    root in nodes && nodes[root].folder == folder && nodes[root].parent.None?
  }

  ghost function ReplyWithin(db: Db, folder: Id, scope: Id, since: nat): DeltaReply {
    Delta(PageFor(db.log, folder, Subtree(db.nodes, scope), since))
  }

  /** The grants that a reader of the folder may be served by: the one the root's check finds or else, as a
      query with a limit and no order may pick any row, any grant in the folder. */
  ghost predicate ReadableGrant(db: Db, grants: Grants, folder: Id, root: Id, answer: AuthzResult) {
    var rootGrant := Authorize(db.nodes, grants, root, Read);
    if rootGrant.Granted? || forall scope :: (folder, scope) !in grants then answer == rootGrant
    else exists scope :: (folder, scope) in grants && answer == Decide(grants[(folder, scope)], scope, Read)
  }

  method ReadableGrantForFolder(db: Db, grants: Grants, folder: Id, root: Id) returns (answer: AuthzResult)
    ensures ReadableGrant(db, grants, folder, root, answer)
  {
    var rootGrant, _ := CheckGrant(db.nodes, grants, root, Read);
    if rootGrant.Granted? {
      return rootGrant;
    }
    if key :| key in grants.Keys && key.0 == folder {
      assert (folder, key.1) in grants;
      var grant := grants[key];
      if !grant.canRead && !grant.canWrite {
        return Denied(InsufficientPermission);
      }
      return Granted(grant.grantId, key.1, grant.canWrite);
    }
    assert forall scope :: (folder, scope) in grants ==> (folder, scope).0 == folder;
    return rootGrant;
  }

  /** No scope that the reader may be served by lies on a cycle; the query for such a scope never ends. */
  ghost predicate ScopesOffCycles(db: Db, grants: Grants, folder: Id) {
    forall root, answer :: IsRoot(db.nodes, folder, root) && ReadableGrant(db, grants, folder, root, answer) ==>
      answer.Granted? ==> !OnCycle(db.nodes, answer.scope)
  }

  /** The answers that `pullDelta` may give. */
  ghost predicate ServesDelta(db: Db, grants: Grants, folder: Id, since: nat, reply: DeltaReply) {
    if exists root :: IsRoot(db.nodes, folder, root) then
      exists root, answer :: IsRoot(db.nodes, folder, root) && ReadableGrant(db, grants, folder, root, answer) &&
        reply == match answer
                 case Granted(_, scope, _) => ReplyWithin(db, folder, scope, since)
                 case Denied(denial) => NotReadable(denial)
    else reply == FolderNotFound
  }

  /** Rows and head are read by two queries; an empty page carries the head as it is by then. */
  function WithHead(reply: DeltaReply, head: nat): DeltaReply {
    if reply.Delta? && reply.page.ops == [] then Delta(DeltaPage([], head)) else reply
  }

  /** The answers of a pull whose rows are read in one state and whose head is read in a later one. */
  ghost predicate ServesOver(db: Db, at: Db, grants: Grants, folder: Id, since: nat, reply: DeltaReply) {
    exists first :: ServesDelta(db, grants, folder, since, first) && reply == WithHead(first, Head(at.log, folder))
  }

  lemma ServesOverItself(db: Db, grants: Grants, folder: Id, since: nat, reply: DeltaReply)
    requires ServesOver(db, db, grants, folder, since, reply)
    ensures ServesDelta(db, grants, folder, since, reply)
  {
    var first :| ServesDelta(db, grants, folder, since, first) && reply == WithHead(first, Head(db.log, folder));
    if first.Delta? {
      var scope :| first == ReplyWithin(db, folder, scope, since);
    }
  }

  // What the answers have to hold, in terms of the tables.

  /** The row is one that a reader of the scope is to be sent. */
  ghost predicate Due(db: Db, folder: Id, scope: Id, since: nat, e: LogRow) {
    e in db.log && e.folder == folder && e.serverSeq > since && InSubtree(db.nodes, scope, e.node)
  }

  /** The first thousand of these rows, in order: none is left out but later ones behind a full page. */
  ghost predicate HoldsDue(db: Db, folder: Id, scope: Id, since: nat, ops: seq<LogRow>) {
    && |ops| <= 1000 && Ascending(ops)
    && (forall e :: e in ops ==> Due(db, folder, scope, since, e))
    && (forall e :: Due(db, folder, scope, since, e) ==> e in ops || (|ops| == 1000 && e.serverSeq > ops[999].serverSeq))
  }

  /** The highest number that the folder has logged, 0 without any. */
  ghost predicate IsTopNumber(log: seq<LogRow>, folder: Id, top: nat) {
    && (forall e :: e in log && e.folder == folder ==> e.serverSeq <= top)
    && (top == 0 || exists e :: e in log && e.folder == folder && e.serverSeq == top)
  }

  /** A scope that the reader may be served by: the root, if it may read there, or else any node of a readable
      grant in the folder. */
  ghost predicate Serves(db: Db, grants: Grants, folder: Id, root: Id, scope: Id) {
    && root in db.nodes && db.nodes[root].folder == folder && db.nodes[root].parent == None
    && (folder, scope) in grants && (grants[(folder, scope)].canRead || grants[(folder, scope)].canWrite)
    && (Permitted(db.nodes, grants, root, Read) ==> scope == root)
  }

  /** Why the reader of the folder is refused: it holds no grant in the folder, or one that is not enough. */
  ghost predicate RightRefusal(db: Db, grants: Grants, folder: Id, root: Id, denial: Denial) {
    && root in db.nodes && db.nodes[root].folder == folder && db.nodes[root].parent == None
    && !Permitted(db.nodes, grants, root, Read)
    && if denial == NoGrant then forall scope :: (folder, scope) !in grants
       else exists scope :: (folder, scope) in grants && !grants[(folder, scope)].canRead && !grants[(folder, scope)].canWrite
  }

  ghost predicate RightDelta(db: Db, at: Db, grants: Grants, folder: Id, since: nat, reply: DeltaReply) {
    match reply
    case FolderNotFound => forall n :: n in db.nodes && db.nodes[n].folder == folder ==> db.nodes[n].parent != None
    case NotReadable(denial) => exists root :: RightRefusal(db, grants, folder, root, denial)
    case Delta(page) =>
      && (exists root, scope :: Serves(db, grants, folder, root, scope) && HoldsDue(db, folder, scope, since, page.ops))
      && if |page.ops| > 0 then page.upTo == page.ops[|page.ops| - 1].serverSeq
         else IsTopNumber(at.log, folder, page.upTo)
  }

  lemma PageHoldsDue(db: Db, folder: Id, scope: Id, since: nat)
    requires LogOrdered(db)
    ensures HoldsDue(db, folder, scope, since, PageFor(db.log, folder, Subtree(db.nodes, scope), since).ops)
  {
    var above, subtree := OpsAbove(db.log, folder, since), Subtree(db.nodes, scope);
    var due := InNodes(above, subtree);
    OpsAboveMembers(db.log, folder, since);
    OpsAboveAscending(db.log, folder, since);
    InNodesMembers(above, subtree);
    InNodesAscending(above, subtree);
    forall e
      ensures e in due <==> Due(db, folder, scope, since, e)
    {
      assert e.node in subtree <==> InSubtree(db.nodes, scope, e.node);
    }
    FirstThousand(due);
    hide OpsAbove, InNodes, Subtree, Due;
  }

  lemma FirstThousand(ops: seq<LogRow>)
    requires Ascending(ops)
    ensures var page := FirstOps(ops, PAGE_LIMIT);
            && |page| <= 1000 && Ascending(page) && (forall e :: e in page ==> e in ops)
            && forall e :: e in ops ==> e in page || (|page| == 1000 && e.serverSeq > page[999].serverSeq)
  {
    var page := FirstOps(ops, PAGE_LIMIT);
    forall e | e in ops
      ensures e in page || (|page| == 1000 && e.serverSeq > page[999].serverSeq)
    {
      var i :| 0 <= i < |ops| && ops[i] == e;
      assert i < |page| ==> page[i] == e;
    }
  }

  /** What the two grant checks of a pull come to. */
  lemma ServedByColumns(db: Db, grants: Grants, folder: Id, root: Id, answer: AuthzResult)
    requires IsRoot(db.nodes, folder, root) && ReadableGrant(db, grants, folder, root, answer)
    ensures match answer
            case Granted(_, scope, _) => Serves(db, grants, folder, root, scope)
            case Denied(denial) => RightRefusal(db, grants, folder, root, denial)
  {
    GrantedExactly(db.nodes, grants, root, Read);
    forall k: nat | k > 0
      ensures Up(db.nodes, root, k) == None
    {
    }
    var rootGrant := Authorize(db.nodes, grants, root, Read);
    assert Up(db.nodes, root, 0) == Some(root);
    hide Authorize, Walk, Up;
    if rootGrant.Granted? {
      var k: nat :| AnswerOf(db.nodes, grants, folder, root, rootGrant, k);
      assert k == 0;
      var j: nat :| PermittedAt(db.nodes, grants, folder, root, Read, j);
      assert j == 0;
    } else if forall scope :: (folder, scope) !in grants {
      assert !GrantInReach(db.nodes, grants, root);
    }
  }

  lemma HeadIsTopNumber(log: seq<LogRow>, folder: Id)
    ensures IsTopNumber(log, folder, Head(log, folder))
  {
    HeadIsTop(log, folder);
    HeadIsLogged(log, folder);
  }

  lemma PageByColumns(db: Db, at: Db, grants: Grants, folder: Id, root: Id, scope: Id, since: nat)
    requires LogOrdered(db) && Serves(db, grants, folder, root, scope)
    ensures RightDelta(db, at, grants, folder, since, WithHead(ReplyWithin(db, folder, scope, since), Head(at.log, folder)))
  {
    hide Serves, HoldsDue, IsTopNumber, Head, OpsAbove, InNodes, Subtree, FirstOps, LogOrdered;
    HeadIsTopNumber(at.log, folder);
    PageHoldsDue(db, folder, scope, since);
  }

  lemma NobodyIsRoot(db: Db, folder: Id)
    requires forall root :: !IsRoot(db.nodes, folder, root)
    ensures forall n :: n in db.nodes && db.nodes[n].folder == folder ==> db.nodes[n].parent != None
  {
    forall n | n in db.nodes && db.nodes[n].folder == folder
      ensures db.nodes[n].parent != None
    {
      assert !IsRoot(db.nodes, folder, n);
    }
  }

  /** The answer of a pull is right by the tables. */
  lemma DeltaByColumns(db: Db, at: Db, grants: Grants, folder: Id, since: nat, reply: DeltaReply)
    requires LogOrdered(db) && ServesOver(db, at, grants, folder, since, reply)
    ensures RightDelta(db, at, grants, folder, since, reply)
  {
    hide IsRoot, ReadableGrant, ReplyWithin, Serves, RightRefusal, HoldsDue, IsTopNumber, LogOrdered, Head;
    var first :| ServesDelta(db, grants, folder, since, first) && reply == WithHead(first, Head(at.log, folder));
    if exists root :: IsRoot(db.nodes, folder, root) {
      var root, answer :| IsRoot(db.nodes, folder, root) && ReadableGrant(db, grants, folder, root, answer) &&
        first == match answer
                 case Granted(_, scope, _) => ReplyWithin(db, folder, scope, since)
                 case Denied(denial) => NotReadable(denial);
      ServedByColumns(db, grants, folder, root, answer);
      if answer.Granted? {
        PageByColumns(db, at, grants, folder, root, answer.scope, since);
      }
    } else {
      NobodyIsRoot(db, folder);
    }
  }

  /** `at` is the state by the time the head is read. */
  method PullDelta(db: Db, at: Db, grants: Grants, folder: Id, since: nat) returns (reply: DeltaReply)
    requires ScopesOffCycles(db, grants, folder)
    ensures ServesOver(db, at, grants, folder, since, reply)
    ensures LogOrdered(db) ==> RightDelta(db, at, grants, folder, since, reply)
  {
    reply := AnswerDelta(db, at, grants, folder, since);
    hide *;
    if LogOrdered(db) {
      DeltaByColumns(db, at, grants, folder, since, reply);
    }
  }

  method AnswerDelta(db: Db, at: Db, grants: Grants, folder: Id, since: nat) returns (reply: DeltaReply)
    requires ScopesOffCycles(db, grants, folder)
    ensures ServesOver(db, at, grants, folder, since, reply)
  {
    if root :| root in db.nodes && IsRoot(db.nodes, folder, root) {
      var grant := ReadableGrantForFolder(db, grants, folder, root);
      if grant.Denied? {
        reply := NotReadable(grant.denial);
        assert ServesDelta(db, grants, folder, since, reply);
        assert reply == WithHead(reply, Head(at.log, folder));
        return;
      }
      var subtree := RecursiveQuery(db.nodes, grant.scope);
      ghost var first := Delta(PageFor(db.log, folder, subtree, since));
      assert ServesDelta(db, grants, folder, since, first);
      var ops := FirstOps(InNodes(OpsAbove(db.log, folder, since), subtree), PAGE_LIMIT);
      var head := Head(at.log, folder);
      reply := Delta(DeltaPage(ops, if ops != [] then ops[|ops| - 1].serverSeq else head));
      assert reply == WithHead(first, head);
    } else {
      reply := FolderNotFound;
      assert ServesDelta(db, grants, folder, since, reply);
      assert reply == WithHead(reply, Head(at.log, folder));
    }
  }

  datatype TreeReply = Tree(rows: Mirror, upTo: nat) | TreeNotFound | TreeNotReadable(denial: Denial)

  /** The folder's rows in the reader's subtree, as a client stores them: the scope node has no parent. */
  function TreeRows(nodes: Nodes, folder: Id, scope: Id, subtree: set<Id>): Mirror {
    map n | n in nodes && nodes[n].folder == folder && n in subtree ::
      if n == scope then Local(nodes[n]).(parent := None) else Local(nodes[n])
  }

  ghost predicate ServesTree(db: Db, grants: Grants, folder: Id, reply: TreeReply) {
    if exists root :: IsRoot(db.nodes, folder, root) then
      exists root, answer :: IsRoot(db.nodes, folder, root) && ReadableGrant(db, grants, folder, root, answer) &&
        reply == match answer
                 case Granted(_, scope, _) =>
                   Tree(TreeRows(db.nodes, folder, scope, Subtree(db.nodes, scope)), Head(db.log, folder))
                 case Denied(denial) => TreeNotReadable(denial)
    else reply == TreeNotFound
  }

  /** The same for the tree: rows of one state, head of a later one. */
  function TreeWithHead(reply: TreeReply, head: nat): TreeReply {
    if reply.Tree? then Tree(reply.rows, head) else reply
  }

  ghost predicate ServesTreeOver(db: Db, at: Db, grants: Grants, folder: Id, reply: TreeReply) {
    exists first :: ServesTree(db, grants, folder, first) && reply == TreeWithHead(first, Head(at.log, folder))
  }

  /** The rows are those of the folder's nodes in the scope's subtree, column by column; the scope node is sent
      without its parent, and every other node's parent is sent as well. */
  ghost predicate HoldsSubtree(nodes: Nodes, folder: Id, scope: Id, rows: Mirror) {
    && (forall n :: n in rows <==> n in nodes && nodes[n].folder == folder && InSubtree(nodes, scope, n))
    && (forall n :: n in rows ==>
          && rows[n].folder == folder && rows[n].name == nodes[n].name && rows[n].kind == nodes[n].kind
          && rows[n].current == nodes[n].current && rows[n].serverSeq == nodes[n].serverSeq
          && (rows[n].deleted <==> nodes[n].deletedAt != None))
    && (scope in rows ==> rows[scope].parent == None)
    && (forall n :: n in rows && n != scope ==>
          rows[n].parent == nodes[n].parent && rows[n].parent != None && rows[n].parent.value in rows)
  }

  ghost predicate RightTree(db: Db, at: Db, grants: Grants, folder: Id, reply: TreeReply) {
    match reply
    case TreeNotFound => forall n :: n in db.nodes && db.nodes[n].folder == folder ==> db.nodes[n].parent != None
    case TreeNotReadable(denial) => exists root :: RightRefusal(db, grants, folder, root, denial)
    case Tree(rows, upTo) =>
      && (exists root, scope :: Serves(db, grants, folder, root, scope) && HoldsSubtree(db.nodes, folder, scope, rows))
      && IsTopNumber(at.log, folder, upTo)
  }

  lemma RowsHoldSubtree(nodes: Nodes, folder: Id, scope: Id)
    requires ParentsInFolder(nodes)
    ensures HoldsSubtree(nodes, folder, scope, TreeRows(nodes, folder, scope, Subtree(nodes, scope)))
  {
    var rows := TreeRows(nodes, folder, scope, Subtree(nodes, scope));
    forall n | n in rows && n != scope
      ensures nodes[n].parent != None && nodes[n].parent.value in rows
    {
      SubtreeIsBelow(nodes, scope, n);
      BelowStep(nodes, n, scope);
      SubtreeIsBelow(nodes, scope, nodes[n].parent.value);
    }
  }

  lemma TreeByColumns(db: Db, at: Db, grants: Grants, folder: Id, reply: TreeReply)
    requires ParentsInFolder(db.nodes) && ServesTreeOver(db, at, grants, folder, reply)
    ensures RightTree(db, at, grants, folder, reply)
  {
    hide IsRoot, ReadableGrant, Serves, RightRefusal, HoldsSubtree, Subtree, TreeRows, IsTopNumber, ParentsInFolder, Head;
    var first :| ServesTree(db, grants, folder, first) && reply == TreeWithHead(first, Head(at.log, folder));
    HeadIsTopNumber(at.log, folder);
    if exists root :: IsRoot(db.nodes, folder, root) {
      var root, answer :| IsRoot(db.nodes, folder, root) && ReadableGrant(db, grants, folder, root, answer) &&
        first == match answer
                 case Granted(_, scope, _) =>
                   Tree(TreeRows(db.nodes, folder, scope, Subtree(db.nodes, scope)), Head(db.log, folder))
                 case Denied(denial) => TreeNotReadable(denial);
      ServedByColumns(db, grants, folder, root, answer);
      if answer.Granted? {
        RowsHoldSubtree(db.nodes, folder, answer.scope);
      }
    } else {
      NobodyIsRoot(db, folder);
    }
  }

  method PullTree(db: Db, at: Db, grants: Grants, folder: Id) returns (reply: TreeReply)
    requires ScopesOffCycles(db, grants, folder)
    ensures ServesTreeOver(db, at, grants, folder, reply)
    ensures ParentsInFolder(db.nodes) ==> RightTree(db, at, grants, folder, reply)
  {
    reply := AnswerTree(db, at, grants, folder);
    hide *;
    if ParentsInFolder(db.nodes) {
      TreeByColumns(db, at, grants, folder, reply);
    }
  }

  method AnswerTree(db: Db, at: Db, grants: Grants, folder: Id) returns (reply: TreeReply)
    requires ScopesOffCycles(db, grants, folder)
    ensures ServesTreeOver(db, at, grants, folder, reply)
  {
    ghost var first;
    if root :| root in db.nodes && IsRoot(db.nodes, folder, root) {
      var grant := ReadableGrantForFolder(db, grants, folder, root);
      if grant.Denied? {
        reply, first := TreeNotReadable(grant.denial), TreeNotReadable(grant.denial);
      } else {
        var subtree := RecursiveQuery(db.nodes, grant.scope);
        var rows := TreeRows(db.nodes, folder, grant.scope, subtree);
        reply, first := Tree(rows, Head(at.log, folder)), Tree(rows, Head(db.log, folder));
      }
    } else {
      reply, first := TreeNotFound, TreeNotFound;
    }
    assert ServesTree(db, grants, folder, first);
    assert reply == TreeWithHead(first, Head(at.log, folder));
  }
}
