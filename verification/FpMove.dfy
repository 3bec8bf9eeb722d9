/** Renaming and moving through the File Provider: two operations in a row, each written to the mirror as
    soon as the server has applied it. */
module FpMove {
  import opened Types
  import opened Ops
  import opened Steps
  import opened Invariants
  import opened History
  import opened Mirror
  import opened Store
  import opened Sync
  import opened Client
  import FileProvider

  datatype MoveResult =
    | Moved(serverSeq: nat)
    | BadRequest
    | UnknownNode
    | CrossFolder
    | Refused(response: Response)

  // A node's row as of a sequence number.

  lemma StepKeepsRowOrRaises(db: Db, cmd: Cmd, n: Id)
    requires Core(db) && n in db.nodes && n in Apply(db, cmd).nodes
    ensures Apply(db, cmd).nodes[n] == db.nodes[n] || Apply(db, cmd).nodes[n].serverSeq > db.nodes[n].serverSeq
  {
    if cmd.SubmitCmd? {
      AcceptedAdvances(db, cmd.rq);
    }
  }

  /** A node that is never purged keeps its folder, and has the same row whenever it has the same number. */
  lemma {:induction false} SameSeqSameRow(db: Db, cmds: seq<Cmd>, n: Id)
    requires Core(db) && Runs(db, cmds) && n in db.nodes && Spares(cmds, n)
    ensures var after := Run(db, cmds);
            && n in after.nodes && after.nodes[n].folder == db.nodes[n].folder
            && after.nodes[n].serverSeq >= db.nodes[n].serverSeq
            && (after.nodes[n].serverSeq == db.nodes[n].serverSeq ==> after.nodes[n] == db.nodes[n])
    decreases |cmds|
  {
    if cmds != [] {
      NodePersists(db, cmds[0], n);
      StepKeepsRowOrRaises(db, cmds[0], n);
      StepKeepsCore(db, cmds[0]);
      SameSeqSameRow(Apply(db, cmds[0]), cmds[1..], n);
    }
  }

  lemma NodePersists(db: Db, cmd: Cmd, n: Id)
    requires n in db.nodes && (cmd.PurgeNodes? ==> n !in cmd.ids) && Enabled(db, cmd)
    ensures n in Apply(db, cmd).nodes && Apply(db, cmd).nodes[n].folder == db.nodes[n].folder
  {
    hide Submit;
    if cmd.SubmitCmd? {
      SubmitCases(db, cmd.rq);
    }
  }

  /** The mirror row as the daemon writes it after an applied rename or move. */
  function Updated(row: LocalNode, op: Op, seq': nat): LocalNode {
    match op
    case Rename(_, _, newName) => row.(name := newName, serverSeq := seq')
    case Move(_, _, newParent) => row.(parent := Some(newParent), serverSeq := seq')
    case _ => row
  }

  /** The two rows agree on every column that the operation does not write. */
  predicate AgreeBesides(a: LocalNode, b: LocalNode, op: Op) {
    && a.folder == b.folder && a.kind == b.kind && a.current == b.current && a.deleted == b.deleted
    && (op.Rename? || a.name == b.name) && (op.Move? || a.parent == b.parent)
  }

  /** What the daemon writes is the server's new row if and only if its own row was right, beforehand, in all
      columns that the operation leaves alone. The number it sends along does not ensure this: the server
      compares it with its own row only. */
  lemma UpsertMatchesExactly(db: Db, rq: Request, row: LocalNode)
    requires (rq.op.Rename? || rq.op.Move?) && Submit(db, rq).response.Applied?
    ensures var n, response := rq.op.nodeId, Submit(db, rq).response;
            && n in db.nodes && n in Submit(db, rq).db.nodes
            && (Updated(row, rq.op, response.serverSeq) == Local(Submit(db, rq).db.nodes[n]) <==>
                AgreeBesides(row, Local(db.nodes[n]), rq.op))
  {
    hide Submit;
    SubmitCases(db, rq);
  }

  /** The daemon's row at the number it bases an operation on: if the server applies the operation, the
      daemon writes the server's new row, whatever other clients have committed in between. */
  lemma BasedOnMatches(start: Db, others: seq<Cmd>, rq: Request)
    requires Core(start) && Runs(start, others) && rq.op.nodeId in start.nodes
    requires Spares(others, rq.op.nodeId)
    requires (rq.op.Rename? || rq.op.Move?) && Submit(Run(start, others), rq).response.Applied?
    requires rq.op.basedOn == start.nodes[rq.op.nodeId].serverSeq
    ensures var n, Outcome(after, response) := rq.op.nodeId, Submit(Run(start, others), rq);
            n in after.nodes && Updated(Local(start.nodes[n]), rq.op, response.serverSeq) == Local(after.nodes[n])
  {
    hide Submit;
    SameSeqSameRow(start, others, rq.op.nodeId);
    SubmitShape(Run(start, others), rq);
    UpsertMatchesExactly(Run(start, others), rq, Local(start.nodes[rq.op.nodeId]));
  }

  lemma EnabledInFolder(db: Db, rq: Request)
    requires rq.op.nodeId in db.nodes && db.nodes[rq.op.nodeId].folder == rq.folder && (rq.op.Rename? || rq.op.Move?)
    ensures Enabled(db, SubmitCmd(rq))
  {
  }

  /** Other clients commit, then the daemon's operation reaches the server. */
  method SubmitAfter(store: MetadataStore, rq: Request, others: seq<Cmd>)
    returns (response: Response, ghost trace: seq<Cmd>)
    requires Core(store.Snapshot()) && (rq.op.Rename? || rq.op.Move?) && Spares(others, rq.op.nodeId)
    requires rq.op.nodeId in store.nodes && store.nodes[rq.op.nodeId].folder == rq.folder
    modifies store
    ensures Runs(old(store.Snapshot()), trace) && Spares(trace, rq.op.nodeId) && Core(store.Snapshot())
    ensures Outcome(store.Snapshot(), response) == Submit(Run(old(store.Snapshot()), trace), rq)
    ensures Enabled(Run(old(store.Snapshot()), trace), SubmitCmd(rq))
    ensures rq.op.nodeId in store.nodes && store.nodes[rq.op.nodeId].folder == rq.folder
    ensures response.Applied? && rq.op.basedOn == old(store.nodes[rq.op.nodeId].serverSeq) ==>
              Local(store.nodes[rq.op.nodeId]) == Updated(Local(old(store.nodes[rq.op.nodeId])), rq.op, response.serverSeq)
  {
    ghost var start, n := store.Snapshot(), rq.op.nodeId;
    trace := store.Interfere(others);
    ghost var before := store.Snapshot();
    SameSeqSameRow(start, trace, n);
    hide Core, Run, Runs, Submit;
    NodePersists(before, SubmitCmd(rq), n);
    EnabledInFolder(before, rq);
    SubmitKeepsCore(before, rq);
    response := store.SubmitOp(rq);
    if response.Applied? && rq.op.basedOn == start.nodes[n].serverSeq {
      BasedOnMatches(start, trace, rq);
    }
  }

  /** One operation of the chain: on `applied` the daemon's copy of the row is updated and written to the
      mirror, on anything else the mirror stays as it is. */
  method SubmitAndWrite(store: MetadataStore, daemon: FileProvider.DaemonState, rq: Request, row: LocalNode, others: seq<Cmd>)
    returns (response: Response, updated: LocalNode, ghost trace: seq<Cmd>)
    requires Core(store.Snapshot()) && (rq.op.Rename? || rq.op.Move?) && Spares(others, rq.op.nodeId)
    requires rq.op.nodeId in store.nodes && store.nodes[rq.op.nodeId].folder == rq.folder
    modifies store, daemon`mirror
    ensures Runs(old(store.Snapshot()), trace) && store.Snapshot() == Run(old(store.Snapshot()), trace)
    ensures Core(store.Snapshot()) && trace != [] && trace[|trace| - 1] == SubmitCmd(rq)
    ensures response == Submit(Run(old(store.Snapshot()), trace[..|trace| - 1]), rq).response
    ensures rq.op.nodeId in store.nodes && store.nodes[rq.op.nodeId].folder == rq.folder
    ensures !response.Applied? ==> updated == row && daemon.mirror == old(daemon.mirror)
    ensures response.Applied? ==>
              && updated == Updated(row, rq.op, response.serverSeq) && updated.serverSeq == response.serverSeq
              && daemon.mirror == old(daemon.mirror)[rq.op.nodeId := updated]
    ensures response.Applied? && row == Local(old(store.nodes[rq.op.nodeId])) && rq.op.basedOn == row.serverSeq ==>
              updated == Local(store.nodes[rq.op.nodeId])
  {
    hide Core, Run, Runs, Submit, Spares;
    ghost var start, more := store.Snapshot(), [];
    response, more := SubmitAfter(store, rq, others);
    RunOneMore(start, more, SubmitCmd(rq));
    trace := more + [SubmitCmd(rq)];
    assert trace[..|trace| - 1] == more;
    updated := row;
    if response.Applied? {
      updated := Updated(row, rq.op, response.serverSeq);
      daemon.UpsertNode(rq.op.nodeId, updated);
    }
  }

  /** The last of these steps is an operation on the node that the server applied under the row's number. */
  ghost predicate JustApplied(start: Db, steps: seq<Cmd>, n: Id, row: LocalNode) {
    && steps != [] && steps[|steps| - 1].SubmitCmd? && steps[|steps| - 1].rq.op.nodeId == n
    && var response := Submit(Run(start, steps[..|steps| - 1]), steps[|steps| - 1].rq).response;
       response.Applied? && response.serverSeq == row.serverSeq
  }

  /** The last of these steps submits this request. */
  ghost predicate EndsWith(steps: seq<Cmd>, rq: Request) {
    steps != [] && steps[|steps| - 1] == SubmitCmd(rq)
  }

  /** The server's answer to it. */
  ghost function AnswerTo(start: Db, steps: seq<Cmd>, rq: Request): Response
    requires EndsWith(steps, rq)
  {
    Submit(Run(start, steps[..|steps| - 1]), rq).response
  }

  lemma EndsStill(trace: seq<Cmd>, more: seq<Cmd>, rq: Request)
    requires EndsWith(more, rq)
    ensures EndsWith(trace + more, rq) && trace < trace + more
    ensures (trace + more)[..|trace + more| - 1] == trace + more[..|more| - 1]
  {
  }

  lemma AnswerLater(start: Db, trace: seq<Cmd>, more: seq<Cmd>, rq: Request)
    requires EndsWith(more, rq) && EndsWith(trace + more, rq)
    ensures AnswerTo(start, trace + more, rq) == AnswerTo(Run(start, trace), more, rq)
  {
    hide Submit, Run;
    EndsStill(trace, more, rq);
    RunAppend(start, trace, more[..|more| - 1]);
  }

  /** The move follows: none is asked for, or its target is known to be in another folder, or it is submitted on
      the number given, as the last of the steps. */
  ghost predicate RightMove(
    start: Db, before: seq<Cmd>, trace: seq<Cmd>, caller: Request, nodeId: Id, basedOn: nat, newParentId: Option<Id>,
    elsewhere: bool, result: MoveResult)
  {
    if newParentId == None then trace == before && result == Moved(basedOn)
    else if elsewhere then trace == before && result == CrossFolder
    else
      var rq := caller.(op := Move(nodeId, basedOn, newParentId.value));
      && before < trace && EndsWith(trace, rq)
      && var answer := AnswerTo(start, trace, rq);
         result == if answer.Applied? then Moved(answer.serverSeq) else Refused(answer)
  }

  /** What the call does on the server: the rename as asked for, if any, up to `renamed`, and then, unless that
      is refused, the move, based on the number of the rename. */
  ghost predicate RightCalls(
    start: Db, renamed: seq<Cmd>, trace: seq<Cmd>, caller: Request, nodeId: Id, basedOn: nat, newName: Option<string>,
    newParentId: Option<Id>, elsewhere: bool, result: MoveResult)
  {
    if newName == None then
      renamed == [] && RightMove(start, [], trace, caller, nodeId, basedOn, newParentId, elsewhere, result)
    else
      var rq := caller.(op := Rename(nodeId, basedOn, newName.value));
      && EndsWith(renamed, rq)
      && var answer := AnswerTo(start, renamed, rq);
         if answer.Applied? then RightMove(start, renamed, trace, caller, nodeId, answer.serverSeq, newParentId, elsewhere, result)
         else trace == renamed && result == Refused(answer)
  }

  /** The mirror row afterwards: the asked columns of the operations that were applied, and the number. */
  ghost predicate RightRow(
    was: LocalNode, row: LocalNode, newName: Option<string>, newParentId: Option<Id>, applied: nat)
  {
    var renamed := newName != None && applied > 0;
    var moved := newParentId != None && applied > if newName != None then 1 else 0;
    row == was.(name := if renamed then newName.value else was.name,
                parent := if moved then newParentId else was.parent,
                serverSeq := if applied > 0 then row.serverSeq else was.serverSeq)
  }

  /** Where the call stands: the steps taken on the server, and the position in them behind the operation
      that was applied last. There the mirror row is the server's row, as long as it was so at the start. */
  ghost predicate Follows(start: Db, trace: seq<Cmd>, at: nat, n: Id, row: LocalNode, trusted: bool) {
    && Runs(start, trace) && at <= |trace| && n in Run(start, trace[..at]).nodes
    && (at > 0 ==> JustApplied(start, trace[..at], n, row))
    && (trusted ==> row == Local(Run(start, trace[..at]).nodes[n]))
  }

  lemma FollowsFurther(start: Db, trace: seq<Cmd>, more: seq<Cmd>, at: nat, n: Id, row: LocalNode, trusted: bool)
    requires Follows(start, trace, at, n, row, trusted) && Runs(Run(start, trace), more)
    ensures Follows(start, trace + more, at, n, row, trusted)
    ensures Runs(start, trace + more) && Run(start, trace + more) == Run(Run(start, trace), more)
  {
    RunAppend(start, trace, more);
    assert (trace + more)[..at] == trace[..at];
  }

  lemma FollowsToEnd(start: Db, trace: seq<Cmd>, n: Id, row: LocalNode, trusted: bool)
    requires Runs(start, trace) && n in Run(start, trace).nodes && JustApplied(start, trace, n, row)
    requires trusted ==> row == Local(Run(start, trace).nodes[n])
    ensures Follows(start, trace, |trace|, n, row, trusted)
  {
    assert trace[..|trace|] == trace;
  }

  lemma AppliedBehind(start: Db, trace: seq<Cmd>, more: seq<Cmd>, rq: Request, row: LocalNode)
    requires more != [] && more[|more| - 1] == SubmitCmd(rq)
    requires var response := Submit(Run(Run(start, trace), more[..|more| - 1]), rq).response;
             response.Applied? && response.serverSeq == row.serverSeq
    ensures JustApplied(start, trace + more, rq.op.nodeId, row)
  {
    hide Submit, Run;
    var front := more[..|more| - 1];
    assert (trace + more)[..|trace + more| - 1] == trace + front;
    RunAppend(start, trace, front);
  }

  lemma InitiallyFollows(store: MetadataStore, row: LocalNode, n: Id, trusted: bool)
    requires n in store.nodes && (trusted ==> row == Local(store.nodes[n]))
    ensures Follows(store.Snapshot(), [], 0, n, row, trusted) && Run(store.Snapshot(), []) == store.Snapshot()
  {
    StandsForServer(store.Snapshot(), row, n, trusted);
  }

  lemma AskedIs(newName: Option<string>, newParentId: Option<Id>)
    ensures Asked(newName, newParentId) == (if newName.Some? then 1 else 0) + (if newParentId.Some? then 1 else 0)
  {
  }

  lemma StandsForServer(start: Db, row: LocalNode, n: Id, trusted: bool)
    requires n in start.nodes && (trusted ==> row == Local(start.nodes[n]))
    ensures Follows(start, [], 0, n, row, trusted) && Run(start, []) == start
  {
    EmptyRun(start);
    var none: seq<Cmd> := [];
    assert none[..0] == none;
  }

  /** The same with the position carried along. */
  method Stage(store: MetadataStore, daemon: FileProvider.DaemonState, rq: Request, row: LocalNode, others: seq<Cmd>,
               ghost start: Db, ghost trace: seq<Cmd>, ghost trusted: bool)
    returns (response: Response, updated: LocalNode, ghost longer: seq<Cmd>)
    requires Core(store.Snapshot()) && (rq.op.Rename? || rq.op.Move?) && Spares(others, rq.op.nodeId)
    requires rq.op.nodeId in store.nodes && store.nodes[rq.op.nodeId].folder == rq.folder
    requires store.Snapshot() == Run(start, trace) && Follows(start, trace, |trace|, rq.op.nodeId, row, trusted)
    requires trusted ==> rq.op.basedOn == row.serverSeq
    requires rq.op.nodeId in daemon.mirror && daemon.mirror[rq.op.nodeId] == row
    modifies store, daemon`mirror
    ensures Core(store.Snapshot()) && store.Snapshot() == Run(start, longer)
    ensures rq.op.nodeId in store.nodes && store.nodes[rq.op.nodeId].folder == rq.folder
    ensures daemon.mirror == old(daemon.mirror)[rq.op.nodeId := updated]
    ensures if response.Applied? then updated.folder == row.folder && updated.serverSeq == response.serverSeq else updated == row
    ensures response.Applied? ==> updated == Updated(row, rq.op, response.serverSeq)
    ensures trace < longer && EndsWith(longer, rq) && response == AnswerTo(start, longer, rq)
    ensures Follows(start, longer, if response.Applied? then |longer| else |trace|, rq.op.nodeId, updated, trusted)
  {
    hide Core, Run, Runs, Submit, Spares;
    ghost var more;
    ghost var n := rq.op.nodeId;
    assert trace[..|trace|] == trace;
    response, updated, more := SubmitAndWrite(store, daemon, rq, row, others);
    FollowsFurther(start, trace, more, |trace|, n, row, trusted);
    EndsStill(trace, more, rq);
    AnswerLater(start, trace, more, rq);
    longer := trace + more;
    if response.Applied? {
      AppliedBehind(start, trace, more, rq, updated);
      FollowsToEnd(start, longer, n, updated, trusted);
    }
  }

  lemma RenamedRow(row: LocalNode, nodeId: Id, basedOn: int, newName: string)
    ensures forall s: nat :: Updated(row, Rename(nodeId, basedOn, newName), s) == row.(name := newName, serverSeq := s)
  {
  }

  lemma MovedRow(row: LocalNode, nodeId: Id, basedOn: int, newParent: Id)
    ensures forall s: nat :: Updated(row, Move(nodeId, basedOn, newParent), s) == row.(parent := Some(newParent), serverSeq := s)
  {
  }

  /** The first half of the chain: the rename, and the answer of a server that does not apply it. */
  method RenameFirst(
    store: MetadataStore, daemon: FileProvider.DaemonState, caller: Request, row: LocalNode, nodeId: Id, basedOn: nat,
    newName: string, others: seq<Cmd>, ghost start: Db, ghost trusted: bool)
    returns (refusal: Option<Response>, updated: LocalNode, ghost trace: seq<Cmd>)
    requires Core(store.Snapshot()) && Spares(others, nodeId) && caller.folder == row.folder
    requires nodeId in store.nodes && store.nodes[nodeId].folder == row.folder
    requires nodeId in daemon.mirror && daemon.mirror[nodeId] == row && (trusted ==> basedOn == row.serverSeq)
    requires store.Snapshot() == start && Run(start, []) == start && Follows(start, [], 0, nodeId, row, trusted)
    modifies store, daemon`mirror
    ensures Core(store.Snapshot()) && store.Snapshot() == Run(start, trace)
    ensures nodeId in store.nodes && store.nodes[nodeId].folder == row.folder == updated.folder
    ensures daemon.mirror == old(daemon.mirror)[nodeId := updated]
    ensures Follows(start, trace, if refusal.None? then |trace| else 0, nodeId, updated, trusted)
    ensures refusal.Some? ==> updated == row && !refusal.value.Applied?
    ensures refusal.None? ==> updated == row.(name := newName, serverSeq := updated.serverSeq)
    ensures var rq := caller.(op := Rename(nodeId, basedOn, newName));
            && EndsWith(trace, rq)
            && var answer := AnswerTo(start, trace, rq);
               if answer.Applied? then refusal == None && updated.serverSeq == answer.serverSeq else refusal == Some(answer)
  {
    RenamedRow(row, nodeId, basedOn, newName);
    hide *;
    var response;
    response, updated, trace :=
      Stage(store, daemon, caller.(op := Rename(nodeId, basedOn, newName)), row, others, start, [], trusted);
    refusal := if response.Applied? then None else Some(response);
  }

  /** The mirror knows the new parent to be in another folder. */
  predicate Elsewhere(mirror: Mirror, row: LocalNode, newParentId: Option<Id>) {
    newParentId != None && newParentId.value in mirror && mirror[newParentId.value].folder != row.folder
  }

  /** The second half of the chain: the move, if one is asked for. */
  method MoveAfter(
    store: MetadataStore, daemon: FileProvider.DaemonState, caller: Request, row: LocalNode, nodeId: Id, basedOn: nat,
    newParentId: Option<Id>, others: seq<Cmd>, ghost start: Db, ghost trace: seq<Cmd>, ghost trusted: bool)
    returns (result: MoveResult, ghost longer: seq<Cmd>, ghost at: nat, ghost applied: bool)
    requires Core(store.Snapshot()) && Spares(others, nodeId) && caller.folder == row.folder
    requires nodeId in store.nodes && store.nodes[nodeId].folder == row.folder
    requires nodeId in daemon.mirror && daemon.mirror[nodeId] == row && (trusted ==> basedOn == row.serverSeq)
    requires store.Snapshot() == Run(start, trace) && Follows(start, trace, |trace|, nodeId, row, trusted)
    modifies store, daemon`mirror
    ensures store.Snapshot() == Run(start, longer) && nodeId in daemon.mirror
    ensures daemon.mirror == old(daemon.mirror)[nodeId := daemon.mirror[nodeId]]
    ensures !applied ==> at == |trace| && daemon.mirror[nodeId] == row
    ensures Follows(start, longer, at, nodeId, daemon.mirror[nodeId], trusted)
    ensures newParentId.None? ==> !applied && result == Moved(basedOn)
    ensures newParentId.Some? ==> (result.Moved? <==> applied)
    ensures applied ==> result == Moved(daemon.mirror[nodeId].serverSeq)
    ensures !result.BadRequest? && !result.UnknownNode?
    ensures applied ==> daemon.mirror[nodeId] == row.(parent := newParentId, serverSeq := daemon.mirror[nodeId].serverSeq)
    ensures RightMove(start, trace, longer, caller, nodeId, basedOn, newParentId, Elsewhere(old(daemon.mirror), row, newParentId),
                      result)
  {
    hide Core, Run, Runs, Submit, Spares, Follows, AnswerTo, Updated;
    if newParentId.None? {
      return Moved(basedOn), trace, |trace|, false;
    }
    MovedRow(row, nodeId, basedOn, newParentId.value);
    if newParentId.value in daemon.mirror && daemon.mirror[newParentId.value].folder != row.folder {
      return CrossFolder, trace, |trace|, false;
    }
    var response, updated;
    response, updated, longer :=
      Stage(store, daemon, caller.(op := Move(nodeId, basedOn, newParentId.value)), row, others, start, trace, trusted);
    applied := response.Applied?;
    at := if applied then |longer| else |trace|;
    result := if response.Applied? then Moved(response.serverSeq) else Refused(response);
  }

  lemma SameElsewhere(mirror: Mirror, once: Mirror, was: LocalNode, row: LocalNode, n: Id, newParentId: Option<Id>)
    requires n in mirror && mirror[n] == was && row.folder == was.folder && once == mirror[n := row]
    ensures Elsewhere(once, row, newParentId) == Elsewhere(mirror, was, newParentId)
  {
  }

  lemma WrittenTwice(mirror: Mirror, once: Mirror, twice: Mirror, n: Id)
    requires n in mirror && n in once && n in twice
    requires once == mirror[n := once[n]] && twice == once[n := twice[n]]
    ensures twice == mirror[n := twice[n]]
  {
  }

  /** The two operations, for a valid request on a node that the mirror has. */
  method RenameThenMove(
    store: MetadataStore, daemon: FileProvider.DaemonState, caller: Request, nodeId: Id, basedOn: nat,
    newName: Option<string>, newParentId: Option<Id>, before: seq<Cmd>, between: seq<Cmd>, ghost trusted: bool)
    returns (result: MoveResult, ghost trace: seq<Cmd>, ghost at: nat, ghost applied: nat, ghost renamedBy: seq<Cmd>)
    requires Core(store.Snapshot()) && Spares(before, nodeId) && Spares(between, nodeId)
    requires nodeId in daemon.mirror && nodeId in store.nodes
    requires store.nodes[nodeId].folder == daemon.mirror[nodeId].folder == caller.folder
    requires trusted ==> daemon.mirror[nodeId] == Local(store.nodes[nodeId]) && basedOn == daemon.mirror[nodeId].serverSeq
    requires newName.Some? || newParentId.Some?
    modifies store, daemon`mirror
    ensures !result.BadRequest? && !result.UnknownNode? && nodeId in daemon.mirror
    ensures store.Snapshot() == Run(old(store.Snapshot()), trace)
    ensures daemon.mirror == old(daemon.mirror)[nodeId := daemon.mirror[nodeId]]
    ensures Follows(old(store.Snapshot()), trace, at, nodeId, daemon.mirror[nodeId], trusted)
    ensures applied == 0 ==> at == 0 && daemon.mirror[nodeId] == old(daemon.mirror[nodeId])
    ensures result.Moved? <==> applied == Asked(newName, newParentId)
    ensures result.Moved? ==> daemon.mirror[nodeId].serverSeq == result.serverSeq
    ensures RightCalls(old(store.Snapshot()), renamedBy, trace, caller, nodeId, basedOn, newName, newParentId,
                       Elsewhere(old(daemon.mirror), old(daemon.mirror[nodeId]), newParentId), result)
    ensures RightRow(old(daemon.mirror[nodeId]), daemon.mirror[nodeId], newName, newParentId, applied)
  {
    hide Core, Run, Runs, Submit, Spares, Follows, AnswerTo, Updated, RightMove, Asked, Elsewhere, EndsWith;
    AskedIs(newName, newParentId);
    InitiallyFollows(store, daemon.mirror[nodeId], nodeId, trusted);
    ghost var start, mirror, moved := store.Snapshot(), daemon.mirror, false;
    trace, at, applied, renamedBy := [], 0, 0, [];
    if newName.None? {
      result, trace, at, moved :=
        MoveAfter(store, daemon, caller, daemon.mirror[nodeId], nodeId, basedOn, newParentId, between, start, [], trusted);
      applied := if moved then 1 else 0;
      return;
    }
    var refusal, renamed;
    refusal, renamed, trace :=
      RenameFirst(store, daemon, caller, daemon.mirror[nodeId], nodeId, basedOn, newName.value, before, start, trusted);
    renamedBy := trace;
    if refusal.Some? {
      return Refused(refusal.value), trace, at, applied, renamedBy;
    }
    SameElsewhere(mirror, daemon.mirror, mirror[nodeId], renamed, nodeId, newParentId);
    ghost var once := daemon.mirror;
    result, trace, at, moved :=
      MoveAfter(store, daemon, caller, renamed, nodeId, renamed.serverSeq, newParentId, between, start, trace, trusted);
    WrittenTwice(mirror, once, daemon.mirror, nodeId);
    applied := if moved then 2 else 1;
  }

  /** How many operations a request asks for. */
  function Asked(newName: Option<string>, newParentId: Option<Id>): nat {
    (if newName.Some? then 1 else 0) + (if newParentId.Some? then 1 else 0)
  }

  /** `fp_move`. If the mirror row is the server's row at the number the request is based on, then however the
      two operations end, and whatever other clients commit before and between them, the mirror row is the
      server's row as it stood right after the last operation that was applied. */
  method FpMove(
    store: MetadataStore, daemon: FileProvider.DaemonState, caller: Request, nodeId: Id, basedOn: nat,
    newName: Option<string>, newParentId: Option<Id>, before: seq<Cmd>, between: seq<Cmd>)
    returns (result: MoveResult, ghost trace: seq<Cmd>, ghost at: nat, ghost applied: nat, ghost renamedBy: seq<Cmd>)
    requires Core(store.Snapshot()) && Spares(before, nodeId) && Spares(between, nodeId)
    requires nodeId in daemon.mirror ==>
               nodeId in store.nodes && store.nodes[nodeId].folder == daemon.mirror[nodeId].folder == caller.folder
    modifies store, daemon`mirror
    ensures result.BadRequest? <==> (newName == None && newParentId == None) || newName == Some("")
    ensures result.UnknownNode? <==> !result.BadRequest? && nodeId !in old(daemon.mirror)
    ensures result.BadRequest? || result.UnknownNode? ==> trace == []
    ensures !result.BadRequest? && !result.UnknownNode? ==>
              && RightCalls(old(store.Snapshot()), renamedBy, trace, caller, nodeId, basedOn, newName, newParentId,
                            Elsewhere(old(daemon.mirror), old(daemon.mirror[nodeId]), newParentId), result)
              && nodeId in daemon.mirror
              && RightRow(old(daemon.mirror[nodeId]), daemon.mirror[nodeId], newName, newParentId, applied)
    ensures store.Snapshot() == Run(old(store.Snapshot()), trace)
    ensures applied == 0 ==> daemon.mirror == old(daemon.mirror) && at == 0
    ensures applied > 0 ==>
              && nodeId in old(daemon.mirror) && nodeId in daemon.mirror
              && daemon.mirror == old(daemon.mirror)[nodeId := daemon.mirror[nodeId]]
    ensures nodeId in old(daemon.mirror) ==>
              Follows(old(store.Snapshot()), trace, at, nodeId, daemon.mirror[nodeId],
                      old(daemon.mirror[nodeId]) == Local(old(store.nodes[nodeId])) && basedOn == old(daemon.mirror[nodeId]).serverSeq)
    ensures result.Moved? <==> applied == Asked(newName, newParentId) && applied > 0
    ensures result.Moved? ==> daemon.mirror[nodeId].serverSeq == result.serverSeq
  {
    ghost var start := store.Snapshot();
    ghost var trusted := nodeId in daemon.mirror && daemon.mirror[nodeId] == Local(store.nodes[nodeId])
                         && basedOn == daemon.mirror[nodeId].serverSeq;
    hide Core, Run, Runs, Follows, Spares, RightCalls, RightRow, Elsewhere;
    trace, at, applied, renamedBy := [], 0, 0, [];
    EmptyRun(start);
    if nodeId in daemon.mirror {
      StandsForServer(start, daemon.mirror[nodeId], nodeId, trusted);
    }
    if Asked(newName, newParentId) == 0 || newName == Some("") {
      return BadRequest, trace, at, applied, renamedBy;
    }
    if nodeId !in daemon.mirror {
      return UnknownNode, trace, at, applied, renamedBy;
    }
    result, trace, at, applied, renamedBy :=
      RenameThenMove(store, daemon, caller, nodeId, basedOn, newName, newParentId, before, between, trusted);
  }

  // What the direct write to the mirror does to the pulls.

  ghost predicate NotCreated(entries: seq<LogRow>, n: Id) {
    forall e :: e in entries && e.node == n ==> !e.payload.CreatePayload?
  }

  lemma EntrySkips(mirror: Mirror, e: LogRow, n: Id, row: LocalNode)
    requires n in mirror && mirror[n].folder == row.folder && ApplyEntry(mirror, e).Some?
    requires e.node == n ==> !e.payload.CreatePayload? && e.serverSeq <= row.serverSeq
    ensures var next := ApplyEntry(mirror, e).value;
            n in next && next[n].folder == row.folder && ApplyEntry(mirror[n := row], e) == Some(next[n := row])
  {
    var next := ApplyEntry(mirror, e).value;
    assert next.Keys == mirror.Keys + {e.node};
    if e.node == n {
      assert next[n := row] == mirror[n := row];
    } else {
      assert next == mirror[e.node := next[e.node]];
      assert mirror[n := row][e.node := next[e.node]] == next[n := row];
    }
  }

  /** Replaying rows over a mirror in which one node's row is already ahead of them skips that node's rows and
      is otherwise the same. */
  lemma {:induction false} ReplaySkips(mirror: Mirror, entries: seq<LogRow>, n: Id, row: LocalNode)
    requires n in mirror && mirror[n].folder == row.folder && NotCreated(entries, n) && Replay(mirror, entries).Some?
    requires forall e :: e in entries && e.node == n ==> e.serverSeq <= row.serverSeq
    ensures n in Replay(mirror, entries).value
    ensures Replay(mirror[n := row], entries) == Some(Replay(mirror, entries).value[n := row])
    decreases |entries|
  {
    if entries != [] {
      var e, next := entries[0], ApplyEntry(mirror, entries[0]).value;
      EntrySkips(mirror, e, n, row);
      ReplaySkips(next, entries[1..], n, row);
    }
  }

  /** Writing the server's row to the mirror right away does no harm to a mirror that is behind: it is still
      behind by exactly the rows above its cursor, the next pulls skipping what the row already contains. */
  lemma EarlyWriteHarmless(mirror: Mirror, cursor: nat, db: Db, folder: Id, left: Mirror, n: Id)
    requires SeqsCurrent(db) && Reproduces(mirror, cursor, db, folder, left)
    requires n in mirror && n in db.nodes && mirror[n].folder == db.nodes[n].folder == folder
    requires NotCreated(OpsAbove(db.log, folder, cursor), n)
    ensures Reproduces(mirror[n := Local(db.nodes[n])], cursor, db, folder, left)
  {
    var ops, row := OpsAbove(db.log, folder, cursor), Local(db.nodes[n]);
    OpsAboveMembers(db.log, folder, cursor);
    forall e | e in ops && e.node == n
      ensures e.serverSeq <= row.serverSeq
    {
      var i :| 0 <= i < |db.log| && db.log[i] == e;
    }
    ReplaySkips(mirror, ops, n, row);
    var view := View(db.nodes, folder);
    assert view[n] == row && (left + view)[n := row] == left + view;
  }

  /** Written late, when pulls have already taken the node's last row in, it does no harm if and only if it
      is the row that the mirror has anyway: an older row stays, because no pull will bring the newer one again. */
  lemma LateWriteHarmlessExactly(
    mirror: Mirror, cursor: nat, db: Db, folder: Id, left: Mirror, n: Id, row: LocalNode)
    requires Reproduces(mirror, cursor, db, folder, left) && n in mirror && mirror[n].folder == row.folder
    requires forall e :: e in OpsAbove(db.log, folder, cursor) ==> e.node != n
    ensures Reproduces(mirror[n := row], cursor, db, folder, left) <==> mirror[n] == row
  {
    var ops := OpsAbove(db.log, folder, cursor);
    ReplaySkips(mirror, ops, n, row);
    ReplayLeavesOthers(mirror, ops, n);
    var replayed := left + View(db.nodes, folder);
    assert replayed[n] == mirror[n];
    if mirror[n] == row {
      assert replayed[n := row] == replayed;
    } else {
      assert replayed[n := row][n] != replayed[n];
    }
  }

  /** A stale mirror row and a current number: the move is applied, the row that the daemon writes lacks the
      node's version, and replaying the log row of that version does not bring it back. */
  lemma StaleRowStays(db: Db, rq: Request, stale: LocalNode, version: LogRow)
    requires rq.op.Move? && Submit(db, rq).response.Applied?
    requires rq.op.nodeId in db.nodes && db.nodes[rq.op.nodeId].current != stale.current
    requires version.node == rq.op.nodeId && version.payload.VersionPayload? && version.serverSeq <= db.lastSeq
    ensures var n, Outcome(after, response) := rq.op.nodeId, Submit(db, rq);
            var written := map[n := Updated(stale, rq.op, response.serverSeq)];
            && n in after.nodes && written[n].serverSeq == after.nodes[n].serverSeq && written[n] != Local(after.nodes[n])
            && ApplyEntry(written, version) == Some(written)
  {
    hide Submit;
    SubmitShape(db, rq);
    UpsertMatchesExactly(db, rq, stale);
  }
}
