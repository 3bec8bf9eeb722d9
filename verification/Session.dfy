/** A pull session during which other clients commit between the pages. */
module Session {
  import opened Types
  import opened Tree
  import opened Authz
  import opened Ops
  import opened Steps
  import opened Invariants
  import opened Mirror
  import opened Sync
  import opened Client

  /** The step does not move a node of the folder into its own subtree. The server itself does not check this. */
  ghost predicate Acyclic(db: Db, cmd: Cmd, folder: Id) {
    cmd.SubmitCmd? && cmd.rq.folder == folder && cmd.rq.op.Move? ==>
      !Below(db.nodes, cmd.rq.op.newParentId, cmd.rq.op.nodeId)
  }

  /** The row of an accepted op, as far as the shape of the tree is concerned. */
  ghost predicate Replants(nodes: Nodes, rq: Request, row: NodeRow) {
    var n := rq.op.nodeId;
    && row.folder == rq.folder && (n in nodes ==> nodes[n].folder == rq.folder)
    && if rq.op.Create? || rq.op.Move? then
         && (rq.op.Create? ==> n !in nodes) && (rq.op.Move? ==> n in nodes && row.parent == Some(rq.op.newParentId))
         && row.parent.Some? && row.parent.value in nodes && nodes[row.parent.value].folder == rq.folder
       else n in nodes && row.parent == nodes[n].parent
  }

  lemma AcceptedReplants(db: Db, rq: Request)
    requires OpInFolder(db, rq) && Accepted(Submit(db, rq).response)
    ensures rq.op.nodeId in Submit(db, rq).db.nodes
    ensures Replants(db.nodes, rq, Submit(db, rq).db.nodes[rq.op.nodeId])
  {
  }

  /** A folder that is a tree under one root stays one: creations add leaves, moves go elsewhere in the
      tree, the root can go nowhere, and changes in other folders do not matter. */
  lemma ReplantedTree(nodes: Nodes, rq: Request, row: NodeRow, folder: Id, root: Id)
    requires ParentsInFolder(nodes) && Grounded(nodes, folder) && SingleRoot(nodes, folder, root)
    requires Replants(nodes, rq, row)
    requires rq.folder == folder && rq.op.Move? ==> !Below(nodes, rq.op.newParentId, rq.op.nodeId)
    ensures Grounded(nodes[rq.op.nodeId := row], folder) && SingleRoot(nodes[rq.op.nodeId := row], folder, root)
  {
    var n := rq.op.nodeId;
    if folder != rq.folder {
      GroundedElsewhere(nodes, n, row, folder);
    } else if rq.op.Move? {
      GroundedAfterMove(nodes, n, row, folder);
      RootSubtreeIsFolder(nodes, folder, root, rq.op.newParentId);
      SubtreeIsBelow(nodes, root, rq.op.newParentId);
    } else {
      GroundedAfterInsert(nodes, n, row, folder);
    }
  }

  lemma SubmitKeepsTree(db: Db, rq: Request, folder: Id, root: Id)
    requires Core(db) && OpInFolder(db, rq) && Acyclic(db, SubmitCmd(rq), folder)
    requires Grounded(db.nodes, folder) && SingleRoot(db.nodes, folder, root)
    ensures Grounded(Submit(db, rq).db.nodes, folder) && SingleRoot(Submit(db, rq).db.nodes, folder, root)
  {
    SubmitShape(db, rq);
    if Accepted(Submit(db, rq).response) {
      AcceptedReplants(db, rq);
      ReplantedTree(db.nodes, rq, Submit(db, rq).db.nodes[rq.op.nodeId], folder, root);
    }
  }

  lemma RootReadsOn(nodes: Nodes, after: Nodes, grants: Grants, folder: Id, root: Id)
    requires SingleRoot(nodes, folder, root) && SingleRoot(after, folder, root)
    ensures Authorize(nodes, grants, root, Read) == Authorize(after, grants, root, Read)
  {
  }

  lemma PurgeKeepsTree(db: Db, ids: set<Id>, granted: set<Id>, folder: Id, root: Id)
    requires Grounded(db.nodes, folder) && SingleRoot(db.nodes, folder, root) && root !in ids
    ensures Grounded(Purged(db, ids, granted).nodes, folder) && SingleRoot(Purged(db, ids, granted).nodes, folder, root)
  {
    hide Purgeable, Grounded;
    GroundedAfterPurge(db.nodes, ids, folder);
  }

  lemma StepKeepsReader(db: Db, cmd: Cmd, grants: Grants, folder: Id, root: Id)
    requires Core(db) && Enabled(db, cmd) && Acyclic(db, cmd, folder) && (cmd.PurgeNodes? ==> root !in cmd.ids)
    requires RootReader(db, grants, folder, root)
    ensures RootReader(Apply(db, cmd), grants, folder, root)
  {
    hide Submit, Purged, Core, Grounded, Authorize, Below;
    match cmd {
      case SubmitCmd(rq) => SubmitKeepsTree(db, rq, folder, root);
      case PurgeNodes(ids, granted) => PurgeKeepsTree(db, ids, granted, folder, root);
      case _ =>
    }
    RootReadsOn(db.nodes, Apply(db, cmd).nodes, grants, folder, root);
  }

  ghost predicate AcyclicRun(db: Db, cmds: seq<Cmd>, folder: Id)
    decreases |cmds|
  {
    cmds == [] || (Acyclic(db, cmds[0], folder) && AcyclicRun(Apply(db, cmds[0]), cmds[1..], folder))
  }

  /** Steps of others while a page is fetched. Purge and truncation may have what the client has pulled, but
      for the root. */
  ghost predicate Commits(db: Db, cmds: seq<Cmd>, folder: Id, root: Id, cursor: nat) {
    Runs(db, cmds) && AllKeep(db, cmds, folder, cursor) && AcyclicRun(db, cmds, folder) && Spares(cmds, root)
  }

  lemma {:induction false} RunKeepsReader(db: Db, cmds: seq<Cmd>, cursor: nat, grants: Grants, folder: Id, root: Id)
    requires Core(db) && Commits(db, cmds, folder, root, cursor) && RootReader(db, grants, folder, root)
    ensures RootReader(Run(db, cmds), grants, folder, root)
    decreases |cmds|
  {
    if cmds != [] {
      StepKeepsReader(db, cmds[0], grants, folder, root);
      StepKeepsCore(db, cmds[0]);
      RunKeepsReader(Apply(db, cmds[0]), cmds[1..], cursor, grants, folder, root);
    }
  }

  lemma SubmitGrowsLog(db: Db, rq: Request) returns (added: seq<LogRow>)
    ensures Submit(db, rq).db.log == db.log + added && db.lastSeq <= Submit(db, rq).db.lastSeq
    ensures forall e :: e in added ==> e.serverSeq > db.lastSeq
  {
    SubmitShape(db, rq);
    SubmitLogs(db, rq);
    if Accepted(Submit(db, rq).response) {
      added := [Logged(db, rq, Submit(db, rq).response)];
    } else {
      added := [];
    }
  }

  lemma {:induction false} OpsAboveGrown(log: seq<LogRow>, added: seq<LogRow>, folder: Id, low: nat, high: nat)
    requires low <= high && forall e :: e in added ==> e.serverSeq > high
    ensures OpsAbove(log + added, folder, low) == OpsAbove(log, folder, low) + OpsAbove(added, folder, high)
    decreases |added|
  {
    if added == [] {
      assert log + added == log;
    } else {
      var front, last := added[..|added| - 1], added[|added| - 1];
      assert log + added == (log + front) + [last] && added == front + [last];
      OpsAboveGrown(log, front, folder, low, high);
      OpsAboveAppend(log + front, last, folder, low);
    }
  }

  /** The rows of the folder that a step logs. */
  ghost function Logs(db: Db, cmd: Cmd, folder: Id): seq<LogRow> {
    if cmd.SubmitCmd? && |Submit(db, cmd.rq).db.log| > |db.log|
    then OpsAbove(Submit(db, cmd.rq).db.log[|db.log|..], folder, db.lastSeq) else []
  }

  ghost function LoggedBy(db: Db, cmds: seq<Cmd>, folder: Id): seq<LogRow>
    decreases |cmds|
  {
    if cmds == [] then [] else Logs(db, cmds[0], folder) + LoggedBy(Apply(db, cmds[0]), cmds[1..], folder)
  }

  lemma StepLogs(db: Db, cmd: Cmd, folder: Id, cursor: nat)
    requires cursor <= db.lastSeq && Keeps(db, cmd, folder, cursor)
    ensures OpsAbove(Apply(db, cmd).log, folder, cursor) == OpsAbove(db.log, folder, cursor) + Logs(db, cmd, folder)
    ensures db.lastSeq <= Apply(db, cmd).lastSeq
    ensures forall e :: e in Logs(db, cmd, folder) ==> e.serverSeq > db.lastSeq
  {
    match cmd {
      case SubmitCmd(rq) =>
        var added := SubmitGrowsLog(db, rq);
        OpsAboveGrown(db.log, added, folder, cursor, db.lastSeq);
        OpsAboveMembers(added, folder, db.lastSeq);
        assert (db.log + added)[|db.log|..] == added;
      case TruncateLog(seqs) => TruncationBelow(db.log, seqs, folder, cursor);
      case _ =>
    }
  }

  /** The rows above the cursor are those from before, followed by those logged meanwhile under later numbers. */
  lemma {:induction false} RunLogs(db: Db, cmds: seq<Cmd>, folder: Id, cursor: nat)
    requires cursor <= db.lastSeq && AllKeep(db, cmds, folder, cursor)
    ensures OpsAbove(Run(db, cmds).log, folder, cursor) == OpsAbove(db.log, folder, cursor) + LoggedBy(db, cmds, folder)
    ensures db.lastSeq <= Run(db, cmds).lastSeq
    ensures forall e :: e in LoggedBy(db, cmds, folder) ==> e.serverSeq > db.lastSeq
    decreases |cmds|
  {
    hide Logs, Apply, OpsAbove, Keeps;
    if cmds != [] {
      StepLogs(db, cmds[0], folder, cursor);
      RunLogs(Apply(db, cmds[0]), cmds[1..], folder, cursor);
    }
  }

  lemma StepKeepsRowsThere(db: Db, cmd: Cmd, folder: Id, cursor: nat)
    requires Core(db) && Enabled(db, cmd) && Keeps(db, cmd, folder, cursor)
    requires cursor <= db.lastSeq && RowsHaveNodes(db, folder, cursor)
    ensures RowsHaveNodes(Apply(db, cmd), folder, cursor)
  {
    hide Submit, OpsAbove, Replay, View, Purged;
    match cmd {
      case SubmitCmd(rq) =>
        SubmitShape(db, rq);
        if Accepted(Submit(db, rq).response) {
          SubmitLogs(db, rq);
          SubmitKeepsView(db, rq, folder);
          OpsAboveAppend(db.log, Logged(db, rq, Submit(db, rq).response), folder, cursor);
        }
      case PurgeNodes(ids, granted) => PurgedRowsBelow(db, ids, granted, folder, cursor);
      case TruncateLog(seqs) => TruncationBelow(db.log, seqs, folder, cursor);
      case _ =>
    }
  }

  lemma {:induction false} RunKeepsRowsThere(db: Db, cmds: seq<Cmd>, folder: Id, cursor: nat)
    requires Core(db) && Runs(db, cmds) && AllKeep(db, cmds, folder, cursor)
    requires cursor <= db.lastSeq && RowsHaveNodes(db, folder, cursor)
    ensures RowsHaveNodes(Run(db, cmds), folder, cursor)
    decreases |cmds|
  {
    if cmds != [] {
      hide Core, RowsHaveNodes, Keeps, Apply, Enabled, OpsAbove;
      StepKeepsRowsThere(db, cmds[0], folder, cursor);
      StepLogs(db, cmds[0], folder, cursor);
      StepKeepsCore(db, cmds[0]);
      RunKeepsRowsThere(Apply(db, cmds[0]), cmds[1..], folder, cursor);
    }
  }

  // Sessions.

  /** Commits of others, then one page. */
  datatype Round = Round(commits: seq<Cmd>, reply: DeltaReply)

  /** The client goes on with answers that are not behind its cursor. */
  ghost predicate Served(db: Db, grants: Grants, folder: Id, root: Id, cursor: nat, rounds: seq<Round>)
    decreases |rounds|
  {
    rounds == [] ||
    var next := Run(db, rounds[0].commits);
    && Commits(db, rounds[0].commits, folder, root, cursor)
    && ServesDelta(next, grants, folder, cursor, rounds[0].reply)
    && rounds[0].reply.Delta? && cursor <= rounds[0].reply.page.upTo
    && Served(next, grants, folder, root, rounds[0].reply.page.upTo, rounds[1..])
  }

  ghost function LastDb(db: Db, rounds: seq<Round>): Db
    decreases |rounds|
  {
    if rounds == [] then db else LastDb(Run(db, rounds[0].commits), rounds[1..])
  }

  function LastCursor(cursor: nat, rounds: seq<Round>): nat
    decreases |rounds|
  {
    if rounds == [] then cursor
    else LastCursor(if rounds[0].reply.Delta? then rounds[0].reply.page.upTo else cursor, rounds[1..])
  }

  function Delivered(rounds: seq<Round>): seq<LogRow>
    decreases |rounds|
  {
    if rounds == [] then []
    else (if rounds[0].reply.Delta? then rounds[0].reply.page.ops else []) + Delivered(rounds[1..])
  }

  /** The rows of the folder that the commits of a session log. */
  ghost function LoggedInSession(db: Db, rounds: seq<Round>, folder: Id): seq<LogRow>
    decreases |rounds|
  {
    if rounds == [] then []
    else LoggedBy(db, rounds[0].commits, folder) + LoggedInSession(Run(db, rounds[0].commits), rounds[1..], folder)
  }

  /** What is left of the nodes that purges remove during a session. */
  ghost function LeftInSession(db: Db, rounds: seq<Round>, folder: Id, left: Mirror): Mirror
    decreases |rounds|
  {
    if rounds == [] then left
    else LeftInSession(Run(db, rounds[0].commits), rounds[1..], folder, LeftBy(db, rounds[0].commits, folder, left))
  }

  lemma HeadWithin(db: Db, folder: Id)
    requires LogOrdered(db)
    ensures Head(db.log, folder) <= db.lastSeq
  {
    HeadIsTop(db.log, folder);
  }

  /** After commits and an answer that is not behind, the head is not behind the cursor either. */
  lemma HeadAfterCommits(db: Db, grants: Grants, folder: Id, cursor: nat, reply: DeltaReply)
    requires LogOrdered(db) && ServesDelta(db, grants, folder, cursor, reply) && reply.Delta? && cursor <= reply.page.upTo
    ensures cursor <= Head(db.log, folder) <= db.lastSeq
  {
    HeadNeverBehindExactly(db, grants, folder, cursor, reply);
    HeadIsTop(db.log, folder);
    HeadWithin(db, folder);
  }

  /** One round of a root reader: the page and what is above its number are what was above the cursor and what
      the commits have logged. */
  lemma RoundDelivers(db: Db, grants: Grants, folder: Id, root: Id, cursor: nat, round: Round)
    requires Core(db) && RootReader(db, grants, folder, root) && RowsHaveNodes(db, folder, cursor) && cursor <= db.lastSeq
    requires Served(db, grants, folder, root, cursor, [round])
    ensures var next, page := Run(db, round.commits), round.reply.page;
            && Core(next) && RootReader(next, grants, folder, root) && GoodPage(cursor, next, folder, page)
            && page.upTo <= next.lastSeq && db.lastSeq <= next.lastSeq
            && page.ops + OpsAbove(next.log, folder, page.upTo) ==
               OpsAbove(db.log, folder, cursor) + LoggedBy(db, round.commits, folder)
            && forall e :: e in LoggedBy(db, round.commits, folder) ==> e.serverSeq > db.lastSeq
  {
    var Round(commits, reply) := round;
    var next := Run(db, commits);
    assert Served(db, grants, folder, root, cursor, [round]) ==> Commits(db, commits, folder, root, cursor);
    RunKeepsInv(db, commits);
    RunKeepsReader(db, commits, cursor, grants, folder, root);
    RunKeepsRowsThere(db, commits, folder, cursor);
    RunLogs(db, commits, folder, cursor);
    CoreLogOrdered(next);
    hide Core, RootReader, RowsHaveNodes, ServesDelta, Commits, LoggedBy, OpsAbove, Head, Run;
    HeadAfterCommits(next, grants, folder, cursor, reply);
    NextPageGood(cursor, next, grants, folder, root, reply);
  }

  lemma CoreLogOrdered(db: Db)
    ensures Core(db) ==> LogOrdered(db)
  {
  }

  lemma FirstRound(db: Db, grants: Grants, folder: Id, root: Id, cursor: nat, rounds: seq<Round>)
    requires Served(db, grants, folder, root, cursor, rounds) && rounds != []
    ensures rounds[0].reply.Delta? && Served(db, grants, folder, root, cursor, [rounds[0]])
    ensures Served(Run(db, rounds[0].commits), grants, folder, root, rounds[0].reply.page.upTo, rounds[1..])
  {
    assert [rounds[0]][1..] == [];
  }

  /** Above the first cursor: a page, then what follows it. */
  lemma PageThenRest<T>(
    above: seq<T>, logged: seq<T>, page: seq<T>, behind: seq<T>, delivered: seq<T>, toCome: seq<T>, later: seq<T>)
    requires page + behind == above + logged && delivered + toCome == behind + later
    ensures (page + delivered) + toCome == above + (logged + later)
  {
    assert (page + delivered) + toCome == page + (delivered + toCome);
    assert page + (behind + later) == (page + behind) + later;
  }

  /** Pulling while others commit: over any session of a root reader, the pages together with the rows still
      above the last cursor are exactly the rows of the folder above the first cursor and then those that the
      commits have logged, each once and in order. */
  lemma {:induction false} SessionDeliversRows(
    db: Db, grants: Grants, folder: Id, root: Id, cursor: nat, rounds: seq<Round>)
    requires Core(db) && RootReader(db, grants, folder, root) && RowsHaveNodes(db, folder, cursor) && cursor <= db.lastSeq
    requires Served(db, grants, folder, root, cursor, rounds)
    ensures Delivered(rounds) + OpsAbove(LastDb(db, rounds).log, folder, LastCursor(cursor, rounds)) ==
            OpsAbove(db.log, folder, cursor) + LoggedInSession(db, rounds, folder)
    ensures forall e :: e in LoggedInSession(db, rounds, folder) ==> e.serverSeq > db.lastSeq
    ensures Core(LastDb(db, rounds)) && RootReader(LastDb(db, rounds), grants, folder, root)
    decreases |rounds|
  {
    hide Core, RootReader, RowsHaveNodes, ServesDelta, Commits, LoggedBy, OpsAbove, Head, Served, Run;
    if rounds != [] {
      FirstRound(db, grants, folder, root, cursor, rounds);
      RoundDelivers(db, grants, folder, root, cursor, rounds[0]);
      var next, page := Run(db, rounds[0].commits), rounds[0].reply.page;
      SessionDeliversRows(next, grants, folder, root, page.upTo, rounds[1..]);
      PageThenRest(OpsAbove(db.log, folder, cursor), LoggedBy(db, rounds[0].commits, folder), page.ops,
                   OpsAbove(next.log, folder, page.upTo), Delivered(rounds[1..]),
                   OpsAbove(LastDb(next, rounds[1..]).log, folder, LastCursor(page.upTo, rounds[1..])),
                   LoggedInSession(next, rounds[1..], folder));
    }
  }

  lemma TrackedAfterRound(
    mirror: Mirror, db: Db, grants: Grants, folder: Id, left: Mirror, root: Id, cursor: nat, round: Round)
    requires Core(db) && RootReader(db, grants, folder, root) && Tracks(mirror, cursor, db, folder, left)
    requires Served(db, grants, folder, root, cursor, [round])
    ensures var next, page, left' := Run(db, round.commits), round.reply.page, LeftBy(db, round.commits, folder, left);
            && Core(next) && RootReader(next, grants, folder, root) && Replay(mirror, page.ops).Some?
            && Tracks(Replay(mirror, page.ops).value, page.upTo, next, folder, left')
            && (page.ops == [] ==> mirror == left' + View(next.nodes, folder))
  {
    var Round(commits, reply) := round;
    var next := Run(db, commits);
    assert Served(db, grants, folder, root, cursor, [round]) ==> Commits(db, commits, folder, root, cursor);
    CoreLogOrdered(db);
    HeadWithin(db, folder);
    RoundDelivers(db, grants, folder, root, cursor, round);
    RunReproduces(mirror, cursor, db, folder, left, commits);
    CoreLogOrdered(next);
    hide Core, RootReader, RowsHaveNodes, Reproduces, ServesDelta, Commits, LoggedBy, OpsAbove, Head, Run, LeftBy, Replay, View;
    HeadAfterCommits(next, grants, folder, cursor, reply);
    TrackedPage(mirror, cursor, next, grants, folder, LeftBy(db, commits, folder, left), root, reply);
  }

  lemma {:induction false} SessionReplays(
    mirror: Mirror, db: Db, grants: Grants, folder: Id, left: Mirror, root: Id, cursor: nat, rounds: seq<Round>)
    requires Core(db) && RootReader(db, grants, folder, root) && Tracks(mirror, cursor, db, folder, left)
    requires Served(db, grants, folder, root, cursor, rounds)
    ensures Replay(mirror, Delivered(rounds)).Some?
    ensures Tracks(Replay(mirror, Delivered(rounds)).value, LastCursor(cursor, rounds), LastDb(db, rounds), folder,
                   LeftInSession(db, rounds, folder, left))
    decreases |rounds|
  {
    hide Core, RootReader, Tracks, ServesDelta, Commits, Served, Run, LeftBy, ApplyEntry;
    if rounds != [] {
      FirstRound(db, grants, folder, root, cursor, rounds);
      var page := rounds[0].reply.page;
      TrackedAfterRound(mirror, db, grants, folder, left, root, cursor, rounds[0]);
      SessionReplays(Replay(mirror, page.ops).value, Run(db, rounds[0].commits), grants, folder,
                     LeftBy(db, rounds[0].commits, folder, left), root, page.upTo, rounds[1..]);
      ReplayAppend(mirror, page.ops, Delivered(rounds[1..]));
    }
  }

  /** And replaying the pages keeps the mirror behind by the rows still to come, besides what is left of nodes
      that purges have removed. */
  lemma SessionDelivers(
    mirror: Mirror, db: Db, grants: Grants, folder: Id, left: Mirror, root: Id, cursor: nat, rounds: seq<Round>)
    requires Core(db) && RootReader(db, grants, folder, root) && Tracks(mirror, cursor, db, folder, left)
    requires Served(db, grants, folder, root, cursor, rounds)
    ensures var after, last := LastDb(db, rounds), LastCursor(cursor, rounds);
            && Delivered(rounds) + OpsAbove(after.log, folder, last) ==
               OpsAbove(db.log, folder, cursor) + LoggedInSession(db, rounds, folder)
            && Replay(mirror, Delivered(rounds)).Some?
            && Tracks(Replay(mirror, Delivered(rounds)).value, last, after, folder, LeftInSession(db, rounds, folder, left))
  {
    TracksRows(mirror, cursor, db, folder, left);
    hide *;
    SessionDeliversRows(db, grants, folder, root, cursor, rounds);
    SessionReplays(mirror, db, grants, folder, left, root, cursor, rounds);
  }

  lemma TracksRows(mirror: Mirror, cursor: nat, db: Db, folder: Id, left: Mirror)
    requires Core(db) && Tracks(mirror, cursor, db, folder, left)
    ensures RowsHaveNodes(db, folder, cursor) && cursor <= db.lastSeq
  {
    HeadWithin(db, folder);
  }

  /** When the last page is empty, the mirror is the folder as the server has it at that moment, besides what
      is left of purged nodes. */
  lemma SessionEndsInSync(
    mirror: Mirror, db: Db, grants: Grants, folder: Id, left: Mirror, root: Id, cursor: nat, rounds: seq<Round>, final: Round)
    requires Core(db) && RootReader(db, grants, folder, root) && Tracks(mirror, cursor, db, folder, left)
    requires Served(db, grants, folder, root, cursor, rounds)
    requires Served(LastDb(db, rounds), grants, folder, root, LastCursor(cursor, rounds), [final])
    requires final.reply.page.ops == []
    ensures var before := LastDb(db, rounds);
            Replay(mirror, Delivered(rounds)) ==
            Some(LeftBy(before, final.commits, folder, LeftInSession(db, rounds, folder, left))
                 + View(Run(before, final.commits).nodes, folder))
  {
    TracksRows(mirror, cursor, db, folder, left);
    hide Core, RootReader, Tracks, RowsHaveNodes, ServesDelta, Commits, LoggedBy, OpsAbove, Run, LeftBy;
    SessionDelivers(mirror, db, grants, folder, left, root, cursor, rounds);
    SessionDeliversRows(db, grants, folder, root, cursor, rounds);
    TrackedAfterRound(Replay(mirror, Delivered(rounds)).value, LastDb(db, rounds), grants, folder,
                      LeftInSession(db, rounds, folder, left), root, LastCursor(cursor, rounds), final);
  }

  // Rows that appear late.

  /** Whoever pulls is only ever sent rows above the cursor it started from. */
  lemma {:induction false} DeliveredAbove(db: Db, grants: Grants, folder: Id, root: Id, cursor: nat, rounds: seq<Round>)
    requires Core(db) && Served(db, grants, folder, root, cursor, rounds)
    ensures forall e :: e in Delivered(rounds) ==> e.serverSeq > cursor
    ensures cursor <= LastCursor(cursor, rounds)
    decreases |rounds|
  {
    if rounds != [] {
      var next, reply := Run(db, rounds[0].commits), rounds[0].reply;
      RunKeepsInv(db, rounds[0].commits);
      CoreLogOrdered(next);
      hide Core, ServesDelta, Commits, Run;
      ServedPage(next, grants, folder, cursor, reply);
      DeliveredAbove(next, grants, folder, root, reply.page.upTo, rounds[1..]);
    }
  }

  /** Two transactions may commit in another order than that of their numbers. A row that is in the log now
      reaches a root reader, in this session or later, if and only if its number is above the reader's cursor;
      if it appeared only after a pull had passed its number, no pull brings it, for readers of any scope. */
  lemma LateRowDeliveredExactly(db: Db, grants: Grants, folder: Id, root: Id, cursor: nat, rounds: seq<Round>, e: LogRow)
    requires Core(db) && Served(db, grants, folder, root, cursor, rounds)
    requires e in db.log && e.folder == folder
    ensures e.serverSeq <= cursor ==>
              e !in Delivered(rounds) && e !in OpsAbove(LastDb(db, rounds).log, folder, LastCursor(cursor, rounds))
    ensures RootReader(db, grants, folder, root) && RowsHaveNodes(db, folder, cursor) && cursor <= db.lastSeq ==>
              (e in Delivered(rounds) + OpsAbove(LastDb(db, rounds).log, folder, LastCursor(cursor, rounds))
               <==> e.serverSeq > cursor)
  {
    hide Core, RootReader, RowsHaveNodes, Served, LoggedInSession, OpsAbove;
    DeliveredAbove(db, grants, folder, root, cursor, rounds);
    OpsAboveMembers(LastDb(db, rounds).log, folder, LastCursor(cursor, rounds));
    OpsAboveMembers(db.log, folder, cursor);
    if RootReader(db, grants, folder, root) && RowsHaveNodes(db, folder, cursor) && cursor <= db.lastSeq {
      SessionDeliversRows(db, grants, folder, root, cursor, rounds);
      assert e in OpsAbove(db.log, folder, cursor) + LoggedInSession(db, rounds, folder) <== e.serverSeq > cursor;
    }
  }

  // Answers put together from two states.

  lemma {:induction false} AllKeepAbove(db: Db, cmds: seq<Cmd>, folder: Id, low: nat, high: nat)
    requires AllKeep(db, cmds, folder, low) && low <= high
    ensures AllKeep(db, cmds, folder, high)
    decreases |cmds|
  {
    if cmds != [] {
      AllKeepAbove(Apply(db, cmds[0]), cmds[1..], folder, low, high);
    }
  }

  lemma NothingAboveHead(db: Db, folder: Id)
    requires LogOrdered(db)
    ensures OpsAbove(db.log, folder, Head(db.log, folder)) == []
  {
    LastOpIsHead(db.log, folder, Head(db.log, folder));
  }

  /** A row that an operation has logged shows in the folder's rows by its number. */
  lemma LoggedShows(mirror: Mirror, db: Db, cmds: seq<Cmd>, folder: Id, cursor: nat)
    requires Core(db) && Runs(db, cmds) && AllKeep(db, cmds, folder, cursor) && cursor <= db.lastSeq
    requires RowsHaveNodes(db, folder, cursor) && mirror == View(db.nodes, folder)
    requires LoggedBy(db, cmds, folder) != []
    ensures mirror != LeftBy(db, cmds, folder, map[]) + View(Run(db, cmds).nodes, folder)
  {
    var at, e := Run(db, cmds), LoggedBy(db, cmds, folder)[0];
    RunLogs(db, cmds, folder, cursor);
    RunKeepsRowsThere(db, cmds, folder, cursor);
    RunKeepsInv(db, cmds);
    assert e in OpsAbove(at.log, folder, cursor);
    OpsAboveMembers(at.log, folder, cursor);
    hide Run, Runs, AllKeep, LoggedBy, OpsAbove, LeftBy;
    NumberShows(db, at, folder, e);
  }

  lemma NumberShows(db: Db, at: Db, folder: Id, e: LogRow)
    requires SeqsCurrent(db) && SeqsCurrent(at) && e in at.log && e.serverSeq > db.lastSeq && e.node in View(at.nodes, folder)
    ensures e.node in View(db.nodes, folder) ==>
              View(db.nodes, folder)[e.node].serverSeq < View(at.nodes, folder)[e.node].serverSeq
  {
    var i :| 0 <= i < |at.log| && at.log[i] == e;
  }

  /** What a client has that was up to date when the rows were read, and takes the head of a later state for its
      cursor: it tracks the folder if and only if the folder has logged nothing in between. */
  lemma LaterHeadExactly(mirror: Mirror, cursor: nat, db: Db, cmds: seq<Cmd>, folder: Id)
    requires Core(db) && Runs(db, cmds) && AllKeep(db, cmds, folder, cursor) && cursor <= db.lastSeq
    requires Reproduces(mirror, cursor, db, folder, map[]) && OpsAbove(db.log, folder, cursor) == []
    ensures var at := Run(db, cmds);
            Tracks(mirror, Head(at.log, folder), at, folder, LeftBy(db, cmds, folder, map[])) <==>
            LoggedBy(db, cmds, folder) == []
  {
    var at, left := Run(db, cmds), LeftBy(db, cmds, folder, map[]);
    assert map[] + View(db.nodes, folder) == View(db.nodes, folder);
    assert mirror == View(db.nodes, folder);
    RunKeepsInv(db, cmds);
    CoreLogOrdered(at);
    NothingAboveHead(at, folder);
    RunReproduces(mirror, cursor, db, folder, map[], cmds);
    RunLogs(db, cmds, folder, cursor);
    if LoggedBy(db, cmds, folder) != [] {
      LoggedShows(mirror, db, cmds, folder, cursor);
    }
    hide Core, Run, Runs, AllKeep, View, LoggedBy, LeftBy, Head, OpsAbove;
  }

  lemma OverFirst(db: Db, at: Db, grants: Grants, folder: Id, since: nat, reply: DeltaReply) returns (first: DeltaReply)
    requires ServesOver(db, at, grants, folder, since, reply)
    ensures ServesDelta(db, grants, folder, since, first) && reply == WithHead(first, Head(at.log, folder))
  {
    first :| ServesDelta(db, grants, folder, since, first) && reply == WithHead(first, Head(at.log, folder));
  }

  /** A pull reads its rows and the head by two queries. With operations of others in between, a tracking root
      reader tracks the folder afterwards if and only if the page has a row or the folder has logged nothing
      between the queries: to an empty page the later head is attached, and the rows logged meanwhile are
      skipped for good. */
  lemma TwoQueriesExactly(
    mirror: Mirror, cursor: nat, db: Db, cmds: seq<Cmd>, grants: Grants, folder: Id, root: Id, reply: DeltaReply)
    requires Core(db) && RootReader(db, grants, folder, root) && Tracks(mirror, cursor, db, folder, map[])
    requires Runs(db, cmds) && AllKeep(db, cmds, folder, cursor)
    requires ServesOver(db, Run(db, cmds), grants, folder, cursor, reply)
    ensures reply.Delta? && Replay(mirror, reply.page.ops).Some?
    ensures Tracks(Replay(mirror, reply.page.ops).value, reply.page.upTo, Run(db, cmds), folder,
                   LeftBy(db, cmds, folder, map[])) <==>
            reply.page.ops != [] || LoggedBy(db, cmds, folder) == []
  {
    hide Core, RootReader, ServesDelta, ServesOver, Run, Runs, AllKeep, Tracks, LoggedBy, LeftBy, OpsAbove, Head,
      RowsHaveNodes, Reproduces, View, Replay, GoodPage, LogOrdered;
    var first := OverFirst(db, Run(db, cmds), grants, folder, cursor, reply);
    TracksRows(mirror, cursor, db, folder, map[]);
    TrackedPage(mirror, cursor, db, grants, folder, map[], root, first);
    if first.page.ops == [] {
      EmptyPageThen(mirror, cursor, db, folder, first.page);
      LaterHeadExactly(mirror, cursor, db, cmds, folder);
    } else {
      NumberOfPage(db, grants, folder, cursor, first);
      FullPageThen(Replay(mirror, first.page.ops).value, cursor, db, cmds, folder, first.page);
    }
  }

  lemma NumberOfPage(db: Db, grants: Grants, folder: Id, since: nat, reply: DeltaReply)
    requires Core(db) && ServesDelta(db, grants, folder, since, reply) && reply.Delta? && reply.page.ops != []
    ensures reply.page.upTo == reply.page.ops[|reply.page.ops| - 1].serverSeq > since
  {
    CoreLogOrdered(db);
    ServedPage(db, grants, folder, since, reply);
    assert reply.page.ops[|reply.page.ops| - 1] in reply.page.ops;
  }

  lemma EmptyPageThen(mirror: Mirror, cursor: nat, db: Db, folder: Id, page: DeltaPage)
    requires Tracks(mirror, cursor, db, folder, map[]) && GoodPage(cursor, db, folder, page) && page.ops == []
    ensures Reproduces(mirror, cursor, db, folder, map[]) && OpsAbove(db.log, folder, cursor) == []
    ensures Replay(mirror, []) == Some(mirror)
  {
    hide OpsAbove, Head;
  }

  /** A page with rows carries its own number, which later steps leave behind the head. */
  lemma FullPageThen(mirror: Mirror, cursor: nat, db: Db, cmds: seq<Cmd>, folder: Id, page: DeltaPage)
    requires Core(db) && Runs(db, cmds) && AllKeep(db, cmds, folder, cursor) && cursor <= db.lastSeq
    requires GoodPage(cursor, db, folder, page) && page.ops != []
    requires page.upTo == page.ops[|page.ops| - 1].serverSeq && cursor < page.upTo
    requires Tracks(mirror, page.upTo, db, folder, map[])
    ensures Tracks(mirror, page.upTo, Run(db, cmds), folder, LeftBy(db, cmds, folder, map[]))
  {
    TracksRows(mirror, page.upTo, db, folder, map[]);
    AllKeepAbove(db, cmds, folder, cursor, page.upTo);
    RunReproduces(mirror, page.upTo, db, folder, map[], cmds);
    RunLogs(db, cmds, folder, cursor);
    var at, last := Run(db, cmds), page.ops[|page.ops| - 1];
    assert last in page.ops;
    assert last in OpsAbove(at.log, folder, cursor);
    OpsAboveMembers(at.log, folder, cursor);
    HeadIsTop(at.log, folder);
  }

  /** The tree is read in the same way: a root reader that takes it tracks the folder if and only if the folder
      has logged nothing between the two queries. */
  lemma TreeTwoQueriesExactly(db: Db, cmds: seq<Cmd>, grants: Grants, folder: Id, root: Id, reply: TreeReply)
    requires Core(db) && RootReader(db, grants, folder, root)
    requires Runs(db, cmds) && AllKeep(db, cmds, folder, Head(db.log, folder))
    requires ServesTreeOver(db, Run(db, cmds), grants, folder, reply)
    ensures reply.Tree?
    ensures Tracks(reply.rows, reply.upTo, Run(db, cmds), folder, LeftBy(db, cmds, folder, map[])) <==>
            LoggedBy(db, cmds, folder) == []
  {
    var first :| ServesTree(db, grants, folder, first) && reply == TreeWithHead(first, Head(Run(db, cmds).log, folder));
    TreeStartsTracking(db, grants, folder, root, first);
    NothingAboveHead(db, folder);
    TracksRows(first.rows, first.upTo, db, folder, map[]);
    LaterHeadExactly(first.rows, first.upTo, db, cmds, folder);
  }
}
