/** The client's mirror of one shared folder and the replay of log rows onto it. */
module Mirror {
  import opened Types

  datatype LocalNode = LocalNode(
    folder: Id, parent: Option<Id>, name: string, kind: Kind, current: Option<Id>, serverSeq: nat, deleted: bool)

  type Mirror = map<Id, LocalNode>

  function Local(row: NodeRow): LocalNode {
    LocalNode(row.folder, row.parent, row.name, row.kind, row.current, row.serverSeq, row.deletedAt.Some?)
  }

  /** The server's rows of one folder, tombstones included, as a client stores them. */
  function View(nodes: Nodes, folder: Id): Mirror {
    map n | n in nodes && nodes[n].folder == folder :: Local(nodes[n])
  }

  /** Applies one log row; None where the client stops with an error, on a node or parent it does not know. */
  function ApplyEntry(mirror: Mirror, e: LogRow): Option<Mirror> {
    if !e.payload.CreatePayload? && e.node !in mirror then None
    else if !e.payload.CreatePayload? && mirror[e.node].serverSeq >= e.serverSeq then Some(mirror)
    else
      match e.payload
      case CreatePayload(parent, name, kind) =>
        if parent !in mirror then None
        else Some(mirror[e.node := LocalNode(mirror[parent].folder, Some(parent), name, kind, None, e.serverSeq, false)])
      case RenamePayload(newName) =>
        Some(mirror[e.node := mirror[e.node].(name := newName, serverSeq := e.serverSeq)])
      case MovePayload(newParent) =>
        Some(mirror[e.node := mirror[e.node].(parent := Some(newParent), serverSeq := e.serverSeq)])
      case DeletePayload =>
        Some(mirror[e.node := mirror[e.node].(deleted := true, serverSeq := e.serverSeq)])
      case VersionPayload(v, _, _, _, conflict) =>
        var row := mirror[e.node].(serverSeq := e.serverSeq);
        Some(mirror[e.node := if conflict then row else row.(current := Some(v))])
  }

  /** What a log row comes to, column by column. A create puts its row whatever stood there, in the folder of its
      parent; any other row that is not newer than the mirror's changes nothing, and a newer one writes its
      column and the number. */
  ghost predicate EntryApplied(mirror: Mirror, e: LogRow, after: Mirror) {
    && (forall m :: m != e.node ==> (m in after <==> m in mirror) && (m in mirror ==> after[m] == mirror[m]))
    && e.node in after
    && var row := after[e.node];
       if e.payload.CreatePayload? then
         && e.payload.parent in mirror
         && row == LocalNode(mirror[e.payload.parent].folder, Some(e.payload.parent), e.payload.name, e.payload.kind, None,
                             e.serverSeq, false)
       else
         && e.node in mirror
         && var was := mirror[e.node];
            if e.serverSeq <= was.serverSeq then row == was else ColumnWritten(e.payload, was, row) && row.serverSeq == e.serverSeq
  }

  ghost predicate ColumnWritten(payload: Payload, was: LocalNode, row: LocalNode) {
    && row.folder == was.folder && row.kind == was.kind
    && (if payload.RenamePayload? then row.name == payload.newName else row.name == was.name)
    && (if payload.MovePayload? then row.parent == Some(payload.newParent) else row.parent == was.parent)
    && (if payload.DeletePayload? then row.deleted else row.deleted == was.deleted)
    && (if payload.VersionPayload? && !payload.conflict then row.current == Some(payload.version) else row.current == was.current)
  }

  /** The row is refused exactly when its node, or for a create the parent, is not in the mirror. */
  lemma EntryByColumns(mirror: Mirror, e: LogRow)
    ensures var known := if e.payload.CreatePayload? then e.payload.parent in mirror else e.node in mirror;
            match ApplyEntry(mirror, e)
            case None => !known
            case Some(after) => known && EntryApplied(mirror, e, after)
  {
  }

  function Replay(mirror: Mirror, entries: seq<LogRow>): Option<Mirror>
    decreases |entries|
  {
    if entries == [] then Some(mirror)
    else match ApplyEntry(mirror, entries[0])
      case None => None
      case Some(next) => Replay(next, entries[1..])
  }

  lemma {:induction false} ReplayAppend(mirror: Mirror, first: seq<LogRow>, second: seq<LogRow>)
    ensures Replay(mirror, first + second) ==
            match Replay(mirror, first) case None => None case Some(next) => Replay(next, second)
    decreases |first|
  {
    if first == [] {
      assert first + second == second;
    } else {
      assert (first + second)[1..] == first[1..] + second;
      if ApplyEntry(mirror, first[0]).Some? {
        ReplayAppend(ApplyEntry(mirror, first[0]).value, first[1..], second);
      }
    }
  }

  /** The folder's log rows above a cursor, in log order. */
  function OpsAbove(log: seq<LogRow>, folder: Id, cursor: nat): seq<LogRow> {
    if log == [] then []
    else
      var last := log[|log| - 1];
      OpsAbove(log[..|log| - 1], folder, cursor)
      + if last.folder == folder && last.serverSeq > cursor then [last] else []
  }

  /** `folderHeadSeq`: the folder's highest logged number, 0 when nothing is logged. */
  function Head(log: seq<LogRow>, folder: Id): nat {
    if log == [] then 0
    else
      var last, before := log[|log| - 1], Head(log[..|log| - 1], folder);
      if last.folder == folder && last.serverSeq > before then last.serverSeq else before
  }

  lemma OpsAboveAppend(log: seq<LogRow>, e: LogRow, folder: Id, cursor: nat)
    ensures OpsAbove(log + [e], folder, cursor) ==
            OpsAbove(log, folder, cursor) + if e.folder == folder && e.serverSeq > cursor then [e] else []
    ensures Head(log + [e], folder) ==
            if e.folder == folder && e.serverSeq > Head(log, folder) then e.serverSeq else Head(log, folder)
  {
    assert (log + [e])[..|log|] == log;
  }

  ghost predicate Ascending(log: seq<LogRow>) {
    forall i, j :: 0 <= i < j < |log| ==> log[i].serverSeq < log[j].serverSeq
  }

  lemma AscendingFront(log: seq<LogRow>)
    requires Ascending(log) && log != []
    ensures Ascending(log[..|log| - 1]) && log == log[..|log| - 1] + [log[|log| - 1]]
    ensures forall e :: e in log[..|log| - 1] ==> e.serverSeq < log[|log| - 1].serverSeq
  {
  }

  lemma {:induction false} OpsAboveMembers(log: seq<LogRow>, folder: Id, cursor: nat)
    ensures forall e :: e in OpsAbove(log, folder, cursor) <==> e in log && e.folder == folder && e.serverSeq > cursor
  {
    if log != [] {
      OpsAboveMembers(log[..|log| - 1], folder, cursor);
      assert log == log[..|log| - 1] + [log[|log| - 1]];
    }
  }

  lemma {:induction false} OpsAboveAscending(log: seq<LogRow>, folder: Id, cursor: nat)
    requires Ascending(log)
    ensures Ascending(OpsAbove(log, folder, cursor))
  {
    if log != [] {
      AscendingFront(log);
      OpsAboveAscending(log[..|log| - 1], folder, cursor);
      OpsAboveMembers(log[..|log| - 1], folder, cursor);
    }
  }

  lemma {:induction false} HeadIsTop(log: seq<LogRow>, folder: Id)
    ensures Head(log, folder) == 0 || exists e :: e in log && e.serverSeq == Head(log, folder)
    ensures forall e :: e in log && e.folder == folder ==> e.serverSeq <= Head(log, folder)
  {
    if log != [] {
      HeadIsTop(log[..|log| - 1], folder);
      assert log == log[..|log| - 1] + [log[|log| - 1]];
      assert log[|log| - 1] in log;
    }
  }

  lemma {:induction false} HeadIsLogged(log: seq<LogRow>, folder: Id)
    ensures Head(log, folder) == 0 || exists e :: e in log && e.folder == folder && e.serverSeq == Head(log, folder)
  {
    if log != [] {
      HeadIsLogged(log[..|log| - 1], folder);
      assert log == log[..|log| - 1] + [log[|log| - 1]];
      assert log[|log| - 1] in log;
    }
  }

  /** The last row above the cursor carries the head; without any, the head is not above the cursor. */
  lemma {:induction false} LastOpIsHead(log: seq<LogRow>, folder: Id, cursor: nat)
    requires Ascending(log)
    ensures var ops := OpsAbove(log, folder, cursor);
            if ops == [] then Head(log, folder) <= cursor else ops[|ops| - 1].serverSeq == Head(log, folder) > cursor
  {
    if log != [] {
      AscendingFront(log);
      LastOpIsHead(log[..|log| - 1], folder, cursor);
      HeadIsTop(log[..|log| - 1], folder);
    }
  }

  lemma {:induction false} NothingAboveTop(log: seq<LogRow>, folder: Id, cursor: nat)
    requires forall e :: e in log ==> e.serverSeq <= cursor
    ensures OpsAbove(log, folder, cursor) == []
  {
    if log != [] {
      NothingAboveTop(log[..|log| - 1], folder, cursor);
    }
  }

  /** One more row on a log whose rows above the cursor are already split at k. */
  lemma RestAfterAppend(kept: seq<LogRow>, rest: seq<LogRow>, tail: seq<LogRow>, k: nat)
    requires 0 < k <= |kept| && rest == kept[k..]
    ensures (kept + tail)[k - 1] == kept[k - 1] && (kept + tail)[k..] == rest + tail
  {
  }

  /** The step of the induction below when the k-th row lies before the last row of the log. */
  lemma RestBeforeLast(front: seq<LogRow>, last: LogRow, folder: Id, cursor: nat, next: nat, kept: seq<LogRow>, k: nat)
    requires kept == OpsAbove(front, folder, cursor) && 0 < k <= |kept| && next == kept[k - 1].serverSeq
    requires cursor < next < last.serverSeq && OpsAbove(front, folder, next) == kept[k..]
    ensures var ops := OpsAbove(front + [last], folder, cursor);
            k <= |ops| && ops[k - 1] == kept[k - 1] && OpsAbove(front + [last], folder, next) == ops[k..]
  {
    hide OpsAbove, Head;
    OpsAboveAppend(front, last, folder, cursor);
    OpsAboveAppend(front, last, folder, next);
    RestAfterAppend(kept, kept[k..], if last.folder == folder then [last] else [], k);
  }

  /** And when it is that row. */
  lemma RestAtLast(front: seq<LogRow>, last: LogRow, folder: Id, cursor: nat, k: nat)
    requires forall e :: e in front ==> e.serverSeq < last.serverSeq
    requires |OpsAbove(front, folder, cursor)| < k <= |OpsAbove(front + [last], folder, cursor)|
    ensures var ops := OpsAbove(front + [last], folder, cursor);
            k == |ops| && ops[k - 1] == last && last.serverSeq > cursor
            && OpsAbove(front + [last], folder, last.serverSeq) == []
  {
    hide OpsAbove, Head;
    OpsAboveAppend(front, last, folder, cursor);
    NothingAboveTop(front, folder, last.serverSeq);
    OpsAboveAppend(front, last, folder, last.serverSeq);
  }

  /** Raising the cursor past the first k rows leaves exactly the rest. */
  lemma {:induction false} OpsAboveRest(log: seq<LogRow>, folder: Id, cursor: nat, k: nat)
    requires Ascending(log) && 0 < k <= |OpsAbove(log, folder, cursor)|
    ensures var ops := OpsAbove(log, folder, cursor);
            ops[k - 1].serverSeq > cursor && OpsAbove(log, folder, ops[k - 1].serverSeq) == ops[k..]
    decreases |log|
  {
    assert log != [];
    hide OpsAbove, Head;
    AscendingFront(log);
    var front, last := log[..|log| - 1], log[|log| - 1];
    var kept := OpsAbove(front, folder, cursor);
    if k <= |kept| {
      OpsAboveMembers(front, folder, cursor);
      assert kept[k - 1] in kept;
      OpsAboveRest(front, folder, cursor, k);
      RestBeforeLast(front, last, folder, cursor, kept[k - 1].serverSeq, kept, k);
    } else {
      RestAtLast(front, last, folder, cursor, k);
    }
  }
}
