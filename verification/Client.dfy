/** The client's pull loop, on a fixed server and across commits of other clients. */
module Client {
  import opened Types
  import opened Tree
  import opened Authz
  import opened Invariants
  import opened Mirror
  import opened Sync

  /** The folder is a tree under one root, which the client may read. */
  ghost predicate RootReader(db: Db, grants: Grants, folder: Id, root: Id) {
    && Grounded(db.nodes, folder) && SingleRoot(db.nodes, folder, root)
    && Authorize(db.nodes, grants, root, Read).Granted?
  }

  /** The mirror is behind by exactly the rows above the cursor, besides what is left of purged nodes. */
  ghost predicate Tracks(mirror: Mirror, cursor: nat, db: Db, folder: Id, left: Mirror) {
    Reproduces(mirror, cursor, db, folder, left) && cursor <= Head(db.log, folder)
  }

  lemma {:induction false} AllInNodes(ops: seq<LogRow>, nodes: set<Id>)
    requires forall e :: e in ops ==> e.node in nodes
    ensures InNodes(ops, nodes) == ops
  {
    if ops != [] {
      AllInNodes(ops[1..], nodes);
    }
  }

  /** A root reader is served by its grant on the root. */
  lemma RootGrantServes(db: Db, grants: Grants, folder: Id, root: Id)
    requires RootReader(db, grants, folder, root)
    ensures IsRoot(db.nodes, folder, root) && forall r :: IsRoot(db.nodes, folder, r) ==> r == root
    ensures forall answer :: ReadableGrant(db, grants, folder, root, answer) ==> answer.Granted? && answer.scope == root
  {
  }

  /** Its scope, the root, is on no cycle, whatever other grants it has. */
  lemma RootReaderOffCycles(db: Db, grants: Grants, folder: Id, root: Id)
    requires RootReader(db, grants, folder, root)
    ensures ScopesOffCycles(db, grants, folder)
  {
    RootGrantServes(db, grants, folder, root);
    assert Ends(db.nodes, root);
    EndsOffCycles(db.nodes, root);
  }

  /** A root reader's page is the first rows above the cursor, none left out. */
  lemma RootPage(cursor: nat, db: Db, grants: Grants, folder: Id, root: Id, reply: DeltaReply)
    requires Core(db) && RootReader(db, grants, folder, root) && RowsHaveNodes(db, folder, cursor)
    requires ServesDelta(db, grants, folder, cursor, reply)
    ensures reply.Delta? && reply.page.ops == FirstOps(OpsAbove(db.log, folder, cursor), PAGE_LIMIT)
    ensures reply.page.ops == [] <==> OpsAbove(db.log, folder, cursor) == []
    ensures reply.page.ops == [] ==> reply.page.upTo == Head(db.log, folder)
  {
    var ops, subtree := OpsAbove(db.log, folder, cursor), Subtree(db.nodes, root);
    RootGrantServes(db, grants, folder, root);
    assert reply == ReplyWithin(db, folder, root, cursor);
    forall e | e in ops
      ensures e.node in subtree
    {
      RootSubtreeIsFolder(db.nodes, folder, root, e.node);
    }
    AllInNodes(ops, subtree);
  }

  /** A non-empty page and the rows above its last number are the rows above the cursor. */
  lemma PageAdvances(cursor: nat, db: Db, folder: Id, page: seq<LogRow>)
    requires LogOrdered(db) && RowsHaveNodes(db, folder, cursor)
    requires page == FirstOps(OpsAbove(db.log, folder, cursor), PAGE_LIMIT) && page != []
    ensures var next := page[|page| - 1].serverSeq;
            && cursor < next <= db.lastSeq && next <= Head(db.log, folder)
            && RowsHaveNodes(db, folder, next)
            && OpsAbove(db.log, folder, cursor) == page + OpsAbove(db.log, folder, next)
  {
    var ops := OpsAbove(db.log, folder, cursor);
    OpsAboveRest(db.log, folder, cursor, |page|);
    assert page == ops[..|page|] && ops == page + ops[|page|..];
    OpsAboveMembers(db.log, folder, cursor);
    assert ops[|page| - 1] in ops;
    HeadIsTop(db.log, folder);
  }

  lemma FirstOpsMembers(ops: seq<LogRow>, limit: nat)
    ensures forall e :: e in FirstOps(ops, limit) ==> e in ops
  {
  }

  /** Whatever its scope, a page holds rows of nodes that still exist, all above the cursor asked for. */
  lemma ServedPage(db: Db, grants: Grants, folder: Id, since: nat, reply: DeltaReply)
    requires LogOrdered(db) && ServesDelta(db, grants, folder, since, reply) && reply.Delta?
    ensures forall e :: e in reply.page.ops ==>
              e in db.log && e.folder == folder && e.node in db.nodes && since < e.serverSeq <= db.lastSeq
    ensures if reply.page.ops == [] then reply.page.upTo == Head(db.log, folder)
            else reply.page.upTo == reply.page.ops[|reply.page.ops| - 1].serverSeq
  {
    var scope :| reply == ReplyWithin(db, folder, scope, since);
    var ops := InNodes(OpsAbove(db.log, folder, since), Subtree(db.nodes, scope));
    InNodesMembers(OpsAbove(db.log, folder, since), Subtree(db.nodes, scope));
    OpsAboveMembers(db.log, folder, since);
    assert reply == ReplyWithin(db, folder, scope, since);
    assert reply.page.ops == FirstOps(ops, PAGE_LIMIT);
    FirstOpsMembers(ops, PAGE_LIMIT);
    forall e | e in reply.page.ops
      ensures e in db.log && e.folder == folder && e.node in db.nodes && since < e.serverSeq <= db.lastSeq
    {
      assert e in ops;
      var i :| 0 <= i < |db.log| && db.log[i] == e;
    }
  }

  /** An answer is usable, and not an error of a head that went backwards, exactly when some row of the
      folder at or above the cursor is still logged (or the cursor is 0). Truncation can empty a quiet
      folder's log, and then every later pull of an up-to-date client fails until somebody commits. */
  lemma HeadNeverBehindExactly(db: Db, grants: Grants, folder: Id, since: nat, reply: DeltaReply)
    requires LogOrdered(db) && ServesDelta(db, grants, folder, since, reply) && reply.Delta?
    ensures reply.page.upTo >= since <==>
            since == 0 || exists e :: e in db.log && e.folder == folder && e.serverSeq >= since
  {
    ServedPage(db, grants, folder, since, reply);
    HeadIsTop(db.log, folder);
    HeadIsLogged(db.log, folder);
    if reply.page.ops != [] {
      assert reply.page.ops[|reply.page.ops| - 1] in reply.page.ops;
    }
  }

  lemma {:induction false} ReplayLeavesOthers(mirror: Mirror, entries: seq<LogRow>, n: Id)
    requires n in mirror && Replay(mirror, entries).Some? && forall e :: e in entries ==> e.node != n
    ensures n in Replay(mirror, entries).value && Replay(mirror, entries).value[n] == mirror[n]
    decreases |entries|
  {
    if entries != [] {
      ReplayLeavesOthers(ApplyEntry(mirror, entries[0]).value, entries[1..], n);
    }
  }

  /** A purged node is never reported again, not even its deletion: a client that had not yet received the
      delete keeps its row as it stood, for every page of every later server state without the node. */
  lemma PurgedNodeStaysInMirror(mirror: Mirror, db: Db, grants: Grants, folder: Id, since: nat, reply: DeltaReply, n: Id)
    requires LogOrdered(db) && ServesDelta(db, grants, folder, since, reply) && reply.Delta?
    requires n in mirror && n !in db.nodes && Replay(mirror, reply.page.ops).Some?
    ensures n in Replay(mirror, reply.page.ops).value && Replay(mirror, reply.page.ops).value[n] == mirror[n]
  {
    ServedPage(db, grants, folder, since, reply);
    ReplayLeavesOthers(mirror, reply.page.ops, n);
  }

  /** The node that has to be in the mirror for a row to apply: the parent for a create, or else the node. */
  function Needed(e: LogRow): Id {
    if e.payload.CreatePayload? then e.payload.parent else e.node
  }

  /** The mirror has the node that the i-th row needs, or an earlier row creates it. */
  ghost predicate KnownBy(known: set<Id>, entries: seq<LogRow>, i: nat)
    requires i < |entries|
  {
    || Needed(entries[i]) in known
    || exists j :: 0 <= j < i && entries[j].payload.CreatePayload? && entries[j].node == Needed(entries[i])
  }

  ghost predicate AllKnown(known: set<Id>, entries: seq<LogRow>) {
    forall i :: 0 <= i < |entries| ==> KnownBy(known, entries, i)
  }

  lemma KnownStep(known: set<Id>, entries: seq<LogRow>)
    requires entries != []
    ensures var next := if entries[0].payload.CreatePayload? then known + {entries[0].node} else known;
            AllKnown(known, entries) <==> Needed(entries[0]) in known && AllKnown(next, entries[1..])
  {
    var next, rest := if entries[0].payload.CreatePayload? then known + {entries[0].node} else known, entries[1..];
    forall i | 0 <= i < |rest|
      ensures KnownBy(next, rest, i) <==> KnownBy(known, entries, i + 1)
    {
      if KnownBy(known, entries, i + 1) && Needed(rest[i]) !in next {
        var j :| 0 <= j < i + 1 && entries[j].payload.CreatePayload? && entries[j].node == Needed(entries[i + 1]);
        assert rest[j - 1] == entries[j];
      }
      if KnownBy(next, rest, i) && Needed(rest[i]) !in next {
        var j :| 0 <= j < i && rest[j].payload.CreatePayload? && rest[j].node == Needed(rest[i]);
        assert entries[j + 1] == rest[j];
      }
      if Needed(rest[i]) in next && Needed(rest[i]) !in known {
        assert entries[0].node == Needed(entries[i + 1]);
      }
    }
    if AllKnown(known, entries) {
      assert KnownBy(known, entries, 0);
    }
    if Needed(entries[0]) in known && AllKnown(next, rest) {
      forall i | 0 <= i < |entries|
        ensures KnownBy(known, entries, i)
      {
        assert i > 0 ==> KnownBy(next, rest, i - 1);
      }
    }
  }

  /** For readers of any scope: a page can be applied if and only if each row's node, or for a create its
      parent, is in the mirror or created earlier in the page. A node that others move into the scope fails
      this: the page names it, and the mirror does not have it. */
  lemma {:induction false} PageAppliesExactly(mirror: Mirror, entries: seq<LogRow>)
    ensures Replay(mirror, entries).Some? <==> AllKnown(mirror.Keys, entries)
    decreases |entries|
  {
    if entries != [] {
      KnownStep(mirror.Keys, entries);
      hide AllKnown;
      match ApplyEntry(mirror, entries[0]) {
        case None =>
        case Some(next) =>
          EntryKeys(mirror, entries[0]);
          PageAppliesExactly(next, entries[1..]);
      }
    }
  }

  lemma EntryKeys(mirror: Mirror, e: LogRow)
    ensures ApplyEntry(mirror, e).Some? <==> Needed(e) in mirror
    ensures ApplyEntry(mirror, e).Some? ==>
              ApplyEntry(mirror, e).value.Keys == if e.payload.CreatePayload? then mirror.Keys + {e.node} else mirror.Keys
  {
  }

  /** The page and the rows above its number are the rows above the cursor, and it is empty only without any. */
  ghost predicate GoodPage(cursor: nat, db: Db, folder: Id, page: DeltaPage) {
    && cursor <= page.upTo <= Head(db.log, folder) && RowsHaveNodes(db, folder, page.upTo)
    && page.ops + OpsAbove(db.log, folder, page.upTo) == OpsAbove(db.log, folder, cursor)
    && (page.ops == [] ==> OpsAbove(db.log, folder, page.upTo) == [] && page.upTo == Head(db.log, folder))
  }

  lemma EmptyPage(cursor: nat, db: Db, folder: Id)
    requires LogOrdered(db) && RowsHaveNodes(db, folder, cursor)
    requires cursor <= Head(db.log, folder) && OpsAbove(db.log, folder, cursor) == []
    ensures GoodPage(cursor, db, folder, DeltaPage([], Head(db.log, folder)))
  {
    LastOpIsHead(db.log, folder, cursor);
    assert Head(db.log, folder) == cursor;
  }

  /** Each page of a root reader continues where the last one ended. */
  lemma NextPageGood(cursor: nat, db: Db, grants: Grants, folder: Id, root: Id, reply: DeltaReply)
    requires Core(db) && ServesDelta(db, grants, folder, cursor, reply) && RootReader(db, grants, folder, root)
    requires RowsHaveNodes(db, folder, cursor) && cursor <= Head(db.log, folder)
    ensures reply.Delta? && GoodPage(cursor, db, folder, reply.page)
  {
    RootPage(cursor, db, grants, folder, root, reply);
    ServedPage(db, grants, folder, cursor, reply);
    if reply.page.ops != [] {
      PageAdvances(cursor, db, folder, reply.page.ops);
    } else {
      EmptyPage(cursor, db, folder);
      assert reply.page == DeltaPage([], Head(db.log, folder));
    }
  }

  /** Applying it keeps the mirror behind by the rows above the new cursor. */
  lemma TrackedPage(
    mirror: Mirror, cursor: nat, db: Db, grants: Grants, folder: Id, left: Mirror, root: Id, reply: DeltaReply)
    requires Core(db) && ServesDelta(db, grants, folder, cursor, reply)
    requires Tracks(mirror, cursor, db, folder, left) && RootReader(db, grants, folder, root)
    ensures reply.Delta? && GoodPage(cursor, db, folder, reply.page) && Replay(mirror, reply.page.ops).Some?
    ensures Tracks(Replay(mirror, reply.page.ops).value, reply.page.upTo, db, folder, left)
    ensures reply.page.ops == [] ==> mirror == left + View(db.nodes, folder)
  {
    hide Core, RootReader, ServesDelta, RowsHaveNodes, OpsAbove, Head, View;
    NextPageGood(cursor, db, grants, folder, root, reply);
    ReplayAppend(mirror, reply.page.ops, OpsAbove(db.log, folder, reply.page.upTo));
  }

  /** What `pullTree` answers a root reader is the folder's rows and the head of its log. */
  lemma RootTree(db: Db, grants: Grants, folder: Id, root: Id, reply: TreeReply)
    requires Core(db) && RootReader(db, grants, folder, root) && ServesTree(db, grants, folder, reply)
    ensures reply == Tree(View(db.nodes, folder), Head(db.log, folder))
  {
    RootGrantServes(db, grants, folder, root);
    var subtree := Subtree(db.nodes, root);
    forall n
      ensures n in subtree <==> n in db.nodes && db.nodes[n].folder == folder
    {
      RootSubtreeIsFolder(db.nodes, folder, root, n);
    }
    hide Core, Subtree, Authorize, Walk, Grounded, Head;
    assert TreeRows(db.nodes, folder, root, subtree) == View(db.nodes, folder);
  }

  /** A client that takes them tracks the folder from there. */
  lemma TreeStartsTracking(db: Db, grants: Grants, folder: Id, root: Id, reply: TreeReply)
    requires Core(db) && RootReader(db, grants, folder, root) && ServesTree(db, grants, folder, reply)
    ensures reply == Tree(View(db.nodes, folder), Head(db.log, folder))
    ensures Tracks(reply.rows, reply.upTo, db, folder, map[])
  {
    RootTree(db, grants, folder, root, reply);
    LastOpIsHead(db.log, folder, Head(db.log, folder));
    hide Core, RootReader, ServesTree, OpsAbove, Head, View;
    assert OpsAbove(db.log, folder, Head(db.log, folder)) == [];
    assert map[] + View(db.nodes, folder) == View(db.nodes, folder);
  }

  lemma NothingPulled(mirror: Mirror)
    ensures Replay(mirror, []) == Some(mirror)
  {
  }

  // Readers of any scope.

  /** The reader can be served by this scope only. */
  ghost predicate OnlyScope(db: Db, grants: Grants, folder: Id, scope: Id) {
    forall root, s :: Serves(db, grants, folder, root, s) ==> s == scope
  }

  /** In order, exactly the rows that a reader of the scope is to be sent, up to the cursor. */
  ghost predicate SentUpTo(db: Db, folder: Id, scope: Id, since: nat, cursor: nat, pulled: seq<LogRow>) {
    && since <= cursor && Ascending(pulled)
    && (forall e :: e in pulled <==> Due(db, folder, scope, since, e) && e.serverSeq <= cursor)
  }

  /** The page that was taken: what the server may answer, with its last number, or the head, as new cursor. */
  ghost predicate TookPage(db: Db, grants: Grants, folder: Id, since: nat, cursor: nat, ops: seq<LogRow>, more: bool) {
    RightDelta(db, db, grants, folder, since, Delta(DeltaPage(ops, cursor))) && since <= cursor && (more <==> ops != [])
  }

  /** Why a pull stops with an error: the server refuses, its head is behind the cursor, or the mirror does not
      take a row of the page. */
  ghost predicate CannotTake(db: Db, grants: Grants, folder: Id, mirror: Mirror, cursor: nat) {
    exists reply :: ServesDelta(db, grants, folder, cursor, reply) &&
      (reply.Delta? ==> reply.page.upTo < cursor || Replay(mirror, reply.page.ops).None?)
  }

  lemma TookServed(db: Db, grants: Grants, folder: Id, since: nat, page: DeltaPage)
    requires LogOrdered(db) && ServesDelta(db, grants, folder, since, Delta(page)) && since <= page.upTo
    ensures TookPage(db, grants, folder, since, page.upTo, page.ops, !(page.ops == [] || page.upTo <= since))
  {
    assert WithHead(Delta(page), Head(db.log, folder)) == Delta(page) by {
      if page.ops == [] {
        ServedHead(db, grants, folder, since, page);
      }
    }
    hide ServesDelta, LogOrdered, Serves, IsTopNumber, Head;
    assert ServesOver(db, db, grants, folder, since, Delta(page));
    DeltaByColumns(db, db, grants, folder, since, Delta(page));
    if page.ops != [] {
      assert page.ops[|page.ops| - 1] in page.ops;
    }
  }

  lemma ServedHead(db: Db, grants: Grants, folder: Id, since: nat, page: DeltaPage)
    requires ServesDelta(db, grants, folder, since, Delta(page)) && page.ops == []
    ensures page.upTo == Head(db.log, folder)
  {
    var scope :| Delta(page) == ReplyWithin(db, folder, scope, since);
  }

  lemma NothingSent(db: Db, folder: Id, scope: Id, since: nat)
    ensures SentUpTo(db, folder, scope, since, since, [])
  {
  }

  /** One more page. */
  lemma SentFurther(
    db: Db, grants: Grants, folder: Id, scope: Id, since: nat, cursor: nat, pulled: seq<LogRow>, next: nat, ops: seq<LogRow>,
    more: bool)
    requires OnlyScope(db, grants, folder, scope) && SentUpTo(db, folder, scope, since, cursor, pulled)
    requires TookPage(db, grants, folder, cursor, next, ops, more)
    ensures SentUpTo(db, folder, scope, since, next, pulled + ops)
    ensures !more ==> IsTopNumber(db.log, folder, next)
  {
    var root, s :| Serves(db, grants, folder, root, s) && HoldsDue(db, folder, s, cursor, ops);
    hide Serves, OnlyScope, InSubtree, TookPage;
    assert s == scope;
    PagesJoin(db, folder, scope, since, cursor, pulled, next, ops);
  }

  lemma PagesJoin(db: Db, folder: Id, scope: Id, since: nat, cursor: nat, pulled: seq<LogRow>, next: nat, ops: seq<LogRow>)
    requires SentUpTo(db, folder, scope, since, cursor, pulled) && HoldsDue(db, folder, scope, cursor, ops) && cursor <= next
    requires if |ops| > 0 then next == ops[|ops| - 1].serverSeq else IsTopNumber(db.log, folder, next)
    ensures SentUpTo(db, folder, scope, since, next, pulled + ops)
  {
    hide InSubtree;
    forall e | e in ops
      ensures e.serverSeq <= next
    {
      var i :| 0 <= i < |ops| && ops[i] == e;
    }
    forall i, j | 0 <= i < j < |pulled + ops|
      ensures (pulled + ops)[i].serverSeq < (pulled + ops)[j].serverSeq
    {
      assert i < |pulled| ==> pulled[i] in pulled;
      assert j >= |pulled| ==> ops[j - |pulled|] in ops;
    }
  }

  class DeltaClient {
    var mirror: Mirror
    var cursor: nat

    constructor (mirror: Mirror, cursor: nat)
      ensures this.mirror == mirror && this.cursor == cursor
    {
      this.mirror, this.cursor := mirror, cursor;
    }

    /** One pass over a page; stops at a row that the mirror cannot take. */
    method ApplyPage(ops: seq<LogRow>) returns (ok: bool)
      modifies this`mirror
      ensures ok <==> Replay(old(mirror), ops).Some?
      ensures ok ==> mirror == Replay(old(mirror), ops).value
    {
      var i := 0;
      while i < |ops|
        invariant 0 <= i <= |ops|
        invariant Replay(old(mirror), ops) == Replay(mirror, ops[i..])
      {
        match ApplyEntry(mirror, ops[i]) {
          case None => return false;
          case Some(next) => mirror := next;
        }
        assert ops[i..][1..] == ops[i + 1..];
        i := i + 1;
      }
      ok := true;
    }

    /** One request and its page. `more` is false on the page that ends the loop. For readers of any scope a
        page that cannot be taken leaves the cursor where it was. */
    method PullPage(db: Db, grants: Grants, folder: Id, ghost root: Id, ghost left: Mirror)
      returns (ok: bool, ops: seq<LogRow>, more: bool)
      requires Core(db) && (RootReader(db, grants, folder, root) || ScopesOffCycles(db, grants, folder))
      modifies this
      ensures ok && more ==> old(cursor) < cursor <= db.lastSeq
      ensures if ok then Replay(old(mirror), ops) == Some(mirror) else cursor == old(cursor)
      ensures if ok then TookPage(db, grants, folder, old(cursor), cursor, ops, more)
              else CannotTake(db, grants, folder, old(mirror), old(cursor))
      ensures old(Tracks(mirror, cursor, db, folder, left)) && RootReader(db, grants, folder, root) ==>
                && ok && Tracks(mirror, cursor, db, folder, left)
                && ops + OpsAbove(db.log, folder, cursor) == OpsAbove(db.log, folder, old(cursor))
                && (!more ==> mirror == left + View(db.nodes, folder) && cursor == Head(db.log, folder)
                              && OpsAbove(db.log, folder, cursor) == [])
    {
      hide Tracks, RootReader, ServesDelta, ScopesOffCycles, RowsHaveNodes, OpsAbove, Head, View, RightDelta, TookPage;
      ghost var tracked := Tracks(mirror, cursor, db, folder, left) && RootReader(db, grants, folder, root);
      var since := cursor;
      if RootReader(db, grants, folder, root) {
        RootReaderOffCycles(db, grants, folder, root);
      }
      var reply := PullDelta(db, db, grants, folder, since);
      ServesOverItself(db, grants, folder, since, reply);
      if tracked {
        TrackedPage(mirror, since, db, grants, folder, left, root, reply);
      }
      if !reply.Delta? {
        return false, [], false;
      }
      ops := reply.page.ops;
      ServedPage(db, grants, folder, since, reply);
      assert ops != [] ==> ops[|ops| - 1] in ops;
      if reply.page.upTo < since {
        return false, ops, false;
      }
      ok := ApplyPage(ops);
      if !ok {
        return false, ops, false;
      }
      cursor := reply.page.upTo;
      TookServed(db, grants, folder, since, reply.page);
      more := !(ops == [] || reply.page.upTo <= since);
    }

    /** Pulls until a page is empty. On success the mirror is the replay of what was pulled. A root reader that
        is behind by the rows above its cursor receives each of them exactly once and in order, and ends with
        the folder's rows, besides what is left of purged nodes, and the head as cursor, however many pages
        it takes. A reader with one scope, wherever it is, receives exactly the rows of its subtree. */
    method Pull(db: Db, grants: Grants, folder: Id, ghost root: Id, ghost left: Mirror, ghost scope: Id)
      returns (ok: bool, pulled: seq<LogRow>)
      requires Core(db) && (RootReader(db, grants, folder, root) || ScopesOffCycles(db, grants, folder))
      modifies this
      ensures ok ==> Replay(old(mirror), pulled) == Some(mirror)
      ensures ok && OnlyScope(db, grants, folder, scope) ==>
                && SentUpTo(db, folder, scope, old(cursor), cursor, pulled) && IsTopNumber(db.log, folder, cursor)
      ensures !ok ==> Replay(old(mirror), pulled).Some?
                      && CannotTake(db, grants, folder, Replay(old(mirror), pulled).value, cursor)
      ensures old(Tracks(mirror, cursor, db, folder, left)) && RootReader(db, grants, folder, root) ==>
                && ok && mirror == left + View(db.nodes, folder) && cursor == Head(db.log, folder)
                && pulled == OpsAbove(db.log, folder, old(cursor))
    {
      hide *;
      pulled := [];
      NothingPulled(mirror);
      NothingSent(db, folder, scope, cursor);
      while true
        invariant Replay(old(mirror), pulled) == Some(mirror)
        invariant OnlyScope(db, grants, folder, scope) ==> SentUpTo(db, folder, scope, old(cursor), cursor, pulled)
        invariant old(Tracks(mirror, cursor, db, folder, left)) && RootReader(db, grants, folder, root) ==>
                    && Tracks(mirror, cursor, db, folder, left)
                    && pulled + OpsAbove(db.log, folder, cursor) == OpsAbove(db.log, folder, old(cursor))
        decreases db.lastSeq - cursor
      {
        ghost var since := cursor;
        var applied, ops, more := PullPage(db, grants, folder, root, left);
        if !applied {
          return false, pulled;
        }
        ReplayAppend(old(mirror), pulled, ops);
        if OnlyScope(db, grants, folder, scope) {
          SentFurther(db, grants, folder, scope, old(cursor), since, pulled, cursor, ops, more);
        }
        pulled := pulled + ops;
        if !more {
          return true, pulled;
        }
      }
    }
  }
}
