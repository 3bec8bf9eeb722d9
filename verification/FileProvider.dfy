/** The change feed that the daemon serves to the File Provider extension: deletes of nodes with an upload
    under way are held back and delivered later. */
module FileProvider {
  import opened Types
  import opened Mirror

  datatype Item = Item(nodeId: Id, row: LocalNode)

  function CursorOf(cursors: map<Id, nat>, folder: Id): nat {
    if folder in cursors then cursors[folder] else 0
  }

  function DeferredOf(deferred: map<Id, set<Id>>, folder: Id): set<Id> {
    if folder in deferred then deferred[folder] else {}
  }

  function ChangedSince(mirror: Mirror, folder: Id, since: nat): set<Id> {
    set n | n in mirror && mirror[n].folder == folder && mirror[n].serverSeq > since
  }

  /** The changed nodes whose deletion has to wait for their uploads. */
  function HeldBack(mirror: Mirror, folder: Id, since: nat, pending: set<Id>): set<Id> {
    set n | n in ChangedSince(mirror, folder, since) && mirror[n].deleted && n in pending
  }

  /** The nodes that an answer reports. */
  function Answer(mirror: Mirror, folder: Id, since: nat, pending: set<Id>, deferred: set<Id>): set<Id> {
    (ChangedSince(mirror, folder, since) - HeldBack(mirror, folder, since, pending)) + ((deferred - pending) * mirror.Keys)
  }

  ghost predicate Reports(items: seq<Item>, n: Id) {
    exists i :: 0 <= i < |items| && items[i].nodeId == n
  }

  /** The items are the present mirror rows of exactly these nodes. */
  ghost predicate ReportsExactly(items: seq<Item>, mirror: Mirror, ids: set<Id>) {
    && (forall i :: 0 <= i < |items| ==> items[i].nodeId in mirror && items[i].row == mirror[items[i].nodeId])
    && (forall n :: Reports(items, n) <==> n in ids)
  }

  lemma ReportOneMore(items: seq<Item>, mirror: Mirror, ids: set<Id>, n: Id)
    requires ReportsExactly(items, mirror, ids) && n in mirror
    ensures ReportsExactly(items + [Item(n, mirror[n])], mirror, ids + {n})
  {
    var longer := items + [Item(n, mirror[n])];
    forall m
      ensures Reports(longer, m) <==> m in ids + {n}
    {
      if Reports(items, m) {
        var i :| 0 <= i < |items| && items[i].nodeId == m;
        assert longer[i].nodeId == m;
      }
      assert longer[|items|].nodeId == n;
    }
  }

  // The feed of one folder, with the client's side of it.

  /** `anchor` and `seen` are the client's: the number it last got, and the rows as it was last told them. */
  datatype Feed = Feed(mirror: Mirror, cursor: nat, pending: set<Id>, deferred: set<Id>, anchor: nat, seen: Mirror)

  datatype FeedStep =
    | ApplyRow(e: LogRow)
    | SetCursor(upTo: nat)
    | Upsert(nodeId: Id, row: LocalNode)
    | UploadStarts(nodeId: Id)
    | UploadEnds(nodeId: Id)
    | Ask

  function Received(seen: Mirror, items: seq<Item>): Mirror {
    if items == [] then seen
    else Received(seen, items[..|items| - 1])[items[|items| - 1].nodeId := items[|items| - 1].row]
  }

  function Rows(mirror: Mirror, ids: set<Id>): Mirror {
    map n | n in ids && n in mirror :: mirror[n]
  }

  /** Whatever the order of the items and however often a node occurs, the client ends with these rows. */
  lemma {:induction false} ReceivedRows(seen: Mirror, items: seq<Item>, mirror: Mirror, ids: set<Id>)
    requires ReportsExactly(items, mirror, ids)
    ensures Received(seen, items) == seen + Rows(mirror, ids)
  {
    if items == [] {
      assert forall n :: n !in ids by {
        assert forall n :: !Reports(items, n);
      }
      assert Rows(mirror, ids) == map[];
    } else {
      var front, last := items[..|items| - 1], items[|items| - 1];
      var some := set i | 0 <= i < |front| :: front[i].nodeId;
      FrontReports(items, mirror, some);
      ReceivedRows(seen, front, mirror, some);
      forall n
        ensures n in ids <==> n in some || n == last.nodeId
      {
        LastReports(items, n);
        assert Reports(items, n) <==> n in ids;
        assert Reports(front, n) <==> n in some;
      }
      OneRowMore(seen, mirror, some, ids, last.nodeId);
    }
  }

  lemma OneRowMore(seen: Mirror, mirror: Mirror, some: set<Id>, ids: set<Id>, n: Id)
    requires n in mirror && forall m :: m in ids <==> m in some || m == n
    ensures seen + Rows(mirror, ids) == (seen + Rows(mirror, some))[n := mirror[n]]
  {
  }

  lemma FrontReports(items: seq<Item>, mirror: Mirror, some: set<Id>)
    requires items != [] && some == set i | 0 <= i < |items| - 1 :: items[i].nodeId
    requires forall i :: 0 <= i < |items| ==> items[i].nodeId in mirror && items[i].row == mirror[items[i].nodeId]
    ensures ReportsExactly(items[..|items| - 1], mirror, some)
  {
    var front := items[..|items| - 1];
    forall n
      ensures Reports(front, n) <==> n in some
    {
      if Reports(front, n) {
        var i :| 0 <= i < |front| && front[i].nodeId == n;
        assert items[i].nodeId in some;
      }
      if n in some {
        var i :| 0 <= i < |items| - 1 && items[i].nodeId == n;
        assert front[i].nodeId == n;
      }
    }
  }

  lemma LastReports(items: seq<Item>, n: Id)
    requires items != []
    ensures Reports(items, n) <==> Reports(items[..|items| - 1], n) || items[|items| - 1].nodeId == n
  {
    var front := items[..|items| - 1];
    if Reports(items, n) && items[|items| - 1].nodeId != n {
      var i :| 0 <= i < |items| && items[i].nodeId == n;
      assert front[i].nodeId == n;
    }
    if Reports(front, n) {
      var i :| 0 <= i < |front| && front[i].nodeId == n;
      assert items[i].nodeId == n;
    }
  }

  /** The client asks from its anchor and takes the answer. */
  function Asked(folder: Id, feed: Feed): Feed {
    feed.(deferred := (feed.deferred + HeldBack(feed.mirror, folder, feed.anchor, feed.pending)) * feed.pending,
          seen := feed.seen + Rows(feed.mirror, Answer(feed.mirror, folder, feed.anchor, feed.pending, feed.deferred)),
          anchor := feed.cursor)
  }

  /** Pulls apply log rows above the cursor and then raise it. The daemon's own changes are written without
      the lock that a pull holds: by then the cursor may have passed their numbers. */
  predicate Allowed(feed: Feed, step: FeedStep) {
    match step
    case ApplyRow(e) => e.serverSeq > feed.cursor
    case SetCursor(upTo) => upTo >= feed.cursor
    case _ => true
  }

  function Next(folder: Id, feed: Feed, step: FeedStep): Feed {
    match step
    case ApplyRow(e) =>
      (match ApplyEntry(feed.mirror, e)
       case None => feed
       case Some(mirror) => feed.(mirror := mirror))
    case SetCursor(upTo) => feed.(cursor := upTo)
    case Upsert(n, row) => feed.(mirror := feed.mirror[n := row])
    case UploadStarts(n) => feed.(pending := feed.pending + {n})
    case UploadEnds(n) => feed.(pending := feed.pending - {n})
    case Ask => Asked(folder, feed)
  }

  ghost predicate Told(feed: Feed, n: Id) {
    n in feed.mirror && n in feed.seen && feed.seen[n] == feed.mirror[n]
  }

  /** If the node's row is at or below its anchor, the client knows it as it is, or it is a delete that the
      daemon still remembers to report. */
  ghost predicate NotLost(folder: Id, feed: Feed, n: Id) {
    n in feed.mirror && feed.mirror[n].folder == folder && feed.mirror[n].serverSeq <= feed.anchor ==>
      Told(feed, n) || (feed.mirror[n].deleted && n in feed.deferred)
  }

  ghost predicate NothingLost(folder: Id, feed: Feed) {
    feed.anchor <= feed.cursor && forall n :: NotLost(folder, feed, n)
  }

  lemma AppliedAbove(mirror: Mirror, e: LogRow, n: Id)
    requires ApplyEntry(mirror, e).Some? && n in ApplyEntry(mirror, e).value
    ensures var after := ApplyEntry(mirror, e).value;
            (n in mirror && after[n] == mirror[n]) || after[n].serverSeq == e.serverSeq
  {
  }

  lemma AskKeeps(folder: Id, feed: Feed, n: Id)
    requires NotLost(folder, feed, n) && feed.anchor <= feed.cursor
    ensures NotLost(folder, Asked(folder, feed), n)
  {
    if n in feed.mirror && feed.mirror[n].folder == folder && feed.mirror[n].serverSeq > feed.anchor {
      assert n in ChangedSince(feed.mirror, folder, feed.anchor);
    }
  }

  /** A write to the mirror that no client can miss: it concerns another folder, the client will ask for it,
      it changes nothing, or it leaves a deferred delete a delete. */
  predicate SafeWrite(folder: Id, feed: Feed, n: Id, row: LocalNode) {
    || row.folder != folder || row.serverSeq > feed.anchor
    || (n in feed.mirror && feed.mirror[n] == row) || (row.deleted && n in feed.deferred)
  }

  lemma StepKeeps(folder: Id, feed: Feed, step: FeedStep, n: Id)
    requires NotLost(folder, feed, n) && feed.anchor <= feed.cursor && Allowed(feed, step)
    requires step.Upsert? && step.nodeId == n ==> SafeWrite(folder, feed, n, step.row)
    ensures NotLost(folder, Next(folder, feed, step), n)
    ensures Next(folder, feed, step).anchor <= Next(folder, feed, step).cursor
  {
    match step
    case ApplyRow(e) =>
      if ApplyEntry(feed.mirror, e).Some? && n in ApplyEntry(feed.mirror, e).value {
        AppliedAbove(feed.mirror, e, n);
      }
    case Ask => AskKeeps(folder, feed, n);
    case _ =>
  }

  /** A write to the mirror loses nothing for any client with this anchor if and only if it is a safe one. */
  lemma WriteSafeExactly(folder: Id, feed: Feed, n: Id, row: LocalNode)
    requires feed.anchor <= feed.cursor
    ensures (forall seen :: NothingLost(folder, feed.(seen := seen)) ==>
               NothingLost(folder, Next(folder, feed.(seen := seen), Upsert(n, row)))) <==>
            SafeWrite(folder, feed, n, row)
  {
    if SafeWrite(folder, feed, n, row) {
      forall seen, m | NothingLost(folder, feed.(seen := seen))
        ensures NotLost(folder, Next(folder, feed.(seen := seen), Upsert(n, row)), m)
      {
        StepKeeps(folder, feed.(seen := seen), Upsert(n, row), m);
      }
    } else {
      var informed := feed.(seen := feed.mirror);
      assert NothingLost(folder, informed);
      assert !NotLost(folder, Next(folder, informed, Upsert(n, row)), n);
    }
  }

  lemma QuietStepKeeps(folder: Id, feed: Feed, step: FeedStep)
    requires NothingLost(folder, feed) && Allowed(feed, step) && !step.Upsert?
    ensures NothingLost(folder, Next(folder, feed, step))
  {
    forall n
      ensures NotLost(folder, Next(folder, feed, step), n)
    {
      StepKeeps(folder, feed, step, n);
    }
    AnchorKeeps(folder, feed, step);
  }

  lemma AnchorKeeps(folder: Id, feed: Feed, step: FeedStep)
    requires feed.anchor <= feed.cursor && Allowed(feed, step)
    ensures Next(folder, feed, step).anchor <= Next(folder, feed, step).cursor
  {
  }

  ghost predicate AllowedRun(folder: Id, feed: Feed, steps: seq<FeedStep>)
    decreases |steps|
  {
    steps == [] || (Allowed(feed, steps[0]) && AllowedRun(folder, Next(folder, feed, steps[0]), steps[1..]))
  }

  function After(folder: Id, feed: Feed, steps: seq<FeedStep>): Feed
    decreases |steps|
  {
    if steps == [] then feed else After(folder, Next(folder, feed, steps[0]), steps[1..])
  }

  /** No write to the node's row in the run is an unsafe one. */
  ghost predicate SafelyWritten(folder: Id, feed: Feed, steps: seq<FeedStep>, n: Id)
    decreases |steps|
  {
    steps == [] ||
    ((steps[0].Upsert? && steps[0].nodeId == n ==> SafeWrite(folder, feed, n, steps[0].row))
     && SafelyWritten(folder, Next(folder, feed, steps[0]), steps[1..], n))
  }

  lemma {:induction false} FeedKeepsNode(folder: Id, feed: Feed, steps: seq<FeedStep>, n: Id)
    requires NotLost(folder, feed, n) && feed.anchor <= feed.cursor
    requires AllowedRun(folder, feed, steps) && SafelyWritten(folder, feed, steps, n)
    ensures NotLost(folder, After(folder, feed, steps), n)
    decreases |steps|
  {
    if steps != [] {
      StepKeeps(folder, feed, steps[0], n);
      FeedKeepsNode(folder, Next(folder, feed, steps[0]), steps[1..], n);
    }
  }

  lemma {:induction false} AnchorBehindCursor(folder: Id, feed: Feed, steps: seq<FeedStep>)
    requires feed.anchor <= feed.cursor && AllowedRun(folder, feed, steps)
    ensures After(folder, feed, steps).anchor <= After(folder, feed, steps).cursor
    decreases |steps|
  {
    if steps != [] {
      AnchorBehindCursor(folder, Next(folder, feed, steps[0]), steps[1..]);
    }
  }

  /** Over any run of pulls, uploads, questions and writes of the daemon's own changes, however late, the
      change of a node can get lost only by an unsafe write to its row. */
  lemma FeedLosesNothing(folder: Id, feed: Feed, steps: seq<FeedStep>)
    requires NothingLost(folder, feed) && AllowedRun(folder, feed, steps)
    ensures forall n :: SafelyWritten(folder, feed, steps, n) ==> NotLost(folder, After(folder, feed, steps), n)
    ensures (forall n :: SafelyWritten(folder, feed, steps, n)) ==> NothingLost(folder, After(folder, feed, steps))
  {
    AnchorBehindCursor(folder, feed, steps);
    forall n | SafelyWritten(folder, feed, steps, n)
      ensures NotLost(folder, After(folder, feed, steps), n)
    {
      FeedKeepsNode(folder, feed, steps, n);
    }
  }

  /** After an answer only deletes of nodes with an upload under way are still held back. An answer given
      while nothing is pending brings the client fully up to date, also on rows above its new anchor. */
  lemma AnswerSettles(folder: Id, feed: Feed)
    requires NothingLost(folder, feed)
    ensures var after := Asked(folder, feed);
            && after.deferred <= after.pending
            && (forall n :: n in feed.mirror && feed.mirror[n].folder == folder ==>
                  Told(after, n) || (feed.mirror[n].deleted && n in feed.pending && n in after.deferred))
            && (feed.pending == {} ==>
                  after.deferred == {} && forall n :: n in feed.mirror && feed.mirror[n].folder == folder ==> Told(after, n))
  {
    var after := Asked(folder, feed);
    forall n | n in feed.mirror && feed.mirror[n].folder == folder
      ensures Told(after, n) || (feed.mirror[n].deleted && n in feed.pending && n in after.deferred)
    {
      assert NotLost(folder, feed, n);
      if feed.mirror[n].serverSeq > feed.anchor {
        assert n in ChangedSince(feed.mirror, folder, feed.anchor);
      }
    }
  }

  /** `fp_changes` is this step of the feed, for a client that takes the items it is sent. */
  lemma CallIsAsk(folder: Id, feed: Feed, items: seq<Item>)
    requires ReportsExactly(items, feed.mirror, Answer(feed.mirror, folder, feed.anchor, feed.pending, feed.deferred))
    ensures Received(feed.seen, items) == Asked(folder, feed).seen
  {
    ReceivedRows(feed.seen, items, feed.mirror, Answer(feed.mirror, folder, feed.anchor, feed.pending, feed.deferred));
  }

  // What the held-back deletes do not survive.

  /** Both sets live in memory only. */
  function Restarted(feed: Feed): Feed {
    feed.(pending := {}, deferred := {})
  }

  /** The answer is computed, the deferred deletes in it are forgotten, and it does not arrive. */
  function AnswerDropped(folder: Id, feed: Feed): Feed {
    Asked(folder, feed).(seen := feed.seen, anchor := feed.anchor)
  }

  /** A held-back delete that the client will not be told by asking for later changes. */
  ghost predicate BehindAnchor(folder: Id, feed: Feed, n: Id) {
    && n in feed.deferred && n in feed.mirror && feed.mirror[n].deleted
    && feed.mirror[n].folder == folder && feed.mirror[n].serverSeq <= feed.anchor
  }

  /** A client that knows all rows but that one. */
  ghost function KnowsAllBut(feed: Feed, n: Id): Feed {
    feed.(seen := feed.mirror - {n})
  }

  lemma KnowsAllButLosesNothing(folder: Id, feed: Feed, n: Id)
    requires feed.anchor <= feed.cursor && BehindAnchor(folder, feed, n)
    ensures NothingLost(folder, KnowsAllBut(feed, n)) && !Told(KnowsAllBut(feed, n), n)
  {
    var known := KnowsAllBut(feed, n);
    forall m
      ensures NotLost(folder, known, m)
    {
    }
  }

  /** A restart is safe for every client with this anchor if and only if no held-back delete is behind it. */
  lemma RestartSafeExactly(folder: Id, feed: Feed)
    requires feed.anchor <= feed.cursor
    ensures (forall seen :: NothingLost(folder, feed.(seen := seen)) ==> NothingLost(folder, Restarted(feed.(seen := seen)))) <==>
            forall n :: !BehindAnchor(folder, feed, n)
  {
    if n :| BehindAnchor(folder, feed, n) {
      KnowsAllButLosesNothing(folder, feed, n);
      var seen := KnowsAllBut(feed, n).seen;
      assert feed.(seen := seen) == KnowsAllBut(feed, n);
      assert !NotLost(folder, Restarted(feed.(seen := seen)), n);
    } else {
      forall seen | NothingLost(folder, feed.(seen := seen))
        ensures NothingLost(folder, Restarted(feed.(seen := seen)))
      {
        var known := feed.(seen := seen);
        forall n
          ensures NotLost(folder, Restarted(known), n)
        {
          assert !BehindAnchor(folder, feed, n);
          assert NotLost(folder, known, n);
        }
      }
    }
  }

  /** The same of an answer that does not arrive, for the held-back deletes whose uploads are over. */
  lemma DroppedAnswerSafeExactly(folder: Id, feed: Feed)
    requires feed.anchor <= feed.cursor
    ensures (forall seen :: NothingLost(folder, feed.(seen := seen)) ==>
               NothingLost(folder, AnswerDropped(folder, feed.(seen := seen)))) <==>
            forall n :: BehindAnchor(folder, feed, n) ==> n in feed.pending
  {
    if n :| BehindAnchor(folder, feed, n) && n !in feed.pending {
      KnowsAllButLosesNothing(folder, feed, n);
      var seen := KnowsAllBut(feed, n).seen;
      assert feed.(seen := seen) == KnowsAllBut(feed, n);
      assert !NotLost(folder, AnswerDropped(folder, feed.(seen := seen)), n);
    } else {
      forall seen | NothingLost(folder, feed.(seen := seen))
        ensures NothingLost(folder, AnswerDropped(folder, feed.(seen := seen)))
      {
        var known := feed.(seen := seen);
        forall n
          ensures NotLost(folder, AnswerDropped(folder, known), n)
        {
          assert NotLost(folder, known, n);
          assert BehindAnchor(folder, feed, n) ==> n in feed.pending;
        }
      }
    }
  }

  /** Once no upload is under way, the client's next question tells it that the node is deleted. */
  ghost predicate DeleteDue(folder: Id, feed: Feed, n: Id) {
    var told := Asked(folder, feed.(pending := {})).seen;
    n in told && told[n].deleted
  }

  /** Every delete in the mirror is due. A late write of the node's row leaves it due in these cases only. If a
      question still covers the row written, because its number is above the anchor or the delete is deferred,
      that row has to be a deleted one; otherwise the client has to have been told of the delete before. */
  lemma LateWriteForgetsDeleteExactly(folder: Id, feed: Feed, n: Id, row: LocalNode)
    requires NothingLost(folder, feed) && n in feed.mirror && feed.mirror[n].folder == folder && feed.mirror[n].deleted
    requires row.folder == folder
    ensures DeleteDue(folder, feed, n)
    ensures DeleteDue(folder, Next(folder, feed, Upsert(n, row)), n) <==>
            if row.serverSeq > feed.anchor || n in feed.deferred then row.deleted
            else n in feed.seen && feed.seen[n].deleted
  {
    var idle := feed.(pending := {});
    assert NotLost(folder, feed, n);
    assert NotLost(folder, idle, n);
    if feed.mirror[n].serverSeq > feed.anchor {
      assert n in ChangedSince(idle.mirror, folder, idle.anchor);
    }
    WrittenAnswer(folder, feed, n, row);
  }

  /** What a question tells of the row written, when no upload is under way. */
  lemma WrittenAnswer(folder: Id, feed: Feed, n: Id, row: LocalNode)
    requires row.folder == folder
    ensures var told := Asked(folder, Next(folder, feed, Upsert(n, row)).(pending := {})).seen;
            if row.serverSeq > feed.anchor || n in feed.deferred then n in told && told[n] == row
            else (n in told <==> n in feed.seen) && (n in told ==> told[n] == feed.seen[n])
  {
    var written := Next(folder, feed, Upsert(n, row)).(pending := {});
    assert n in ChangedSince(written.mirror, folder, written.anchor) <==> row.serverSeq > feed.anchor;
  }

  // Runs that lose a delete. The client starts with everything known: a root and a live file at number 1.

  function Known(): Feed {
    var mirror := map[1 := LocalNode(7, None, "", Folder, None, 0, false), 2 := LocalNode(7, Some(1), "a", File, None, 1, false)];
    Feed(mirror, 1, {}, {}, 1, mirror)
  }

  function Logged(seq': nat, payload: Payload): FeedStep {
    ApplyRow(LogRow(seq', 7, 2, payload, Some(1), 5, 0))
  }

  lemma FiveSteps(folder: Id, feed: Feed, a: FeedStep, b: FeedStep, c: FeedStep, d: FeedStep, e: FeedStep)
    ensures var fa := Next(folder, feed, a);
            var fb := Next(folder, fa, b);
            var fc := Next(folder, fb, c);
            var fd := Next(folder, fc, d);
            && After(folder, feed, [a, b, c, d, e]) == Next(folder, fd, e)
            && (AllowedRun(folder, feed, [a, b, c, d, e]) <==>
                Allowed(feed, a) && Allowed(fa, b) && Allowed(fb, c) && Allowed(fc, d) && Allowed(fd, e))
  {
    hide Next, Allowed;
    var fa := Next(folder, feed, a);
    var fb := Next(folder, fa, b);
    var fc := Next(folder, fb, c);
    var fd := Next(folder, fc, d);
    assert [a, b, c, d, e] == [a] + [b, c, d, e] && [b, c, d, e] == [b] + [c, d, e];
    assert [c, d, e] == [c] + [d, e] && [d, e] == [d] + [e] && [e] == [e] + [];
    OneStep(folder, feed, a, [b, c, d, e]);
    OneStep(folder, fa, b, [c, d, e]);
    OneStep(folder, fb, c, [d, e]);
    OneStep(folder, fc, d, [e]);
    OneStep(folder, fd, e, []);
  }

  lemma OneStep(folder: Id, feed: Feed, step: FeedStep, rest: seq<FeedStep>)
    ensures After(folder, feed, [step] + rest) == After(folder, Next(folder, feed, step), rest)
    ensures AllowedRun(folder, feed, [step] + rest) <==>
            Allowed(feed, step) && AllowedRun(folder, Next(folder, feed, step), rest)
  {
    assert ([step] + rest)[1..] == rest;
  }

  /** An upload starts, its node is deleted, the client asks, the upload ends, and then the daemon restarts,
      or the next answer does not arrive: the client is never told of the delete. */
  lemma HeldBackDeleteLost(steps: seq<FeedStep>)
    requires steps == [UploadStarts(2), Logged(2, DeletePayload), SetCursor(2), Ask, UploadEnds(2)]
    ensures NothingLost(7, Known()) && AllowedRun(7, Known(), steps)
    ensures var before := After(7, Known(), steps);
            && NothingLost(7, before) && before.seen == Known().seen && 2 in before.mirror && before.mirror[2].deleted
            && Asked(7, Restarted(before)).seen == before.seen
            && Asked(7, AnswerDropped(7, before)).seen == before.seen
  {
    hide Next, Asked, NothingLost, After, AllowedRun, Logged, Restarted, AnswerDropped;
    var known := Known();
    var uploading := known.(pending := {2});
    var deleted := uploading.(mirror := known.mirror[2 := GONE]);
    FiveSteps(7, known, steps[0], steps[1], steps[2], steps[3], steps[4]);
    UploadsBetween(known, 2);
    DeletePulledNext(uploading, 2);
    CursorRaised(deleted, 2);
    AskIsAsked(deleted.(cursor := 2));
    DeleteHeldBack();
    UploadsBetween(HeldBackFeed(), 2);
    assert After(7, known, steps) == HeldBackFeed().(pending := {});
    HeldBackForgotten();
  }

  const GONE := LocalNode(7, Some(1), "a", File, None, 2, true)

  /** The feed after the question, with the delete held back. */
  function HeldBackFeed(): Feed {
    Feed(Known().mirror[2 := GONE], 2, {2}, {2}, 2, Known().mirror)
  }

  lemma UploadsBetween(feed: Feed, n: Id)
    requires feed.pending <= {n}
    ensures Next(7, feed, UploadStarts(n)) == feed.(pending := {n}) && Allowed(feed, UploadStarts(n))
    ensures Next(7, feed, UploadEnds(n)) == feed.(pending := {}) && Allowed(feed, UploadEnds(n))
  {
    assert feed.pending + {n} == {n} && feed.pending - {n} == {};
  }

  lemma DeleteHeldBack()
    ensures Asked(7, Feed(Known().mirror[2 := GONE], 2, {2}, {}, 1, Known().mirror)) == HeldBackFeed()
  {
    var mirror := Known().mirror[2 := GONE];
    assert ChangedSince(mirror, 7, 1) == {2};
    assert HeldBack(mirror, 7, 1, {2}) == {2};
    assert Rows(mirror, Answer(mirror, 7, 1, {2}, {})) == map[];
    assert Known().mirror + map[] == Known().mirror;
  }

  lemma HeldBackForgotten()
    ensures NothingLost(7, Known())
    ensures var before := HeldBackFeed().(pending := {});
            && NothingLost(7, before) && before.seen == Known().seen && 2 in before.mirror && before.mirror[2].deleted
            && Asked(7, Restarted(before)).seen == before.seen
            && Asked(7, AnswerDropped(7, before)).seen == before.seen
  {
    var before := HeldBackFeed().(pending := {});
    assert forall n :: NotLost(7, Known(), n) && NotLost(7, before, n);
    assert ChangedSince(before.mirror, 7, 2) == {};
    assert Rows(before.mirror, {}) == map[];
    assert Known().mirror + map[] == Known().mirror;
  }

  /** The daemon's copy of the file after its own rename, and the feed once a pull has brought the rename and
      another client's delete. */
  const RENAMED := LocalNode(7, Some(1), "b", File, None, 2, false)

  function DeletePulled(): Feed {
    Feed(Known().mirror[2 := RENAMED.(serverSeq := 3, deleted := true)], 3, {}, {}, 1, Known().mirror)
  }

  lemma PullBringsDelete(steps: seq<FeedStep>)
    requires steps == [Logged(2, RenamePayload("b")), Logged(3, DeletePayload), SetCursor(3)]
    ensures AllowedRun(7, Known(), steps) && After(7, Known(), steps) == DeletePulled()
    ensures NothingLost(7, Known()) && NothingLost(7, DeletePulled()) && DeleteDue(7, DeletePulled(), 2)
  {
    var known, gone := Known(), RENAMED.(serverSeq := 3, deleted := true);
    assert known.mirror[2 := RENAMED][2 := gone] == known.mirror[2 := gone];
    var renamed := Next(7, known, steps[0]);
    var deleted := Next(7, renamed, steps[1]);
    assert steps == [steps[0]] + [steps[1], steps[2]] && [steps[1], steps[2]] == [steps[1]] + [steps[2]];
    assert [steps[2]] == [steps[2]] + [];
    OneStep(7, known, steps[0], [steps[1], steps[2]]);
    OneStep(7, renamed, steps[1], [steps[2]]);
    OneStep(7, deleted, steps[2], []);
    assert forall n :: NotLost(7, known, n) && NotLost(7, DeletePulled(), n);
    LateWriteForgetsDeleteExactly(7, DeletePulled(), 2, RENAMED);
  }

  /** Only then does the daemon write its copy. The next answer brings the client a live node, and the delete
      is not due any more. */
  lemma LateWriteLosesDelete()
    ensures var written := Next(7, DeletePulled(), Upsert(2, RENAMED));
            var after := Asked(7, written);
            && 2 in after.seen && !after.seen[2].deleted && after.anchor == 3 && after.deferred == {}
            && !DeleteDue(7, after, 2)
  {
    var written := Next(7, DeletePulled(), Upsert(2, RENAMED));
    assert written.mirror[2] == RENAMED;
    assert ChangedSince(written.mirror, 7, 1) == {2};
    var after := Asked(7, written);
    assert after.seen[2] == RENAMED;
    assert ChangedSince(after.mirror, 7, 3) == {};
  }

  /** The same after a question in between: the client knows of the rename, and a pull has brought the delete,
      when the daemon writes its copy under the number that the client has for its anchor. */
  function AskedBetween(): Feed {
    Feed(Known().mirror[2 := RENAMED.(serverSeq := 3, deleted := true)], 3, {}, {}, 2, Known().mirror[2 := RENAMED])
  }

  lemma PullBringsDeleteLater(steps: seq<FeedStep>)
    requires steps == [Logged(2, RenamePayload("b")), SetCursor(2), Ask, Logged(3, DeletePayload), SetCursor(3)]
    ensures NothingLost(7, Known()) && AllowedRun(7, Known(), steps)
    ensures After(7, Known(), steps) == AskedBetween() && NothingLost(7, AskedBetween()) && DeleteDue(7, AskedBetween(), 2)
  {
    hide Next, Asked, NothingLost, DeleteDue, After, AllowedRun, Logged;
    var known := Known();
    var renamed := known.(mirror := known.mirror[2 := RENAMED]);
    var told := renamed.(cursor := 2, anchor := 2, seen := renamed.mirror);
    var deleted := told.(mirror := told.mirror[2 := RENAMED.(serverSeq := 3, deleted := true)]);
    FiveSteps(7, known, steps[0], steps[1], steps[2], steps[3], steps[4]);
    RenamePulled(known, 2, "b");
    CursorRaised(renamed, 2);
    RenameTold(renamed.(cursor := 2));
    AskIsAsked(renamed.(cursor := 2));
    DeletePulledNext(told, 3);
    CursorRaised(deleted, 3);
    assert deleted.(cursor := 3) == AskedBetween();
    NothingLostYet();
    LateWriteForgetsDeleteExactly(7, AskedBetween(), 2, RENAMED);
  }

  lemma RenamePulled(feed: Feed, seq': nat, name: string)
    requires 2 in feed.mirror && feed.mirror[2].serverSeq < seq' && feed.cursor < seq'
    ensures Allowed(feed, Logged(seq', RenamePayload(name)))
    ensures Next(7, feed, Logged(seq', RenamePayload(name))) ==
            feed.(mirror := feed.mirror[2 := feed.mirror[2].(name := name, serverSeq := seq')])
  {
  }

  lemma DeletePulledNext(feed: Feed, seq': nat)
    requires 2 in feed.mirror && feed.mirror[2].serverSeq < seq' && feed.cursor < seq'
    ensures Allowed(feed, Logged(seq', DeletePayload))
    ensures Next(7, feed, Logged(seq', DeletePayload)) ==
            feed.(mirror := feed.mirror[2 := feed.mirror[2].(deleted := true, serverSeq := seq')])
  {
  }

  lemma CursorRaised(feed: Feed, upTo: nat)
    requires feed.cursor <= upTo
    ensures Allowed(feed, SetCursor(upTo)) && Next(7, feed, SetCursor(upTo)) == feed.(cursor := upTo)
  {
  }

  lemma AskIsAsked(feed: Feed)
    ensures Allowed(feed, Ask) && Next(7, feed, Ask) == Asked(7, feed)
  {
  }

  lemma RenameTold(pulled: Feed)
    requires pulled == Feed(Known().mirror[2 := RENAMED], 2, {}, {}, 1, Known().mirror)
    ensures Asked(7, pulled) == Feed(pulled.mirror, 2, {}, {}, 2, pulled.mirror)
  {
    assert ChangedSince(pulled.mirror, 7, 1) == {2};
    assert Rows(pulled.mirror, Answer(pulled.mirror, 7, 1, {}, {})) == map[2 := RENAMED];
    assert Known().mirror + map[2 := RENAMED] == Known().mirror[2 := RENAMED];
  }

  lemma NothingLostYet()
    ensures NothingLost(7, Known()) && NothingLost(7, AskedBetween())
  {
    assert forall n :: NotLost(7, Known(), n) && NotLost(7, AskedBetween(), n);
  }

  /** The write puts back what this client knows, so that nothing it knows gets wrong, and the delete is never
      reported. */
  lemma LateWriteAtAnchor()
    ensures var written := Next(7, AskedBetween(), Upsert(2, RENAMED));
            && NothingLost(7, written) && !DeleteDue(7, written, 2)
            && Asked(7, written).seen == written.seen && !written.seen[2].deleted && Asked(7, written).anchor == 3
            && !DeleteDue(7, Asked(7, written), 2)
  {
    var written := Next(7, AskedBetween(), Upsert(2, RENAMED));
    assert forall n :: NotLost(7, written, n);
    assert ChangedSince(written.mirror, 7, 2) == {};
    assert Rows(written.mirror, {}) == map[];
    assert written.seen + map[] == written.seen;
    assert Asked(7, written).seen == written.seen;
    assert ChangedSince(written.mirror, 7, 3) == {};
  }

  /** Had the client asked once the delete was in, it would know the node as deleted, and the write would be an unsafe one. */
  lemma LateWriteUnsafe()
    ensures var asked := Asked(7, DeletePulled());
            && 2 in asked.seen && asked.seen[2].deleted && !SafeWrite(7, asked, 2, RENAMED)
            && !NothingLost(7, Next(7, asked, Upsert(2, RENAMED)))
  {
    assert 2 in ChangedSince(DeletePulled().mirror, 7, 1);
    var asked := Asked(7, DeletePulled());
    assert !NotLost(7, Next(7, asked, Upsert(2, RENAMED)), 2);
  }

  // The daemon's state.

  /** The node's row has changed since then, and its delete may be told. */
  predicate ChangedAndFree(mirror: Mirror, folder: Id, since: nat, pending: set<Id>, n: Id) {
    && n in mirror && mirror[n].folder == folder && mirror[n].serverSeq > since
    && !(mirror[n].deleted && n in pending)
  }

  predicate Deferred(deferred: map<Id, set<Id>>, folder: Id, n: Id) {
    folder in deferred && n in deferred[folder]
  }

  /** The items are the present rows of the changed nodes whose delete may be told, and of the nodes deferred
      before whose uploads are over. */
  ghost predicate RightItems(
    items: seq<Item>, mirror: Mirror, folder: Id, since: nat, pending: set<Id>, deferred: map<Id, set<Id>>)
  {
    && (forall i :: 0 <= i < |items| ==> items[i].nodeId in mirror && items[i].row == mirror[items[i].nodeId])
    && forall n :: (exists i :: 0 <= i < |items| && items[i].nodeId == n) <==>
         ChangedAndFree(mirror, folder, since, pending, n) || (n in mirror && n !in pending && Deferred(deferred, folder, n))
  }

  /** Deferred is what is pending of the deferred nodes and of the deleted ones that have changed. */
  ghost predicate RightDeferred(
    before: map<Id, set<Id>>, after: map<Id, set<Id>>, mirror: Mirror, folder: Id, since: nat, pending: set<Id>)
  {
    && (forall n :: Deferred(after, folder, n) <==>
          && n in pending
          && (Deferred(before, folder, n)
              || (n in mirror && mirror[n].folder == folder && mirror[n].serverSeq > since && mirror[n].deleted)))
    && forall f, n :: f != folder ==> (Deferred(after, f, n) <==> Deferred(before, f, n))
  }

  lemma ItemsByColumns(
    items: seq<Item>, mirror: Mirror, folder: Id, since: nat, pending: set<Id>, deferred: map<Id, set<Id>>)
    requires ReportsExactly(items, mirror, Answer(mirror, folder, since, pending, DeferredOf(deferred, folder)))
    ensures RightItems(items, mirror, folder, since, pending, deferred)
  {
    forall n
      ensures n in Answer(mirror, folder, since, pending, DeferredOf(deferred, folder)) <==>
              ChangedAndFree(mirror, folder, since, pending, n) || (n in mirror && n !in pending && Deferred(deferred, folder, n))
    {
    }
    forall n
      ensures (exists i :: 0 <= i < |items| && items[i].nodeId == n) <==> Reports(items, n)
    {
    }
  }

  lemma DeferredByColumns(
    before: map<Id, set<Id>>, after: map<Id, set<Id>>, mirror: Mirror, folder: Id, since: nat, pending: set<Id>)
    requires DeferredOf(after, folder) == (DeferredOf(before, folder) + HeldBack(mirror, folder, since, pending)) * pending
    requires forall f :: f != folder ==> DeferredOf(after, f) == DeferredOf(before, f)
    ensures RightDeferred(before, after, mirror, folder, since, pending)
  {
    forall f, n
      ensures Deferred(after, f, n) <==> n in DeferredOf(after, f)
      ensures Deferred(before, f, n) <==> n in DeferredOf(before, f)
    {
    }
  }

  class DaemonState {
    var mirror: Mirror
    var cursors: map<Id, nat>
    var pendingUploads: set<Id>
    var deferredDeletes: map<Id, set<Id>>

    /** A daemon that has just started: the database is there, both sets in memory are empty. */
    constructor (mirror: Mirror, cursors: map<Id, nat>)
      ensures this.mirror == mirror && this.cursors == cursors && pendingUploads == {} && deferredDeletes == map[]
    {
      this.mirror, this.cursors, pendingUploads, deferredDeletes := mirror, cursors, {}, map[];
    }

    /** The feed that a client of the folder sees. */
    ghost function FeedOf(folder: Id, anchor: nat, seen: Mirror): Feed
      reads this
    {
      Feed(mirror, CursorOf(cursors, folder), pendingUploads, DeferredOf(deferredDeletes, folder), anchor, seen)
    }

    /** The start of an upload, a step of every feed; it loses nothing for any client. */
    method BeginUpload(nodeId: Id)
      modifies `pendingUploads
      ensures forall n :: n in pendingUploads <==> n in old(pendingUploads) || n == nodeId
      ensures forall folder, anchor, seen ::
                FeedOf(folder, anchor, seen) == Next(folder, old(FeedOf(folder, anchor, seen)), UploadStarts(nodeId))
      ensures forall folder, anchor, seen ::
                old(NothingLost(folder, FeedOf(folder, anchor, seen))) ==> NothingLost(folder, FeedOf(folder, anchor, seen))
    {
      pendingUploads := pendingUploads + {nodeId};
      forall folder, anchor, seen | old(NothingLost(folder, FeedOf(folder, anchor, seen)))
        ensures NothingLost(folder, FeedOf(folder, anchor, seen))
      {
        QuietStepKeeps(folder, old(FeedOf(folder, anchor, seen)), UploadStarts(nodeId));
      }
    }

    /** The end of an upload: what was held back stays remembered until a client asks. */
    method EndUpload(nodeId: Id)
      modifies `pendingUploads
      ensures forall n :: n in pendingUploads <==> n in old(pendingUploads) && n != nodeId
      ensures forall folder, anchor, seen ::
                FeedOf(folder, anchor, seen) == Next(folder, old(FeedOf(folder, anchor, seen)), UploadEnds(nodeId))
      ensures forall folder, anchor, seen ::
                old(NothingLost(folder, FeedOf(folder, anchor, seen))) ==> NothingLost(folder, FeedOf(folder, anchor, seen))
    {
      pendingUploads := pendingUploads - {nodeId};
      forall folder, anchor, seen | old(NothingLost(folder, FeedOf(folder, anchor, seen)))
        ensures NothingLost(folder, FeedOf(folder, anchor, seen))
      {
        QuietStepKeeps(folder, old(FeedOf(folder, anchor, seen)), UploadEnds(nodeId));
      }
    }

    method UpsertNode(nodeId: Id, row: LocalNode)
      modifies `mirror
      ensures mirror == old(mirror)[nodeId := row]
      ensures forall folder, anchor, seen ::
                FeedOf(folder, anchor, seen) == Next(folder, old(FeedOf(folder, anchor, seen)), Upsert(nodeId, row))
    {
      mirror := mirror[nodeId := row];
    }

    /** Splits the changed rows into items and deletes to hold back. */
    method SplitChanges(changed: set<Id>, pending: set<Id>) returns (items: seq<Item>, newlyDeferred: set<Id>)
      requires changed <= mirror.Keys
      ensures newlyDeferred == set n | n in changed && mirror[n].deleted && n in pending
      ensures ReportsExactly(items, mirror, changed - newlyDeferred)
    {
      items, newlyDeferred := [], {};
      var unread := changed;
      while unread != {}
        invariant unread <= changed
        invariant newlyDeferred == set n | n in changed - unread && mirror[n].deleted && n in pending
        invariant ReportsExactly(items, mirror, (changed - unread) - newlyDeferred)
      {
        var n :| n in unread;
        unread := unread - {n};
        if mirror[n].deleted && n in pending {
          newlyDeferred := newlyDeferred + {n};
        } else {
          ReportOneMore(items, mirror, (changed - unread) - newlyDeferred - {n}, n);
          items := items + [Item(n, mirror[n])];
          assert (changed - unread) - newlyDeferred - {n} + {n} == (changed - unread) - newlyDeferred;
        }
      }
    }

    /** Adds the present rows of deferred deletes that are ready. */
    method AddReady(items: seq<Item>, ghost ids: set<Id>, ready: set<Id>) returns (longer: seq<Item>)
      requires ReportsExactly(items, mirror, ids)
      ensures ReportsExactly(longer, mirror, ids + ready * mirror.Keys)
    {
      longer := items;
      var unread := ready;
      ghost var done := ids;
      while unread != {}
        invariant unread <= ready && done == ids + (ready - unread) * mirror.Keys
        invariant ReportsExactly(longer, mirror, done)
      {
        var n :| n in unread;
        unread := unread - {n};
        if n in mirror {
          ReportOneMore(longer, mirror, done, n);
          longer := longer + [Item(n, mirror[n])];
          done := done + {n};
        }
      }
      assert done == ids + ready * mirror.Keys;
    }

    /** `fp_changes`: reports every row changed since the anchor, but for deletes of nodes with a pending
        upload, and every delete held back earlier whose upload is over. */
    method FpChanges(folderId: Id, sinceSeq: Option<nat>) returns (items: seq<Item>, currentSeq: nat)
      modifies `deferredDeletes
      ensures currentSeq == CursorOf(cursors, folderId)
      ensures var since := if sinceSeq.Some? then sinceSeq.value else 0;
              var deferred := DeferredOf(old(deferredDeletes), folderId);
              && ReportsExactly(items, mirror, Answer(mirror, folderId, since, pendingUploads, deferred))
              && DeferredOf(deferredDeletes, folderId) ==
                 (deferred + HeldBack(mirror, folderId, since, pendingUploads)) * pendingUploads
      ensures forall f :: f != folderId ==> DeferredOf(deferredDeletes, f) == DeferredOf(old(deferredDeletes), f)
      ensures RightItems(items, mirror, folderId, if sinceSeq == None then 0 else sinceSeq.value, pendingUploads,
                         old(deferredDeletes))
      ensures RightDeferred(old(deferredDeletes), deferredDeletes, mirror, folderId,
                            if sinceSeq == None then 0 else sinceSeq.value, pendingUploads)
      ensures currentSeq == if folderId in cursors then cursors[folderId] else 0
      ensures var since := if sinceSeq.Some? then sinceSeq.value else 0;
              forall seen ::
                FeedOf(folderId, currentSeq, Received(seen, items)) == Next(folderId, old(FeedOf(folderId, since, seen)), Ask)
      ensures forall folder, anchor, seen :: folder != folderId ==>
                FeedOf(folder, anchor, seen) == old(FeedOf(folder, anchor, seen))
    {
      var since := if sinceSeq.Some? then sinceSeq.value else 0;
      var nodes := ChangedSince(mirror, folderId, since);
      var pending := pendingUploads;
      var newlyDeferred;
      items, newlyDeferred := SplitChanges(nodes, pending);
      if newlyDeferred != {} {
        deferredDeletes := deferredDeletes[folderId := DeferredOf(deferredDeletes, folderId) + newlyDeferred];
      }
      var readyDeferred := DeferredOf(deferredDeletes, folderId) - pending;
      items := AddReady(items, nodes - newlyDeferred, readyDeferred);
      ghost var before := DeferredOf(old(deferredDeletes), folderId);
      assert newlyDeferred == HeldBack(mirror, folderId, since, pending);
      assert readyDeferred == before - pending;
      assert (nodes - newlyDeferred) + readyDeferred * mirror.Keys == Answer(mirror, folderId, since, pending, before);
      if folderId in deferredDeletes {
        var left := deferredDeletes[folderId] - readyDeferred;
        assert left == (before + newlyDeferred) * pending;
        deferredDeletes := if left == {} then deferredDeletes - {folderId} else deferredDeletes[folderId := left];
      }
      currentSeq := CursorOf(cursors, folderId);
      ItemsByColumns(items, mirror, folderId, since, pending, old(deferredDeletes));
      DeferredByColumns(old(deferredDeletes), deferredDeletes, mirror, folderId, since, pending);
      hide RightItems, RightDeferred;
      forall seen
        ensures FeedOf(folderId, currentSeq, Received(seen, items)) == Next(folderId, old(FeedOf(folderId, since, seen)), Ask)
      {
        CallIsAsk(folderId, old(FeedOf(folderId, since, seen)), items);
      }
    }
  }
}
