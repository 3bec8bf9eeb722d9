/** Printing a node's path from the mirror and resolving a path to a node. */
module Paths {
  import opened Types
  import opened Tree
  import opened Invariants
  import opened Mirror

  // Path texts.

  datatype Component = RootDir | CurDir | ParentDir | Normal(name: string)

  /** The pieces of a text between its slashes. */
  function Pieces(s: string): (r: seq<string>)
    ensures |r| > 0
  {
    if s == "" then [""]
    else
      var rest := Pieces(s[1..]);
      if s[0] == '/' then [""] + rest else [[s[0]] + rest[0]] + rest[1..]
  }

  /** Empty pieces and dots name nothing. */
  function Parsed(pieces: seq<string>): seq<Component> {
    if pieces == [] then []
    else
      (if pieces[0] == "" || pieces[0] == "." then []
       else if pieces[0] == ".." then [ParentDir]
       else [Normal(pieces[0])]) + Parsed(pieces[1..])
  }

  /** The components of the pieces of a path; only a leading dot is one. */
  function ComponentsOf(rooted: bool, pieces: seq<string>): seq<Component>
    requires |pieces| > 0
  {
    if rooted then [RootDir] + Parsed(pieces)
    else if pieces[0] == "." then [CurDir] + Parsed(pieces[1..])
    else Parsed(pieces)
  }

  /** The components of a Unix path. */
  function Components(path: string): seq<Component> {
    ComponentsOf(path != "" && path[0] == '/', Pieces(path))
  }

  /** The names that the resolver descends by; other components are skipped. */
  function NamesIn(components: seq<Component>): seq<string> {
    if components == [] then []
    else (if components[0].Normal? then [components[0].name] else []) + NamesIn(components[1..])
  }

  function Join(segments: seq<string>): string {
    if segments == [] then ""
    else if |segments| == 1 then segments[0]
    else segments[0] + "/" + Join(segments[1..])
  }

  predicate PathName(name: string) {
    name != "" && name != "." && name != ".." && '/' !in name
  }

  lemma {:induction false} PiecesOfBoth(a: string, b: string)
    ensures Pieces(a + "/" + b) == Pieces(a) + Pieces(b)
    decreases |a|
  {
    var s := a + "/" + b;
    if a == "" {
      assert s[0] == '/' && s[1..] == b;
    } else {
      assert s[0] == a[0] && s[1..] == a[1..] + "/" + b;
      PiecesOfBoth(a[1..], b);
    }
  }

  lemma {:induction false} OnePiece(s: string)
    ensures Pieces(s) == [s] <==> '/' !in s
  {
    if s != "" {
      OnePiece(s[1..]);
      assert s == [s[0]] + s[1..];
      if s[0] == '/' {
        assert s[0] in s;
      }
    }
  }

  lemma {:induction false} PiecesOfJoin(segments: seq<string>)
    requires segments != [] && forall name :: name in segments ==> '/' !in name
    ensures Pieces(Join(segments)) == segments
  {
    OnePiece(segments[0]);
    if |segments| > 1 {
      PiecesOfJoin(segments[1..]);
      PiecesOfBoth(segments[0], Join(segments[1..]));
    }
  }

  lemma {:induction false} ParsedAppend(a: seq<string>, b: seq<string>)
    ensures Parsed(a + b) == Parsed(a) + Parsed(b)
    decreases |a|
  {
    if a == [] {
      assert a + b == b;
    } else {
      assert (a + b)[1..] == a[1..] + b;
      ParsedAppend(a[1..], b);
    }
  }

  function AllNormal(names: seq<string>): seq<Component> {
    seq(|names|, i requires 0 <= i < |names| => Normal(names[i]))
  }

  lemma {:induction false} ParsedNames(names: seq<string>)
    requires forall name :: name in names ==> PathName(name)
    ensures Parsed(names) == AllNormal(names)
  {
    if names != [] {
      assert names[0] in names;
      ParsedNames(names[1..]);
      assert AllNormal(names) == [Normal(names[0])] + AllNormal(names[1..]);
    }
  }

  lemma {:induction false} NamesOfNormal(names: seq<string>)
    ensures NamesIn(AllNormal(names)) == names
  {
    if names != [] {
      assert AllNormal(names)[1..] == AllNormal(names[1..]);
      NamesOfNormal(names[1..]);
    }
  }

  lemma JoinParsed(names: seq<string>)
    requires forall name :: name in names ==> PathName(name)
    ensures Parsed(Pieces(Join(names))) == AllNormal(names)
  {
    if names == [] {
      assert [""][1..] == [];
      assert Parsed([""]) == [];
    } else {
      PiecesOfJoin(names);
      ParsedNames(names);
    }
  }

  lemma ComponentsAppend(rooted: bool, front: seq<string>, rest: seq<string>)
    requires |front| > 0
    ensures ComponentsOf(rooted, front + rest) == ComponentsOf(rooted, front) + Parsed(rest)
  {
    hide Parsed;
    if rooted || front[0] != "." {
      ParsedAppend(front, rest);
    } else {
      assert (front + rest)[1..] == front[1..] + rest;
      ParsedAppend(front[1..], rest);
    }
  }

  /** The printed path under a mount's path has the mount's components followed by the printed names. */
  lemma PrintedUnderMount(mountPath: string, names: seq<string>)
    requires mountPath != "" && forall name :: name in names ==> PathName(name)
    ensures Components(mountPath + "/" + Join(names)) == Components(mountPath) + AllNormal(names)
  {
    hide Pieces, Parsed, Join, ComponentsOf;
    PiecesOfBoth(mountPath, Join(names));
    JoinParsed(names);
    ComponentsAppend(mountPath[0] == '/', Pieces(mountPath), Pieces(Join(names)));
  }

  /** A name survives printing and parsing if and only if it is not empty, not a dot or two, and without slash. */
  lemma NameSurvivesExactly(name: string)
    ensures Parsed(Pieces(name)) == [Normal(name)] <==> PathName(name)
  {
    OnePiece(name);
    if '/' !in name {
      assert Pieces(name)[1..] == [];
    } else {
      ParsedNamesHaveNoSlash(Pieces(name));
      PiecesHaveNoSlash(name);
      assert Normal(name) in [Normal(name)];
    }
  }

  lemma {:induction false} PiecesHaveNoSlash(s: string)
    ensures forall piece :: piece in Pieces(s) ==> '/' !in piece
  {
    if s != "" {
      PiecesHaveNoSlash(s[1..]);
    }
  }

  lemma {:induction false} ParsedNamesHaveNoSlash(pieces: seq<string>)
    ensures forall c :: c in Parsed(pieces) && c.Normal? ==> c.name in pieces
  {
    if pieces != [] {
      ParsedNamesHaveNoSlash(pieces[1..]);
    }
  }

  lemma PieceBetween(front: string, piece: string, rest: string)
    requires front != "" && '/' !in piece
    ensures Components(front + "/" + (piece + "/" + rest)) == Components(front) + Parsed([piece] + Pieces(rest))
    ensures Components(front + "/" + rest) == Components(front) + Parsed(Pieces(rest))
  {
    hide Pieces, Parsed, ComponentsOf;
    PiecesOfBoth(piece, rest);
    OnePiece(piece);
    PiecesOfBoth(front, piece + "/" + rest);
    PiecesOfBoth(front, rest);
    ComponentsAppend(front[0] == '/', Pieces(front), [piece] + Pieces(rest));
    ComponentsAppend(front[0] == '/', Pieces(front), Pieces(rest));
  }

  lemma ParsedFirst(piece: string, rest: seq<string>)
    ensures piece == "" || piece == "." ==> Parsed([piece] + rest) == Parsed(rest)
    ensures Parsed([".."] + rest) == [ParentDir] + Parsed(rest)
  {
    assert ([piece] + rest)[1..] == rest && ([".."] + rest)[1..] == rest;
  }

  /** What else a path text comes to: doubled slashes and dots within vanish, and two dots are kept for what
      they are. */
  lemma DotsAndSlashes(front: string, rest: string)
    requires front != ""
    ensures Components(front + "/" + ("" + "/" + rest)) == Components(front + "/" + rest)
    ensures Components(front + "/" + ("." + "/" + rest)) == Components(front + "/" + rest)
    ensures Components(front + "/" + (".." + "/" + rest)) == Components(front) + [ParentDir] + Parsed(Pieces(rest))
  {
    hide Pieces, Parsed, Components;
    PieceBetween(front, "", rest);
    PieceBetween(front, ".", rest);
    PieceBetween(front, "..", rest);
    ParsedFirst("", Pieces(rest));
    ParsedFirst(".", Pieces(rest));
  }

  /** A leading slash makes a path absolute. */
  lemma SlashIsRoot(rest: string)
    ensures Components("/" + rest) == [RootDir] + Parsed(Pieces(rest))
  {
    assert ("/" + rest)[1..] == rest;
    assert ([""] + Pieces(rest))[1..] == Pieces(rest);
  }

  /** A leading dot is a component, as the first piece of a relative path is. */
  lemma FirstPieceOfRelative(piece: string, rest: string)
    requires '/' !in piece && piece != ""
    ensures Components(piece + "/" + rest) ==
            [if piece == "." then CurDir else if piece == ".." then ParentDir else Normal(piece)] + Parsed(Pieces(rest))
  {
    var path := piece + "/" + rest;
    PiecesOfBoth(piece, rest);
    OnePiece(piece);
    assert path[0] == piece[0] && piece[0] in piece;
    assert ([piece] + Pieces(rest))[1..] == Pieces(rest);
  }

  // Walking the mirror.

  /** The upward walk from n ends after at most k steps. */
  ghost predicate EndsBy(mirror: Mirror, n: Id, k: nat)
    decreases k
  {
    n !in mirror || mirror[n].parent.None? || (k > 0 && EndsBy(mirror, mirror[n].parent.value, k - 1))
  }

  ghost predicate WalkEnds(mirror: Mirror, n: Id) {
    exists k: nat :: EndsBy(mirror, n, k)
  }

  /** The printer goes no further up than here. */
  predicate StopsAt(mirror: Mirror, scope: Option<Id>, n: Id) {
    n !in mirror || scope == Some(n) || mirror[n].parent.None?
  }

  /** Climbing from n to where the printer stops passes these names, listed from the top. */
  ghost predicate Climbs(mirror: Mirror, scope: Option<Id>, n: Id, names: seq<string>)
    decreases |names|
  {
    if names == [] then StopsAt(mirror, scope, n)
    else
      && !StopsAt(mirror, scope, n) && mirror[n].name == names[|names| - 1]
      && Climbs(mirror, scope, mirror[n].parent.value, names[..|names| - 1])
  }

  predicate LiveChild(mirror: Mirror, folder: Id, parent: Id, name: string, n: Id) {
    && n in mirror && mirror[n].folder == folder && mirror[n].parent == Some(parent)
    && mirror[n].name == name && !mirror[n].deleted
  }

  /** Going down from start by these names, one live child at a time, leads to n. */
  ghost predicate Leads(mirror: Mirror, folder: Id, start: Id, names: seq<string>, n: Id)
    decreases |names|
  {
    if names == [] then n == start
    else
      && n in mirror && mirror[n].parent.Some?
      && LiveChild(mirror, folder, mirror[n].parent.value, names[|names| - 1], n)
      && Leads(mirror, folder, start, names[..|names| - 1], mirror[n].parent.value)
  }

  /** No two live children of a node have the same name. */
  ghost predicate NamesDistinct(mirror: Mirror, folder: Id) {
    forall m, n, p, name :: LiveChild(mirror, folder, p, name, m) && LiveChild(mirror, folder, p, name, n) ==> m == n
  }

  lemma {:induction false} LeadsToOne(mirror: Mirror, folder: Id, start: Id, names: seq<string>, m: Id, n: Id)
    requires NamesDistinct(mirror, folder) && Leads(mirror, folder, start, names, m) && Leads(mirror, folder, start, names, n)
    ensures m == n
    decreases |names|
  {
    if names != [] {
      LeadsToOne(mirror, folder, start, names[..|names| - 1], mirror[m].parent.value, mirror[n].parent.value);
    }
  }

  lemma {:induction false} ClimbsOnce(mirror: Mirror, scope: Option<Id>, n: Id, a: seq<string>, b: seq<string>)
    requires Climbs(mirror, scope, n, a) && Climbs(mirror, scope, n, b)
    ensures a == b
    decreases |a|
  {
    if a != [] {
      ClimbsOnce(mirror, scope, mirror[n].parent.value, a[..|a| - 1], b[..|b| - 1]);
      assert a == a[..|a| - 1] + [a[|a| - 1]] && b == b[..|b| - 1] + [b[|b| - 1]];
    }
  }

  lemma {:induction false} LeadsBackNowhere(mirror: Mirror, folder: Id, start: Id, names: seq<string>, n: Id, k: nat)
    requires Leads(mirror, folder, start, names, n) && EndsBy(mirror, n, k) && start in mirror
    ensures |names| <= k && EndsBy(mirror, start, k - |names|)
    decreases |names|
  {
    if names != [] {
      LeadsBackNowhere(mirror, folder, start, names[..|names| - 1], mirror[n].parent.value, k - 1);
    }
  }

  lemma {:induction false} EndsByMore(mirror: Mirror, n: Id, k: nat, more: nat)
    requires EndsBy(mirror, n, k) && k <= more
    ensures EndsBy(mirror, n, more)
    decreases k
  {
    if n in mirror && mirror[n].parent.Some? {
      EndsByMore(mirror, mirror[n].parent.value, k - 1, more - 1);
    }
  }

  lemma {:induction false} LeastEnd(mirror: Mirror, n: Id, k: nat) returns (least: nat)
    requires EndsBy(mirror, n, k)
    ensures EndsBy(mirror, n, least) && (least > 0 ==> !EndsBy(mirror, n, least - 1))
    decreases k
  {
    if k > 0 && EndsBy(mirror, n, k - 1) {
      least := LeastEnd(mirror, n, k - 1);
    } else {
      least := k;
    }
  }

  /** Without cycles no way down leads back to where it began. */
  lemma NoWayBack(mirror: Mirror, folder: Id, start: Id, names: seq<string>)
    requires start in mirror && WalkEnds(mirror, start) && Leads(mirror, folder, start, names, start)
    ensures names == []
  {
    var k: nat :| EndsBy(mirror, start, k);
    var least := LeastEnd(mirror, start, k);
    LeadsBackNowhere(mirror, folder, start, names, start, least);
    if names != [] && least > 0 {
      EndsByMore(mirror, start, least - |names|, least - 1);
    }
  }

  /** The mount's top: its scope node, or the root of its folder. */
  ghost predicate IsTop(mirror: Mirror, scope: Option<Id>, start: Id) {
    start in mirror && (if scope.Some? then scope.value == start else mirror[start].parent.None?)
  }

  /** The way down from a mount's top is what the printer collects on the way up. */
  lemma {:induction false} WayDownIsPrinted(mirror: Mirror, folder: Id, scope: Option<Id>, start: Id, names: seq<string>, n: Id)
    requires IsTop(mirror, scope, start) && WalkEnds(mirror, start) && Leads(mirror, folder, start, names, n)
    ensures Climbs(mirror, scope, n, names)
    decreases |names|
  {
    if names != [] {
      if scope == Some(n) {
        NoWayBack(mirror, folder, start, names);
      }
      WayDownIsPrinted(mirror, folder, scope, start, names[..|names| - 1], mirror[n].parent.value);
    }
  }

  // The printer.

  /** Climbing from one node to another passes these names, listed from the top. */
  ghost predicate Passes(mirror: Mirror, scope: Option<Id>, n: Id, top: Id, names: seq<string>)
    decreases |names|
  {
    if names == [] then n == top
    else
      && !StopsAt(mirror, scope, n) && mirror[n].name == names[|names| - 1]
      && Passes(mirror, scope, mirror[n].parent.value, top, names[..|names| - 1])
  }

  lemma {:induction false} PassesOneMore(mirror: Mirror, scope: Option<Id>, n: Id, top: Id, names: seq<string>)
    requires Passes(mirror, scope, n, top, names) && !StopsAt(mirror, scope, top)
    ensures Passes(mirror, scope, n, mirror[top].parent.value, [mirror[top].name] + names)
    decreases |names|
  {
    var longer := [mirror[top].name] + names;
    if names == [] {
      assert longer[..0] == [];
    } else {
      assert longer[..|longer| - 1] == [mirror[top].name] + names[..|names| - 1];
      PassesOneMore(mirror, scope, mirror[n].parent.value, top, names[..|names| - 1]);
    }
  }

  lemma {:induction false} PassesToStop(mirror: Mirror, scope: Option<Id>, n: Id, top: Id, names: seq<string>)
    requires Passes(mirror, scope, n, top, names) && StopsAt(mirror, scope, top)
    ensures Climbs(mirror, scope, n, names)
    decreases |names|
  {
    if names != [] {
      PassesToStop(mirror, scope, mirror[n].parent.value, top, names[..|names| - 1]);
    }
  }

  /** `resolve_node_path`: walks up, then reverses what it has collected and joins it. On a mirror with a
      cycle above the node it would not come to an end. */
  method ResolveNodePath(mirror: Mirror, nodeId: Id, scope: Option<Id>) returns (path: string)
    requires WalkEnds(mirror, nodeId)
    ensures exists names :: Climbs(mirror, scope, nodeId, names) && path == Join(names)
  {
    ghost var k: nat :| EndsBy(mirror, nodeId, k);
    var segments, currentId := [], nodeId;
    while !StopsAt(mirror, scope, currentId)
      invariant EndsBy(mirror, currentId, k)
      invariant Passes(mirror, scope, nodeId, currentId, Reversed(segments))
      decreases k
    {
      PassesOneMore(mirror, scope, nodeId, currentId, Reversed(segments));
      ReversedAppend(segments, mirror[currentId].name);
      segments := segments + [mirror[currentId].name];
      currentId := mirror[currentId].parent.value;
      k := k - 1;
    }
    PassesToStop(mirror, scope, nodeId, currentId, Reversed(segments));
    path := Join(Reversed(segments));
  }

  function Reversed(s: seq<string>): seq<string> {
    if s == [] then [] else Reversed(s[1..]) + [s[0]]
  }

  lemma {:induction false} ReversedAppend(s: seq<string>, x: string)
    ensures Reversed(s + [x]) == [x] + Reversed(s)
  {
    if s == [] {
      assert [] + [x] == [x];
    } else {
      assert (s + [x])[1..] == s[1..] + [x];
      ReversedAppend(s[1..], x);
    }
  }

  // The resolver.

  datatype Mount = Mount(path: string, folderId: Id, scopeNodeId: Option<Id>)

  datatype Resolved =
    | Resolved(mount: Mount, nodeId: Id)
    | NotInMount
    | NodeNotSynced

  predicate Covers(mount: Mount, norm: string -> string, path: seq<Component>) {
    Components(norm(mount.path)) <= path
  }

  /** Of the first n mounts, the one whose path is the longest prefix, the last one of several. */
  ghost predicate Longest(mounts: seq<Mount>, norm: string -> string, path: seq<Component>, n: int, i: int) {
    && 0 <= i < n <= |mounts| && Covers(mounts[i], norm, path)
    && (forall j :: 0 <= j < n && Covers(mounts[j], norm, path) ==> Depth(mounts[j], norm) <= Depth(mounts[i], norm))
    && (forall j :: i < j < n && Covers(mounts[j], norm, path) ==> Depth(mounts[j], norm) < Depth(mounts[i], norm))
  }

  function Depth(mount: Mount, norm: string -> string): nat {
    |Components(norm(mount.path))|
  }

  ghost predicate Chosen(mounts: seq<Mount>, norm: string -> string, path: seq<Component>, i: int) {
    Longest(mounts, norm, path, |mounts|, i)
  }

  method ChooseMount(mounts: seq<Mount>, norm: string -> string, path: seq<Component>) returns (best: int)
    ensures best < 0 ==> forall j :: 0 <= j < |mounts| ==> !Covers(mounts[j], norm, path)
    ensures best >= 0 ==> Chosen(mounts, norm, path, best)
  {
    hide Covers, Depth;
    best := -1;
    var i := 0;
    while i < |mounts|
      invariant 0 <= i <= |mounts| && -1 <= best < i
      invariant best < 0 ==> forall j :: 0 <= j < i ==> !Covers(mounts[j], norm, path)
      invariant best >= 0 ==> Longest(mounts, norm, path, i, best)
    {
      var mount := mounts[i];
      if Covers(mount, norm, path) && (best < 0 || Depth(mounts[best], norm) <= Depth(mount, norm)) {
        best := i;
      }
      i := i + 1;
    }
  }

  /** The first live parentless node of the folder. */
  ghost predicate IsFolderRoot(mirror: Mirror, folder: Id, root: Id) {
    && root in mirror && mirror[root].folder == folder && mirror[root].parent.None? && !mirror[root].deleted
    && forall r :: r in mirror && mirror[r].folder == folder && mirror[r].parent.None? && !mirror[r].deleted ==>
         mirror[root].serverSeq <= mirror[r].serverSeq
  }

  method GetRootNode(mirror: Mirror, folder: Id) returns (root: Option<Id>)
    ensures root.Some? ==> IsFolderRoot(mirror, folder, root.value)
    ensures root.None? ==> forall r :: !IsFolderRoot(mirror, folder, r)
  {
    root := None;
    var unread := set r | r in mirror && mirror[r].folder == folder && mirror[r].parent.None? && !mirror[r].deleted;
    ghost var all := unread;
    while unread != {}
      invariant unread <= all
      invariant root.None? ==> unread == all
      invariant root.Some? ==>
                  root.value in all && forall r :: r in all - unread ==> mirror[root.value].serverSeq <= mirror[r].serverSeq
    {
      var r :| r in unread;
      if root.None? || mirror[r].serverSeq < mirror[root.value].serverSeq {
        root := Some(r);
      }
      unread := unread - {r};
    }
    assert root.Some? ==> all - unread == all;
    assert forall r :: IsFolderRoot(mirror, folder, r) ==> r in all;
  }

  ghost predicate Starts(mirror: Mirror, mount: Mount, start: Id) {
    if mount.scopeNodeId.Some? then start == mount.scopeNodeId.value && start in mirror
    else IsFolderRoot(mirror, mount.folderId, start)
  }

  /** What the resolver's answer means for a path with these components. */
  ghost predicate Answers(mirror: Mirror, mounts: seq<Mount>, norm: string -> string, path: seq<Component>, answer: Resolved) {
    match answer
    case NotInMount => forall i :: 0 <= i < |mounts| ==> !Covers(mounts[i], norm, path)
    case Resolved(mount, n) =>
      exists i, start :: Chosen(mounts, norm, path, i) && mounts[i] == mount && Starts(mirror, mount, start)
                         && Leads(mirror, mount.folderId, start, RelativeNames(mount, norm, path), n)
    case NodeNotSynced =>
      exists i :: Chosen(mounts, norm, path, i) && Missing(mirror, mounts[i], norm, path)
  }

  function RelativeNames(mount: Mount, norm: string -> string, path: seq<Component>): seq<string> {
    var prefix := Components(norm(mount.path));
    if |prefix| <= |path| then NamesIn(path[|prefix|..]) else []
  }

  ghost predicate Missing(mirror: Mirror, mount: Mount, norm: string -> string, path: seq<Component>) {
    (exists start :: Starts(mirror, mount, start)) ==>
      exists start :: Starts(mirror, mount, start) &&
        (NamesDistinct(mirror, mount.folderId) ==>
           forall n :: !Leads(mirror, mount.folderId, start, RelativeNames(mount, norm, path), n))
  }

  lemma {:induction false} NoWayAfterGap(mirror: Mirror, folder: Id, start: Id, names: seq<string>, i: nat, current: Id, n: Id)
    requires NamesDistinct(mirror, folder) && i < |names| && Leads(mirror, folder, start, names[..i], current)
    requires forall m :: !LiveChild(mirror, folder, current, names[i], m)
    ensures !Leads(mirror, folder, start, names, n)
    decreases |names|
  {
    if Leads(mirror, folder, start, names, n) {
      var front, p := names[..|names| - 1], mirror[n].parent.value;
      if i == |names| - 1 {
        LeadsToOne(mirror, folder, start, front, current, p);
      } else {
        assert front[..i] == names[..i] && front[i] == names[i];
        NoWayAfterGap(mirror, folder, start, front, i, current, p);
      }
    }
  }

  /** The descent by names: the node, or None at the first name without a live child. */
  method Descend(mirror: Mirror, folder: Id, start: Id, names: seq<string>) returns (found: Option<Id>)
    ensures found.Some? ==> Leads(mirror, folder, start, names, found.value)
    ensures found.None? && NamesDistinct(mirror, folder) ==> forall n :: !Leads(mirror, folder, start, names, n)
  {
    var current, i := start, 0;
    while i < |names|
      invariant 0 <= i <= |names| && Leads(mirror, folder, start, names[..i], current)
    {
      if n :| n in mirror && LiveChild(mirror, folder, current, names[i], n) {
        assert names[..i + 1][..i] == names[..i];
        current := n;
      } else {
        if NamesDistinct(mirror, folder) {
          forall n
            ensures !Leads(mirror, folder, start, names, n)
          {
            NoWayAfterGap(mirror, folder, start, names, i, current, n);
          }
        }
        return None;
      }
      i := i + 1;
    }
    assert names[..|names|] == names;
    return Some(current);
  }

  lemma FoundAnswers(mirror: Mirror, mounts: seq<Mount>, norm: string -> string, path: seq<Component>, i: int, start: Id, n: Id)
    requires Chosen(mounts, norm, path, i) && Starts(mirror, mounts[i], start)
    requires Leads(mirror, mounts[i].folderId, start, RelativeNames(mounts[i], norm, path), n)
    ensures Answers(mirror, mounts, norm, path, Resolved(mounts[i], n))
  {
  }

  lemma MissingAnswers(mirror: Mirror, mounts: seq<Mount>, norm: string -> string, path: seq<Component>, i: int)
    requires Chosen(mounts, norm, path, i) && Missing(mirror, mounts[i], norm, path)
    ensures Answers(mirror, mounts, norm, path, NodeNotSynced)
  {
  }

  method StartNode(mirror: Mirror, mount: Mount) returns (start: Option<Id>)
    ensures start.Some? ==> Starts(mirror, mount, start.value)
    ensures start.None? ==> forall n :: !Starts(mirror, mount, n)
  {
    if mount.scopeNodeId.Some? {
      return if mount.scopeNodeId.value in mirror then mount.scopeNodeId else None;
    }
    start := GetRootNode(mirror, mount.folderId);
  }

  /** The answer is about a mount whose components start the path's, and none that does so has more; there is no
      mount exactly when none does so. */
  ghost predicate RightMount(mounts: seq<Mount>, norm: string -> string, path: seq<Component>, answer: Resolved) {
    match answer
    case NotInMount => forall i :: 0 <= i < |mounts| ==> !(Components(norm(mounts[i].path)) <= path)
    case NodeNotSynced => exists i :: 0 <= i < |mounts| && Components(norm(mounts[i].path)) <= path
    case Resolved(mount, _) => mount in mounts && LongestPrefix(mounts, norm, path, mount)
  }

  ghost predicate LongestPrefix(mounts: seq<Mount>, norm: string -> string, path: seq<Component>, mount: Mount) {
    && Components(norm(mount.path)) <= path
    && forall i :: 0 <= i < |mounts| && Components(norm(mounts[i].path)) <= path ==>
         |Components(norm(mounts[i].path))| <= |Components(norm(mount.path))|
  }

  lemma ChosenIsRight(mounts: seq<Mount>, norm: string -> string, path: seq<Component>, i: int)
    requires Chosen(mounts, norm, path, i)
    ensures forall n :: RightMount(mounts, norm, path, Resolved(mounts[i], n))
    ensures RightMount(mounts, norm, path, NodeNotSynced)
  {
    hide Components;
  }

  /** `resolve_path_to_node`. */
  method ResolvePathToNode(mirror: Mirror, mounts: seq<Mount>, norm: string -> string, path: string) returns (answer: Resolved)
    ensures Answers(mirror, mounts, norm, Components(norm(path)), answer)
    ensures RightMount(mounts, norm, Components(norm(path)), answer)
  {
    var localPath := Components(norm(path));
    var best := ChooseMount(mounts, norm, localPath);
    if best < 0 {
      return NotInMount;
    }
    assert 0 <= best < |mounts|;
    ChosenIsRight(mounts, norm, localPath, best);
    hide RightMount;
    var mount, names := mounts[best], RelativeNames(mounts[best], norm, localPath);
    hide Answers, Components, Chosen, Starts, Leads, NamesDistinct, RelativeNames;
    var start := StartNode(mirror, mount);
    if start.None? {
      MissingAnswers(mirror, mounts, norm, localPath, best);
      return NodeNotSynced;
    }
    var found := Descend(mirror, mount.folderId, start.value, names);
    if found.None? {
      MissingAnswers(mirror, mounts, norm, localPath, best);
      return NodeNotSynced;
    }
    FoundAnswers(mirror, mounts, norm, localPath, best, start.value, found.value);
    return Resolved(mount, found.value);
  }

  // The round trips.

  /** Every live node of the folder has a name that a path can hold. */
  ghost predicate NamesWritable(mirror: Mirror, folder: Id) {
    forall n :: n in mirror && mirror[n].folder == folder && mirror[n].parent.Some? && !mirror[n].deleted ==> PathName(mirror[n].name)
  }

  lemma {:induction false} WayDownWritable(mirror: Mirror, folder: Id, start: Id, names: seq<string>, n: Id)
    requires NamesWritable(mirror, folder) && Leads(mirror, folder, start, names, n)
    ensures forall name :: name in names ==> PathName(name)
    decreases |names|
  {
    if names != [] {
      WayDownWritable(mirror, folder, start, names[..|names| - 1], mirror[n].parent.value);
      assert names == names[..|names| - 1] + [names[|names| - 1]];
    }
  }

  lemma StartIsTop(mirror: Mirror, mount: Mount, start: Id)
    requires Starts(mirror, mount, start)
    ensures IsTop(mirror, mount.scopeNodeId, start)
  {
  }

  /** Resolving what was printed: for any node at or below the mount's top whose printed path, under the mount's
      own, has its components left alone by the normaliser and is not taken over by another mount, the
      resolver's answer is that node. */
  lemma PrintedResolves(
    mirror: Mirror, mounts: seq<Mount>, norm: string -> string, i: int, start: Id, n: Id, down: seq<string>,
    printed: seq<string>, path: string, answer: Resolved)
    requires 0 <= i < |mounts| && mounts[i].path != "" && Components(norm(mounts[i].path)) == Components(mounts[i].path)
    requires Starts(mirror, mounts[i], start) && WalkEnds(mirror, start)
    requires forall other :: Starts(mirror, mounts[i], other) ==> other == start
    requires Leads(mirror, mounts[i].folderId, start, down, n)
    requires NamesDistinct(mirror, mounts[i].folderId) && NamesWritable(mirror, mounts[i].folderId)
    requires Climbs(mirror, mounts[i].scopeNodeId, n, printed)
    requires path == mounts[i].path + "/" + Join(printed) && Components(norm(path)) == Components(path)
    requires Chosen(mounts, norm, Components(norm(path)), i) && Answers(mirror, mounts, norm, Components(norm(path)), answer)
    ensures answer == Resolved(mounts[i], n)
  {
    var mount := mounts[i];
    StartIsTop(mirror, mount, start);
    WayDownIsPrinted(mirror, mount.folderId, mount.scopeNodeId, start, down, n);
    ClimbsOnce(mirror, mount.scopeNodeId, n, down, printed);
    WayDownWritable(mirror, mount.folderId, start, down, n);
    PrintedUnderMount(mount.path, printed);
    NamesOfNormal(printed);
    var names := RelativeNames(mount, norm, Components(path));
    assert Components(path)[|Components(mount.path)|..] == AllNormal(printed);
    assert names == printed;
    OnlyAnswer(mirror, mounts, norm, Components(path), i, start, n, answer);
  }

  lemma ChosenOnce(mounts: seq<Mount>, norm: string -> string, path: seq<Component>, i: int, j: int)
    requires Chosen(mounts, norm, path, i) && Chosen(mounts, norm, path, j)
    ensures i == j
  {
  }

  lemma OnlyAnswer(mirror: Mirror, mounts: seq<Mount>, norm: string -> string, path: seq<Component>, i: int, start: Id, n: Id,
                   answer: Resolved)
    requires Chosen(mounts, norm, path, i) && Answers(mirror, mounts, norm, path, answer)
    requires Starts(mirror, mounts[i], start) && forall other :: Starts(mirror, mounts[i], other) ==> other == start
    requires NamesDistinct(mirror, mounts[i].folderId)
    requires Leads(mirror, mounts[i].folderId, start, RelativeNames(mounts[i], norm, path), n)
    ensures answer == Resolved(mounts[i], n)
  {
    match answer
    case NotInMount =>
    case NodeNotSynced =>
      var j :| Chosen(mounts, norm, path, j) && Missing(mirror, mounts[j], norm, path);
      ChosenOnce(mounts, norm, path, i, j);
    case Resolved(mount, m) =>
      var j, from :| Chosen(mounts, norm, path, j) && mounts[j] == mount && Starts(mirror, mount, from)
                     && Leads(mirror, mount.folderId, from, RelativeNames(mount, norm, path), m);
      ChosenOnce(mounts, norm, path, i, j);
      LeadsToOne(mirror, mount.folderId, start, RelativeNames(mount, norm, path), m, n);
  }

  /** Printing what was resolved: the names printed for the answer are the names of the path below the mount. */
  lemma ResolvedPrints(mirror: Mirror, mounts: seq<Mount>, norm: string -> string, path: seq<Component>, answer: Resolved,
                       printed: seq<string>)
    requires Answers(mirror, mounts, norm, path, answer) && answer.Resolved?
    requires forall n :: n in mirror ==> WalkEnds(mirror, n)
    requires Climbs(mirror, answer.mount.scopeNodeId, answer.nodeId, printed)
    ensures printed == RelativeNames(answer.mount, norm, path)
  {
    var i, start :| Chosen(mounts, norm, path, i) && mounts[i] == answer.mount && Starts(mirror, answer.mount, start)
                    && Leads(mirror, answer.mount.folderId, start, RelativeNames(answer.mount, norm, path), answer.nodeId);
    var names := RelativeNames(answer.mount, norm, path);
    StartIsTop(mirror, answer.mount, start);
    WayDownIsPrinted(mirror, answer.mount.folderId, answer.mount.scopeNodeId, start, names, answer.nodeId);
    ClimbsOnce(mirror, answer.mount.scopeNodeId, answer.nodeId, names, printed);
  }

  /** So a clean path below the mount comes back letter by letter. */
  lemma CleanPathPrintsBack(mirror: Mirror, mounts: seq<Mount>, norm: string -> string, i: int, names: seq<string>,
                            path: string, answer: Resolved, printed: seq<string>)
    requires 0 <= i < |mounts| && mounts[i].path != "" && Components(norm(mounts[i].path)) == Components(mounts[i].path)
    requires path == mounts[i].path + "/" + Join(names) && Components(norm(path)) == Components(path)
    requires forall name :: name in names ==> PathName(name)
    requires Chosen(mounts, norm, Components(norm(path)), i)
    requires Answers(mirror, mounts, norm, Components(norm(path)), answer) && answer.Resolved?
    requires forall n :: n in mirror ==> WalkEnds(mirror, n)
    requires Climbs(mirror, answer.mount.scopeNodeId, answer.nodeId, printed)
    ensures answer.mount == mounts[i] && mounts[i].path + "/" + Join(printed) == path
  {
    ResolvedPrints(mirror, mounts, norm, Components(path), answer, printed);
    var j, start :| Chosen(mounts, norm, Components(path), j) && mounts[j] == answer.mount && Starts(mirror, answer.mount, start)
                    && Leads(mirror, answer.mount.folderId, start, RelativeNames(answer.mount, norm, Components(path)), answer.nodeId);
    ChosenOnce(mounts, norm, Components(path), i, j);
    PrintedUnderMount(mounts[i].path, names);
    NamesOfNormal(names);
    assert Components(path)[|Components(mounts[i].path)|..] == AllNormal(names);
  }

  // The mirror of a client in sync is such a mirror.

  /** A folder's rows as the server has them: walks end, and live siblings have distinct names. */
  lemma SyncedMirrorWalks(nodes: Nodes, folder: Id)
    requires Grounded(nodes, folder) && SiblingsDistinct(nodes)
    ensures forall n :: n in View(nodes, folder) ==> WalkEnds(View(nodes, folder), n)
    ensures NamesDistinct(View(nodes, folder), folder)
  {
    var mirror := View(nodes, folder);
    forall n | n in mirror
      ensures WalkEnds(mirror, n)
    {
      assert Ends(nodes, n);
      var k: nat :| Up(nodes, n, k) == None;
      EndsInView(nodes, folder, n, k);
    }
    forall m, n, p, name | LiveChild(mirror, folder, p, name, m) && LiveChild(mirror, folder, p, name, n)
      ensures m == n
    {
      assert SameLivePlace(nodes[m], nodes[n]);
    }
  }

  lemma {:induction false} EndsInView(nodes: Nodes, folder: Id, n: Id, k: nat)
    requires Up(nodes, n, k) == None
    ensures EndsBy(View(nodes, folder), n, k)
    decreases k
  {
    if n in nodes && nodes[n].parent.Some? && k > 0 {
      EndsInView(nodes, folder, nodes[n].parent.value, k - 1);
    }
  }
}
