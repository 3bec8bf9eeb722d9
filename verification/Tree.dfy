/** The file tree as the server walks it: upward along parent ids, and downward by the recursive
    query that the delta and tree pulls share. */
module Tree {
  import opened Types

  /** The k-th ancestor of n, n itself for k = 0. */
  function Up(nodes: Nodes, n: Id, k: nat): Option<Id>
    decreases k
  {
    if n !in nodes then None
    else if k == 0 then Some(n)
    else match nodes[n].parent
      case None => None
      case Some(p) => Up(nodes, p, k - 1)
  }

  /** The rows that the recursive query adds in its k-th round, starting from the scope node. */
  function Level(nodes: Nodes, scope: Id, k: nat): set<Id> {
    if k == 0 then
      if scope in nodes then {scope} else {}
    else
      set n | n in nodes && nodes[n].parent.Some? && nodes[n].parent.value in Level(nodes, scope, k - 1)
  }

  /** Membership in the recursive query's answer. */
  ghost predicate InSubtree(nodes: Nodes, scope: Id, n: Id) {
    exists k: nat :: n in Level(nodes, scope, k)
  }

  ghost predicate Below(nodes: Nodes, n: Id, scope: Id) {
    exists k: nat :: Up(nodes, n, k) == Some(scope)
  }

  ghost predicate Ends(nodes: Nodes, n: Id) {
    exists k: nat :: Up(nodes, n, k) == None
  }

  /** Every upward walk in the folder ends: there is no cycle in it. */
  ghost predicate Grounded(nodes: Nodes, folder: Id) {
    forall n :: n in nodes && nodes[n].folder == folder ==> Ends(nodes, n)
  }

  /** The downward query and the upward walk agree round by round, cycles or not. */
  lemma {:induction false} LevelIsUp(nodes: Nodes, scope: Id, n: Id, k: nat)
    ensures n in Level(nodes, scope, k) <==> Up(nodes, n, k) == Some(scope)
    decreases k
  {
    if k > 0 && n in nodes && nodes[n].parent.Some? {
      LevelIsUp(nodes, scope, nodes[n].parent.value, k - 1);
    }
  }

  lemma SubtreeIsBelow(nodes: Nodes, scope: Id, n: Id)
    ensures InSubtree(nodes, scope, n) <==> Below(nodes, n, scope)
  {
    if InSubtree(nodes, scope, n) {
      var k: nat :| n in Level(nodes, scope, k);
      LevelIsUp(nodes, scope, n, k);
    }
    if Below(nodes, n, scope) {
      var k: nat :| Up(nodes, n, k) == Some(scope);
      LevelIsUp(nodes, scope, n, k);
    }
  }

  lemma {:induction false} UpAdds(nodes: Nodes, n: Id, j: nat, a: Id, k: nat)
    requires Up(nodes, n, j) == Some(a)
    ensures Up(nodes, n, j + k) == Up(nodes, a, k)
    decreases j
  {
    if j > 0 {
      UpAdds(nodes, nodes[n].parent.value, j - 1, a, k);
    }
  }

  lemma {:induction false} EndedStaysEnded(nodes: Nodes, n: Id, j: nat, k: nat)
    requires Up(nodes, n, j) == None && j <= k
    ensures Up(nodes, n, k) == None
    decreases j
  {
    if n in nodes && j > 0 && nodes[n].parent.Some? {
      EndedStaysEnded(nodes, nodes[n].parent.value, j - 1, k - 1);
    }
  }

  /** One step up: being at or below the scope is inherited from the parent. */
  lemma BelowStep(nodes: Nodes, n: Id, scope: Id)
    requires n in nodes
    ensures Below(nodes, n, scope) <==>
            n == scope || (nodes[n].parent.Some? && Below(nodes, nodes[n].parent.value, scope))
  {
    if Below(nodes, n, scope) {
      var k: nat :| Up(nodes, n, k) == Some(scope);
      if k > 0 {
        assert Up(nodes, nodes[n].parent.value, k - 1) == Some(scope);
      }
    }
    if n == scope {
      assert Up(nodes, n, 0) == Some(scope);
    } else if nodes[n].parent.Some? && Below(nodes, nodes[n].parent.value, scope) {
      var k: nat :| Up(nodes, nodes[n].parent.value, k) == Some(scope);
      assert Up(nodes, n, k + 1) == Some(scope);
    }
  }

  lemma EndsStep(nodes: Nodes, n: Id)
    requires n in nodes
    ensures nodes[n].parent.None? || Ends(nodes, nodes[n].parent.value) ==> Ends(nodes, n)
  {
    if nodes[n].parent.None? {
      assert Up(nodes, n, 1) == None;
    } else if Ends(nodes, nodes[n].parent.value) {
      var k: nat :| Up(nodes, nodes[n].parent.value, k) == None;
      assert Up(nodes, n, k + 1) == None;
    }
  }

  /** A walk up from the node comes back to it. */
  ghost predicate OnCycle(nodes: Nodes, n: Id) {
    exists k: nat :: k > 0 && Up(nodes, n, k) == Some(n)
  }

  lemma EndsOffCycles(nodes: Nodes, n: Id)
    requires Ends(nodes, n)
    ensures !OnCycle(nodes, n)
  {
    if OnCycle(nodes, n) {
      var p: nat :| p > 0 && Up(nodes, n, p) == Some(n);
      var k: nat :| Up(nodes, n, k) == None;
      CycleRepeats(nodes, n, p, k);
      EndedStaysEnded(nodes, n, k, k * p);
    }
  }

  lemma {:induction false} CycleRepeats(nodes: Nodes, n: Id, period: nat, times: nat)
    requires period > 0 && Up(nodes, n, period) == Some(n)
    ensures times <= times * period && Up(nodes, n, times * period) == Some(n)
    decreases times
  {
    if times == 0 {
      assert n in nodes;
    } else {
      CycleRepeats(nodes, n, period, times - 1);
      assert times * period == (times - 1) * period + period;
      UpAdds(nodes, n, (times - 1) * period, n, period);
    }
  }

  /** A node that comes up in two rounds shows that the scope is on a cycle. */
  lemma TwiceIsCycle(nodes: Nodes, scope: Id, n: Id, j: nat, k: nat)
    requires j < k && n in Level(nodes, scope, j) && n in Level(nodes, scope, k)
    ensures OnCycle(nodes, scope)
  {
    LevelIsUp(nodes, scope, n, j);
    LevelIsUp(nodes, scope, n, k);
    UpAdds(nodes, n, j, scope, k - j);
  }

  lemma {:induction false} EmptyAfterEmpty(nodes: Nodes, scope: Id, k: nat, j: nat)
    requires Level(nodes, scope, k) == {} && k <= j
    ensures Level(nodes, scope, j) == {}
    decreases j
  {
    if k < j {
      EmptyAfterEmpty(nodes, scope, k, j - 1);
    }
  }

  ghost predicate InRounds(nodes: Nodes, scope: Id, n: Id, k: nat) {
    exists j: nat :: j < k && n in Level(nodes, scope, j)
  }

  /** As long as rounds are not empty, each brings at least one more node. */
  lemma {:induction false} RoundsGather(nodes: Nodes, scope: Id, k: nat) returns (gathered: set<Id>)
    requires !OnCycle(nodes, scope)
    requires k > 0 ==> Level(nodes, scope, k - 1) != {}
    ensures gathered <= nodes.Keys && |gathered| >= k
    ensures forall n :: n in gathered ==> InRounds(nodes, scope, n, k)
    decreases k
  {
    if k == 0 {
      gathered := {};
    } else {
      var before := RoundsGather(nodes, scope, k - 1);
      var added :| added in Level(nodes, scope, k - 1);
      if added in before {
        var j: nat :| j < k - 1 && added in Level(nodes, scope, j);
        TwiceIsCycle(nodes, scope, added, j, k - 1);
      }
      gathered := before + {added};
      assert InRounds(nodes, scope, added, k);
      forall n | n in before
        ensures InRounds(nodes, scope, n, k)
      {
        var j: nat :| j < k - 1 && n in Level(nodes, scope, j);
      }
    }
  }

  lemma FitsInto<T>(some: set<T>, all: set<T>)
    requires some <= all
    ensures |some| <= |all|
  {
    assert all == some + (all - some);
  }

  ghost predicate EmptyFrom(nodes: Nodes, scope: Id, rounds: nat) {
    forall k: nat :: rounds <= k ==> Level(nodes, scope, k) == {}
  }

  /** From a scope that is not on a cycle the recursive query reaches an empty round within as many rounds as
      there are nodes, whatever cycles there are elsewhere. */
  lemma RecursiveQueryStops(nodes: Nodes, scope: Id)
    requires !OnCycle(nodes, scope)
    ensures EmptyFrom(nodes, scope, |nodes.Keys|)
  {
    if Level(nodes, scope, |nodes.Keys|) != {} {
      var gathered := RoundsGather(nodes, scope, |nodes.Keys| + 1);
      FitsInto(gathered, nodes.Keys);
    }
    forall k: nat | |nodes.Keys| <= k
      ensures Level(nodes, scope, k) == {}
    {
      EmptyAfterEmpty(nodes, scope, |nodes.Keys|, k);
    }
  }

  /** The recursive query stops if and only if its scope is not on a cycle. */
  lemma RecursiveQueryStopsExactly(nodes: Nodes, scope: Id)
    ensures (exists rounds: nat :: EmptyFrom(nodes, scope, rounds)) <==> !OnCycle(nodes, scope)
  {
    if OnCycle(nodes, scope) {
      var p: nat :| p > 0 && Up(nodes, scope, p) == Some(scope);
      forall rounds: nat
        ensures !EmptyFrom(nodes, scope, rounds)
      {
        CycleRepeats(nodes, scope, p, rounds);
        LevelIsUp(nodes, scope, scope, rounds * p);
      }
    } else {
      RecursiveQueryStops(nodes, scope);
    }
  }

  // How one changed row affects the walks of the others.

  /** A walk that never meets m does not notice a change of m's row. */
  lemma {:induction false} WalkAvoids(nodes: Nodes, m: Id, row: NodeRow, x: Id, k: nat)
    requires m in nodes && !Below(nodes, x, m)
    ensures Up(nodes[m := row], x, k) == Up(nodes, x, k)
    decreases k
  {
    if x in nodes {
      BelowStep(nodes, x, m);
      if k > 0 && nodes[x].parent.Some? {
        WalkAvoids(nodes, m, row, nodes[x].parent.value, k - 1);
      }
    }
  }

  lemma {:induction false} EndsAfterChange(nodes: Nodes, m: Id, row: NodeRow, x: Id, k: nat)
    requires m in nodes && Up(nodes, x, k) == None
    requires row.parent.Some? ==> Ends(nodes[m := row], row.parent.value)
    ensures Ends(nodes[m := row], x)
    decreases k
  {
    var after := nodes[m := row];
    if x !in nodes {
      assert Up(after, x, 0) == None;
    } else {
      if x != m && nodes[x].parent.Some? {
        EndsAfterChange(nodes, m, row, nodes[x].parent.value, k - 1);
      }
      EndsStep(after, x);
    }
  }

  lemma {:induction false} BelowSurvives(nodes: Nodes, m: Id, row: NodeRow, x: Id, k: nat)
    requires m in nodes && Up(nodes, x, k) == Some(m)
    ensures Below(nodes[m := row], x, m)
    decreases k
  {
    BelowStep(nodes[m := row], x, m);
    if x != m {
      BelowSurvives(nodes, m, row, nodes[x].parent.value, k - 1);
    }
  }

  /** Re-parenting m keeps its folder free of cycles if and only if the new parent is not inside m's own
      subtree. */
  lemma GroundedAfterMove(nodes: Nodes, m: Id, row: NodeRow, folder: Id)
    requires Grounded(nodes, folder) && m in nodes && nodes[m].folder == row.folder == folder
    requires row.parent.Some? ==> row.parent.value in nodes && nodes[row.parent.value].folder == folder
    ensures Grounded(nodes[m := row], folder) <==> (row.parent.Some? ==> !Below(nodes, row.parent.value, m))
  {
    var after := nodes[m := row];
    if row.parent.Some? && Below(nodes, row.parent.value, m) {
      var k: nat :| Up(nodes, row.parent.value, k) == Some(m);
      BelowSurvives(nodes, m, row, row.parent.value, k);
      var j: nat :| Up(after, row.parent.value, j) == Some(m);
      assert Up(after, m, j + 1) == Some(m);
      assert OnCycle(after, m);
      if Ends(after, m) {
        EndsOffCycles(after, m);
      }
    } else {
      if row.parent.Some? {
        var k: nat :| Up(nodes, row.parent.value, k) == None;
        WalkAvoids(nodes, m, row, row.parent.value, k);
        assert Up(after, row.parent.value, k) == None;
      }
      forall x | x in after && after[x].folder == folder
        ensures Ends(after, x)
      {
        assert Ends(nodes, x);
        var k: nat :| Up(nodes, x, k) == None;
        EndsAfterChange(nodes, m, row, x, k);
      }
    }
  }

  /** A changed row of another folder is on no walk of this one. */
  lemma GroundedElsewhere(nodes: Nodes, m: Id, row: NodeRow, folder: Id)
    requires ParentsInFolder(nodes) && Grounded(nodes, folder)
    requires row.folder != folder && (m in nodes ==> nodes[m].folder != folder)
    ensures Grounded(nodes[m := row], folder)
  {
    var after := nodes[m := row];
    forall x | x in after && after[x].folder == folder
      ensures Ends(after, x)
    {
      assert Ends(nodes, x);
      var k: nat :| Up(nodes, x, k) == None;
      if m in nodes {
        if Below(nodes, x, m) {
          var j: nat :| Up(nodes, x, j) == Some(m);
          WalkStaysInFolder(nodes, x, j);
        }
        WalkAvoids(nodes, m, row, x, k);
      } else {
        UpSameParents(nodes, after, x, k);
      }
      assert Up(after, x, k) == None;
    }
  }

  lemma {:induction false} UpSameParents(nodes: Nodes, after: Nodes, x: Id, k: nat)
    requires ParentsInFolder(nodes) && x in nodes
    requires forall n :: n in nodes ==> n in after && after[n].parent == nodes[n].parent
    ensures Up(after, x, k) == Up(nodes, x, k)
    decreases k
  {
    if k > 0 && nodes[x].parent.Some? {
      UpSameParents(nodes, after, nodes[x].parent.value, k - 1);
    }
  }

  /** New leaves, and rows whose parent column is left alone, keep the folder free of cycles. */
  lemma GroundedAfterInsert(nodes: Nodes, n: Id, row: NodeRow, folder: Id)
    requires ParentsInFolder(nodes) && Grounded(nodes, folder) && row.folder == folder
    requires if n in nodes then nodes[n].folder == folder && row.parent == nodes[n].parent
             else row.parent.Some? && row.parent.value in nodes && nodes[row.parent.value].folder == folder
    ensures Grounded(nodes[n := row], folder)
  {
    var after := nodes[n := row];
    forall x | x in nodes && nodes[x].folder == folder
      ensures Ends(after, x)
    {
      assert Ends(nodes, x);
      var k: nat :| Up(nodes, x, k) == None;
      UpSameParents(nodes, after, x, k);
    }
    EndsStep(after, n);
  }

  /** Removing nodes removes walks. */
  lemma {:induction false} GroundedAfterPurge(nodes: Nodes, ids: set<Id>, folder: Id)
    requires Grounded(nodes, folder)
    ensures Grounded(nodes - ids, folder)
  {
    forall x | x in nodes - ids && nodes[x].folder == folder
      ensures Ends(nodes - ids, x)
    {
      var k: nat :| Up(nodes, x, k) == None;
      UpAfterPurge(nodes, ids, x, k);
    }
  }

  lemma {:induction false} UpAfterPurge(nodes: Nodes, ids: set<Id>, x: Id, k: nat)
    requires Up(nodes, x, k) == None
    ensures Up(nodes - ids, x, k) == None
    decreases k
  {
    if x in nodes - ids && k > 0 && nodes[x].parent.Some? {
      UpAfterPurge(nodes, ids, nodes[x].parent.value, k - 1);
    }
  }

  /** In a folder whose only parentless node is the root, the root's subtree is the whole folder. */
  ghost predicate SingleRoot(nodes: Nodes, folder: Id, root: Id) {
    && root in nodes && nodes[root].folder == folder && nodes[root].parent.None?
    && forall n :: n in nodes && nodes[n].folder == folder && nodes[n].parent.None? ==> n == root
  }

  ghost predicate ParentsInFolder(nodes: Nodes) {
    forall n :: n in nodes && nodes[n].parent.Some? ==>
      nodes[n].parent.value in nodes && nodes[nodes[n].parent.value].folder == nodes[n].folder
  }

  lemma {:induction false} WalkReachesRoot(nodes: Nodes, folder: Id, root: Id, n: Id, k: nat)
    requires ParentsInFolder(nodes) && SingleRoot(nodes, folder, root)
    requires n in nodes && nodes[n].folder == folder && Up(nodes, n, k) == None
    ensures Below(nodes, n, root)
    decreases k
  {
    BelowStep(nodes, n, root);
    if nodes[n].parent.Some? {
      WalkReachesRoot(nodes, folder, root, nodes[n].parent.value, k - 1);
    }
  }

  lemma {:induction false} WalkStaysInFolder(nodes: Nodes, n: Id, k: nat)
    requires ParentsInFolder(nodes) && n in nodes && Up(nodes, n, k).Some?
    ensures var a := Up(nodes, n, k).value; a in nodes && nodes[a].folder == nodes[n].folder
    decreases k
  {
    if k > 0 {
      WalkStaysInFolder(nodes, nodes[n].parent.value, k - 1);
    }
  }

  lemma RootSubtreeIsFolder(nodes: Nodes, folder: Id, root: Id, n: Id)
    requires ParentsInFolder(nodes) && SingleRoot(nodes, folder, root) && Grounded(nodes, folder)
    ensures InSubtree(nodes, root, n) <==> n in nodes && nodes[n].folder == folder
  {
    SubtreeIsBelow(nodes, root, n);
    if n in nodes && nodes[n].folder == folder {
      assert Ends(nodes, n);
      var k: nat :| Up(nodes, n, k) == None;
      WalkReachesRoot(nodes, folder, root, n, k);
    }
    if Below(nodes, n, root) {
      var k: nat :| Up(nodes, n, k) == Some(root);
      assert n in nodes;
      WalkStaysInFolder(nodes, n, k);
    }
  }
}
