/** The grant check: walk from the target towards the root and let the nearest grant decide. */
module Authz {
  import opened Types
  import opened Tree

  const MAX_GRANT_WALK_DEPTH: nat := 50

  datatype Need = Read | Write

  datatype Grant = Grant(grantId: Id, canRead: bool, canWrite: bool)

  /** One principal's grants by (folder, scope node). Where a principal holds several grants at one
      scope, the table holds the one that the query answers with. */
  type Grants = map<(Id, Id), Grant>

  datatype Denial = NoGrant | InsufficientPermission

  datatype AuthzResult =
    | Granted(grantId: Id, scope: Id, canWrite: bool)
    | Denied(denial: Denial)

  function Decide(grant: Grant, scope: Id, need: Need): AuthzResult {
    if need == Write && !grant.canWrite then Denied(InsufficientPermission)
    else if need == Read && !grant.canRead && !grant.canWrite then Denied(InsufficientPermission)
    else Granted(grant.grantId, scope, grant.canWrite)
  }

  function Walk(nodes: Nodes, grants: Grants, folder: Id, current: Id, need: Need, steps: nat): AuthzResult
    decreases steps
  {
    if steps == 0 || current !in nodes then Denied(NoGrant)
    else if (folder, current) in grants then Decide(grants[(folder, current)], current, need)
    else match nodes[current].parent
      case None => Denied(NoGrant)
      case Some(p) => Walk(nodes, grants, folder, p, need, steps - 1)
  }

  /** The answer of `checkGrant` as a function of the tables. */
  function Authorize(nodes: Nodes, grants: Grants, target: Id, need: Need): AuthzResult {
    if target !in nodes then Denied(NoGrant)
    else Walk(nodes, grants, nodes[target].folder, target, need, MAX_GRANT_WALK_DEPTH)
  }

  /** The k-th ancestor of the target carries a grant, and no nearer one does. */
  ghost predicate NearestGrant(nodes: Nodes, grants: Grants, folder: Id, n: Id, k: nat) {
    && Up(nodes, n, k).Some? && (folder, Up(nodes, n, k).value) in grants
    && forall j: nat :: j < k && Up(nodes, n, j).Some? ==> (folder, Up(nodes, n, j).value) !in grants
  }

  lemma {:induction false} WalkFindsNearest(nodes: Nodes, grants: Grants, folder: Id, n: Id, need: Need, steps: nat, k: nat)
    requires k < steps && NearestGrant(nodes, grants, folder, n, k)
    ensures var scope := Up(nodes, n, k).value;
            Walk(nodes, grants, folder, n, need, steps) == Decide(grants[(folder, scope)], scope, need)
    decreases k
  {
    if k > 0 {
      assert Up(nodes, n, 0) == Some(n);
      var p := nodes[n].parent.value;
      forall j: nat | j < k - 1 && Up(nodes, p, j).Some?
        ensures (folder, Up(nodes, p, j).value) !in grants
      {
        assert Up(nodes, n, j + 1) == Up(nodes, p, j);
      }
      WalkFindsNearest(nodes, grants, folder, p, need, steps - 1, k - 1);
    } else {
      assert Up(nodes, n, 0) == Some(n);
    }
  }

  lemma {:induction false} WalkFindsNothing(nodes: Nodes, grants: Grants, folder: Id, n: Id, need: Need, steps: nat)
    requires forall k: nat :: k < steps && Up(nodes, n, k).Some? ==> (folder, Up(nodes, n, k).value) !in grants
    ensures Walk(nodes, grants, folder, n, need, steps) == Denied(NoGrant)
    decreases steps
  {
    if steps > 0 && n in nodes && nodes[n].parent.Some? {
      assert Up(nodes, n, 0) == Some(n);
      var p := nodes[n].parent.value;
      forall k: nat | k < steps - 1 && Up(nodes, p, k).Some?
        ensures (folder, Up(nodes, p, k).value) !in grants
      {
        assert Up(nodes, n, k + 1) == Up(nodes, p, k);
      }
      WalkFindsNothing(nodes, grants, folder, p, need, steps - 1);
    } else if steps > 0 && n in nodes {
      assert Up(nodes, n, 0) == Some(n);
    }
  }

  lemma {:induction false} LeastGrant(nodes: Nodes, grants: Grants, folder: Id, n: Id, k: nat) returns (least: nat)
    requires Up(nodes, n, k).Some? && (folder, Up(nodes, n, k).value) in grants
    ensures least <= k && NearestGrant(nodes, grants, folder, n, least)
    decreases k
  {
    if j: nat :| j < k && Up(nodes, n, j).Some? && (folder, Up(nodes, n, j).value) in grants {
      least := LeastGrant(nodes, grants, folder, n, j);
    } else {
      least := k;
    }
  }

  /** What the columns of a grant are enough for. */
  predicate Suffices(grant: Grant, need: Need) {
    match need
    case Read => grant.canRead || grant.canWrite
    case Write => grant.canWrite
  }

  /** The nearest grant on the way up, no more than fifty rows in all, is enough for the need. */
  ghost predicate Permitted(nodes: Nodes, grants: Grants, target: Id, need: Need) {
    target in nodes && exists k: nat :: PermittedAt(nodes, grants, nodes[target].folder, target, need, k)
  }

  ghost predicate PermittedAt(nodes: Nodes, grants: Grants, folder: Id, target: Id, need: Need, k: nat) {
    k < 50 && NearestGrant(nodes, grants, folder, target, k) && Suffices(grants[(folder, Up(nodes, target, k).value)], need)
  }

  /** Some row on the way up carries a grant. */
  ghost predicate GrantInReach(nodes: Nodes, grants: Grants, target: Id) {
    target in nodes && exists k: nat :: k < 50 && NearestGrant(nodes, grants, nodes[target].folder, target, k)
  }

  /** The answer tells of the nearest grant: its scope, its id and whether it allows writing. */
  ghost predicate AnswerOf(nodes: Nodes, grants: Grants, folder: Id, target: Id, answer: AuthzResult, k: nat)
    requires answer.Granted?
  {
    && k < 50 && NearestGrant(nodes, grants, folder, target, k)
    && var scope := Up(nodes, target, k).value;
       answer.scope == scope && answer.grantId == grants[(folder, scope)].grantId
       && answer.canWrite == grants[(folder, scope)].canWrite
  }

  lemma OnlyOneNearest(nodes: Nodes, grants: Grants, folder: Id, n: Id, j: nat, k: nat)
    requires NearestGrant(nodes, grants, folder, n, j) && NearestGrant(nodes, grants, folder, n, k)
    ensures j == k
  {
  }

  /** The decision in terms of the grant columns: granted exactly when the nearest grant within fifty rows is
      enough, insufficient exactly when there is one and it is not, and no grant exactly when there is none. */
  lemma GrantedExactly(nodes: Nodes, grants: Grants, target: Id, need: Need)
    ensures var answer := Authorize(nodes, grants, target, need);
            && (answer.Granted? <==> Permitted(nodes, grants, target, need))
            && (answer == Denied(InsufficientPermission) <==>
                GrantInReach(nodes, grants, target) && !Permitted(nodes, grants, target, need))
            && (answer == Denied(NoGrant) <==> !GrantInReach(nodes, grants, target))
            && (answer.Granted? ==> exists k: nat :: AnswerOf(nodes, grants, nodes[target].folder, target, answer, k))
  {
    if target in nodes {
      var folder := nodes[target].folder;
      if k: nat :| k < 50 && NearestGrant(nodes, grants, folder, target, k) {
        WalkFindsNearest(nodes, grants, folder, target, need, 50, k);
        forall j: nat | PermittedAt(nodes, grants, folder, target, need, j)
          ensures j == k
        {
          OnlyOneNearest(nodes, grants, folder, target, j, k);
        }
        var answer := Authorize(nodes, grants, target, need);
        assert answer.Granted? ==> PermittedAt(nodes, grants, folder, target, need, k);
        assert answer.Granted? ==> AnswerOf(nodes, grants, folder, target, answer, k);
      } else {
        forall k: nat | k < 50 && Up(nodes, target, k).Some?
          ensures (folder, Up(nodes, target, k).value) !in grants
        {
          if (folder, Up(nodes, target, k).value) in grants {
            var least := LeastGrant(nodes, grants, folder, target, k);
          }
        }
        WalkFindsNothing(nodes, grants, folder, target, need, 50);
      }
    }
  }

  method CheckGrant(nodes: Nodes, grants: Grants, target: Id, need: Need)
    returns (result: AuthzResult, lookups: nat)
    ensures result == Authorize(nodes, grants, target, need)
    ensures result.Granted? <==> Permitted(nodes, grants, target, need)
    ensures result.Granted? ==> exists k: nat :: AnswerOf(nodes, grants, nodes[target].folder, target, result, k)
    ensures result == Denied(NoGrant) <==> !GrantInReach(nodes, grants, target)
    ensures lookups <= 50
  {
    GrantedExactly(nodes, grants, target, need);
    hide Permitted, GrantInReach, AnswerOf;
    lookups := 0;
    if target !in nodes {
      return Denied(NoGrant), 0;
    }
    var folder := nodes[target].folder;
    var currentId, parentId := Some(target), nodes[target].parent;
    var depth := 0;
    while currentId.Some? && depth < MAX_GRANT_WALK_DEPTH
      invariant depth <= MAX_GRANT_WALK_DEPTH && lookups == depth
      invariant currentId.Some? ==> currentId.value in nodes && parentId == nodes[currentId.value].parent
      invariant Authorize(nodes, grants, target, need) ==
                if currentId.None? then Denied(NoGrant)
                else Walk(nodes, grants, folder, currentId.value, need, MAX_GRANT_WALK_DEPTH - depth)
    {
      lookups := lookups + 1;
      if (folder, currentId.value) in grants {
        var grant := grants[(folder, currentId.value)];
        if need == Write && !grant.canWrite {
          return Denied(InsufficientPermission), lookups;
        }
        if need == Read && !grant.canRead && !grant.canWrite {
          return Denied(InsufficientPermission), lookups;
        }
        return Granted(grant.grantId, currentId.value, grant.canWrite), lookups;
      }
      if parentId.None? {
        break;
      }
      if parentId.value in nodes {
        currentId, parentId := parentId, nodes[parentId.value].parent;
      } else {
        currentId, parentId := None, None;
      }
      depth := depth + 1;
    }
    return Denied(NoGrant), lookups;
  }

  /** Round k of the recursive query from a granted scope reaches the target. */
  ghost predicate CoveredAt(nodes: Nodes, grants: Grants, folder: Id, target: Id, scope: Id, k: nat) {
    (folder, scope) in grants && target in Level(nodes, scope, k)
  }

  /** Among the grants whose downward subtree, as the delta and tree pulls compute it, holds the target
      within fifty rounds, the one that reaches it in the earliest round decides. Nothing is assumed
      about the parent columns: they may form cycles. */
  lemma EarliestGrantDecides(nodes: Nodes, grants: Grants, target: Id, need: Need, scope: Id, k: nat)
    requires target in nodes && k < MAX_GRANT_WALK_DEPTH
    requires CoveredAt(nodes, grants, nodes[target].folder, target, scope, k)
    requires forall other, j: nat :: j < k ==> !CoveredAt(nodes, grants, nodes[target].folder, target, other, j)
    ensures Authorize(nodes, grants, target, need) == Decide(grants[(nodes[target].folder, scope)], scope, need)
  {
    var folder := nodes[target].folder;
    LevelIsUp(nodes, scope, target, k);
    forall j: nat | j < k && Up(nodes, target, j).Some?
      ensures (folder, Up(nodes, target, j).value) !in grants
    {
      var other := Up(nodes, target, j).value;
      LevelIsUp(nodes, other, target, j);
      assert !CoveredAt(nodes, grants, folder, target, other, j);
    }
    WalkFindsNearest(nodes, grants, folder, target, need, MAX_GRANT_WALK_DEPTH, k);
  }

  /** The check answers `no_grant` exactly when no grant's subtree holds the target within fifty rounds;
      otherwise the answer is the decision of a grant whose subtree holds the target. */
  lemma GrantCoversTarget(nodes: Nodes, grants: Grants, target: Id, need: Need)
    requires target in nodes
    ensures var folder, result := nodes[target].folder, Authorize(nodes, grants, target, need);
            && (result == Denied(NoGrant) <==>
                forall scope, k: nat :: k < MAX_GRANT_WALK_DEPTH ==> !CoveredAt(nodes, grants, folder, target, scope, k))
            && (result.Granted? ==>
                InSubtree(nodes, result.scope, target) && (folder, result.scope) in grants)
  {
    var folder := nodes[target].folder;
    if scope, k: nat :| k < MAX_GRANT_WALK_DEPTH && CoveredAt(nodes, grants, folder, target, scope, k) {
      LevelIsUp(nodes, scope, target, k);
      var least := LeastGrant(nodes, grants, folder, target, k);
      WalkFindsNearest(nodes, grants, folder, target, need, MAX_GRANT_WALK_DEPTH, least);
      LevelIsUp(nodes, Up(nodes, target, least).value, target, least);
    } else {
      forall k: nat | k < MAX_GRANT_WALK_DEPTH && Up(nodes, target, k).Some?
        ensures (folder, Up(nodes, target, k).value) !in grants
      {
        var scope := Up(nodes, target, k).value;
        LevelIsUp(nodes, scope, target, k);
        assert !CoveredAt(nodes, grants, folder, target, scope, k);
      }
      WalkFindsNothing(nodes, grants, folder, target, need, MAX_GRANT_WALK_DEPTH);
    }
  }
}
