/** Bringing the persisted mount table to canonical paths at start-up. */
module Mounts {
  import opened Types

  datatype LocalMount = LocalMount(
    folderId: Id, grantId: Option<Id>, scopeNodeId: Option<Id>, mountToken: Option<string>, cursor: nat, canWrite: bool,
    name: Option<string>)

  /** The mount table; its primary key is the path. */
  type Table = map<string, LocalMount>

  /** The paths of the table, each once, in the order in which they are listed. */
  ghost predicate Lists(table: Table, listed: seq<string>) {
    && (forall i, j :: 0 <= i < j < |listed| ==> listed[i] != listed[j])
    && (forall p :: p in listed <==> p in table)
  }

  ghost predicate Idempotent(norm: string -> string) {
    forall p :: norm(norm(p)) == norm(p)
  }

  /** The rows that compete for a canonical path: its own row, then the others as they are listed. */
  function Contenders(table: Table, listed: seq<string>, norm: string -> string, c: string): seq<string> {
    if listed == [] then
      if c in table then [c] else []
    else
      var last := listed[|listed| - 1];
      Contenders(table, listed[..|listed| - 1], norm, c) + if last != c && norm(last) == c then [last] else []
  }

  /** The first contender with a mount token, or the first one if none has a token. */
  ghost predicate Wins(table: Table, contenders: seq<string>, winner: string) {
    && (forall p :: p in contenders ==> p in table)
    && exists k :: 0 <= k < |contenders| && winner == contenders[k]
                   && if table[contenders[k]].mountToken.Some?
                      then forall j :: 0 <= j < k ==> table[contenders[j]].mountToken.None?
                      else k == 0 && forall j :: 0 <= j < |contenders| ==> table[contenders[j]].mountToken.None?
  }

  /** Of the rows whose path is not canonical, those still to come are there, as they were, and no others. */
  ghost predicate OthersToCome(table: Table, state: Table, listed: seq<string>, n: nat, norm: string -> string) {
    && (forall i :: 0 <= i < |listed| && norm(listed[i]) != listed[i] ==>
          (listed[i] in state <==> n <= i) && (n <= i ==> listed[i] in table && state[listed[i]] == table[listed[i]]))
    && (forall p :: p in state && norm(p) != p ==> p in listed)
  }

  ghost predicate CanonicalSettled(table: Table, state: Table, listed: seq<string>, norm: string -> string) {
    forall c :: norm(c) == c ==> Settled(table, state, Contenders(table, listed, norm, c), c)
  }

  /** The table while the first n listed rows have been dealt with. */
  ghost predicate Halfway(table: Table, state: Table, listed: seq<string>, n: nat, norm: string -> string) {
    && n <= |listed| && OthersToCome(table, state, listed, n, norm)
    && CanonicalSettled(table, state, listed[..n], norm)
  }

  /** The canonical path's row is the winner's. */
  ghost predicate Settled(table: Table, state: Table, contenders: seq<string>, c: string) {
    if contenders == [] then c !in state
    else c in state && exists w :: Wins(table, contenders, w) && state[c] == table[w]
  }

  lemma {:induction false} ContendersAreRows(table: Table, listed: seq<string>, norm: string -> string, c: string)
    requires norm(c) == c && forall p :: p in listed ==> p in table
    ensures forall p :: p in Contenders(table, listed, norm, c) <==> norm(p) == c && (p in listed || p == c) && p in table
  {
    if listed != [] {
      ContendersAreRows(table, listed[..|listed| - 1], norm, c);
      assert listed == listed[..|listed| - 1] + [listed[|listed| - 1]];
    }
  }

  lemma OneAlone(table: Table, p: string)
    requires p in table
    ensures Wins(table, [p], p)
  {
    assert [p][0] == p;
  }

  /** One more contender takes the place of the winner exactly when it has a token and the winner has none. */
  lemma OneMoreContender(table: Table, contenders: seq<string>, winner: string, p: string)
    requires contenders != [] && Wins(table, contenders, winner) && p in table
    ensures Wins(table, contenders + [p],
                 if table[p].mountToken.Some? && table[winner].mountToken.None? then p else winner)
  {
    var k :| 0 <= k < |contenders| && winner == contenders[k]
             && if table[contenders[k]].mountToken.Some?
                then forall j :: 0 <= j < k ==> table[contenders[j]].mountToken.None?
                else k == 0 && forall j :: 0 <= j < |contenders| ==> table[contenders[j]].mountToken.None?;
    var longer := contenders + [p];
    assert longer[k] == winner && longer[|contenders|] == p;
  }

  lemma WinnerTokened(table: Table, contenders: seq<string>, winner: string)
    requires Wins(table, contenders, winner)
    ensures winner in contenders && winner in table
    ensures table[winner].mountToken.Some? <==> exists p :: p in contenders && table[p].mountToken.Some?
  {
  }

  lemma AtStart(table: Table, listed: seq<string>, norm: string -> string)
    requires Lists(table, listed)
    ensures Halfway(table, table, listed, 0, norm)
  {
    forall c | c in table
      ensures Wins(table, [c], c)
    {
      OneAlone(table, c);
    }
  }

  lemma ContendersNext(table: Table, listed: seq<string>, n: nat, norm: string -> string, c: string)
    requires n < |listed|
    ensures Contenders(table, listed[..n + 1], norm, c) ==
            Contenders(table, listed[..n], norm, c) + if listed[n] != c && norm(listed[n]) == c then [listed[n]] else []
  {
    assert listed[..n + 1][..n] == listed[..n];
  }

  /** A listed row whose path is canonical already is left alone. */
  lemma CanonicalSkipped(table: Table, state: Table, listed: seq<string>, n: nat, norm: string -> string)
    requires Halfway(table, state, listed, n, norm) && n < |listed| && norm(listed[n]) == listed[n]
    ensures Halfway(table, state, listed, n + 1, norm)
  {
    forall c | norm(c) == c
      ensures Settled(table, state, Contenders(table, listed[..n + 1], norm, c), c)
    {
      ContendersNext(table, listed, n, norm, c);
      assert Contenders(table, listed[..n], norm, c) + [] == Contenders(table, listed[..n], norm, c);
    }
  }

  /** The row at the canonical path after one more contender. */
  function Place(state: Table, m: string, c: string): Table
    requires m in state
  {
    if c !in state || (state[m].mountToken.Some? && state[c].mountToken.None?) then (state - {m})[c := state[m]]
    else state - {m}
  }

  lemma SettledNext(table: Table, state: Table, contenders: seq<string>, m: string, c: string)
    requires Settled(table, state, contenders, c) && m != c && m in table && m in state && state[m] == table[m]
    requires forall p :: p in contenders ==> p in table
    ensures Settled(table, Place(state, m, c), contenders + [m], c)
  {
    if contenders == [] {
      OneAlone(table, m);
      assert contenders + [m] == [m];
    } else {
      var w :| Wins(table, contenders, w) && state[c] == table[w];
      OneMoreContender(table, contenders, w, m);
    }
  }

  lemma SettledElsewhere(table: Table, state: Table, after: Table, contenders: seq<string>, c: string)
    requires Settled(table, state, contenders, c)
    requires (c in after <==> c in state) && (c in state ==> after[c] == state[c])
    ensures Settled(table, after, contenders, c)
  {
  }

  lemma OthersPlaced(table: Table, state: Table, listed: seq<string>, n: nat, norm: string -> string)
    requires Lists(table, listed) && Idempotent(norm)
    requires OthersToCome(table, state, listed, n, norm) && n < |listed| && norm(listed[n]) != listed[n]
    ensures listed[n] in state && state[listed[n]] == table[listed[n]]
    ensures OthersToCome(table, Place(state, listed[n], norm(listed[n])), listed, n + 1, norm)
  {
  }

  lemma CanonicalPlaced(table: Table, state: Table, listed: seq<string>, n: nat, norm: string -> string)
    requires n < |listed| && Lists(table, listed) && Idempotent(norm) && CanonicalSettled(table, state, listed[..n], norm)
    requires norm(listed[n]) != listed[n] && listed[n] in state && state[listed[n]] == table[listed[n]]
    ensures CanonicalSettled(table, Place(state, listed[n], norm(listed[n])), listed[..n + 1], norm)
  {
    forall d | norm(d) == d
      ensures Settled(table, Place(state, listed[n], norm(listed[n])), Contenders(table, listed[..n + 1], norm, d), d)
    {
      OneCanonicalPlaced(table, state, listed, n, norm, d);
    }
  }

  lemma OneCanonicalPlaced(table: Table, state: Table, listed: seq<string>, n: nat, norm: string -> string, d: string)
    requires n < |listed| && (forall p :: p in listed ==> p in table) && norm(d) == d
    requires norm(listed[n]) != listed[n] && listed[n] in state && state[listed[n]] == table[listed[n]]
    requires Settled(table, state, Contenders(table, listed[..n], norm, d), d)
    ensures Settled(table, Place(state, listed[n], norm(listed[n])), Contenders(table, listed[..n + 1], norm, d), d)
  {
    hide Settled, Contenders, Wins;
    var m, before := listed[n], Contenders(table, listed[..n], norm, d);
    ContendersNext(table, listed, n, norm, d);
    if d == norm(m) {
      ContendersAreRows(table, listed[..n], norm, d);
      SettledNext(table, state, before, m, d);
    } else {
      assert before + [] == before;
      SettledElsewhere(table, state, Place(state, m, norm(m)), before, d);
    }
  }

  lemma ContenderPlaced(table: Table, state: Table, listed: seq<string>, n: nat, norm: string -> string)
    requires Lists(table, listed) && Idempotent(norm)
    requires Halfway(table, state, listed, n, norm) && n < |listed| && norm(listed[n]) != listed[n]
    ensures listed[n] in state && Halfway(table, Place(state, listed[n], norm(listed[n])), listed, n + 1, norm)
  {
    hide Lists, Idempotent, OthersToCome, CanonicalSettled, Place;
    OthersPlaced(table, state, listed, n, norm);
    CanonicalPlaced(table, state, listed, n, norm);
  }

  /** One row for each canonical path that some row leads to: the row of the class's winner. */
  ghost predicate Normalized(table: Table, after: Table, listed: seq<string>, norm: string -> string) {
    && (forall c :: c in after <==> norm(c) == c && exists p :: p in table && norm(p) == c)
    && (forall c :: c in after ==>
          exists w :: Wins(table, Contenders(table, listed, norm, c), w) && after[c] == table[w])
  }

  lemma PlacedByReplacing(state: Table, m: string, c: string)
    requires m in state && c in state && m != c && state[m].mountToken.Some? && state[c].mountToken.None?
    ensures ((state - {c}) - {m})[c := (state - {c})[m]] == Place(state, m, c)
  {
  }

  lemma PlacedWithoutReplacing(state: Table, m: string, c: string)
    requires m in state
    ensures c !in state ==> (state - {m})[c := state[m]] == Place(state, m, c)
    ensures c in state && !(state[m].mountToken.Some? && state[c].mountToken.None?) ==> state - {m} == Place(state, m, c)
  {
  }

  class MountStore {
    var mounts: Table

    constructor (mounts: Table)
      ensures this.mounts == mounts
    {
      this.mounts := mounts;
    }

    method DeleteMount(path: string)
      modifies this
      ensures mounts == old(mounts) - {path}
    {
      mounts := mounts - {path};
    }

    /** The new path is the primary key: nothing may stand there. */
    method UpdateMountPath(oldPath: string, newPath: string)
      requires oldPath in mounts && newPath !in mounts
      modifies this
      ensures mounts == (old(mounts) - {oldPath})[newPath := old(mounts)[oldPath]]
    {
      mounts := (mounts - {oldPath})[newPath := mounts[oldPath]];
    }

    /** `normalize_persisted_mount_paths` over the rows as listed at its start. It ends with one row for each
        canonical path, that of the first contender with a token if any has one. */
    method NormalizePersistedMountPaths(listed: seq<string>, norm: string -> string)
      requires Lists(mounts, listed) && Idempotent(norm)
      modifies this
      ensures Normalized(old(mounts), mounts, listed, norm)
    {
      ghost var table := mounts;
      AtStart(table, listed, norm);
      hide Lists, Idempotent, Halfway, Normalized, Place;
      var i := 0;
      while i < |listed|
        invariant 0 <= i <= |listed| && Halfway(table, mounts, listed, i, norm)
      {
        var path, canonical := listed[i], norm(listed[i]);
        ghost var before := mounts;
        if canonical == path {
          CanonicalSkipped(table, mounts, listed, i, norm);
          i := i + 1;
          continue;
        }
        ContenderPlaced(table, before, listed, i, norm);
        PlacedWithoutReplacing(before, path, canonical);
        if canonical in mounts {
          if mounts[path].mountToken.Some? && mounts[canonical].mountToken.None? {
            PlacedByReplacing(before, path, canonical);
            DeleteMount(canonical);
            UpdateMountPath(path, canonical);
          } else {
            DeleteMount(path);
          }
          i := i + 1;
          continue;
        }
        UpdateMountPath(path, canonical);
        i := i + 1;
      }
      AllSettled(table, mounts, listed, norm);
    }
  }

  lemma AllSettled(table: Table, state: Table, listed: seq<string>, norm: string -> string)
    requires Lists(table, listed) && Idempotent(norm) && Halfway(table, state, listed, |listed|, norm)
    ensures Normalized(table, state, listed, norm)
  {
    assert listed[..|listed|] == listed;
    forall c
      ensures c in state <==> norm(c) == c && exists p :: p in table && norm(p) == c
      ensures c in state ==> exists w :: Wins(table, Contenders(table, listed, norm, c), w) && state[c] == table[w]
    {
      if norm(c) == c {
        ContendersAreRows(table, listed, norm, c);
        var contenders := Contenders(table, listed, norm, c);
        assert Settled(table, state, contenders, c);
        if p :| p in table && norm(p) == c {
          assert p in contenders;
        }
        if contenders != [] {
          assert contenders[0] in contenders;
        }
      }
    }
  }

  /** What that gives: every path canonical, one row per class, and a token in every class that had one. */
  lemma TokensSurvive(table: Table, after: Table, listed: seq<string>, norm: string -> string, p: string)
    requires Lists(table, listed) && Idempotent(norm) && p in table && Normalized(table, after, listed, norm)
    ensures norm(p) in after && (table[p].mountToken.Some? ==> after[norm(p)].mountToken.Some?)
    ensures forall c :: c in after && norm(c) == norm(p) ==> c == norm(p)
  {
    var c := norm(p);
    var contenders := Contenders(table, listed, norm, c);
    assert c in after;
    var w :| Wins(table, contenders, w) && after[c] == table[w];
    ContendersAreRows(table, listed, norm, c);
    WinnerTokened(table, contenders, w);
    assert p in contenders;
  }

  lemma {:induction false} OwnRowFirst(table: Table, listed: seq<string>, norm: string -> string, c: string)
    requires c in table
    ensures Contenders(table, listed, norm, c) != [] && Contenders(table, listed, norm, c)[0] == c
  {
    if listed != [] {
      OwnRowFirst(table, listed[..|listed| - 1], norm, c);
    }
  }

  /** A row that stands at its canonical path stays there as it is, unless another row of its class has a token
      and it has none. */
  lemma OwnRowStays(table: Table, after: Table, listed: seq<string>, norm: string -> string, c: string)
    requires Lists(table, listed) && Normalized(table, after, listed, norm) && c in table && norm(c) == c
    requires table[c].mountToken.Some? || forall p :: p in table && norm(p) == c ==> table[p].mountToken.None?
    ensures c in after && after[c] == table[c]
  {
    var contenders := Contenders(table, listed, norm, c);
    OwnRowFirst(table, listed, norm, c);
    ContendersAreRows(table, listed, norm, c);
    assert c in after;
    var w :| Wins(table, contenders, w) && after[c] == table[w];
    WinnerTokened(table, contenders, w);
    assert w in contenders;
  }

  lemma {:induction false} ContendersBefore(table: Table, listed: seq<string>, norm: string -> string, c: string, n: nat)
    requires n < |listed| && listed[n] != c && norm(listed[n]) == c
    ensures var before := Contenders(table, listed[..n], norm, c);
            before + [listed[n]] <= Contenders(table, listed, norm, c)
    decreases |listed|
  {
    var front := listed[..|listed| - 1];
    if n < |front| {
      ContendersBefore(table, front, norm, c, n);
      assert front[..n] == listed[..n];
    } else {
      assert front == listed[..n];
    }
  }

  /** Of the rows that are not at their canonical path, the first listed one with a token gets it, if the row that
      stands there has none. */
  lemma FirstTokenWins(table: Table, after: Table, listed: seq<string>, norm: string -> string, n: nat)
    requires Lists(table, listed) && Normalized(table, after, listed, norm)
    requires n < |listed| && norm(norm(listed[n])) == norm(listed[n]) && table[listed[n]].mountToken.Some?
    requires norm(listed[n]) in table ==> table[norm(listed[n])].mountToken.None?
    requires forall i :: 0 <= i < n && norm(listed[i]) == norm(listed[n]) ==> table[listed[i]].mountToken.None?
    ensures norm(listed[n]) in after && after[norm(listed[n])] == table[listed[n]]
  {
    var p, c := listed[n], norm(listed[n]);
    assert p in table && p != c;
    NoTokenBefore(table, listed, norm, n);
    ContendersBefore(table, listed, norm, c, n);
    hide Contenders, Lists;
    var before, contenders := Contenders(table, listed[..n], norm, c), Contenders(table, listed, norm, c);
    assert c in after;
    var w :| Wins(table, contenders, w) && after[c] == table[w];
    assert contenders[|before|] == p && contenders[..|before|] == before;
    WinnerByToken(table, contenders, |before|, w);
  }

  lemma NoTokenBefore(table: Table, listed: seq<string>, norm: string -> string, n: nat)
    requires n < |listed| && norm(norm(listed[n])) == norm(listed[n]) && forall p :: p in listed ==> p in table
    requires norm(listed[n]) in table ==> table[norm(listed[n])].mountToken.None?
    requires forall i :: 0 <= i < n && norm(listed[i]) == norm(listed[n]) ==> table[listed[i]].mountToken.None?
    ensures forall q :: q in Contenders(table, listed[..n], norm, norm(listed[n])) ==> q in table && table[q].mountToken.None?
  {
    var c := norm(listed[n]);
    ContendersAreRows(table, listed[..n], norm, c);
    hide Contenders;
    forall q | q in Contenders(table, listed[..n], norm, c)
      ensures q in table && table[q].mountToken.None?
    {
      if q != c {
        var i :| 0 <= i < n && listed[i] == q;
      }
    }
  }

  lemma WinnerByToken(table: Table, contenders: seq<string>, k: nat, w: string)
    requires Wins(table, contenders, w) && k < |contenders| && table[contenders[k]].mountToken.Some?
    requires forall q :: q in contenders[..k] ==> table[q].mountToken.None?
    ensures w == contenders[k]
  {
    assert forall j :: 0 <= j < k ==> contenders[j] in contenders[..k];
  }
}
