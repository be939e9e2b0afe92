/** The semantics of `SELECT ... WHERE <keep> ORDER BY <rank> [DESC]` over one
    table: the rows that satisfy the condition, each once, ordered by the rank
    column. Rows with equal rank may come in any order, as in SQL. */
module Query {
  import opened Common

  datatype Direction = Asc | Desc

  /** a may come before b in a result ordered in direction d. */
  predicate Before(d: Direction, a: int, b: int)
  {
    if d == Desc then a >= b else a <= b
  }

  ghost predicate Distinct<K>(ids: seq<K>)
  {
    forall i, j :: 0 <= i < j < |ids| ==> ids[i] != ids[j]
  }

  ghost predicate Sorted<K>(ids: seq<K>, rank: K -> int, d: Direction)
  {
    forall i, j :: 0 <= i < j < |ids| ==> Before(d, rank(ids[i]), rank(ids[j]))
  }

  /** ids is exactly the keys of table whose rows satisfy keep, without
      repetition, in the order the rank asks for. */
  ghost predicate IsSelection<K, R>(ids: seq<K>, table: map<K, R>, keep: (K, R) -> bool, rank: K -> int, d: Direction)
  {
    && (forall i :: 0 <= i < |ids| ==> ids[i] in table && keep(ids[i], table[ids[i]]))
    && (forall k :: k in table && keep(k, table[k]) ==> k in ids)
    && Distinct(ids)
    && Sorted(ids, rank, d)
  }

  /** The position at which k goes into the sorted ids: after every id that
      may precede it, before every id that may not. */
  method InsertionPoint<K>(ids: seq<K>, k: K, rank: K -> int, d: Direction) returns (p: nat)
    requires Sorted(ids, rank, d)
    ensures p <= |ids|
    ensures forall i :: 0 <= i < p ==> Before(d, rank(ids[i]), rank(k))
    ensures forall i :: p <= i < |ids| ==> Before(d, rank(k), rank(ids[i]))
  {
    p := 0;
    while p < |ids| && Before(d, rank(ids[p]), rank(k))
      invariant p <= |ids|
      invariant forall i :: 0 <= i < p ==> Before(d, rank(ids[i]), rank(k))
    {
      p := p + 1;
    }
    if p < |ids| {
      forall i | p <= i < |ids|
        ensures Before(d, rank(k), rank(ids[i]))
      {
        assert Before(d, rank(ids[p]), rank(ids[i])) || i == p;
      }
    }
  }

  /** ids with k put at position p. */
  function Inserted<K>(ids: seq<K>, k: K, p: nat): (r: seq<K>)
    requires p <= |ids|
    ensures |r| == |ids| + 1
    ensures forall i :: 0 <= i < p ==> r[i] == ids[i]
    ensures r[p] == k
    ensures forall i :: p < i < |r| ==> r[i] == ids[i - 1]
  {
    ids[..p] + [k] + ids[p..]
  }

  /** Putting k at such a position keeps the ids distinct and ordered. */
  lemma InsertKeepsOrder<K>(ids: seq<K>, k: K, p: nat, rank: K -> int, d: Direction)
    requires p <= |ids| && k !in ids
    requires Distinct(ids) && Sorted(ids, rank, d)
    requires forall i :: 0 <= i < p ==> Before(d, rank(ids[i]), rank(k))
    requires forall i :: p <= i < |ids| ==> Before(d, rank(k), rank(ids[i]))
    ensures Distinct(Inserted(ids, k, p))
    ensures Sorted(Inserted(ids, k, p), rank, d)
    ensures forall x :: x in Inserted(ids, k, p) <==> x in ids || x == k
  {
    var r := Inserted(ids, k, p);
    forall i, j | 0 <= i < j < |r|
      ensures r[i] != r[j] && Before(d, rank(r[i]), rank(r[j]))
    {
      if j < p {
      } else if i > p {
      } else if i == p {
        assert r[j] == ids[j - 1];
      } else if j == p {
      } else {
        assert r[j] == ids[j - 1];
      }
    }
    forall x | x in ids
      ensures x in r
    {
      var i :| 0 <= i < |ids| && ids[i] == x;
      if i < p { assert r[i] == x; } else { assert r[i + 1] == x; }
    }
  }

  /** Runs the query: scans the table once, keeping the matching rows in
      rank order. */
  method SelectOrdered<K, R>(table: map<K, R>, keep: (K, R) -> bool, rank: K -> int, d: Direction)
    returns (ids: seq<K>)
    ensures IsSelection(ids, table, keep, rank, d)
  {
    var rest := table.Keys;
    ids := [];
    while rest != {}
      invariant rest <= table.Keys
      invariant forall i :: 0 <= i < |ids| ==> ids[i] in table && ids[i] !in rest && keep(ids[i], table[ids[i]])
      invariant forall k :: k in table && k !in rest && keep(k, table[k]) ==> k in ids
      invariant Distinct(ids)
      invariant Sorted(ids, rank, d)
      decreases rest
    {
      var k :| k in rest;
      if keep(k, table[k]) {
        var p := InsertionPoint(ids, k, rank, d);
        InsertKeepsOrder(ids, k, p, rank, d);
        ids := Inserted(ids, k, p);
      }
      rest := rest - {k};
    }
  }

  /** A repetition-free list of exactly the keys of a table is as long as the
      table. */
  lemma {:induction false} DistinctKeysCard<K, R>(ids: seq<K>, table: map<K, R>)
    requires Distinct(ids)
    requires forall i :: 0 <= i < |ids| ==> ids[i] in table
    requires forall k :: k in table ==> k in ids
    ensures |ids| == |table|
    decreases |ids|
  {
    if ids == [] {
      if table.Keys != {} {
        var k := Pick(table.Keys);
      }
    } else {
      var k := ids[|ids| - 1];
      var rest := ids[..|ids| - 1];
      var smaller := table - {k};
      forall i | 0 <= i < |rest|
        ensures rest[i] in smaller
      {
        assert rest[i] == ids[i] && ids[i] != ids[|ids| - 1];
      }
      forall x | x in smaller
        ensures x in rest
      {
        assert x in ids && x != k;
        var i :| 0 <= i < |ids| && ids[i] == x;
        assert i < |ids| - 1 && rest[i] == x;
      }
      DistinctKeysCard(rest, smaller);
      assert smaller.Keys == table.Keys - {k};
    }
  }
}
