/**
 * One table of the relational store, as the `Donor` and `Patient` models
 * use it: rows keyed by an integer primary key that the store assigns.
 * Both tables have the same shape, so one module serves both.
 */
module Store {
  import opened Wrappers

  /** A row of `Donor` or `Patient`: the primary key and three text columns. */
  datatype Record = Record(id: int, name: string, bloodType: string, location: string)

  /** The three fields a client submits on registration or update. */
  datatype Fields = Fields(name: string, bloodType: string, location: string)

  type Table = map<int, Record>

  /** Every row is stored under its own id, and ids are positive. */
  predicate Valid(t: Table) {
    forall k :: k in t ==> k >= 1 && t[k].id == k
  }

  predicate Increasing(ks: seq<int>) {
    forall i, j :: 0 <= i < j < |ks| ==> ks[i] < ks[j]
  }

  /** `m` is the least element of `s`. */
  predicate IsLeast(m: int, s: set<int>) {
    m in s && forall k :: k in s ==> m <= k
  }

  /** A set of integers holding `x` has a least element. */
  lemma LeastExists(s: set<int>, x: int)
    requires x in s
    ensures exists m :: IsLeast(m, s)
    decreases |s|
  {
    var rest := s - {x};
    assert (forall k :: k !in rest) ==> rest == {};
    if rest == {} {
      forall k | k in s ensures x <= k {
        assert k !in rest;
      }
      assert IsLeast(x, s);
    } else {
      var y :| y in rest;
      LeastExists(rest, y);
      var m :| IsLeast(m, rest);
      var least := if x < m then x else m;
      forall k | k in s ensures least <= k {
        if k != x { assert k in rest; }
      }
      assert IsLeast(least, s);
    }
  }

  function Least(s: set<int>): (m: int)
    requires s != {}
    ensures IsLeast(m, s)
  {
    assert (forall k :: k !in s) ==> s == {};
    var x :| x in s;
    LeastExists(s, x);
    var m :| IsLeast(m, s);
    m
  }

  /** The keys of a table in ascending order: the order of a rowid scan. */
  function SortedKeys(s: set<int>): (ks: seq<int>)
    ensures Increasing(ks)
    ensures forall i :: 0 <= i < |ks| ==> ks[i] in s
    ensures forall k :: k in s ==> k in ks
    ensures |ks| == |s|
    decreases |s|
  {
    if s == {} then []
    else
      var m := Least(s);
      [m] + SortedKeys(s - {m})
  }

  /**
   * The key SQLite gives a new row of an `INTEGER PRIMARY KEY` table:
   * one more than the largest key in use, or 1 for an empty table.
   */
  function FreshId(t: Table): (id: int)
    ensures forall k :: k in t ==> k < id
    ensures t == map[] ==> id == 1
    ensures t != map[] ==> id - 1 in t
    ensures Valid(t) ==> id >= 1
  {
    var ks := SortedKeys(t.Keys);
    if |ks| == 0 then 1
    else
      assert ks[|ks| - 1] in t;
      ks[|ks| - 1] + 1
  }

  /**
   * `after` is `before` with one row added under the new key `id`, holding
   * the submitted fields verbatim; every earlier row is unchanged.
   */
  predicate Added(before: Table, after: Table, f: Fields, id: int) {
    && id !in before
    && after.Keys == before.Keys + {id}
    && after[id] == Record(id, f.name, f.bloodType, f.location)
    && forall k :: k in before ==> after[k] == before[k]
  }

  /** `db.session.add` of a new row followed by a commit. */
  function Insert(t: Table, f: Fields): (r: (int, Table))
    ensures Added(t, r.1, f, r.0)
    ensures forall k :: k in t ==> k < r.0
    ensures Valid(t) ==> Valid(r.1)
  {
    var id := FreshId(t);
    var t' := t[id := Record(id, f.name, f.bloodType, f.location)];
    AddedAtFreshId(t, f, id, t');
    (id, t')
  }

  lemma AddedAtFreshId(t: Table, f: Fields, id: int, t': Table)
    requires id == FreshId(t)
    requires t' == t[id := Record(id, f.name, f.bloodType, f.location)]
    ensures Added(t, t', f, id)
    ensures Valid(t) ==> Valid(t')
  {
    if Valid(t) {
      forall k | k in t' ensures k >= 1 && t'[k].id == k {
        if k != id { assert k in t; }
      }
    }
  }

  /**
   * `after` is `before` with the three mutable columns of the row at `id`
   * replaced by the submitted fields; its id and every other row unchanged.
   */
  predicate Updated(before: Table, after: Table, id: int, f: Fields) {
    && id in before
    && after.Keys == before.Keys
    && after[id] == Record(before[id].id, f.name, f.bloodType, f.location)
    && forall k :: k in before && k != id ==> after[k] == before[k]
  }

  /**
   * `after` is `before` without the row at `id`; every other row unchanged.
   */
  predicate Deleted(before: Table, after: Table, id: int) {
    && id in before
    && after.Keys == before.Keys - {id}
    && forall k :: k in after ==> after[k] == before[k]
  }

  /**
   * Assigning the three mutable columns of the row at `id` and committing;
   * `None` when no such row exists.
   */
  function Update(t: Table, id: int, f: Fields): (r: Option<Table>)
    ensures r.Some? <==> id in t
    ensures r.Some? ==> Updated(t, r.value, id, f)
    ensures r.Some? && Valid(t) ==> Valid(r.value)
  {
    if id !in t then None
    else Some(t[id := t[id].(name := f.name, bloodType := f.bloodType, location := f.location)])
  }

  /** Deleting the row at `id`; `None` when no such row exists. */
  function Delete(t: Table, id: int): (r: Option<Table>)
    ensures r.Some? <==> id in t
    ensures r.Some? ==> Deleted(t, r.value, id)
    ensures r.Some? && Valid(t) ==> Valid(r.value)
  {
    if id !in t then None else Some(t - {id})
  }

  /** `query.get(id)`. */
  function Get(t: Table, id: int): (r: Option<Record>)
    ensures r.Some? <==> id in t
    ensures r.Some? ==> r.value == t[id]
  {
    if id in t then Some(t[id]) else None
  }

  /** The ids of `rows` strictly ascend. */
  predicate IdsIncreasing(rows: seq<Record>) {
    forall i, j :: 0 <= i < j < |rows| ==> rows[i].id < rows[j].id
  }

  /**
   * `rows` lists `t` exactly: one entry per row, every stored row present,
   * each entry the row stored under its id, ids ascending.
   */
  predicate Lists(t: Table, rows: seq<Record>) {
    && |rows| == |t|
    && (forall k :: k in t ==> t[k] in rows)
    && (Valid(t) ==> forall i :: 0 <= i < |rows| ==> rows[i].id in t && t[rows[i].id] == rows[i])
    && (Valid(t) ==> IdsIncreasing(rows))
  }

  /** `query.all()`: every row once, in ascending key order. */
  function All(t: Table): (rows: seq<Record>)
    ensures Lists(t, rows)
  {
    var ks := SortedKeys(t.Keys);
    var rows := RowsAt(t, ks);
    RowsFacts(t, ks, rows);
    rows
  }

  /** The rows stored under the keys `ks`, in that order. */
  function RowsAt(t: Table, ks: seq<int>): (rows: seq<Record>)
    requires forall i :: 0 <= i < |ks| ==> ks[i] in t
    ensures |rows| == |ks| && forall i :: 0 <= i < |ks| ==> rows[i] == t[ks[i]]
  {
    if ks == [] then [] else [t[ks[0]]] + RowsAt(t, ks[1..])
  }

  lemma RowsFacts(t: Table, ks: seq<int>, rows: seq<Record>)
    requires Increasing(ks) && |ks| == |t.Keys|
    requires forall i :: 0 <= i < |ks| ==> ks[i] in t
    requires forall k :: k in t ==> k in ks
    requires |rows| == |ks| && forall i :: 0 <= i < |ks| ==> rows[i] == t[ks[i]]
    ensures Lists(t, rows)
  {
    assert |t| == |t.Keys|;
    RowsComplete(t, ks, rows);
    RowsOrdered(t, ks, rows);
  }

  lemma RowsComplete(t: Table, ks: seq<int>, rows: seq<Record>)
    requires forall i :: 0 <= i < |ks| ==> ks[i] in t
    requires forall k :: k in t ==> k in ks
    requires |rows| == |ks| && forall i :: 0 <= i < |ks| ==> rows[i] == t[ks[i]]
    ensures forall k :: k in t ==> t[k] in rows
  {
    forall k | k in t ensures t[k] in rows {
      var i := IndexOf(ks, k);
      assert rows[i] == t[k];
    }
  }

  lemma RowsOrdered(t: Table, ks: seq<int>, rows: seq<Record>)
    requires Increasing(ks) && forall i :: 0 <= i < |ks| ==> ks[i] in t
    requires |rows| == |ks| && forall i :: 0 <= i < |ks| ==> rows[i] == t[ks[i]]
    ensures Valid(t) ==> IdsIncreasing(rows)
    ensures Valid(t) ==> forall i :: 0 <= i < |rows| ==> rows[i].id in t && t[rows[i].id] == rows[i]
  {
    if Valid(t) {
      forall i | 0 <= i < |rows| ensures rows[i].id == ks[i] {
        assert ks[i] in t;
      }
    }
  }

  function IndexOf(ks: seq<int>, k: int): (i: nat)
    requires k in ks
    ensures i < |ks| && ks[i] == k
  {
    if ks[0] == k then 0 else 1 + IndexOf(ks[1..], k)
  }
}
