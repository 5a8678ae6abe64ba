/**
  A relational table as the CRUD layer sees it: rows by primary key, the order in
  which a plain SELECT returns them (insertion order, i.e. ascending key) and the
  key the engine hands to the next inserted row. Also the two query shapes every
  reader uses: WHERE (Filter) and OFFSET/LIMIT (Page, List).
*/
module Tables {
  import opened Common

  datatype Table<R(==,!new)> = Table(rows: map<int, R>, ids: seq<int>, nextId: int)
  {
    ghost predicate Valid()
    {
      && 1 <= nextId
      && (forall i :: 0 <= i < |ids| ==> ids[i] in rows && 1 <= ids[i] < nextId)
      && (forall id :: id in rows ==> id in ids)
      && Distinct(ids)
    }

    /** The rows in scan order: every stored row appears, at the place of its key. */
    function Rows(): (r: seq<R>)
      requires Valid()
      ensures |r| == |ids|
      ensures forall i :: 0 <= i < |ids| ==> r[i] == rows[ids[i]]
      ensures forall id :: id in rows ==> rows[id] in r
    {
      var r := seq(|ids|, i requires 0 <= i < |ids| => rows[ids[i]]);
      assert forall id :: id in rows ==> rows[id] in r by {
        forall id | id in rows
          ensures rows[id] in r
        {
          var i :| 0 <= i < |ids| && ids[i] == id;
          assert r[i] == rows[id];
        }
      }
      r
    }

    /** INSERT: the row gets the next key and goes last in scan order. */
    function Insert(r: R): (t: Table<R>)
      requires Valid()
      ensures t.Valid()
      ensures nextId !in rows && t.rows == rows[nextId := r]
      ensures t.Rows() == Rows() + [r]
      ensures t.nextId == nextId + 1
    {
      var t := Table(rows[nextId := r], ids + [nextId], nextId + 1);
      assert t.Rows() == Rows() + [r] by {
        assert forall i :: 0 <= i < |ids| ==> t.Rows()[i] == Rows()[i];
      }
      t
    }

    /** UPDATE of one stored row, keeping its key and its place in scan order. */
    function Put(id: int, r: R): (t: Table<R>)
      requires Valid() && id in rows
      ensures t.Valid() && t.ids == ids && t.nextId == nextId
      ensures t.rows == rows[id := r]
    {
      Table(rows[id := r], ids, nextId)
    }

    /**
      SELECT ... OFFSET skip LIMIT limit: at most `limit` rows, in scan order,
      starting at position `skip`. Every paging reader of the CRUD layer is this
      query on its own table, with the same defaults.
    */
    function List(skip: nat := 0, limit: nat := 100): (r: seq<R>)
      requires Valid()
      ensures |r| == Min(limit, |ids| - Min(skip, |ids|))
      ensures forall i :: 0 <= i < |r| ==> skip + i < |ids| && r[i] == rows[ids[skip + i]]
    {
      Page(Rows(), skip, limit)
    }

    /** DELETE of one stored row; no other row moves or changes. */
    function Delete(id: int): (t: Table<R>)
      requires Valid() && id in rows
      ensures t.Valid() && t.nextId == nextId
      ensures t.rows.Keys == rows.Keys - {id}
      ensures forall k :: k in t.rows ==> t.rows[k] == rows[k]
    {
      var rest := Without(ids, id);
      assert forall i :: 0 <= i < |rest| ==> rest[i] in rest;
      Table(rows - {id}, rest, nextId)
    }
  }

  /** `s` with every occurrence of `v` taken out, the rest in order. */
  function Without(s: seq<int>, v: int): (r: seq<int>)
    ensures forall x :: x in r <==> x in s && x != v
    ensures Distinct(s) ==> Distinct(r)
    ensures |r| <= |s|
  {
    if s == [] then []
    else
      var rest := Without(s[1..], v);
      if s[0] == v then rest
      else
        assert Distinct(s) ==> s[0] !in rest;
        [s[0]] + rest
  }

  /** WHERE p: the rows of `s` that satisfy `p`, in their order. */
  function Filter<R(==,!new)>(s: seq<R>, p: R -> bool): (r: seq<R>)
    ensures |r| <= |s|
    ensures forall x :: x in r <==> x in s && p(x)
    ensures forall x :: multiset(r)[x] == if p(x) then multiset(s)[x] else 0
  {
    if s == [] then []
    else
      assert s == [s[0]] + s[1..];
      (if p(s[0]) then [s[0]] else []) + Filter(s[1..], p)
  }

  function Min(a: int, b: int): int
  {
    if a <= b then a else b
  }

  /** OFFSET skip LIMIT limit. */
  function Page<R>(s: seq<R>, skip: nat, limit: nat): (r: seq<R>)
    ensures |r| == Min(limit, |s| - Min(skip, |s|))
    ensures forall i :: 0 <= i < |r| ==> skip + i < |s| && r[i] == s[skip + i]
  {
    if skip >= |s| then []
    else if |s| - skip <= limit then s[skip..]
    else s[skip..skip + limit]
  }
}
