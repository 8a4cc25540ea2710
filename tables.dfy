/** Query helpers over database tables kept as sequences of rows in insertion order:
    `filter_by`, `get` by primary key, `delete`, and `order_by` on a column. */
module Tables {
  import opened Common

  /** `Model.query.filter_by(...)`: the rows satisfying `p`, in table order. */
  function Where<T(!new)>(rows: seq<T>, p: T -> bool): (r: seq<T>)
    ensures |r| <= |rows|
    ensures forall x :: x in r <==> x in rows && p(x)
    ensures forall k :: 0 <= k < |r| ==> p(r[k])
  {
    if rows == [] then []
    else if p(rows[0]) then [rows[0]] + Where(rows[1..], p)
    else Where(rows[1..], p)
  }

  /** Filtering keeps the relative order of rows: it is a sub-multiset that keeps every
      row satisfying `p` as often as it occurs. */
  lemma {:induction false} WhereCounts<T(!new)>(rows: seq<T>, p: T -> bool, x: T)
    ensures multiset(Where(rows, p))[x] == if p(x) then multiset(rows)[x] else 0
  {
    if rows != [] {
      var tail := rows[1..];
      WhereCounts(tail, p, x);
      assert multiset(rows) == multiset{rows[0]} + multiset(tail) by {
        assert rows == [rows[0]] + tail;
      }
      if p(rows[0]) {
        assert Where(rows, p) == [rows[0]] + Where(tail, p);
        assert multiset(Where(rows, p)) == multiset{rows[0]} + multiset(Where(tail, p));
      } else {
        assert Where(rows, p) == Where(tail, p);
      }
    }
  }

  /** Filtering by a predicate that every row satisfies changes nothing. */
  lemma {:induction false} WhereAll<T(!new)>(rows: seq<T>, p: T -> bool)
    requires forall k :: 0 <= k < |rows| ==> p(rows[k])
    ensures Where(rows, p) == rows
  {
    if rows != [] {
      WhereAll(rows[1..], p);
    }
  }

  /** Filtering a concatenation filters each part. */
  lemma {:induction false} WhereAppend<T(!new)>(xs: seq<T>, ys: seq<T>, p: T -> bool)
    ensures Where(xs + ys, p) == Where(xs, p) + Where(ys, p)
  {
    if xs != [] {
      var t := xs[1..];
      assert (xs + ys)[0] == xs[0] && (xs + ys)[1..] == t + ys;
      WhereAppend(t, ys, p);
      if p(xs[0]) {
        assert Where(xs + ys, p) == [xs[0]] + Where(t + ys, p);
        assert [xs[0]] + (Where(t, p) + Where(ys, p)) == ([xs[0]] + Where(t, p)) + Where(ys, p);
      } else {
        assert Where(xs + ys, p) == Where(t + ys, p);
      }
    } else {
      assert xs + ys == ys;
    }
  }

  /** `db.session.get(Model, key)`: the first row whose key column equals `k`. */
  function Lookup<T>(rows: seq<T>, key: T -> int, k: int): (r: Option<T>)
    ensures r.Some? ==> r.value in rows && key(r.value) == k
    ensures r.None? <==> forall x :: x in rows ==> key(x) != k
  {
    if rows == [] then None
    else if key(rows[0]) == k then Some(rows[0])
    else Lookup(rows[1..], key, k)
  }

  /** With unique keys, a row is found by its own key. */
  lemma {:induction false} LookupUnique<T>(rows: seq<T>, key: T -> int, x: T)
    requires KeysAscending(rows, key)
    requires x in rows
    ensures Lookup(rows, key, key(x)) == Some(x)
  {
    if rows[0] != x {
      assert x in rows[1..];
      assert key(rows[0]) != key(x) by {
        var j :| 1 <= j < |rows| && rows[j] == x;
      }
      LookupUnique(rows[1..], key, x);
    }
  }

  /** Primary keys strictly increase along the table (rows are appended with fresh ids). */
  predicate KeysAscending<T>(rows: seq<T>, key: T -> int) {
    forall i, j :: 0 <= i < j < |rows| ==> key(rows[i]) < key(rows[j])
  }

  /** Every primary key is below the next id the table will hand out. */
  predicate KeysBelow<T>(rows: seq<T>, key: T -> int, bound: int) {
    forall i :: 0 <= i < |rows| ==> key(rows[i]) < bound
  }

  /** `db.session.delete(row)` for the row with key `k`. */
  function Delete<T(!new)>(rows: seq<T>, key: T -> int, k: int): (r: seq<T>)
    ensures |r| <= |rows|
    ensures forall x :: x in r <==> x in rows && key(x) != k
  {
    Where(rows, x => key(x) != k)
  }

  /** With unique keys, deleting an existing key removes exactly one row and keeps the
      others in order. */
  lemma {:induction false} DeleteOne<T(!new)>(rows: seq<T>, key: T -> int, k: int)
    requires KeysAscending(rows, key)
    requires Lookup(rows, key, k).Some?
    ensures |Delete(rows, key, k)| == |rows| - 1
    ensures KeysAscending(Delete(rows, key, k), key)
  {
    DeleteKeepsAscending(rows, key, k);
    if key(rows[0]) == k {
      WhereAll(rows[1..], x => key(x) != k);
      assert Delete(rows, key, k) == Delete(rows[1..], key, k);
    } else {
      DeleteOne(rows[1..], key, k);
      assert Delete(rows, key, k) == [rows[0]] + Delete(rows[1..], key, k);
    }
  }

  lemma {:induction false} DeleteKeepsAscending<T(!new)>(rows: seq<T>, key: T -> int, k: int)
    requires KeysAscending(rows, key)
    ensures KeysAscending(Delete(rows, key, k), key)
  {
    if rows != [] {
      DeleteKeepsAscending(rows[1..], key, k);
      var rest := Delete(rows[1..], key, k);
      forall x | x in rest ensures key(rows[0]) < key(x) {
        var j :| 0 <= j < |rows[1..]| && rows[1..][j] == x;
        assert rows[j + 1] == x;
      }
    }
  }

  /** Appending a row with a key above every existing key keeps keys ascending. */
  lemma AppendKeepsAscending<T>(rows: seq<T>, key: T -> int, bound: int, x: T)
    requires KeysAscending(rows, key) && KeysBelow(rows, key, bound)
    requires key(x) == bound
    ensures KeysAscending(rows + [x], key) && KeysBelow(rows + [x], key, bound + 1)
  {
  }

  /** `[f(x) for x in xs]` where `f` may raise (`None`): the whole comprehension raises as soon
      as one element does. */
  function TryMap<A, B>(xs: seq<A>, f: A -> Option<B>): (r: Option<seq<B>>)
    ensures r.None? <==> exists k :: 0 <= k < |xs| && f(xs[k]).None?
    ensures r.Some? ==> |r.value| == |xs| && forall k :: 0 <= k < |xs| ==> f(xs[k]) == Some(r.value[k])
  {
    if xs == [] then Some([])
    else
      match f(xs[0])
      case None => None
      case Some(y) =>
        match TryMap(xs[1..], f)
        case None =>
          var k :| 0 <= k < |xs[1..]| && f(xs[1..][k]).None?;
          assert f(xs[k + 1]).None?;
          None
        case Some(rest) =>
          assert forall k | 1 <= k < |xs| :: xs[k] == xs[1..][k - 1];
          Some([y] + rest)
  }

  // ---------------------------------------------------------------- order_by

  /** Ascending order on a sort column. */
  predicate SortedBy<T>(rows: seq<T>, key: T -> int) {
    forall i, j :: 0 <= i < j < |rows| ==> key(rows[i]) <= key(rows[j])
  }

  /** Inserts `x` before the first row whose sort key is at least `x`'s. */
  function Insert<T>(x: T, sorted: seq<T>, key: T -> int): (r: seq<T>)
    ensures multiset(r) == multiset(sorted) + multiset{x}
    ensures |r| == |sorted| + 1
    ensures r[0] == x || (sorted != [] && r[0] == sorted[0])
  {
    if sorted == [] then [x]
    else if key(x) <= key(sorted[0]) then [x] + sorted
    else
      var rest := Insert(x, sorted[1..], key);
      assert multiset(sorted) == multiset{sorted[0]} + multiset(sorted[1..]) by {
        assert sorted == [sorted[0]] + sorted[1..];
      }
      assert multiset([sorted[0]] + rest) == multiset{sorted[0]} + multiset(rest);
      [sorted[0]] + rest
  }

  /** Inserting into a sorted sequence keeps it sorted. */
  lemma {:induction false} InsertKeepsOrder<T>(x: T, sorted: seq<T>, key: T -> int)
    requires SortedBy(sorted, key)
    ensures SortedBy(Insert(x, sorted, key), key)
  {
    if sorted == [] {
    } else if key(x) <= key(sorted[0]) {
      SortedCons(x, sorted, key);
    } else {
      var tail := sorted[1..];
      assert SortedBy(tail, key) by {
        forall i, j | 0 <= i < j < |tail| ensures key(tail[i]) <= key(tail[j]) {
          assert tail[i] == sorted[i + 1] && tail[j] == sorted[j + 1];
        }
      }
      InsertKeepsOrder(x, tail, key);
      assert tail != [] ==> key(sorted[0]) <= key(tail[0]);
      SortedCons(sorted[0], Insert(x, tail, key), key);
    }
  }

  /** A row no greater than the head of a sorted sequence can go in front of it. */
  lemma SortedCons<T>(h: T, rows: seq<T>, key: T -> int)
    requires SortedBy(rows, key)
    requires rows != [] ==> key(h) <= key(rows[0])
    ensures SortedBy([h] + rows, key)
  {
    var r := [h] + rows;
    forall i, j | 0 <= i < j < |r| ensures key(r[i]) <= key(r[j]) {
      if i == 0 {
        assert r[j] == rows[j - 1];
      } else {
        assert r[i] == rows[i - 1] && r[j] == rows[j - 1];
      }
    }
  }

  /** `query.order_by(column)`: the same rows, ascending by `key`. */
  function OrderBy<T>(rows: seq<T>, key: T -> int): (r: seq<T>)
    ensures SortedBy(r, key)
    ensures multiset(r) == multiset(rows)
    ensures |r| == |rows|
  {
    if rows == [] then []
    else
      assert rows == [rows[0]] + rows[1..];
      InsertKeepsOrder(rows[0], OrderBy(rows[1..], key), key);
      Insert(rows[0], OrderBy(rows[1..], key), key)
  }

  /** `query.order_by(column.desc())`: the same rows, descending by `key`. */
  function OrderByDesc<T>(rows: seq<T>, key: T -> int): (r: seq<T>)
    ensures forall i, j :: 0 <= i < j < |r| ==> key(r[i]) >= key(r[j])
    ensures multiset(r) == multiset(rows)
    ensures |r| == |rows|
  {
    var r := OrderBy(rows, x => -key(x));
    assert forall i, j :: 0 <= i < j < |r| ==> -key(r[i]) <= -key(r[j]);
    r
  }
}
