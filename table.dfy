/**
 * How the database evaluates the simple queries the repositories issue over
 * one table: a WHERE condition keeps rows in table order, COUNT counts them,
 * firstResultOptional takes the first, and a Page is a window of the result.
 */
module Table {
  import opened Wrappers

  /** The rows of `rows` that satisfy p, in table order. */
  function Where<R>(rows: seq<R>, p: R -> bool): (r: seq<R>)
    ensures |r| <= |rows|
  {
    if rows == [] then []
    else (if p(rows[0]) then [rows[0]] else []) + Where(rows[1..], p)
  }

  /** A find returns table rows that pass, and every table row that passes. */
  lemma {:induction false} WhereMembers<R>(rows: seq<R>, p: R -> bool)
    ensures forall i :: 0 <= i < |Where(rows, p)| ==> Where(rows, p)[i] in rows
    ensures forall i :: 0 <= i < |Where(rows, p)| ==> p(Where(rows, p)[i])
    ensures forall i :: 0 <= i < |rows| && p(rows[i]) ==> rows[i] in Where(rows, p)
    decreases |rows|
  {
    if rows != [] {
      var rest := rows[1..];
      var found := Where(rest, p);
      WhereMembers(rest, p);
      var h := if p(rows[0]) then [rows[0]] else [];
      var r := Where(rows, p);
      assert r == h + found;
      forall i | 0 <= i < |r| ensures r[i] in rows && p(r[i]) {
        if i < |h| {
          assert r[i] == rows[0];
        } else {
          assert r[i] == found[i - |h|];
          var k :| 0 <= k < |rest| && rest[k] == r[i];
          assert rows[k + 1] == r[i];
        }
      }
      forall i | 0 <= i < |rows| && p(rows[i]) ensures rows[i] in r {
        if i == 0 {
          assert r[0] == rows[0];
        } else {
          assert rows[i] == rest[i - 1];
          var k :| 0 <= k < |found| && found[k] == rows[i];
          assert r[|h| + k] == rows[i];
        }
      }
    }
  }

  /** SELECT COUNT(*) ... WHERE p, counted row by row. */
  function CountIf<R>(rows: seq<R>, p: R -> bool): (n: nat)
    ensures n <= |rows|
    ensures n > 0 <==> exists i :: 0 <= i < |rows| && p(rows[i])
  {
    if rows == [] then 0
    else (if p(rows[0]) then 1 else 0) + CountIf(rows[1..], p)
  }

  /** A COUNT over a condition agrees with the number of rows a find over it returns. */
  lemma {:induction false} CountIfIsWhereLength<R>(rows: seq<R>, p: R -> bool)
    ensures CountIf(rows, p) == |Where(rows, p)|
    decreases |rows|
  {
    if rows != [] {
      CountIfIsWhereLength(rows[1..], p);
    }
  }

  /** firstResultOptional: the first row, if any. */
  function FirstOf<R>(rows: seq<R>): (r: Option<R>)
    ensures r.None? <==> rows == []
    ensures r.Some? ==> r.value == rows[0]
  {
    if rows == [] then None else Some(rows[0])
  }

  /** The first row of a filtered find is the first table row that passes. */
  lemma {:induction false} FirstOfWhere<R>(rows: seq<R>, p: R -> bool)
    ensures var r := FirstOf(Where(rows, p));
      && (r.Some? <==> exists i :: 0 <= i < |rows| && p(rows[i]))
      && (r.Some? ==> exists i :: 0 <= i < |rows| && rows[i] == r.value && p(r.value)
                        && forall j :: 0 <= j < i ==> !p(rows[j]))
    decreases |rows|
  {
    if rows != [] && !p(rows[0]) {
      FirstOfWhere(rows[1..], p);
      var r := FirstOf(Where(rows, p));
      if r.Some? {
        var i :| 0 <= i < |rows[1..]| && rows[1..][i] == r.value && p(r.value)
                 && forall j :: 0 <= j < i ==> !p(rows[1..][j]);
        assert rows[i + 1] == r.value;
        assert forall j :: 0 <= j < i + 1 ==> !p(rows[j]) by {
          forall j | 0 <= j < i + 1 ensures !p(rows[j]) {
            if j > 0 { assert rows[j] == rows[1..][j - 1]; }
          }
        }
      } else {
        forall i | 0 <= i < |rows| ensures !p(rows[i]) {
          if i > 0 { assert rows[i] == rows[1..][i - 1]; }
        }
      }
    } else if rows != [] {
      assert Where(rows, p)[0] == rows[0];
    }
  }

  /** The index of the first row satisfying p, or -1: where a managed row sits in its table. */
  function IndexWhere<R>(rows: seq<R>, p: R -> bool): (i: int)
    ensures -1 <= i < |rows|
    ensures i >= 0 ==> p(rows[i]) && forall j :: 0 <= j < i ==> !p(rows[j])
    ensures i == -1 ==> forall j :: 0 <= j < |rows| ==> !p(rows[j])
  {
    if rows == [] then -1
    else if p(rows[0]) then 0
    else
      var i := IndexWhere(rows[1..], p);
      if i == -1 then -1 else i + 1
  }

  /** A condition every row passes keeps the whole table. */
  lemma {:induction false} WhereAll<R>(rows: seq<R>, p: R -> bool)
    requires forall j :: 0 <= j < |rows| ==> p(rows[j])
    ensures Where(rows, p) == rows
    decreases |rows|
  {
    if rows != [] {
      WhereAll(rows[1..], p);
      assert [rows[0]] + rows[1..] == rows;
    }
  }

  /** A condition splits over a concatenation of tables. */
  lemma {:induction false} WhereAppend<R>(a: seq<R>, b: seq<R>, p: R -> bool)
    ensures Where(a + b, p) == Where(a, p) + Where(b, p)
    decreases |a|
  {
    if a == [] {
      assert a + b == b;
    } else {
      var h := if p(a[0]) then [a[0]] else [];
      assert (a + b)[0] == a[0] && (a + b)[1..] == a[1..] + b;
      assert Where(a + b, p) == h + Where(a[1..] + b, p);
      WhereAppend(a[1..], b, p);
      assert Where(a, p) == h + Where(a[1..], p);
      assert h + (Where(a[1..], p) + Where(b, p)) == (h + Where(a[1..], p)) + Where(b, p);
    }
  }

  /** A condition that fails on row i alone removes exactly that row. */
  lemma {:induction false} WhereDropsOne<R>(rows: seq<R>, p: R -> bool, i: int)
    requires 0 <= i < |rows|
    requires forall j :: 0 <= j < |rows| ==> (p(rows[j]) <==> j != i)
    ensures Where(rows, p) == rows[..i] + rows[i + 1..]
  {
    var before, after := rows[..i], rows[i + 1..];
    WhereSplitAt(rows, p, i);
    WhereAllSlice(rows, p, 0, i);
    WhereAllSlice(rows, p, i + 1, |rows|);
    assert rows[0..i] == before && rows[i + 1..|rows|] == after;
    WhereFailing(rows[i], p);
    assert [] + after == after;
  }

  /** A table is the rows before i, row i, and the rows after it, each filtered in turn. */
  lemma {:induction false} WhereSplitAt<R>(rows: seq<R>, p: R -> bool, i: int)
    requires 0 <= i < |rows|
    ensures Where(rows, p) == Where(rows[..i], p) + (Where([rows[i]], p) + Where(rows[i + 1..], p))
  {
    assert rows == rows[..i] + ([rows[i]] + rows[i + 1..]);
    WhereAppend(rows[..i], [rows[i]] + rows[i + 1..], p);
    WhereAppend([rows[i]], rows[i + 1..], p);
  }

  /** A stretch of rows that all pass is kept whole. */
  lemma {:induction false} WhereAllSlice<R>(rows: seq<R>, p: R -> bool, lo: int, hi: int)
    requires 0 <= lo <= hi <= |rows|
    requires forall j :: lo <= j < hi ==> p(rows[j])
    ensures Where(rows[lo..hi], p) == rows[lo..hi]
  {
    var part := rows[lo..hi];
    forall j | 0 <= j < |part| ensures p(part[j]) {
      assert part[j] == rows[lo + j];
    }
    WhereAll(part, p);
  }

  /** A single row that fails is dropped. */
  lemma {:induction false} WhereFailing<R>(x: R, p: R -> bool)
    requires !p(x)
    ensures Where([x], p) == []
  {
    assert [x][1..] == [];
  }

  /** Page.of(index, size): the rows a paged query returns. */
  function PageOf<R>(rows: seq<R>, index: nat, size: nat): (r: seq<R>)
    ensures |r| <= size && |r| <= |rows|
    ensures index * size <= |rows| ==> |r| == if |rows| - index * size < size then |rows| - index * size else size
    ensures index * size >= |rows| ==> r == []
    ensures forall k :: 0 <= k < |r| ==> r[k] == rows[index * size + k]
  {
    var lo := if index * size < |rows| then index * size else |rows|;
    var hi := if lo + size < |rows| then lo + size else |rows|;
    rows[lo..hi]
  }

  /** A property every row has holds for every row of any page. */
  lemma {:induction false} PageKeeps<R>(rows: seq<R>, index: nat, size: nat, P: R -> bool)
    requires forall i :: 0 <= i < |rows| ==> P(rows[i])
    ensures forall i :: 0 <= i < |PageOf(rows, index, size)| ==> P(PageOf(rows, index, size)[i])
  {
    var page := PageOf(rows, index, size);
    forall i | 0 <= i < |page| ensures P(page[i]) {
      assert page[i] == rows[index * size + i];
    }
  }

  /** A property every row has holds for every row of any reordering. */
  lemma {:induction false} PermutationKeeps<R>(rows: seq<R>, reordered: seq<R>, P: R -> bool)
    requires multiset(reordered) == multiset(rows)
    requires forall i :: 0 <= i < |rows| ==> P(rows[i])
    ensures forall i :: 0 <= i < |reordered| ==> P(reordered[i])
  {
    forall i | 0 <= i < |reordered| ensures P(reordered[i]) {
      assert reordered[i] in multiset(rows);
      var k :| 0 <= k < |rows| && rows[k] == reordered[i];
    }
  }

  /** A relation every earlier row has to every later row holds on any page. */
  lemma {:induction false} PageKeepsOrder<R>(rows: seq<R>, index: nat, size: nat, P: (R, R) -> bool)
    requires forall i, j :: 0 <= i < j < |rows| ==> P(rows[i], rows[j])
    ensures forall i, j :: 0 <= i < j < |PageOf(rows, index, size)| ==>
      P(PageOf(rows, index, size)[i], PageOf(rows, index, size)[j])
  {
    var page := PageOf(rows, index, size);
    forall i, j | 0 <= i < j < |page| ensures P(page[i], page[j]) {
      assert page[i] == rows[index * size + i] && page[j] == rows[index * size + j];
    }
  }

  /** Removing row i shifts the later rows one place to the front. */
  lemma {:induction false} RemovedAt<R>(rows: seq<R>, i: int)
    requires 0 <= i < |rows|
    ensures |rows[..i] + rows[i + 1..]| == |rows| - 1
    ensures forall k :: 0 <= k < i ==> (rows[..i] + rows[i + 1..])[k] == rows[k]
    ensures forall k :: i < k < |rows| ==> (rows[..i] + rows[i + 1..])[k - 1] == rows[k]
  {
  }

  /** A property of every row and a relation between every earlier and later row survive removing a row. */
  lemma {:induction false} RemoveKeeps<R>(rows: seq<R>, i: int, P: R -> bool, Q: (R, R) -> bool)
    requires 0 <= i < |rows|
    requires forall k :: 0 <= k < |rows| ==> P(rows[k])
    requires forall j, k :: 0 <= j < k < |rows| ==> Q(rows[j], rows[k])
    ensures var s := rows[..i] + rows[i + 1..];
      && (forall k :: 0 <= k < |s| ==> P(s[k]))
      && (forall j, k :: 0 <= j < k < |s| ==> Q(s[j], s[k]))
  {
    var s := rows[..i] + rows[i + 1..];
    RemovedAt(rows, i);
    forall j, k | 0 <= j < k < |s| ensures Q(s[j], s[k]) {
      var j', k' := if j < i then j else j + 1, if k < i then k else k + 1;
      assert s[j] == rows[j'] && s[k] == rows[k'];
    }
  }

  /** A property every row has holds for any rows drawn from them. */
  lemma {:induction false} DrawnKeeps<R>(rows: seq<R>, drawn: seq<R>, P: R -> bool)
    requires forall i :: 0 <= i < |drawn| ==> drawn[i] in rows
    requires forall k :: 0 <= k < |rows| ==> P(rows[k])
    ensures forall i :: 0 <= i < |drawn| ==> P(drawn[i])
  {
    forall i | 0 <= i < |drawn| ensures P(drawn[i]) {
      var k :| 0 <= k < |rows| && rows[k] == drawn[i];
    }
  }

  /**
   * A property of every row and a symmetric relation between every two
   * rows survive overwriting row i with a row that has the property and
   * the relation to every other row.
   */
  lemma {:induction false} ReplaceKeeps<R>(rows: seq<R>, i: int, row: R, s: seq<R>, P: R -> bool, Q: (R, R) -> bool)
    requires 0 <= i < |rows| && P(row) && s == rows[i := row]
    requires forall k :: 0 <= k < |rows| ==> P(rows[k])
    requires forall j, k :: 0 <= j < k < |rows| ==> Q(rows[j], rows[k])
    requires forall k :: 0 <= k < |rows| && k != i ==> Q(rows[k], row) && Q(row, rows[k])
    ensures forall k :: 0 <= k < |s| ==> P(s[k])
    ensures forall j, k :: 0 <= j < k < |s| ==> Q(s[j], s[k])
  {
    forall j, k | 0 <= j < k < |rows| ensures Q(s[j], s[k]) {
      if j == i {
        assert s[k] == rows[k];
      } else if k == i {
        assert s[j] == rows[j];
      } else {
        assert s[j] == rows[j] && s[k] == rows[k];
      }
    }
  }
}
