/** Query shapes over database rows: `filter`, `ORDER BY created_at DESC`
    and `.offset(skip).limit(limit)`, for any row type with a creation
    time. */
module Rows {

  /** `.filter(...)`: the rows that pass, in table order. */
  function Filter<T(!new)>(rows: seq<T>, keep: T -> bool): (r: seq<T>)
    ensures |r| <= |rows|
    ensures forall x :: x in r <==> x in rows && keep(x)
  {
    if rows == [] then []
    else if keep(rows[0]) then [rows[0]] + Filter(rows[1..], keep)
    else Filter(rows[1..], keep)
  }

  /** Rows in descending creation time. */
  predicate NewestFirst<T>(rows: seq<T>, at: T -> int)
  {
    forall i, j :: 0 <= i < j < |rows| ==> at(rows[i]) >= at(rows[j])
  }

  /** The tail of a newest-first list is newest-first and no newer than its head. */
  lemma NewestFirstTail<T>(rows: seq<T>, at: T -> int)
    requires |rows| > 0 && NewestFirst(rows, at)
    ensures NewestFirst(rows[1..], at)
    ensures forall x :: x in rows ==> at(rows[0]) >= at(x)
  {
    forall x | x in rows ensures at(rows[0]) >= at(x) {
      var k :| 0 <= k < |rows| && rows[k] == x;
    }
  }

  /** A row at least as new as every row of a newest-first list may lead it. */
  lemma NewestFirstCons<T>(x: T, rest: seq<T>, at: T -> int)
    requires NewestFirst(rest, at)
    requires forall y :: y in rest ==> at(x) >= at(y)
    ensures NewestFirst([x] + rest, at)
  {
    var r := [x] + rest;
    forall i, j | 0 <= i < j < |r| ensures at(r[i]) >= at(r[j]) {
      assert r[j] == rest[j - 1] && r[j] in rest;
      if i > 0 { assert r[i] == rest[i - 1]; }
    }
  }

  lemma NewestFirstLead<T>(n: T, rows: seq<T>, at: T -> int)
    requires NewestFirst(rows, at) && (rows == [] || at(rows[0]) <= at(n))
    ensures NewestFirst([n] + rows, at)
  {
    if rows != [] { NewestFirstTail(rows, at); }
    NewestFirstCons(n, rows, at);
  }

  /** Puts `n` before the first row that is not newer than it. */
  function InsertNewest<T(!new)>(n: T, rows: seq<T>, at: T -> int): (r: seq<T>)
    ensures multiset(r) == multiset(rows) + multiset{n}
  {
    if rows == [] || at(rows[0]) <= at(n) then [n] + rows
    else
      assert rows == [rows[0]] + rows[1..];
      [rows[0]] + InsertNewest(n, rows[1..], at)
  }

  /** Inserting into a newest-first list keeps it newest-first. */
  lemma {:induction false} InsertNewestKeepsOrder<T(!new)>(n: T, rows: seq<T>, at: T -> int)
    requires NewestFirst(rows, at)
    ensures NewestFirst(InsertNewest(n, rows, at), at)
  {
    if rows == [] || at(rows[0]) <= at(n) {
      NewestFirstLead(n, rows, at);
    } else {
      NewestFirstTail(rows, at);
      InsertNewestKeepsOrder(n, rows[1..], at);
      var rest := InsertNewest(n, rows[1..], at);
      forall x | x in rest ensures at(rows[0]) >= at(x) {
        assert x in multiset(rest);
        assert x == n || x in multiset(rows[1..]);
      }
      NewestFirstCons(rows[0], rest, at);
    }
  }

  /** `ORDER BY created_at DESC`: the rows sorted newest first (the database
      puts ties in no particular order; here a later row of a tie comes
      first). */
  function ByNewest<T(!new)>(rows: seq<T>, at: T -> int): (r: seq<T>)
    ensures NewestFirst(r, at)
    ensures multiset(r) == multiset(rows)
  {
    if rows == [] then []
    else
      assert rows == [rows[0]] + rows[1..];
      InsertNewestKeepsOrder(rows[0], ByNewest(rows[1..], at), at);
      InsertNewest(rows[0], ByNewest(rows[1..], at), at)
  }

  /** Sorting loses and adds no row. */
  lemma ByNewestSameRows<T(!new)>(rows: seq<T>, at: T -> int)
    ensures forall x :: x in ByNewest(rows, at) <==> x in rows
  {
    var sorted := ByNewest(rows, at);
    forall x ensures x in sorted <==> x in rows {
      assert x in sorted <==> x in multiset(sorted);
      assert x in rows <==> x in multiset(rows);
    }
  }

  function Min(a: int, b: int): int
  {
    if a <= b then a else b
  }

  /** `.offset(skip).limit(limit)` */
  function Page<T>(rows: seq<T>, skip: nat, limit: nat): (r: seq<T>)
    ensures |r| <= limit
    ensures skip >= |rows| ==> r == []
    ensures skip < |rows| ==> r == rows[skip..][..Min(limit, |rows| - skip)]
  {
    if skip >= |rows| then [] else rows[skip..][..Min(limit, |rows| - skip)]
  }

  /** Every row of a page is a row of the input, and the rows of a page keep
      their relative order. */
  lemma PageIsSlice<T>(rows: seq<T>, skip: nat, limit: nat)
    ensures forall x :: x in Page(rows, skip, limit) ==> x in rows
    ensures skip + limit <= |rows| ==> Page(rows, skip, limit) == rows[skip..skip + limit]
  {
    if skip < |rows| {
      var r := Page(rows, skip, limit);
      forall x | x in r ensures x in rows {
        var k :| 0 <= k < |r| && r[k] == x;
        assert rows[skip + k] == x;
      }
    }
  }

  /** A page of a newest-first list is newest first. */
  lemma PageNewestFirst<T>(rows: seq<T>, skip: nat, limit: nat, at: T -> int)
    requires NewestFirst(rows, at)
    ensures NewestFirst(Page(rows, skip, limit), at)
  {
    var r := Page(rows, skip, limit);
    forall i, j | 0 <= i < j < |r| ensures at(r[i]) >= at(r[j]) {
      assert r[i] == rows[skip + i] && r[j] == rows[skip + j];
    }
  }

  /** A page of the newest-first ordering of some rows: newest first, at
      most `limit` long, and made of those rows. */
  lemma NewestPage<T(!new)>(rows: seq<T>, skip: nat, limit: nat, at: T -> int)
    ensures NewestFirst(Page(ByNewest(rows, at), skip, limit), at)
    ensures forall x :: x in Page(ByNewest(rows, at), skip, limit) ==> x in rows
  {
    var sorted := ByNewest(rows, at);
    PageNewestFirst(sorted, skip, limit, at);
    PageIsSlice(sorted, skip, limit);
    ByNewestSameRows(rows, at);
  }

  /** `reversed(...)` */
  function Reversed<T>(s: seq<T>): (r: seq<T>)
    ensures |r| == |s|
    ensures forall i :: 0 <= i < |s| ==> r[i] == s[|s| - 1 - i]
  {
    seq(|s|, i requires 0 <= i < |s| => s[|s| - 1 - i])
  }

  /** Rows in ascending creation time. */
  predicate OldestFirst<T>(rows: seq<T>, at: T -> int)
  {
    forall i, j :: 0 <= i < j < |rows| ==> at(rows[i]) <= at(rows[j])
  }

  /** Reversing a newest-first list gives an oldest-first one. */
  lemma ReversedNewestFirst<T>(rows: seq<T>, at: T -> int)
    requires NewestFirst(rows, at)
    ensures OldestFirst(Reversed(rows), at)
  {
    var r := Reversed(rows);
    forall i, j | 0 <= i < j < |r| ensures at(r[i]) <= at(r[j]) {
      assert r[i] == rows[|rows| - 1 - i] && r[j] == rows[|rows| - 1 - j];
    }
  }

  lemma ReversedSameRows<T>(s: seq<T>)
    ensures forall x :: x in Reversed(s) <==> x in s
  {
    var r := Reversed(s);
    forall x ensures x in r <==> x in s {
      if x in r {
        var i :| 0 <= i < |r| && r[i] == x;
        assert s[|s| - 1 - i] == x;
      }
      if x in s {
        var i :| 0 <= i < |s| && s[i] == x;
        assert r[|s| - 1 - i] == x;
      }
    }
  }

  /** The first `limit` rows of the newest-first order: as many as there
      are, up to the limit, and no row left out is newer than a row kept. */
  lemma NewestKept<T(!new)>(rows: seq<T>, limit: nat, at: T -> int)
    ensures |Page(ByNewest(rows, at), 0, limit)| == Min(limit, |rows|)
    ensures forall x, k ::
              x in rows && x !in Page(ByNewest(rows, at), 0, limit) && k in Page(ByNewest(rows, at), 0, limit)
              ==> at(x) <= at(k)
  {
    var sorted := ByNewest(rows, at);
    var page := Page(sorted, 0, limit);
    ByNewestSameRows(rows, at);
    assert |sorted| == |rows| by {
      assert |multiset(sorted)| == |multiset(rows)|;
    }
    forall x, k | x in rows && x !in page && k in page ensures at(x) <= at(k) {
      assert x in sorted;
      var j :| 0 <= j < |sorted| && sorted[j] == x;
      var i :| 0 <= i < |page| && page[i] == k;
      assert sorted[i] == k;
    }
  }

  /** A first page large enough for every row holds every row. */
  lemma FirstPageComplete<T(!new)>(rows: seq<T>, limit: nat, at: T -> int)
    ensures |rows| <= limit ==> forall x :: x in rows ==> x in Page(ByNewest(rows, at), 0, limit)
  {
    if |rows| > limit { return; }
    var sorted := ByNewest(rows, at);
    ByNewestSameRows(rows, at);
    assert |sorted| == |rows| by {
      assert |multiset(sorted)| == |multiset(rows)|;
    }
    assert Page(sorted, 0, limit) == sorted by {
      if |sorted| > 0 {
        assert sorted[0..] == sorted;
      }
    }
  }
}
