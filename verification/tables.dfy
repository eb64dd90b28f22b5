/**
 * A database table as the handlers see it: rows in the order the database
 * scans them. `.first()` is the first row in that order satisfying the
 * WHERE clause; a listing is filter, ORDER BY ... DESC, then OFFSET/LIMIT;
 * a count is the number of rows satisfying the same clause.
 */
module Tables {
  import opened Wrappers

  /** Index of the first row satisfying `p` (`query.where(p).first()`). */
  function FirstIndex<R>(rows: seq<R>, p: R -> bool): (r: Option<nat>)
    ensures r.None? <==> forall i :: 0 <= i < |rows| ==> !p(rows[i])
    ensures r.Some? ==> r.value < |rows| && p(rows[r.value])
    ensures r.Some? ==> forall i :: 0 <= i < r.value ==> !p(rows[i])
  {
    if |rows| == 0 then None
    else if p(rows[0]) then Some(0)
    else
      match FirstIndex(rows[1..], p)
      case None => None
      case Some(i) => Some(i + 1)
  }

  /** The rows satisfying `p`, in scan order. */
  function Filter<R(==,!new)>(rows: seq<R>, p: R -> bool): (r: seq<R>)
    ensures forall x :: multiset(r)[x] == if p(x) then multiset(rows)[x] else 0
    ensures forall i :: 0 <= i < |r| ==> p(r[i]) && r[i] in rows
  {
    if rows == [] then []
    else
      var rest := Filter(rows[1..], p);
      assert rows == [rows[0]] + rows[1..];
      if p(rows[0]) then [rows[0]] + rest else rest
  }

  /** `SELECT count(*) ... WHERE p`, counted row by row. */
  function Count<R>(rows: seq<R>, p: R -> bool): nat {
    if rows == [] then 0
    else (if p(rows[0]) then 1 else 0) + Count(rows[1..], p)
  }

  /** The count query and the listing query agree on how many rows match. */
  lemma {:induction false} CountIsFilterLength<R(!new)>(rows: seq<R>, p: R -> bool)
    ensures Count(rows, p) == |Filter(rows, p)|
  {
    if rows != [] {
      CountIsFilterLength(rows[1..], p);
    }
  }

  /** Rows ordered by `key` descending. */
  predicate SortedDesc<R>(s: seq<R>, key: R -> int) {
    forall i, j :: 0 <= i < j < |s| ==> key(s[i]) >= key(s[j])
  }

  /** Inserts `x` before the first row whose key is not larger than its own. */
  function InsertDesc<R(==)>(x: R, s: seq<R>, key: R -> int): (r: seq<R>)
    requires SortedDesc(s, key)
    ensures SortedDesc(r, key)
    ensures multiset(r) == multiset(s) + multiset{x}
  {
    if s == [] || key(s[0]) <= key(x) then
      [x] + s
    else
      var rest := InsertDesc(x, s[1..], key);
      assert s == [s[0]] + s[1..];
      assert forall j :: 0 <= j < |rest| ==> key(rest[j]) <= key(s[0]) by {
        forall j | 0 <= j < |rest|
          ensures key(rest[j]) <= key(s[0])
        {
          assert rest[j] in multiset(rest);
          if rest[j] != x {
            assert rest[j] in multiset(s[1..]);
            var k :| 0 <= k < |s[1..]| && s[1..][k] == rest[j];
            assert s[k + 1] == rest[j];
          }
        }
      }
      [s[0]] + rest
  }

  /** `ORDER BY key DESC`; rows with equal keys keep their scan order. */
  function SortDesc<R(==)>(s: seq<R>, key: R -> int): (r: seq<R>)
    ensures SortedDesc(r, key)
    ensures multiset(r) == multiset(s)
  {
    if s == [] then []
    else
      assert s == [s[0]] + s[1..];
      InsertDesc(s[0], SortDesc(s[1..], key), key)
  }

  /** `OFFSET offset LIMIT limit`: at most `limit` consecutive rows starting at `offset`. */
  function Window<R>(rows: seq<R>, offset: nat, limit: nat): (r: seq<R>)
    ensures |r| <= limit
    ensures offset >= |rows| ==> r == []
    ensures offset < |rows| ==> r == rows[offset..if offset + limit <= |rows| then offset + limit else |rows|]
  {
    if offset >= |rows| then []
    else if offset + limit <= |rows| then rows[offset..offset + limit]
    else rows[offset..]
  }

  /** The offset of page `page` (counted from 1) of `size` rows. */
  function Offset(page: nat, size: nat): nat
    requires page >= 1
  {
    (page - 1) * size
  }

  /** A contiguous run of a sorted listing is sorted. */
  lemma SortedWindow<R>(s: seq<R>, key: R -> int, offset: nat, limit: nat)
    requires SortedDesc(s, key)
    ensures SortedDesc(Window(s, offset, limit), key)
  {
    var w := Window(s, offset, limit);
    if offset < |s| {
      forall i, j | 0 <= i < j < |w|
        ensures key(w[i]) >= key(w[j])
      {
        assert w[i] == s[offset + i] && w[j] == s[offset + j];
      }
    }
  }

  /** `(total + size - 1) // size`, the number of pages of `size` rows holding `total` rows. */
  function TotalPages(total: nat, size: nat): (r: nat)
    requires size >= 1
    ensures r * size >= total
    ensures r > 0 ==> (r - 1) * size < total
    ensures total == 0 ==> r == 0
  {
    var q := (total + size - 1) / size;
    var m := (total + size - 1) % size;
    assert total + size - 1 == q * size + m;
    assert q * size >= total;
    assert (q - 1) * size == q * size - size;
    q
  }

  /** The matching rows in the order a list endpoint returns them: `WHERE p ORDER BY key DESC`. */
  function Listing<R(==,!new)>(rows: seq<R>, p: R -> bool, key: R -> int): (r: seq<R>)
    ensures multiset(r) == multiset(Filter(rows, p))
    ensures |r| == |Filter(rows, p)|
  {
    var f := Filter(rows, p);
    var s := SortDesc(f, key);
    assert |multiset(s)| == |multiset(f)|;
    s
  }

  /**
   * Page `page` of `size` rows of the listing `l`: its `OFFSET (page - 1) * size
   * LIMIT size` run. It is full while rows remain, holds the rest on the last
   * page, and is empty past it.
   */
  function Page<R>(l: seq<R>, page: nat, size: nat): (r: seq<R>)
    requires page >= 1
    ensures |r| == if |l| <= Offset(page, size) then 0
                   else if |l| - Offset(page, size) >= size then size
                   else |l| - Offset(page, size)
    ensures forall i :: 0 <= i < |r| ==> r[i] == l[Offset(page, size) + i]
  {
    Window(l, Offset(page, size), size)
  }

  /** One page of a listing, as every list endpoint returns it. */
  datatype PageOf<R> = PageOf(items: seq<R>, total: nat, page: nat, size: nat, totalPages: nat)

  /**
   * A list endpoint: `total` from the count query, `items` the requested page of
   * the matching rows ordered by `key` descending.
   */
  function ListPage<R(==,!new)>(rows: seq<R>, p: R -> bool, key: R -> int, page: nat, size: nat): (r: PageOf<R>)
    requires page >= 1 && size >= 1
    ensures r.page == page && r.size == size
    ensures r.total == |Filter(rows, p)|
    ensures r.totalPages == TotalPages(r.total, size)
    ensures r.totalPages * size >= r.total && (r.totalPages > 0 ==> (r.totalPages - 1) * size < r.total)
    ensures r.items == Page(Listing(rows, p, key), page, size)
    ensures |r.items| == if r.total <= Offset(page, size) then 0
                         else if r.total - Offset(page, size) >= size then size
                         else r.total - Offset(page, size)
    ensures |r.items| <= size
    ensures forall i :: 0 <= i < |r.items| ==> p(r.items[i]) && r.items[i] in rows
    ensures SortedDesc(r.items, key)
    ensures page == 1 && size >= r.total ==> multiset(r.items) == multiset(Filter(rows, p))
  {
    var matching := SortDesc(Filter(rows, p), key);
    CountIsFilterLength(rows, p);
    FilteredListing(rows, p, key, Offset(page, size), size);
    assert page == 1 ==> Offset(page, size) == 0;
    PageOf(Window(matching, Offset(page, size), size), Count(rows, p), page, size, TotalPages(Count(rows, p), size))
  }

  /** Pages 1 to `n` of `l`, one after another. */
  function PagesUpTo<R>(l: seq<R>, size: nat, n: nat): seq<R> {
    if n == 0 then [] else PagesUpTo(l, size, n - 1) + Page(l, n, size)
  }

  /** The first `a` rows followed by the window at offset `a` are the first `a + size` rows (capped at the end). */
  lemma WindowExtendsPrefix<R>(l: seq<R>, a: nat, size: nat)
    ensures l[..if a <= |l| then a else |l|] + Window(l, a, size) == l[..if a + size <= |l| then a + size else |l|]
  {
  }

  /** `n * size` in terms of the offset of page `n`. */
  lemma NextOffset(n: nat, size: nat)
    requires n >= 1
    ensures n * size == Offset(n, size) + size
  {
  }

  /** Pages 1 to `n` are the first `n * size` rows of `l` (all of it once that is exceeded). */
  lemma {:induction false} PagesUpToPrefix<R>(l: seq<R>, size: nat, n: nat)
    ensures PagesUpTo(l, size, n) == l[..if n * size <= |l| then n * size else |l|]
  {
    if n > 0 {
      PagesUpToPrefix(l, size, n - 1);
      NextOffset(n, size);
      assert Offset(n, size) == (n - 1) * size;
      WindowExtendsPrefix(l, Offset(n, size), size);
    }
  }

  /**
   * Paging loses and repeats nothing: pages 1 to `TotalPages(|l|, size)`
   * together are `l` itself, and every later page is empty.
   */
  lemma PagesCover<R>(l: seq<R>, size: nat)
    requires size >= 1
    ensures PagesUpTo(l, size, TotalPages(|l|, size)) == l
    ensures forall page: nat :: page > TotalPages(|l|, size) ==> Page(l, page, size) == []
  {
    var n := TotalPages(|l|, size);
    PagesUpToPrefix(l, size, n);
    assert l[..|l|] == l;
    forall page: nat | page > n
      ensures Page(l, page, size) == []
    {
      LaterOffset(page, n, size);
    }
  }

  /** A page after page `n` starts at or past `n * size`. */
  lemma {:induction false} LaterOffset(page: nat, n: nat, size: nat)
    requires page > n
    ensures Offset(page, size) >= n * size
  {
    if page > n + 1 {
      LaterOffset(page - 1, n, size);
      NextOffset(page - 1, size);
    }
  }

  /**
   * Every matching row is on exactly one page of a listing: pages 1 to
   * `total_pages` together hold the matching rows with their multiplicities.
   */
  lemma ListingPagesCover<R(!new)>(rows: seq<R>, p: R -> bool, key: R -> int, size: nat)
    requires size >= 1
    ensures var l := Listing(rows, p, key);
      multiset(PagesUpTo(l, size, TotalPages(|Filter(rows, p)|, size))) == multiset(Filter(rows, p))
  {
    PagesCover(Listing(rows, p, key), size);
  }

  /** A window of the sorted matching rows holds only matching rows of the table. */
  lemma FilteredListing<R(!new)>(rows: seq<R>, p: R -> bool, key: R -> int, offset: nat, limit: nat)
    ensures forall i :: 0 <= i < |Window(SortDesc(Filter(rows, p), key), offset, limit)| ==>
      p(Window(SortDesc(Filter(rows, p), key), offset, limit)[i])
      && Window(SortDesc(Filter(rows, p), key), offset, limit)[i] in rows
    ensures offset == 0 && limit >= |Filter(rows, p)| ==>
      multiset(Window(SortDesc(Filter(rows, p), key), offset, limit)) == multiset(Filter(rows, p))
    ensures SortedDesc(Window(SortDesc(Filter(rows, p), key), offset, limit), key)
  {
    var f := Filter(rows, p);
    SortedListing(f, key, offset, limit);
    var w := Window(SortDesc(f, key), offset, limit);
    forall i | 0 <= i < |w|
      ensures p(w[i]) && w[i] in rows
    {
      assert w[i] in multiset(f);
      assert w[i] in f;
    }
  }

  /** A window of a sorted listing holds rows of the listing, and the first window of a large enough size holds all of them. */
  lemma SortedListing<R>(matching: seq<R>, key: R -> int, offset: nat, limit: nat)
    ensures forall i :: 0 <= i < |Window(SortDesc(matching, key), offset, limit)| ==>
      Window(SortDesc(matching, key), offset, limit)[i] in multiset(matching)
    ensures offset == 0 && limit >= |matching| ==> multiset(Window(SortDesc(matching, key), offset, limit)) == multiset(matching)
    ensures SortedDesc(Window(SortDesc(matching, key), offset, limit), key)
  {
    var sorted := SortDesc(matching, key);
    assert |sorted| == |matching| by {
      assert |multiset(sorted)| == |multiset(matching)|;
    }
    SortedWindow(sorted, key, offset, limit);
    var w := Window(sorted, offset, limit);
    forall i | 0 <= i < |w|
      ensures w[i] in multiset(matching)
    {
      assert w[i] == sorted[offset + i];
      assert w[i] in multiset(sorted);
    }
    if offset == 0 && limit >= |matching| {
      assert w == sorted;
    }
  }

  /** Applies `f` to every row, keeping the order (building response items). */
  function MapRows<R, S>(rows: seq<R>, f: R -> S): (r: seq<S>)
    ensures |r| == |rows|
    ensures forall i :: 0 <= i < |r| ==> r[i] == f(rows[i])
  {
    seq(|rows|, i requires 0 <= i < |rows| => f(rows[i]))
  }
}
