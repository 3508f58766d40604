/** The pagination shared by the listing routes: `skip = (page - 1) * limit`,
    `.limit(parseInt(limit)).skip(skip)` on the sorted matches, and the
    `pagination` object `{ current, pages: Math.ceil(total / limit), total }`. */
module Paging {
  import opened Common
  import Seqs

  datatype Pagination = Pagination(current: int, pages: Option<int>, total: nat)

  datatype Page<T> = Page(items: seq<T>, pagination: Pagination)

  /** What `.limit(n)` keeps: everything for 0, otherwise at most |n|
      documents (a negative limit asks for a single batch of that size). */
  function PageSize(limit: int): (r: Option<nat>)
    ensures r.None? <==> limit == 0
    ensures r.Some? ==> r.value > 0 && (r.value == limit || r.value == -limit)
  {
    if limit == 0 then None else if limit > 0 then Some(limit) else Some(-limit)
  }

  /** `Math.ceil(total / limit)`; a zero limit gives Infinity or NaN, which
      the JSON response carries as null (None). */
  function PageCount(total: nat, limit: int): (r: Option<int>)
    ensures r.None? <==> limit == 0
    ensures limit > 0 ==> (r.value - 1) * limit < total <= r.value * limit
    ensures limit < 0 ==> r.value * limit <= total < (r.value - 1) * limit
  {
    if limit == 0 then None
    else if limit > 0 then
      CeilingBounds(total, limit);
      Some((total + limit - 1) / limit)
    else
      FloorBounds(total, -limit);
      Some(-(total / -limit))
  }

  lemma CeilingBounds(total: nat, d: int)
    requires d > 0
    ensures var q := (total + d - 1) / d; (q - 1) * d < total <= q * d
  {
    var q := (total + d - 1) / d;
    var m := (total + d - 1) % d;
    assert total + d - 1 == q * d + m && 0 <= m < d;
    assert (q - 1) * d == q * d - d;
  }

  /** The bounds for a negative limit `-d`, with page count `-(total / d)`. */
  lemma FloorBounds(total: nat, d: int)
    requires d > 0
    ensures var q := total / d; (-q) * (-d) <= total < (-q - 1) * (-d)
  {
    var q := total / d;
    var m := total % d;
    assert total == q * d + m && 0 <= m < d;
    assert (-q) * (-d) == q * d;
    assert (-q - 1) * (-d) == q * d + d;
  }

  /** With a positive limit, the page count is the least number of pages of
      that size that hold every match. */
  lemma PageCountLeast(total: nat, limit: int, pages: int)
    requires limit > 0 && total <= pages * limit
    ensures PageCount(total, limit).value <= pages
  {
    var c := PageCount(total, limit).value;
    ScaleMonotone(pages, c - 1, limit);
  }

  lemma ScaleMonotone(a: int, b: int, c: nat)
    ensures a <= b ==> a * c <= b * c
  {
    assert b * c - a * c == (b - a) * c;
  }

  /** How many documents `.skip(skip).limit(limit)` returns out of `n`:
      none past the end, all the rest for a zero limit or when fewer than
      |limit| remain, otherwise |limit|. */
  function PageLength(n: nat, skip: nat, limit: int): nat {
    var size := if limit > 0 then limit else -limit;
    if skip >= n then 0
    else if limit == 0 || skip + size >= n then n - skip
    else size
  }

  /** The listing response: a negative skip makes the query fail (500);
      otherwise the page is the window at `skip` of the sorted matches, of
      length `PageLength`, and `total` counts every match, whatever the
      page. */
  function Paginate<T>(sorted: seq<T>, page: int, limit: int): (r: Result<Page<T>>)
    ensures r.Err? <==> (page - 1) * limit < 0
    ensures r.Err? ==> r.failure == ServerError
    ensures r.Ok? ==> r.value.pagination == Pagination(page, PageCount(|sorted|, limit), |sorted|)
    ensures r.Ok? ==> limit != 0 ==> |r.value.items| <= if limit > 0 then limit else -limit
    ensures r.Ok? ==> |r.value.items| == PageLength(|sorted|, (page - 1) * limit, limit)
    ensures r.Ok? ==> forall i :: 0 <= i < |r.value.items| ==>
      (page - 1) * limit + i < |sorted| && r.value.items[i] == sorted[(page - 1) * limit + i]
  {
    var skip := (page - 1) * limit;
    if skip < 0 then Err(ServerError)
    else Ok(Page(Seqs.Window(sorted, skip, PageSize(limit)), Pagination(page, PageCount(|sorted|, limit), |sorted|)))
  }

  /** The pages partition the matches: with a positive limit, every match
      appears on exactly the page `index / limit + 1`, at offset
      `index % limit`. */
  lemma PaginateCovers<T>(sorted: seq<T>, limit: int, index: nat)
    requires limit > 0 && index < |sorted|
    ensures var page := index / limit + 1;
      var r := Paginate(sorted, page, limit);
      && r.Ok?
      && index % limit < |r.value.items|
      && r.value.items[index % limit] == sorted[index]
  {
    var page := index / limit + 1;
    assert (page - 1) * limit + index % limit == index;
    var w := Seqs.Window(sorted, (page - 1) * limit, PageSize(limit));
    assert (page - 1) * limit <= index;
  }

  /** A page of a sorted list holds only elements of the unsorted list. */
  lemma PageItemsFrom<T>(s: seq<T>, le: (T, T) -> bool, page: int, limit: int)
    requires Paginate(Seqs.SortBy(s, le), page, limit).Ok?
    ensures forall x :: x in Paginate(Seqs.SortBy(s, le), page, limit).value.items ==> x in s
  {
    var sorted := Seqs.SortBy(s, le);
    var items := Paginate(sorted, page, limit).value.items;
    forall x | x in items ensures x in s {
      var i :| 0 <= i < |items| && items[i] == x;
      assert x in sorted;
      assert x in multiset(sorted);
    }
  }

  /** Sorting keeps the number of elements, so `total` counts the matches. */
  lemma PageTotal<T>(s: seq<T>, le: (T, T) -> bool, page: int, limit: int)
    requires Paginate(Seqs.SortBy(s, le), page, limit).Ok?
    ensures Paginate(Seqs.SortBy(s, le), page, limit).value.pagination.total == |s|
  {
    var sorted := Seqs.SortBy(s, le);
    assert |sorted| == |multiset(sorted)| == |multiset(s)| == |s|;
  }

  /** A page of a list sorted by a total preorder is itself sorted. */
  lemma PageSorted<T(!new)>(s: seq<T>, le: (T, T) -> bool, page: int, limit: int)
    requires Seqs.TotalPreorder(le)
    requires Paginate(Seqs.SortBy(s, le), page, limit).Ok?
    ensures Seqs.SortedBy(Paginate(Seqs.SortBy(s, le), page, limit).value.items, le)
  {
    Seqs.SortBySorted(s, le);
    PaginateSorted(Seqs.SortBy(s, le), le, page, limit);
  }

  lemma PaginateSorted<T>(sorted: seq<T>, le: (T, T) -> bool, page: int, limit: int)
    requires Seqs.SortedBy(sorted, le) && Paginate(sorted, page, limit).Ok?
    ensures Seqs.SortedBy(Paginate(sorted, page, limit).value.items, le)
  {
    var items := Paginate(sorted, page, limit).value.items;
    if items != [] {
      var skip: nat := (page - 1) * limit;
      var n := |items|;
      assert skip + (n - 1) < |sorted|;
      assert items == sorted[skip..skip + n];
      SortedRun(sorted, skip, skip + n, le);
    }
  }

  /** A run of consecutive elements of a sorted sequence is sorted. */
  lemma SortedRun<T>(sorted: seq<T>, lo: nat, hi: nat, le: (T, T) -> bool)
    requires lo <= hi <= |sorted| && Seqs.SortedBy(sorted, le)
    ensures Seqs.SortedBy(sorted[lo..hi], le)
  {
    var run := sorted[lo..hi];
    forall i, j | 0 <= i < j < |run| ensures le(run[i], run[j]) {
      assert run[i] == sorted[lo + i] && run[j] == sorted[lo + j];
    }
  }
}
