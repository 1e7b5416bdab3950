/**
 The two pieces of the post listing in src/routes/posts.js that are computed in
 the program rather than by SQLite: choosing the ORDER BY clause from the
 `sort` query parameter, and the row offset of a page.
 */
module Listing {
  import opened Wrappers

  /** The `allowedSortOptions` table: query value to ORDER BY clause. */
  const AllowedSortOptions: map<string, string> := map[
    "helpful_count_asc" := "helpful_count ASC",
    "helpful_count_desc" := "helpful_count DESC",
    "created_at_desc" := "created_at DESC",
    "created_at_asc" := "created_at ASC"
  ]

  const DefaultOrder: string := "created_at DESC"

  /** `allowedSortOptions[sort] || 'created_at DESC'`. */
  function OrderBy(sort: Option<string>): (clause: string)
    ensures clause in AllowedSortOptions.Values
    ensures sort.Some? && sort.value in AllowedSortOptions ==> clause == AllowedSortOptions[sort.value]
  {
    assert AllowedSortOptions["created_at_desc"] == DefaultOrder;
    if sort.Some? && sort.value in AllowedSortOptions then AllowedSortOptions[sort.value] else DefaultOrder
  }

  /** Every unknown or missing sort value falls back to the newest-first order. */
  lemma UnknownSortIsNewestFirst(sort: Option<string>)
    requires sort.None? || sort.value !in AllowedSortOptions
    ensures OrderBy(sort) == "created_at DESC"
  {
  }

  const DefaultPage: int := 1
  const DefaultLimit: int := 10

  /** `(pageNum - 1) * limitNum`. */
  function Offset(page: int, limit: int): (o: int)
    ensures page == 1 ==> o == 0
    ensures page >= 1 && limit >= 0 ==> o >= 0
  {
    (page - 1) * limit
  }

  /** The `page` and `limit` query parameters with their defaults, as (limit, offset). */
  function Window(page: Option<int>, limit: Option<int>): (w: (int, int))
    ensures limit.None? ==> w.0 == 10
    ensures limit.Some? ==> w.0 == limit.value
    ensures page.None? ==> w.1 == 0
    ensures page.Some? ==> w.1 == (page.value - 1) * w.0
  {
    var p := if page.Some? then page.value else DefaultPage;
    var l := if limit.Some? then limit.value else DefaultLimit;
    (l, Offset(p, l))
  }

  /** From page 1 on, the pages are consecutive windows of `limit` rows starting at row 0. */
  lemma PagesAreConsecutive(page: int, limit: nat)
    requires page >= 1
    ensures Offset(1, limit) == 0
    ensures Offset(page, limit) >= 0
    ensures Offset(page + 1, limit) == Offset(page, limit) + limit
  {
  }

  /** With a positive limit, every row index falls on exactly one page. */
  lemma {:induction false} RowOnExactlyOnePage(i: nat, limit: int, page: int)
    requires limit > 0 && page >= 1
    ensures Offset(i / limit + 1, limit) <= i < Offset(i / limit + 1, limit) + limit
    ensures Offset(page, limit) <= i < Offset(page, limit) + limit <==> page == i / limit + 1
  {
    var k := i / limit;
    assert Offset(k + 1, limit) == k * limit;
    assert i == k * limit + i % limit;
    if page <= k {
      assert Offset(page, limit) + limit == page * limit;
      assert page * limit <= k * limit by { MultiplyMonotone(page, k, limit); }
    } else if page > k + 1 {
      assert Offset(page, limit) == (page - 1) * limit;
      assert (k + 1) * limit <= (page - 1) * limit by { MultiplyMonotone(k + 1, page - 1, limit); }
    }
  }

  lemma MultiplyMonotone(a: int, b: int, c: nat)
    requires a <= b
    ensures a * c <= b * c
  {
    assert b * c - a * c == (b - a) * c;
  }
}
