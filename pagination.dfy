/**
 * The review listing's pagination (routes/restaurants.ts): a page of
 * `limit` ids is the inclusive LRANGE window from `(page - 1) * limit` to
 * `start + limit - 1` over the restaurant's review list.
 */
module Pagination {
  import opened Wrappers

  /** Page number used when the query leaves `page` out. */
  const DefaultPage := 1
  /** Page size used when the query leaves `limit` out. */
  const DefaultLimit := 10

  function Min(a: int, b: int): int
  {
    if a <= b then a else b
  }

  /** The page and page size of a query, defaults filled in. */
  function QueryOrDefaults(page: Option<int>, limit: Option<int>): (int, int)
  {
    (page.GetOr(DefaultPage), limit.GetOr(DefaultLimit))
  }

  /** First index of a page. */
  function WindowStart(page: int, limit: int): int
  {
    (page - 1) * limit
  }

  /** Last index of a page, inclusive. */
  function WindowEnd(page: int, limit: int): int
  {
    WindowStart(page, limit) + limit - 1
  }

  /**
   * A window covers exactly `limit` positions, page 1 starts at index 0, and
   * each page starts right after the previous one ends.
   */
  lemma WindowShape(page: int, limit: int)
    requires page >= 1 && limit >= 1
    ensures 0 <= WindowStart(page, limit) <= WindowEnd(page, limit)
    ensures WindowEnd(page, limit) - WindowStart(page, limit) + 1 == limit
    ensures WindowStart(1, limit) == 0
    ensures WindowStart(page + 1, limit) == WindowEnd(page, limit) + 1
  {
    assert WindowStart(page + 1, limit) == page * limit == (page - 1) * limit + limit;
  }

  /**
   * LRANGE with non-negative indices: the elements from `start` to `end`,
   * both included, cut off at the end of the list; empty when `start` is past
   * `end` or past the end of the list.
   */
  function LRange<T>(s: seq<T>, start: int, end: int): (r: seq<T>)
    requires 0 <= start && 0 <= end
    ensures |r| == if start <= end && start < |s| then Min(end + 1, |s|) - start else 0
    ensures forall i :: 0 <= i < |r| ==> r[i] == s[start + i]
  {
    if start > end || start >= |s| then [] else s[start..Min(end + 1, |s|)]
  }

  /** The ids on one page. */
  function Page<T>(s: seq<T>, page: int, limit: int): seq<T>
    requires page >= 1 && limit >= 1
  {
    WindowShape(page, limit);
    LRange(s, WindowStart(page, limit), WindowEnd(page, limit))
  }

  /** A page is the slice of the list between its window's ends, clamped to the list. */
  lemma PageSlice<T>(s: seq<T>, page: int, limit: int)
    requires page >= 1 && limit >= 1
    ensures WindowStart(page, limit) >= 0
    ensures Page(s, page, limit) ==
      s[Min(WindowStart(page, limit), |s|)..Min(WindowStart(page, limit) + limit, |s|)]
  {
    WindowShape(page, limit);
  }

  /** Pages 1 to `count`, one after the other. */
  function FirstPages<T>(s: seq<T>, limit: int, count: nat): seq<T>
    requires limit >= 1
  {
    if count == 0 then [] else FirstPages(s, limit, count - 1) + Page(s, count, limit)
  }

  /** Consecutive pages tile the list: pages 1 to `count` are its first `count * limit` ids. */
  lemma {:induction false} PagesTile<T>(s: seq<T>, limit: int, count: nat)
    requires limit >= 1
    ensures FirstPages(s, limit, count) == s[..Min(count * limit, |s|)]
  {
    if count > 0 {
      PagesTile(s, limit, count - 1);
      PageSlice(s, count, limit);
      assert WindowStart(count, limit) == (count - 1) * limit;
      assert count * limit == (count - 1) * limit + limit;
      var a := Min((count - 1) * limit, |s|);
      var b := Min(count * limit, |s|);
      assert s[..a] + s[a..b] == s[..b];
    }
  }

  /** Enough pages list every id exactly once, in list order. */
  lemma AllPagesListEverything<T>(s: seq<T>, limit: int, count: nat)
    requires limit >= 1 && count * limit >= |s|
    ensures FirstPages(s, limit, count) == s
  {
    PagesTile(s, limit, count);
    assert s[..|s|] == s;
  }

  /** Page 1 is the head of the list. */
  lemma FirstPageIsHead<T>(s: seq<T>, limit: int)
    requires limit >= 1
    ensures Page(s, 1, limit) == s[..Min(limit, |s|)]
  {
    PageSlice(s, 1, limit);
  }

  /** After an element is pushed on the head of the list, page 1 starts with it. */
  lemma PushedFirstOnPageOne<T>(s: seq<T>, x: T, limit: int)
    requires limit >= 1
    ensures Page([x] + s, 1, limit) == [x] + s[..Min(limit - 1, |s|)]
  {
    FirstPageIsHead([x] + s, limit);
    assert ([x] + s)[..Min(limit, |s| + 1)] == [x] + s[..Min(limit - 1, |s|)];
  }

  /** A query without `page` and `limit` lists the first ten ids. */
  lemma DefaultQueryListsFirstTen<T>(s: seq<T>)
    ensures QueryOrDefaults(None, None) == (1, 10)
    ensures Page(s, 1, 10) == s[..Min(10, |s|)]
  {
    FirstPageIsHead(s, 10);
  }
}
