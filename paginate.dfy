/**
 * Pagination of a message list (src/utils/paginateMessages.ts): the requested
 * page is clamped into range and the page's slice is returned together with
 * the page count and the next/previous flags.
 */
module Paginate {
  import opened Arith
  import opened Types

  datatype PaginationResult = PaginationResult(
    messages: seq<Message>,
    totalPages: nat,
    currentPage: int,
    totalItems: nat,
    hasNextPage: bool,
    hasPreviousPage: bool)

  /** `Math.max(lo, Math.min(x, hi))` for `lo <= hi`. */
  function Clamp(x: int, lo: int, hi: int): (r: int)
    requires lo <= hi
    ensures lo <= r <= hi
    ensures lo <= x <= hi ==> r == x
    ensures x < lo ==> r == lo
    ensures x > hi ==> r == hi
  {
    if x < lo then lo else if x > hi then hi else x
  }

  /** `Array.prototype.slice(start, end)` for non-negative bounds: both are cut down to the length. */
  function Slice<T>(s: seq<T>, start: nat, end: nat): (r: seq<T>)
    ensures start <= end <= |s| ==> r == s[start..end]
    ensures start <= |s| < end ==> r == s[start..]
    ensures |s| <= start ==> r == []
    ensures |r| <= end - start || end < start
  {
    var hi := if end < |s| then end else |s|;
    var lo := if start < hi then start else hi;
    s[lo..hi]
  }

  /** The page actually shown: `Math.max(1, Math.min(currentPage, totalPages || 1))`. */
  function ValidPage(currentPage: int, totalPages: nat): (p: int)
    ensures 1 <= p && (p <= totalPages || p == 1)
    ensures 1 <= currentPage <= totalPages ==> p == currentPage
  {
    Clamp(currentPage, 1, if totalPages == 0 then 1 else totalPages)
  }

  /**
   * `paginateMessages(messages, currentPage, itemsPerPage)`. The page size
   * must be positive (the source divides by it).
   */
  function PaginateMessages(messages: seq<Message>, currentPage: int, itemsPerPage: nat): (r: PaginationResult)
    requires itemsPerPage > 0
    ensures r.totalItems == |messages|
    ensures r.totalPages == CeilDiv(|messages|, itemsPerPage)
    ensures r.currentPage == ValidPage(currentPage, r.totalPages)
    ensures r.hasNextPage <==> r.currentPage < r.totalPages
    ensures r.hasPreviousPage <==> r.currentPage > 1
  {
    var totalPages: nat := CeilDiv(|messages|, itemsPerPage);
    var page := ValidPage(currentPage, totalPages);
    var startIndex := (page - 1) * itemsPerPage;
    PaginationResult(
      Slice(messages, startIndex, startIndex + itemsPerPage),
      totalPages,
      page,
      |messages|,
      page < totalPages,
      page > 1)
  }

  /** `(p - 1) * d >= 0` and `p * d == (p - 1) * d + d`; spelt out once for the solver. */
  lemma PageStart(p: int, d: nat)
    requires p >= 1
    ensures (p - 1) * d >= 0
    ensures p * d == (p - 1) * d + d
  {
  }

  /** Page `p` of the clamped range starts inside the list, or at 0 for an empty one. */
  lemma StartInRange(n: nat, d: nat, p: int)
    requires d > 0
    requires 1 <= p && (p <= CeilDiv(n, d) || p == 1)
    ensures 0 <= (p - 1) * d
    ensures n == 0 || (p - 1) * d < n
  {
    var t := CeilDiv(n, d);
    if n > 0 && p > 1 {
      assert p - 1 <= t - 1;
      assert (p - 1) * d <= (t - 1) * d by {
        MulLe(d, p - 1, t - 1);
      }
    }
  }

  /**
   * The requested page is clamped into [1, max(totalPages, 1)]; the page is
   * the slice from `(p - 1) * itemsPerPage` up to `p * itemsPerPage` or the
   * end of the list, so it holds at most `itemsPerPage` messages, and it is
   * empty exactly when the list is.
   */
  lemma PaginateSlice(messages: seq<Message>, currentPage: int, itemsPerPage: nat)
    requires itemsPerPage > 0
    ensures var r := PaginateMessages(messages, currentPage, itemsPerPage);
            var p := r.currentPage;
            var lo := (p - 1) * itemsPerPage;
            var hi := if p * itemsPerPage < |messages| then p * itemsPerPage else |messages|;
            1 <= p <= (if r.totalPages == 0 then 1 else r.totalPages)
            && 0 <= lo <= hi <= |messages|
            && r.messages == messages[lo..hi]
            && |r.messages| <= itemsPerPage
            && (r.messages == [] <==> messages == [])
  {
    var r := PaginateMessages(messages, currentPage, itemsPerPage);
    var p := r.currentPage;
    StartInRange(|messages|, itemsPerPage, p);
    PageStart(p, itemsPerPage);
  }

  /** Empty input: no pages, page 1 shown, nothing on it, no neighbours. */
  lemma PaginateEmpty(currentPage: int, itemsPerPage: nat)
    requires itemsPerPage > 0
    ensures PaginateMessages([], currentPage, itemsPerPage)
            == PaginationResult([], 0, 1, 0, false, false)
  {
  }

  /** The pages 1..k laid end to end. */
  function PagesUpTo(messages: seq<Message>, itemsPerPage: nat, k: nat): seq<Message>
    requires itemsPerPage > 0
  {
    if k == 0 then []
    else PagesUpTo(messages, itemsPerPage, k - 1) + PaginateMessages(messages, k, itemsPerPage).messages
  }

  /** Page `k` of the page count is the slice from `(k - 1) * itemsPerPage` to `min(k * itemsPerPage, n)`. */
  lemma PageInRange(messages: seq<Message>, itemsPerPage: nat, k: nat, lo: nat, hi: nat)
    requires itemsPerPage > 0
    requires 1 <= k <= CeilDiv(|messages|, itemsPerPage)
    requires lo == (k - 1) * itemsPerPage
    requires hi == if k * itemsPerPage < |messages| then k * itemsPerPage else |messages|
    ensures lo < hi <= |messages|
    ensures PaginateMessages(messages, k, itemsPerPage).messages == messages[lo..hi]
  {
    StartInRange(|messages|, itemsPerPage, k);
    PageStart(k, itemsPerPage);
    assert ValidPage(k, CeilDiv(|messages|, itemsPerPage)) == k;
  }

  /** The first `k` pages (k within the page count) are the list's first `min(k * itemsPerPage, n)` messages. */
  lemma {:induction false} PagesUpToPrefix(messages: seq<Message>, itemsPerPage: nat, k: nat)
    requires itemsPerPage > 0
    requires k <= CeilDiv(|messages|, itemsPerPage)
    ensures PagesUpTo(messages, itemsPerPage, k)
            == messages[..if k * itemsPerPage < |messages| then k * itemsPerPage else |messages|]
  {
    if k > 0 {
      var n := |messages|;
      var lo: nat := (k - 1) * itemsPerPage;
      var hi: nat := if k * itemsPerPage < n then k * itemsPerPage else n;
      PageInRange(messages, itemsPerPage, k, lo, hi);
      PagesUpToPrefix(messages, itemsPerPage, k - 1);
      var prev := PagesUpTo(messages, itemsPerPage, k - 1);
      var page := PaginateMessages(messages, k, itemsPerPage).messages;
      assert prev == messages[..lo];
      assert PagesUpTo(messages, itemsPerPage, k) == prev + page;
      assert messages[..lo] + messages[lo..hi] == messages[..hi];
    }
  }

  /** Concatenating pages 1..totalPages gives back the whole list, in order. */
  lemma PagesReconstruct(messages: seq<Message>, itemsPerPage: nat)
    requires itemsPerPage > 0
    ensures PagesUpTo(messages, itemsPerPage, CeilDiv(|messages|, itemsPerPage)) == messages
  {
    PagesUpToPrefix(messages, itemsPerPage, CeilDiv(|messages|, itemsPerPage));
  }
}
