/**
 * The page/limit handling shared by ListPosts and MyPosts
 * (internal/handlers/blog.go) and ListComments
 * (internal/handlers/engagement.go). Query values arrive through
 * strconv.Atoi, whose result is used even when it reports an error: 0 for
 * text that is not a number, and the clamped int64 bound for a number out of
 * range. The skip is computed in Go's 64-bit int and so wraps around.
 */
module Paging {
  const MaxLimit: int := 50
  const Two63: int := 0x8000_0000_0000_0000
  const Two64: int := 0x1_0000_0000_0000_0000

  /** A value of Go's 64-bit int. */
  predicate IsInt64(x: int) {
    -Two63 <= x < Two63
  }

  /** Two's-complement wrap-around of a mathematical integer into 64 bits. */
  function Wrap64(x: int): (r: int)
    ensures IsInt64(r)
    ensures IsInt64(x) ==> r == x
    ensures (r - x) % Two64 == 0
  {
    (x + Two63) % Two64 - Two63
  }

  /** The clamped page, the clamped limit and the skip handed to the query. */
  datatype Window = Window(page: int, limit: int, skip: int)

  /**
   * page < 1 becomes 1; a limit outside [1, 50] becomes the handler's
   * default (10 for posts, 20 for comments); skip is (page-1)*limit in int.
   */
  function PageWindow(page: int, limit: int, defaultLimit: int): (w: Window)
    requires IsInt64(page)
    ensures w.page == (if page < 1 then 1 else page)
    ensures 1 <= limit <= MaxLimit ==> w.limit == limit
    ensures !(1 <= limit <= MaxLimit) ==> w.limit == defaultLimit
    ensures w.skip == Wrap64((w.page - 1) * w.limit)
  {
    var p := if page < 1 then 1 else page;
    var l := if limit < 1 || limit > MaxLimit then defaultLimit else limit;
    Window(p, l, Wrap64((p - 1) * l))
  }

  /** For pages that do not overflow, the window starts after exactly the earlier pages. */
  lemma SkipCountsEarlierPages(page: int, limit: int, defaultLimit: int)
    requires 1 <= page < Two63 / MaxLimit && 1 <= defaultLimit <= MaxLimit
    ensures var w := PageWindow(page, limit, defaultLimit);
      && 1 <= w.limit <= MaxLimit
      && w.skip == (page - 1) * w.limit
      && 0 <= w.skip
  {
    var w := PageWindow(page, limit, defaultLimit);
    SkipBound(page - 1, w.limit);
  }

  lemma SkipBound(a: int, b: int)
    requires 0 <= a < Two63 / MaxLimit && 1 <= b <= MaxLimit
    ensures 0 <= a * b < Two63
  {
    assert a * b <= a * MaxLimit;
  }

  /** A page number large enough makes the 64-bit product wrap to a negative skip. */
  lemma HugePageWrapsNegative()
    ensures PageWindow(0x4000_0000_0000_0001, 2, 10).skip < 0
  {
    assert (0x4000_0000_0000_0001 - 1) * 2 == Two63;
  }
}
