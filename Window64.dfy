/**
 * The page window of the listing handlers as written in Go, where `page`
 * and `limit` are 64-bit `int`s: `start := (page - 1) * limit` and
 * `end := start + limit` wrap around, and a negative `start` makes the
 * slice expression panic. `Listing.Paginate` is the intended window.
 */
module Window64 {
  import opened Wrappers
  import Listing

  const TwoTo63: int := 0x8000_0000_0000_0000
  const TwoTo64: int := 0x1_0000_0000_0000_0000

  predicate IsInt64(x: int) {
    -TwoTo63 <= x < TwoTo63
  }

  /** Two's-complement wrap-around of a mathematical integer into 64 bits. */
  function Wrap(x: int): (r: int)
    ensures IsInt64(r) && (r - x) % TwoTo64 == 0
    ensures IsInt64(x) ==> r == x
  {
    (x + TwoTo63) % TwoTo64 - TwoTo63
  }

  /** The bounds `filtered[start:end]` is sliced with, or None where the slice panics. */
  function WindowAsWritten(n: nat, page: int, limit: int): (r: Option<(int, int)>)
    requires IsInt64(n) && IsInt64(page) && IsInt64(limit) && page >= 1 && limit >= 1
    ensures r.Some? ==> 0 <= r.value.0 <= r.value.1 <= n
  {
    var start := Wrap((page - 1) * limit);
    var start := if start > n then n else start;
    var end := Wrap(start + limit);
    var end := if end > n then n else end;
    if 0 <= start <= end then Some((start, end)) else None
  }

  /** Without overflow, the window as written is the intended one. */
  lemma AsWrittenAgreesWithoutOverflow<T>(filtered: seq<T>, page: int, limit: int)
    requires IsInt64(|filtered|) && IsInt64(page) && IsInt64(limit) && page >= 1 && limit >= 1
    requires (page - 1) * limit + limit < TwoTo63
    ensures WindowAsWritten(|filtered|, page, limit).Some?
    ensures var w := WindowAsWritten(|filtered|, page, limit).value;
      filtered[w.0..w.1] == Listing.Paginate(filtered, page, limit).tasks
  {
    var n := |filtered|;
    var start := (page - 1) * limit;
    Listing.PaginateIsSlice(filtered, page, limit, start);
    assert Wrap(start) == start;
    var clamped := if start > n then n else start;
    assert Wrap(clamped + limit) == clamped + limit;
    var end := if clamped + limit > n then n else clamped + limit;
    assert WindowAsWritten(n, page, limit) == Some((clamped, end));
  }

  /**
   * Page 2^62 + 1 of 25 tasks, 4 to a page: `(page - 1) * limit` is 2^64,
   * which wraps to 0, so the reply holds the first four tasks where the
   * intended window is empty.
   */
  lemma OverflowShowsFirstPage<T>(filtered: seq<T>)
    requires |filtered| == 25
    ensures WindowAsWritten(25, 4611686018427387905, 4) == Some((0, 4))
    ensures Listing.Paginate(filtered, 4611686018427387905, 4).tasks == []
    ensures Listing.Paginate(filtered, 4611686018427387905, 4).total == 25
  {
    assert (4611686018427387905 - 1) * 4 == TwoTo64;
  }

  /** Page 2^61 + 1, 4 to a page: `(page - 1) * limit` is 2^63, which wraps to a negative start and the slice panics. */
  lemma OverflowPanics()
    ensures WindowAsWritten(25, 2305843009213693953, 4) == None
  {
    assert (2305843009213693953 - 1) * 4 == TwoTo63;
  }
}
