/**
 * The listing query shared by the three `handleGetAll` / `HandleGetAll`
 * handlers: `page` and `limit` defaults, the status filter, and the clamped
 * pagination window. Items are generic; `statusOf` reads an item's status and
 * `vocabulary` is the variant's `possibleStatus`.
 */
module Listing {
  import opened Wrappers
  import opened Strconv

  /** The items whose status is exactly `wanted`, in their original order. */
  function Filter<T(!new)>(items: seq<T>, statusOf: T -> string, wanted: string): (r: seq<T>)
    ensures |r| <= |items|
    ensures forall i :: 0 <= i < |r| ==> statusOf(r[i]) == wanted
  {
    if items == [] then []
    else
      var last := items[|items| - 1];
      assert items == items[..|items| - 1] + [last];
      Filter(items[..|items| - 1], statusOf, wanted) + (if statusOf(last) == wanted then [last] else [])
  }

  /** The filter keeps every copy of each matching item and no copy of any other. */
  lemma {:induction false} FilterCounts<T(!new)>(items: seq<T>, statusOf: T -> string, wanted: string, x: T)
    ensures multiset(Filter(items, statusOf, wanted))[x] == if statusOf(x) == wanted then multiset(items)[x] else 0
    decreases |items|
  {
    if items != [] {
      var init := items[..|items| - 1];
      assert items == init + [items[|items| - 1]];
      FilterCounts(init, statusOf, wanted, x);
    }
  }

  /** Filtering a concatenation filters each part: the filter keeps the original order. */
  lemma {:induction false} FilterAppend<T(!new)>(xs: seq<T>, ys: seq<T>, statusOf: T -> string, wanted: string)
    ensures Filter(xs + ys, statusOf, wanted) == Filter(xs, statusOf, wanted) + Filter(ys, statusOf, wanted)
    decreases |ys|
  {
    if ys != [] {
      var ys' := ys[..|ys| - 1];
      var last := ys[|ys| - 1];
      var tail := if statusOf(last) == wanted then [last] else [];
      assert (xs + ys)[..|xs + ys| - 1] == xs + ys';
      assert (xs + ys)[|xs + ys| - 1] == last;
      assert Filter(xs + ys, statusOf, wanted) == Filter(xs + ys', statusOf, wanted) + tail;
      assert Filter(ys, statusOf, wanted) == Filter(ys', statusOf, wanted) + tail;
      FilterAppend(xs, ys', statusOf, wanted);
    } else {
      assert xs + ys == xs;
    }
  }

  /** A filter that every item passes keeps the whole list. */
  lemma {:induction false} FilterAllMatch<T(!new)>(items: seq<T>, statusOf: T -> string, wanted: string)
    requires forall i :: 0 <= i < |items| ==> statusOf(items[i]) == wanted
    ensures Filter(items, statusOf, wanted) == items
    decreases |items|
  {
    if items != [] {
      FilterAllMatch(items[..|items| - 1], statusOf, wanted);
    }
  }

  /** The listing's filter: by status when the query value is in the vocabulary, otherwise none at all. */
  function ApplyStatusFilter<T(!new)>(all: seq<T>, statusOf: T -> string, vocabulary: seq<string>, statusFilter: string): (r: seq<T>)
    ensures statusFilter !in vocabulary ==> r == all
    ensures statusFilter in vocabulary ==> forall i :: 0 <= i < |r| ==> statusOf(r[i]) == statusFilter
  {
    if statusFilter in vocabulary then Filter(all, statusOf, statusFilter) else all
  }

  /** The handlers' two loops: the vocabulary search for `statusFilter`, then the append loop. */
  method FilterTasks<T(!new)>(all: seq<T>, statusOf: T -> string, vocabulary: seq<string>, statusFilter: string) returns (filtered: seq<T>)
    ensures filtered == ApplyStatusFilter(all, statusOf, vocabulary, statusFilter)
  {
    var isValidStatus := false;
    var k := 0;
    while k < |vocabulary|
      invariant 0 <= k <= |vocabulary|
      invariant !isValidStatus && statusFilter !in vocabulary[..k]
    {
      if vocabulary[k] == statusFilter {
        isValidStatus := true;
        break;
      }
      k := k + 1;
    }
    assert isValidStatus <==> statusFilter in vocabulary by {
      if !isValidStatus {
        assert vocabulary[..|vocabulary|] == vocabulary;
      }
    }
    if isValidStatus {
      filtered := [];
      var i := 0;
      while i < |all|
        invariant 0 <= i <= |all|
        invariant filtered == Filter(all[..i], statusOf, statusFilter)
      {
        assert all[..i + 1][..i] == all[..i];
        if statusFilter == statusOf(all[i]) {
          filtered := filtered + [all[i]];
        }
        i := i + 1;
      }
      assert all[..|all|] == all;
    } else {
      filtered := all;
    }
  }

  /** `page` and `limit`: `strconv.Atoi` of the query values, falling back to 1 and 10 when that fails or is below 1. */
  function ParsePageLimit(pageStr: string, limitStr: string): (r: (int, int))
    ensures r.0 >= 1 && r.1 >= 1
    ensures Atoi(pageStr).Some? && Atoi(pageStr).value >= 1 ==> r.0 == Atoi(pageStr).value
    ensures !(Atoi(pageStr).Some? && Atoi(pageStr).value >= 1) ==> r.0 == 1
    ensures Atoi(limitStr).Some? && Atoi(limitStr).value >= 1 ==> r.1 == Atoi(limitStr).value
    ensures !(Atoi(limitStr).Some? && Atoi(limitStr).value >= 1) ==> r.1 == 10
  {
    var page := match Atoi(pageStr) case Some(n) => if n < 1 then 1 else n case None => 1;
    var limit := match Atoi(limitStr) case Some(n) => if n < 1 then 10 else n case None => 10;
    (page, limit)
  }

  /** Positive numbers written by `strconv.Itoa` are taken as given. */
  lemma ParsePageLimitOfIntToString(page: int, limit: int)
    requires page >= 1 && limit >= 1
    ensures ParsePageLimit(IntToString(page), IntToString(limit)) == (page, limit)
  {
    AtoiOfIntToString(page);
    AtoiOfIntToString(limit);
  }

  /** Absent (empty), non-numeric, zero and negative values all fall back to the defaults. */
  lemma ParsePageLimitDefaults()
    ensures ParsePageLimit("", "") == (1, 10)
    ensures ParsePageLimit("abc", " 5") == (1, 10)
    ensures ParsePageLimit("0", "-3") == (1, 10)
  {
  }

  function Min(a: int, b: int): int {
    if a < b then a else b
  }

  /** One page of a listing and the size of the whole listing. */
  datatype Page<T> = Page(tasks: seq<T>, total: nat)

  /**
   * The window `filtered[start:end]` with `start = (page - 1) * limit` and
   * `end = start + limit`, both clamped to the length of `filtered`.
   */
  function Paginate<T>(filtered: seq<T>, page: int, limit: int): (r: Page<T>)
    requires page >= 1 && limit >= 1
    ensures r.total == |filtered|
    ensures |r.tasks| <= limit
    ensures (page - 1) * limit >= |filtered| ==> r.tasks == []
    ensures (page - 1) * limit < |filtered| ==> |r.tasks| == Min(limit, |filtered| - (page - 1) * limit)
    ensures forall i :: 0 <= i < |r.tasks| ==> (page - 1) * limit + i < |filtered| && r.tasks[i] == filtered[(page - 1) * limit + i]
  {
    var start := if (page - 1) * limit > |filtered| then |filtered| else (page - 1) * limit;
    var end := if start + limit > |filtered| then |filtered| else start + limit;
    Page(filtered[start..end], |filtered|)
  }

  /** Pages 1 to `k` of a listing, one after the other. */
  function FirstPages<T>(filtered: seq<T>, limit: int, k: nat): seq<T>
    requires limit >= 1
  {
    if k == 0 then [] else FirstPages(filtered, limit, k - 1) + Paginate(filtered, k, limit).tasks
  }

  /** A page is the slice from `(page - 1) * limit` to `limit` items further, both ends clamped. */
  lemma PaginateIsSlice<T>(filtered: seq<T>, page: int, limit: int, start: int)
    requires page >= 1 && limit >= 1 && start == (page - 1) * limit
    ensures 0 <= start
    ensures Paginate(filtered, page, limit).tasks == filtered[Min(start, |filtered|)..Min(start + limit, |filtered|)]
  {
  }

  /** The first `k` pages are exactly the first `k * limit` items, so no item is skipped or repeated. */
  lemma {:induction false} FirstPagesArePrefix<T>(filtered: seq<T>, limit: int, k: nat)
    requires limit >= 1
    ensures FirstPages(filtered, limit, k) == filtered[..Min(k * limit, |filtered|)]
  {
    if k > 0 {
      FirstPagesArePrefix(filtered, limit, k - 1);
      var start := (k - 1) * limit;
      assert k * limit == start + limit;
      PaginateIsSlice(filtered, k, limit, start);
      var lo := Min(start, |filtered|);
      var hi := Min(start + limit, |filtered|);
      assert filtered[..hi] == filtered[..lo] + filtered[lo..hi];
    }
  }

  /** Enough pages cover the whole listing. */
  lemma AllPagesCoverListing<T>(filtered: seq<T>, limit: int, k: nat)
    requires limit >= 1 && k * limit >= |filtered|
    ensures FirstPages(filtered, limit, k) == filtered
  {
    FirstPagesArePrefix(filtered, limit, k);
  }

  /** With 25 items and a limit of 10, page 3 holds items 20 to 24 and page 100 is empty; the total stays 25. */
  lemma TwentyFiveItems<T>(filtered: seq<T>)
    requires |filtered| == 25
    ensures Paginate(filtered, 3, 10) == Page(filtered[20..], 25)
    ensures Paginate(filtered, 100, 10) == Page([], 25)
  {
  }

  /** The reply of a listing handler. */
  datatype ListReply<T> = ListReply(page: int, limit: int, total: nat, tasks: seq<T>)

  /** The listing query without sorting: defaults, filter, window. */
  function ListQuery<T(!new)>(all: seq<T>, statusOf: T -> string, vocabulary: seq<string>, statusFilter: string, pageStr: string, limitStr: string): ListReply<T> {
    var (page, limit) := ParsePageLimit(pageStr, limitStr);
    var p := Paginate(ApplyStatusFilter(all, statusOf, vocabulary, statusFilter), page, limit);
    ListReply(page, limit, p.total, p.tasks)
  }

  /** The listing handlers' steps after fetching: parse, filter with loops, window. */
  method ListPage<T(!new)>(all: seq<T>, statusOf: T -> string, vocabulary: seq<string>, statusFilter: string, pageStr: string, limitStr: string)
    returns (r: ListReply<T>)
    ensures r == ListQuery(all, statusOf, vocabulary, statusFilter, pageStr, limitStr)
  {
    var (page, limit) := ParsePageLimit(pageStr, limitStr);
    var filtered := FilterTasks(all, statusOf, vocabulary, statusFilter);
    var p := Paginate(filtered, page, limit);
    r := ListReply(page, limit, p.total, p.tasks);
  }
}
