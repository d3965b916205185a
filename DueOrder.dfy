/**
 * The order in which the database variant lists tasks (the `sort.Slice`
 * comparator of `HandleGetAll` in toDo/internal/dbControl/handlers.go):
 * open tasks before Completed ones, and within each, tasks whose due date
 * parses by ascending date, then tasks whose due date does not parse.
 */
module DueOrder {
  import opened Wrappers
  import opened Dates
  import opened RichModels

  /** The comparator: does `a` belong strictly before `b`? */
  predicate Less(a: TodoItem, b: TodoItem)
    ensures Less(a, b) ==> a.status != "Completed" || b.status == "Completed"
    ensures Less(a, b) ==> ParseDate(a.due).Some? || (a.status != "Completed" && b.status == "Completed")
  {
    if a.status == "Completed" && b.status != "Completed" then false
    else if a.status != "Completed" && b.status == "Completed" then true
    else
      var dueA := ParseDate(a.due);
      var dueB := ParseDate(b.due);
      if dueA.None? && dueB.None? then false
      else if dueA.None? then false
      else if dueB.None? then true
      else Before(dueA.value, dueB.value)
  }

  /** The four bands of the listing: 0 open and dated, 1 open and undated, 2 completed and dated, 3 completed and undated. */
  function Band(a: TodoItem): nat {
    (if a.status == "Completed" then 2 else 0) + (if ParseDate(a.due).None? then 1 else 0)
  }

  /** The comparator orders by band first, and by due date inside a dated band. */
  lemma LessByBand(a: TodoItem, b: TodoItem)
    ensures Less(a, b) <==>
      Band(a) < Band(b) ||
      (Band(a) == Band(b) && ParseDate(a.due).Some? && ParseDate(b.due).Some? &&
       DayNumber(ParseDate(a.due).value) < DayNumber(ParseDate(b.due).value))
  {
  }

  /** The comparator is a strict order: irreflexive, asymmetric and transitive. */
  lemma LessStrictOrder(a: TodoItem, b: TodoItem, c: TodoItem)
    ensures !Less(a, a)
    ensures Less(a, b) ==> !Less(b, a)
    ensures Less(a, b) && Less(b, c) ==> Less(a, c)
  {
    LessByBand(a, b);
    LessByBand(b, c);
    LessByBand(a, c);
    LessByBand(b, a);
    LessByBand(a, a);
  }

  /** Items that neither comparison puts first sit in the same place of the order. */
  lemma IncomparableIsTransitive(a: TodoItem, b: TodoItem, c: TodoItem)
    requires !Less(a, b) && !Less(b, a) && !Less(b, c) && !Less(c, b)
    ensures !Less(a, c) && !Less(c, a)
  {
    LessByBand(a, b);
    LessByBand(b, a);
    LessByBand(b, c);
    LessByBand(c, b);
    LessByBand(a, c);
    LessByBand(c, a);
  }

  /** What `sort.Slice` promises: no item is strictly less than one before it. */
  predicate Sorted(s: seq<TodoItem>) {
    forall i, j :: 0 <= i < j < |s| ==> !Less(s[j], s[i])
  }

  /** Put `x` before the first item it is less than. */
  function Insert(s: seq<TodoItem>, x: TodoItem): (r: seq<TodoItem>)
    ensures multiset(r) == multiset(s) + multiset{x}
  {
    if s == [] || Less(x, s[0]) then [x] + s
    else
      assert s == [s[0]] + s[1..];
      [s[0]] + Insert(s[1..], x)
  }

  lemma {:induction false} InsertSorted(s: seq<TodoItem>, x: TodoItem)
    requires Sorted(s)
    ensures Sorted(Insert(s, x))
    decreases |s|
  {
    if s == [] {
    } else if Less(x, s[0]) {
      var r := [x] + s;
      forall i, j | 0 <= i < j < |r| ensures !Less(r[j], r[i]) {
        if i == 0 {
          LessStrictOrder(x, s[0], s[j - 1]);
          LessStrictOrder(s[j - 1], x, s[0]);
        } else {
          assert r[i] == s[i - 1] && r[j] == s[j - 1];
        }
      }
    } else {
      var rest := Insert(s[1..], x);
      InsertSorted(s[1..], x);
      var r := [s[0]] + rest;
      forall i, j | 0 <= i < j < |r| ensures !Less(r[j], r[i]) {
        if i == 0 {
          var y := r[j];
          assert y in multiset(rest);
          assert y in multiset(s[1..]) || y == x;
          if y != x {
            var k :| 0 <= k < |s[1..]| && s[1..][k] == y;
            assert s[k + 1] == y;
          }
        } else {
          assert r[i] == rest[i - 1] && r[j] == rest[j - 1];
        }
      }
    }
  }

  /** `sort.Slice(filtered, ...)`, here as an insertion sort; any order it may produce is Sorted and a permutation. */
  method SortForListing(xs: seq<TodoItem>) returns (r: seq<TodoItem>)
    ensures Sorted(r)
    ensures multiset(r) == multiset(xs)
  {
    r := [];
    var i := 0;
    while i < |xs|
      invariant 0 <= i <= |xs|
      invariant Sorted(r)
      invariant multiset(r) == multiset(xs[..i])
    {
      InsertSorted(r, xs[i]);
      assert xs[..i + 1] == xs[..i] + [xs[i]];
      r := Insert(r, xs[i]);
      i := i + 1;
    }
    assert xs[..i] == xs;
  }

  /**
   * What a sorted listing looks like: Completed tasks come last, inside each
   * part the tasks with a parseable due date come first, and those are in
   * ascending date order.
   */
  lemma SortedListing(s: seq<TodoItem>, i: int, j: int)
    requires Sorted(s) && 0 <= i < j < |s|
    ensures s[i].status == "Completed" ==> s[j].status == "Completed"
    ensures (s[i].status == "Completed") == (s[j].status == "Completed") && ParseDate(s[i].due).None? ==>
      ParseDate(s[j].due).None?
    ensures (s[i].status == "Completed") == (s[j].status == "Completed") && ParseDate(s[i].due).Some? && ParseDate(s[j].due).Some? ==>
      DayNumber(ParseDate(s[i].due).value) <= DayNumber(ParseDate(s[j].due).value)
  {
    assert !Less(s[j], s[i]);
    LessByBand(s[j], s[i]);
  }
}
