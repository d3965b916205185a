/**
 * The minimal variant's in-memory store (toDo/src/storage.go): a map from id
 * to item and a counter `nextID` whose decimal form is the next id handed out.
 * The Go mutex only makes each method atomic; each method here is one
 * sequential step.
 */
module MemStore {
  import opened Wrappers
  import opened Strconv
  import opened Models
  import StatusFlow

  /** The key `getAll` sorts by: `strconv.Atoi(ID)`, with the error ignored (so 0 on failure). */
  function IdNumber(it: Item): (r: int)
    ensures r < 0 ==> |it.id| > 1 && it.id[0] == '-'
    ensures Atoi(it.id).None? ==> r == 0
  {
    match Atoi(it.id)
    case Some(n) => n
    case None => 0
  }

  /** For a key the store hands out, the sort key is the number it was made from. */
  lemma IdNumberOfKey(it: Item)
    requires IsNatString(it.id)
    ensures IdNumber(it) == DigitsValue(it.id)
  {
  }

  predicate AscendingIds(s: seq<Item>) {
    forall i, j :: 0 <= i < j < |s| ==> IdNumber(s[i]) < IdNumber(s[j])
  }

  /** Put `x` in front of the first element with a larger id. */
  function InsertById(s: seq<Item>, x: Item): (r: seq<Item>)
    ensures multiset(r) == multiset(s) + multiset{x}
  {
    if s == [] || IdNumber(x) < IdNumber(s[0]) then [x] + s
    else
      assert s == [s[0]] + s[1..];
      [s[0]] + InsertById(s[1..], x)
  }

  lemma {:induction false} InsertByIdAscending(s: seq<Item>, x: Item)
    requires AscendingIds(s)
    requires forall y :: y in s ==> IdNumber(y) != IdNumber(x)
    ensures AscendingIds(InsertById(s, x))
  {
    if s != [] && IdNumber(s[0]) < IdNumber(x) {
      InsertByIdAscending(s[1..], x);
      InsertKeepsAbove(s[1..], x, IdNumber(s[0]));
      ConsAscending(s[0], InsertById(s[1..], x));
    }
  }

  /** Inserting an item above a bound into a list above that bound keeps the list above it. */
  lemma InsertKeepsAbove(s: seq<Item>, x: Item, bound: int)
    requires forall y :: y in s ==> bound < IdNumber(y)
    requires bound < IdNumber(x)
    ensures forall y :: y in InsertById(s, x) ==> bound < IdNumber(y)
  {
    forall y | y in InsertById(s, x) ensures bound < IdNumber(y) {
      assert y in multiset(InsertById(s, x));
    }
  }

  /** An item with a smaller id than all of an ascending list may go in front of it. */
  lemma ConsAscending(first: Item, rest: seq<Item>)
    requires AscendingIds(rest)
    requires forall y :: y in rest ==> IdNumber(first) < IdNumber(y)
    ensures AscendingIds([first] + rest)
  {
    var out := [first] + rest;
    forall i, j | 0 <= i < j < |out| ensures IdNumber(out[i]) < IdNumber(out[j]) {
      assert out[j] == rest[j - 1];
      if i > 0 {
        assert out[i] == rest[i - 1];
      }
    }
  }

  /** `sort.Slice(tasks, id1 < id2)` on items whose ids are pairwise different numbers. */
  method SortById(xs: seq<Item>) returns (r: seq<Item>)
    requires forall i, j :: 0 <= i < j < |xs| ==> IdNumber(xs[i]) != IdNumber(xs[j])
    ensures AscendingIds(r)
    ensures multiset(r) == multiset(xs)
  {
    r := [];
    var i := 0;
    while i < |xs|
      invariant 0 <= i <= |xs|
      invariant AscendingIds(r)
      invariant multiset(r) == multiset(xs[..i])
    {
      EarlierIdsDiffer(xs, i, r);
      InsertByIdAscending(r, xs[i]);
      r := InsertById(r, xs[i]);
      assert xs[..i + 1] == xs[..i] + [xs[i]];
      i := i + 1;
    }
    assert xs[..|xs|] == xs;
  }

  /** An item already sorted came before position `i`, so its id differs from that of `xs[i]`. */
  lemma EarlierIdsDiffer(xs: seq<Item>, i: int, r: seq<Item>)
    requires forall i, j :: 0 <= i < j < |xs| ==> IdNumber(xs[i]) != IdNumber(xs[j])
    requires 0 <= i < |xs| && multiset(r) == multiset(xs[..i])
    ensures forall y :: y in r ==> IdNumber(y) != IdNumber(xs[i])
  {
    forall y | y in r ensures IdNumber(y) != IdNumber(xs[i]) {
      assert y in multiset(xs[..i]);
      var k :| 0 <= k < i && xs[..i][k] == y;
      assert xs[k] == y;
    }
  }

  /** A permutation of a complete listing of `items` is again a complete listing. */
  lemma ListsSameItems(items: map<string, Item>, gathered: seq<Item>, tasks: seq<Item>)
    requires multiset(tasks) == multiset(gathered)
    requires |gathered| == |items|
    requires forall i :: 0 <= i < |gathered| ==> gathered[i].id in items && items[gathered[i].id] == gathered[i]
    requires forall id :: id in items ==> exists i :: 0 <= i < |gathered| && gathered[i].id == id
    ensures |tasks| == |items|
    ensures forall i :: 0 <= i < |tasks| ==> tasks[i].id in items && items[tasks[i].id] == tasks[i]
    ensures forall id :: id in items ==> exists i :: 0 <= i < |tasks| && tasks[i].id == id
  {
    forall i | 0 <= i < |tasks| ensures tasks[i].id in items && items[tasks[i].id] == tasks[i] {
      assert tasks[i] in multiset(gathered);
    }
    forall id | id in items ensures exists i :: 0 <= i < |tasks| && tasks[i].id == id {
      var k :| 0 <= k < |gathered| && gathered[k].id == id;
      assert gathered[k] in multiset(tasks);
    }
    assert |multiset(tasks)| == |multiset(gathered)|;
  }

  /** `todo_storage`. */
  class TodoStorage {
    var items: map<string, Item>
    var nextID: nat

    /**
     * Every key is the decimal form of a number below `nextID`, and every item
     * carries its own key as its ID.
     */
    ghost predicate Valid()
      reads this
    {
      KeysIssued() && IdsMatchKeys()
    }

    ghost predicate KeysIssued()
      reads this
    {
      forall id :: id in items ==> IsNatString(id) && DigitsValue(id) < nextID
    }

    ghost predicate IdsMatchKeys()
      reads this
    {
      forall id :: id in items ==> items[id].id == id
    }

    /** Every stored status is one of the four valid ones. */
    ghost predicate StatusesValid()
      reads this
    {
      forall id :: id in items ==> IsValidStatus(items[id].status)
    }

    /** The empty store `main` starts from. */
    constructor ()
      ensures Valid() && StatusesValid()
      ensures items == map[] && nextID == 0
    {
      items := map[];
      nextID := 0;
    }

    /** `add`: store a new item under the decimal form of `nextID`, then count up. */
    method Add(task: string, status: string) returns (id: string)
      requires Valid()
      modifies this
      ensures Valid()
      ensures id == NatToString(old(nextID))
      ensures id !in old(items)
      ensures forall n: nat :: n < old(nextID) ==> id != NatToString(n)
      ensures items == old(items)[id := Item(id, task, status)]
      ensures nextID == old(nextID) + 1
      ensures old(StatusesValid()) && IsValidStatus(status) ==> StatusesValid()
    {
      id := NatToString(nextID);
      NatToStringIsNatString(nextID);
      forall n: nat | n < nextID ensures id != NatToString(n) {
        NatToStringInjective(n, nextID);
      }
      items := items[id := Item(id, task, status)];
      nextID := nextID + 1;
    }

    /** `changeTask`: replace the task and status of an existing item. */
    method ChangeTask(id: string, task: string, status: string) returns (ok: bool)
      requires Valid()
      modifies this
      ensures Valid() && nextID == old(nextID)
      ensures ok <==> id in old(items)
      ensures ok ==> old(items)[id].id == id && items == old(items)[id := Item(id, task, status)]
      ensures !ok ==> items == old(items)
      ensures old(StatusesValid()) && IsValidStatus(status) ==> StatusesValid()
    {
      if id !in items {
        return false;
      }
      var oldTask := items[id];
      items := items[id := oldTask.(task := task, status := status)];
      return true;
    }

    /** `remove`: delete the item when present. */
    method Remove(id: string) returns (ok: bool)
      requires Valid()
      modifies this
      ensures Valid() && nextID == old(nextID)
      ensures ok <==> id in old(items)
      ensures items == old(items) - {id}
      ensures old(StatusesValid()) ==> StatusesValid()
    {
      if id in items {
        items := items - {id};
      } else {
        return false;
      }
      return true;
    }

    /** `getAll`: a copy of every item, by ascending numeric id. */
    method GetAll() returns (tasks: seq<Item>)
      requires Valid()
      ensures |tasks| == |items|
      ensures forall i :: 0 <= i < |tasks| ==> tasks[i].id in items && items[tasks[i].id] == tasks[i]
      ensures forall id :: id in items ==> exists i :: 0 <= i < |tasks| && tasks[i].id == id
      ensures AscendingIds(tasks)
    {
      var gathered := CopyItems();
      forall i, j | 0 <= i < j < |gathered| ensures IdNumber(gathered[i]) != IdNumber(gathered[j]) {
        IdNumberOfKey(gathered[i]);
        IdNumberOfKey(gathered[j]);
      }
      tasks := SortById(gathered);
      ListsSameItems(items, gathered, tasks);
    }

    /** The `range ts.items` loop of `getAll`: one copy of each item, in map order. */
    method CopyItems() returns (gathered: seq<Item>)
      requires IdsMatchKeys()
      ensures |gathered| == |items|
      ensures forall i :: 0 <= i < |gathered| ==> gathered[i].id in items && items[gathered[i].id] == gathered[i]
      ensures forall i, j :: 0 <= i < j < |gathered| ==> gathered[i].id != gathered[j].id
      ensures forall id :: id in items ==> exists i :: 0 <= i < |gathered| && gathered[i].id == id
    {
      gathered := [];
      var rest := items.Keys;
      while rest != {}
        invariant rest <= items.Keys
        invariant |gathered| + |rest| == |items|
        invariant forall i :: 0 <= i < |gathered| ==> gathered[i].id in items && gathered[i].id !in rest && items[gathered[i].id] == gathered[i]
        invariant forall i, j :: 0 <= i < j < |gathered| ==> gathered[i].id != gathered[j].id
        invariant forall id :: id in items && id !in rest ==> exists i :: 0 <= i < |gathered| && gathered[i].id == id
        decreases |rest|
      {
        var id :| id in rest;
        ghost var before := gathered;
        gathered := gathered + [items[id]];
        rest := rest - {id};
        forall k | k in items && k !in rest ensures exists i :: 0 <= i < |gathered| && gathered[i].id == k {
          if k == id {
            assert gathered[|before|].id == k;
          } else {
            var i :| 0 <= i < |before| && before[i].id == k;
            assert gathered[i].id == k;
          }
        }
      }
    }

    /** `getOne`: a copy of the item and true, or an empty item and false. */
    method GetOne(id: string) returns (item: Item, found: bool)
      ensures found <==> id in items
      ensures found ==> item == items[id]
      ensures !found ==> item == Item("", "", "")
    {
      if id in items {
        return items[id], true;
      }
      return Item("", "", ""), false;
    }

    /** `moveStatusUp`: advance the status one step along the workflow, if it has a successor. */
    method MoveStatusUp(id: string) returns (newStatus: string, ok: bool)
      requires Valid()
      modifies this
      ensures Valid() && nextID == old(nextID)
      ensures ok <==> id in old(items) && StatusFlow.NextStatus(old(items)[id].status).Some?
      ensures ok ==> newStatus == StatusFlow.NextStatus(old(items)[id].status).value
      ensures ok ==> items == old(items)[id := old(items)[id].(status := newStatus)]
      ensures !ok ==> newStatus == "" && items == old(items)
      ensures old(StatusesValid()) ==> StatusesValid()
    {
      if id !in items {
        return "", false;
      }
      var currentStatus := items[id].status;
      var next := StatusFlow.NextStatus(currentStatus);
      if next.None? {
        return "", false;
      }
      newStatus := next.value;
      items := items[id := items[id].(status := newStatus)];
      ok := true;
    }

    /** `seedSampleData`: the three demonstration tasks. */
    method SeedSampleData()
      requires Valid()
      modifies this
      ensures Valid() && nextID == old(nextID) + 3
      ensures items == old(items)
        [NatToString(old(nextID)) := Item(NatToString(old(nextID)), "Buy groceries", "Pending")]
        [NatToString(old(nextID) + 1) := Item(NatToString(old(nextID) + 1), "Clean the house", "Pending")]
        [NatToString(old(nextID) + 2) := Item(NatToString(old(nextID) + 2), "Finish project report", "Completed")]
      ensures old(StatusesValid()) ==> StatusesValid()
    {
      var _ := Add("Buy groceries", "Pending");
      var _ := Add("Clean the house", "Pending");
      var _ := Add("Finish project report", "Completed");
    }
  }

  /** A new store, a Canceled task, and four advances: Pending, In Progress, Completed, then failure. */
  method AdvanceFromCanceled() returns (steps: seq<(string, bool)>)
    ensures steps == [("Pending", true), ("In Progress", true), ("Completed", true), ("", false)]
  {
    var ts := new TodoStorage();
    var id := ts.Add("Renew passport", "Canceled");
    var s1, ok1 := ts.MoveStatusUp(id);
    assert ts.items[id].status == "Pending";
    var s2, ok2 := ts.MoveStatusUp(id);
    assert ts.items[id].status == "In Progress";
    var s3, ok3 := ts.MoveStatusUp(id);
    assert ts.items[id].status == "Completed";
    var s4, ok4 := ts.MoveStatusUp(id);
    steps := [(s1, ok1), (s2, ok2), (s3, ok3), (s4, ok4)];
  }

  /** What `add` stores is what `getOne` then returns under the returned id. */
  method AddThenGetOne(ts: TodoStorage, task: string, status: string) returns (id: string, item: Item, found: bool)
    requires ts.Valid()
    modifies ts
    ensures ts.Valid()
    ensures found && item == Item(id, task, status)
  {
    id := ts.Add(task, status);
    item, found := ts.GetOne(id);
  }
}
