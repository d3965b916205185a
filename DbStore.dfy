/**
 * The database-backed store (toDo/internal/dbControl/storage.go). The `todos`
 * table is a map from id to row; the ids the database generates are the
 * decimal forms of a counter (the table's id sequence), and `ORDER BY id`
 * lists them by ascending number. Each SQL statement is one atomic step.
 */
module DbStore {
  import opened Wrappers
  import opened Strconv
  import opened Dates
  import opened RichModels
  import StatusFlow

  /** The non-key columns of a `todos` row. */
  datatype Row = Row(task: string, status: string, due: string)

  datatype DbError =
    | NoRows             // `sql.ErrNoRows` from `Scan`: no row has that id
    | CannotMoveForward  // "cannot move status forward"

  /** Decimal ids in strictly ascending numeric order. */
  predicate AscendingIds(ids: seq<string>) {
    forall i, j :: 0 <= i < j < |ids| ==> IsNatString(ids[i]) && IsNatString(ids[j]) && DigitsValue(ids[i]) < DigitsValue(ids[j])
  }

  /** Items whose ids are in strictly ascending numeric order. */
  predicate AscendingById(s: seq<TodoItem>) {
    forall i, j :: 0 <= i < j < |s| ==> IsNatString(s[i].id) && IsNatString(s[j].id) && DigitsValue(s[i].id) < DigitsValue(s[j].id)
  }

  predicate Distinct<K(==)>(s: seq<K>) {
    forall i, j :: 0 <= i < j < |s| ==> s[i] != s[j]
  }

  /** A duplicate-free sequence that lists exactly the elements of a set is as long as the set is large. */
  lemma {:induction false} DistinctListingSize<K>(s: seq<K>, keys: set<K>)
    requires Distinct(s)
    requires forall i :: 0 <= i < |s| ==> s[i] in keys
    requires forall k :: k in keys ==> k in s
    ensures |s| == |keys|
    decreases |s|
  {
    if s != [] {
      var last := s[|s| - 1];
      var init := s[..|s| - 1];
      forall k | k in keys - {last} ensures k in init {
        var i :| 0 <= i < |s| && s[i] == k;
        assert i < |s| - 1;
      }
      DistinctListingSize(init, keys - {last});
    } else {
      assert forall k :: k !in keys;
    }
  }

  /** `TodoStorage`: the `todos` table and the next value of its id sequence. */
  class TodoStorage {
    var todos: map<string, Row>
    var nextSerial: nat

    /** Every id is the decimal form of a value the sequence has already handed out. */
    ghost predicate Valid()
      reads this
    {
      forall id :: id in todos ==> IsNatString(id) && DigitsValue(id) < nextSerial
    }

    /** Every row holds a valid status and a due date that parses. */
    ghost predicate RowsWellFormed()
      reads this
    {
      forall id :: id in todos ==> IsValidStatus(todos[id].status) && IsDate(todos[id].due)
    }

    /** An empty table whose id sequence starts at 1. */
    constructor ()
      ensures Valid() && RowsWellFormed()
      ensures todos == map[] && nextSerial == 1
    {
      todos := map[];
      nextSerial := 1;
    }

    /** The item that `SELECT id, task, status, due` scans from a row. */
    function ItemOf(id: string): TodoItem
      reads this
      requires id in todos
    {
      TodoItem(id, todos[id].task, todos[id].status, todos[id].due)
    }

    /** The ids below `n`, in ascending numeric order: the cursor of `... ORDER BY id`. */
    function IdsBelow(n: nat): (ids: seq<string>)
      reads this
      ensures forall i :: 0 <= i < |ids| ==> ids[i] in todos && IsNatString(ids[i]) && DigitsValue(ids[i]) < n
      ensures AscendingIds(ids)
    {
      if n == 0 then []
      else
        NatToStringIsNatString(n - 1);
        IdsBelow(n - 1) + (if NatToString(n - 1) in todos then [NatToString(n - 1)] else [])
    }

    /** Every id that is the decimal form of a number below `n` is on the cursor. */
    lemma {:induction false} IdsBelowCovers(n: nat, id: string)
      requires id in todos && IsNatString(id) && DigitsValue(id) < n
      ensures id in IdsBelow(n)
      decreases n
    {
      if DigitsValue(id) < n - 1 {
        IdsBelowCovers(n - 1, id);
      } else {
        assert id == NatToString(n - 1);
      }
    }

    /** The cursor over all ids lists every row exactly once. */
    lemma CursorListsTable()
      requires Valid()
      ensures forall id :: id in todos ==> id in IdsBelow(nextSerial)
      ensures |IdsBelow(nextSerial)| == |todos|
    {
      var cursor := IdsBelow(nextSerial);
      forall id | id in todos ensures id in cursor {
        IdsBelowCovers(nextSerial, id);
      }
      assert Distinct(cursor);
      DistinctListingSize(cursor, todos.Keys);
    }

    /** `add`: INSERT ... RETURNING id, under an id the sequence has not handed out before. */
    method Add(task: string, status: string, due: string) returns (id: string)
      requires Valid()
      modifies this
      ensures Valid()
      ensures id == NatToString(old(nextSerial)) && id !in old(todos)
      ensures todos == old(todos)[id := Row(task, status, due)]
      ensures nextSerial == old(nextSerial) + 1
      ensures old(RowsWellFormed()) && IsValidStatus(status) && IsDate(due) ==> RowsWellFormed()
    {
      id := NatToString(nextSerial);
      NatToStringIsNatString(nextSerial);
      todos := todos[id := Row(task, status, due)];
      nextSerial := nextSerial + 1;
    }

    /** `changeTask`: UPDATE ... WHERE id; with no matching row nothing changes and no error is reported. */
    method ChangeTask(id: string, task: string, status: string, due: string)
      requires Valid()
      modifies this
      ensures Valid() && nextSerial == old(nextSerial)
      ensures id in old(todos) ==> todos == old(todos)[id := Row(task, status, due)]
      ensures id !in old(todos) ==> todos == old(todos)
      ensures old(RowsWellFormed()) && IsValidStatus(status) && IsDate(due) ==> RowsWellFormed()
    {
      if id in todos {
        todos := todos[id := Row(task, status, due)];
      }
    }

    /** `remove`: DELETE ... WHERE id; removing an absent id changes nothing and is not an error. */
    method Remove(id: string)
      requires Valid()
      modifies this
      ensures Valid() && nextSerial == old(nextSerial)
      ensures todos == old(todos) - {id}
      ensures old(RowsWellFormed()) ==> RowsWellFormed()
    {
      todos := todos - {id};
    }

    /** The items scanned from the rows under `ids`, in that order. */
    function ItemsOf(ids: seq<string>): (items: seq<TodoItem>)
      reads this
      requires forall i :: 0 <= i < |ids| ==> ids[i] in todos
      ensures |items| == |ids|
      ensures forall i :: 0 <= i < |ids| ==> items[i] == ItemOf(ids[i])
    {
      if ids == [] then [] else ItemsOf(ids[..|ids| - 1]) + [ItemOf(ids[|ids| - 1])]
    }

    /** The row under every id in `ids` is among the items scanned along it. */
    lemma ItemsOfCovers(ids: seq<string>)
      requires forall i :: 0 <= i < |ids| ==> ids[i] in todos
      ensures forall id :: id in ids ==> id in todos && ItemOf(id) in ItemsOf(ids)
    {
      var result := ItemsOf(ids);
      forall id | id in ids ensures id in todos && ItemOf(id) in result {
        var k :| 0 <= k < |ids| && ids[k] == id;
        assert result[k] == ItemOf(id);
      }
    }

    /** The cursor yields rows by ascending id. */
    lemma ItemsOfAscending(ids: seq<string>)
      requires forall i :: 0 <= i < |ids| ==> ids[i] in todos
      requires AscendingIds(ids)
      ensures AscendingById(ItemsOf(ids))
    {
      var result := ItemsOf(ids);
      forall i, j | 0 <= i < j < |result|
        ensures IsNatString(result[i].id) && IsNatString(result[j].id) && DigitsValue(result[i].id) < DigitsValue(result[j].id)
      {
        assert result[i].id == ids[i] && result[j].id == ids[j];
      }
    }

    /** Scan the rows under `ids`, one `rows.Next` at a time. */
    method Scan(ids: seq<string>) returns (result: seq<TodoItem>)
      requires forall i :: 0 <= i < |ids| ==> ids[i] in todos
      ensures result == ItemsOf(ids)
    {
      result := [];
      var i := 0;
      while i < |ids|
        invariant 0 <= i <= |ids|
        invariant result == ItemsOf(ids[..i])
      {
        assert ids[..i + 1][..i] == ids[..i];
        result := result + [ItemOf(ids[i])];
        i := i + 1;
      }
      assert ids[..i] == ids;
    }

    /** `getAll`: every row once, by ascending id. */
    method GetAll() returns (result: seq<TodoItem>)
      requires Valid()
      ensures |result| == |todos|
      ensures forall i :: 0 <= i < |result| ==> result[i].id in todos && result[i] == ItemOf(result[i].id)
      ensures forall id :: id in todos ==> ItemOf(id) in result
      ensures AscendingById(result)
    {
      var cursor := IdsBelow(nextSerial);
      result := Scan(cursor);
      CursorListsTable();
      ItemsOfCovers(cursor);
      ItemsOfAscending(cursor);
    }

    /** `getOne`: the row with that id, or `sql.ErrNoRows`. */
    method GetOne(id: string) returns (r: Result<TodoItem, DbError>)
      ensures r.Ok? <==> id in todos
      ensures r.Ok? ==> r.value == ItemOf(id)
      ensures r.Err? ==> r.error == NoRows
    {
      if id !in todos {
        return Err(NoRows);
      }
      return Ok(ItemOf(id));
    }

    /** `moveStatusUp`: read the status, look up its successor, write it back. */
    method MoveStatusUp(id: string) returns (r: Result<string, DbError>)
      requires Valid()
      modifies this
      ensures Valid() && nextSerial == old(nextSerial)
      ensures id !in old(todos) ==> r == Err(NoRows) && todos == old(todos)
      ensures id in old(todos) && StatusFlow.NextStatus(old(todos)[id].status).None? ==>
        r == Err(CannotMoveForward) && todos == old(todos)
      ensures id in old(todos) && StatusFlow.NextStatus(old(todos)[id].status).Some? ==>
        var s := StatusFlow.NextStatus(old(todos)[id].status).value;
        r == Ok(s) && todos == old(todos)[id := old(todos)[id].(status := s)]
      ensures old(RowsWellFormed()) ==> RowsWellFormed()
    {
      if id !in todos {
        return Err(NoRows);
      }
      var current := todos[id].status;
      var next := StatusFlow.NextStatus(current);
      if next.None? {
        return Err(CannotMoveForward);
      }
      todos := todos[id := todos[id].(status := next.value)];
      r := Ok(next.value);
    }

    /** `seedSampleData`: the three demonstration rows. */
    method SeedSampleData()
      requires Valid()
      modifies this
      ensures Valid() && nextSerial == old(nextSerial) + 3
      ensures todos == old(todos)
        [NatToString(old(nextSerial)) := Row("Buy groceries", "Pending", "2025-06-10")]
        [NatToString(old(nextSerial) + 1) := Row("Clean the house", "Pending", "2025-06-11")]
        [NatToString(old(nextSerial) + 2) := Row("Finish project report", "Completed", "2025-06-09")]
    {
      var _ := Add("Buy groceries", "Pending", "2025-06-10");
      var _ := Add("Clean the house", "Pending", "2025-06-11");
      var _ := Add("Finish project report", "Completed", "2025-06-09");
    }
  }

  /** A row is written by `add` and read back unchanged by `getOne`. */
  method AddThenGetOne(ts: TodoStorage, task: string, status: string, due: string) returns (id: string, r: Result<TodoItem, DbError>)
    requires ts.Valid()
    modifies ts
    ensures ts.Valid()
    ensures r == Ok(TodoItem(id, task, status, due))
  {
    id := ts.Add(task, status, due);
    r := ts.GetOne(id);
  }

  /** Four advances of a Canceled row: Pending, In Progress, Completed, then "cannot move status forward". */
  method AdvanceFromCanceled() returns (steps: seq<Result<string, DbError>>)
    ensures steps == [Ok("Pending"), Ok("In Progress"), Ok("Completed"), Err(CannotMoveForward)]
  {
    var ts := new TodoStorage();
    var id := ts.Add("Renew passport", "Canceled", "2025-07-01");
    var r1 := ts.MoveStatusUp(id);
    var r2 := ts.MoveStatusUp(id);
    var r3 := ts.MoveStatusUp(id);
    var r4 := ts.MoveStatusUp(id);
    steps := [r1, r2, r3, r4];
  }
}
