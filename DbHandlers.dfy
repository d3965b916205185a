/**
 * The database variant's request handlers (toDo/internal/dbControl/handlers.go)
 * once the body is decoded into a string map, run against the table model.
 * The HTML sanitizer is the parameter `sanitize`.
 */
module DbHandlers {
  import opened Wrappers
  import opened Strconv
  import opened Dates
  import opened RichModels
  import opened Outcomes
  import Validate
  import Listing
  import DueOrder
  import DbStore
  import StatusFlow

  /** `HandleGet`: the item and 200, or 404. */
  method HandleGet(ts: DbStore.TodoStorage, id: string) returns (o: Outcome, item: Option<TodoItem>)
    ensures o == (if id in ts.todos then Fetched else NotFound)
    ensures item == (if id in ts.todos then Some(ts.ItemOf(id)) else None)
  {
    var r := ts.GetOne(id);
    match r
    case Ok(t) =>
      o, item := Fetched, Some(t);
    case Err(_) =>
      o, item := NotFound, None;
  }

  /** `HandleAdd`: only input that passes validation reaches the table, under a fresh id. */
  method HandleAdd(ts: DbStore.TodoStorage, body: map<string, string>, sanitize: string -> string) returns (o: Outcome)
    requires ts.Valid()
    modifies ts
    ensures ts.Valid()
    ensures Validate.SanitizeAndValidateTaskInput(body, sanitize).Err? ==>
      o == BadRequest(Invalid(Validate.SanitizeAndValidateTaskInput(body, sanitize).error))
      && ts.todos == old(ts.todos) && ts.nextSerial == old(ts.nextSerial)
    ensures Validate.SanitizeAndValidateTaskInput(body, sanitize).Ok? ==>
      var t := Validate.SanitizeAndValidateTaskInput(body, sanitize).value;
      var id := NatToString(old(ts.nextSerial));
      && o == Created(id, false)
      && id !in old(ts.todos)
      && ts.todos == old(ts.todos)[id := DbStore.Row(t.task, t.status, t.due)]
      && ts.nextSerial == old(ts.nextSerial) + 1
    ensures old(ts.RowsWellFormed()) ==> ts.RowsWellFormed()
  {
    match Validate.SanitizeAndValidateTaskInput(body, sanitize)
    case Err(e) =>
      o := BadRequest(Invalid(e));
    case Ok(t) =>
      var id := ts.Add(t.task, t.status, t.due);
      o := Created(id, false);
  }

  /** `HandleRemove`: 400 for an empty id; otherwise 200, whether or not a row had that id. */
  method HandleRemove(ts: DbStore.TodoStorage, id: string) returns (o: Outcome)
    requires ts.Valid()
    modifies ts
    ensures ts.Valid() && ts.nextSerial == old(ts.nextSerial)
    ensures id == "" ==> o == BadRequest(MissingId) && ts.todos == old(ts.todos)
    ensures id != "" ==> o == Removed && ts.todos == old(ts.todos) - {id}
    ensures old(ts.RowsWellFormed()) ==> ts.RowsWellFormed()
  {
    if id == "" {
      return BadRequest(MissingId);
    }
    ts.Remove(id);
    o := Removed;
  }

  /** Where `HandleUpdateTask` sends a request. */
  datatype UpdateRoute =
    | UpdateRejected(reason: Reason)
    | AdvanceStatus
    | Replace(input: Validate.TaskInput)

  predicate WantsAdvance(body: map<string, string>) {
    "changeUp" in body && ParseBool(body["changeUp"]) == Some(true)
  }

  /** `HandleUpdateTask`: id, then `changeUp`, then the shared validation. */
  function RouteUpdate(id: string, body: map<string, string>, sanitize: string -> string): (r: UpdateRoute)
    ensures r == UpdateRejected(MissingId) <==> id == ""
    ensures r == UpdateRejected(InvalidChangeUp) <==> id != "" && "changeUp" in body && ParseBool(body["changeUp"]).None?
    ensures r == AdvanceStatus <==> id != "" && WantsAdvance(body)
    ensures r.Replace? <==>
      id != "" && ("changeUp" in body ==> ParseBool(body["changeUp"]) == Some(false)) &&
      Validate.SanitizeAndValidateTaskInput(body, sanitize).Ok?
    ensures r.Replace? ==> r.input == Validate.SanitizeAndValidateTaskInput(body, sanitize).value
    ensures r.UpdateRejected? && id != "" && !("changeUp" in body && ParseBool(body["changeUp"]).None?) ==>
      r.reason == Invalid(Validate.SanitizeAndValidateTaskInput(body, sanitize).error)
  {
    if id == "" then UpdateRejected(MissingId)
    else if "changeUp" in body && ParseBool(body["changeUp"]).None? then UpdateRejected(InvalidChangeUp)
    else if "changeUp" in body && ParseBool(body["changeUp"]) == Some(true) then AdvanceStatus
    else
      match Validate.SanitizeAndValidateTaskInput(body, sanitize)
      case Err(e) => UpdateRejected(Invalid(e))
      case Ok(t) => Replace(t)
  }

  /** An advance request is never validated: its other fields may be anything. */
  lemma AdvanceIgnoresFields(id: string, body: map<string, string>, sanitize: string -> string)
    requires id != ""
    ensures RouteUpdate(id, body["changeUp" := "true"], sanitize) == AdvanceStatus
    ensures RouteUpdate(id, body["changeUp" := "1"], sanitize) == AdvanceStatus
  {
  }

  /** `HandleUpdateTask`: advance the status, or replace the row, or refuse without touching the table. */
  method HandleUpdateTask(ts: DbStore.TodoStorage, id: string, body: map<string, string>, sanitize: string -> string)
    returns (o: Outcome)
    requires ts.Valid()
    modifies ts
    ensures ts.Valid() && ts.nextSerial == old(ts.nextSerial)
    ensures RouteUpdate(id, body, sanitize).UpdateRejected? ==>
      o == BadRequest(RouteUpdate(id, body, sanitize).reason) && ts.todos == old(ts.todos)
    ensures RouteUpdate(id, body, sanitize) == AdvanceStatus ==>
      if id in old(ts.todos) && StatusFlow.NextStatus(old(ts.todos)[id].status).Some? then
        var s := StatusFlow.NextStatus(old(ts.todos)[id].status).value;
        o == Moved(s) && ts.todos == old(ts.todos)[id := old(ts.todos)[id].(status := s)]
      else
        o == Conflict && ts.todos == old(ts.todos)
    ensures RouteUpdate(id, body, sanitize).Replace? ==>
      var t := RouteUpdate(id, body, sanitize).input;
      && o == Updated(false)
      && ts.todos == (if id in old(ts.todos) then old(ts.todos)[id := DbStore.Row(t.task, t.status, t.due)] else old(ts.todos))
    ensures old(ts.RowsWellFormed()) ==> ts.RowsWellFormed()
  {
    match RouteUpdate(id, body, sanitize)
    case UpdateRejected(reason) =>
      o := BadRequest(reason);
    case AdvanceStatus =>
      var r := ts.MoveStatusUp(id);
      o := if r.Ok? then Moved(r.value) else Conflict;
    case Replace(t) =>
      ts.ChangeTask(id, t.task, t.status, t.due);
      o := Updated(false);
  }

  /**
   * `HandleGetAll`: every row by ascending id, the status filter, the listing
   * order, then the page window. `sorted` is the order `sort.Slice` left the
   * filtered tasks in; any order it may leave them in is Sorted and a permutation.
   */
  method HandleGetAll(ts: DbStore.TodoStorage, statusFilter: string, pageStr: string, limitStr: string)
    returns (r: Listing.ListReply<TodoItem>, ghost all: seq<TodoItem>, ghost sorted: seq<TodoItem>)
    requires ts.Valid()
    ensures |all| == |ts.todos| && DbStore.AscendingById(all)
    ensures forall i :: 0 <= i < |all| ==> all[i].id in ts.todos && all[i] == ts.ItemOf(all[i].id)
    ensures DueOrder.Sorted(sorted)
    ensures multiset(sorted) == multiset(Listing.ApplyStatusFilter(all, (t: TodoItem) => t.status, PossibleStatus, statusFilter))
    ensures (r.page, r.limit) == Listing.ParsePageLimit(pageStr, limitStr)
    ensures r.total == |Listing.ApplyStatusFilter(all, (t: TodoItem) => t.status, PossibleStatus, statusFilter)|
    ensures Listing.Paginate(sorted, r.page, r.limit) == Listing.Page(r.tasks, r.total)
  {
    var (page, limit) := Listing.ParsePageLimit(pageStr, limitStr);
    var allTasks := ts.GetAll();
    all := allTasks;
    var filtered := Listing.FilterTasks(allTasks, (t: TodoItem) => t.status, PossibleStatus, statusFilter);
    var ordered := DueOrder.SortForListing(filtered);
    sorted := ordered;
    assert |ordered| == |multiset(ordered)| == |multiset(filtered)| == |filtered|;
    var p := Listing.Paginate(ordered, page, limit);
    r := Listing.ListReply(page, limit, p.total, p.tasks);
  }
}
