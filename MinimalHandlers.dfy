/**
 * The minimal variant's request handlers (toDo/handlers.go) once the body is
 * decoded into a string map: their field rules, the `changeUp` dispatch, and
 * the listing query, run against the in-memory store.
 */
module MinimalHandlers {
  import opened Wrappers
  import opened Strconv
  import opened Models
  import opened Outcomes
  import Listing
  import MemStore
  import StatusFlow

  /** The status substituted for an absent one is itself valid. */
  lemma DefaultStatusValid()
    ensures IsValidStatus(DefaultStatus)
  {
  }

  /** The request after `handleAdd`'s field rules. */
  datatype AddCheck =
    | AddRejected(reason: Reason)
    | AddAccepted(task: string, status: string, defaulted: bool)

  /** `handleAdd`: "task" must be present (any text, even empty); an absent status is Pending; a present one must be valid. */
  function CheckAdd(body: map<string, string>): (c: AddCheck)
    ensures c == AddRejected(MissingTask) <==> "task" !in body
    ensures c == AddRejected(InvalidStatus) <==> "task" in body && "status" in body && !IsValidStatus(body["status"])
    ensures c.AddAccepted? <==> "task" in body && ("status" in body ==> IsValidStatus(body["status"]))
    ensures c.AddAccepted? ==> c.task == body["task"] && IsValidStatus(c.status)
    ensures c.AddAccepted? ==> (c.defaulted <==> "status" !in body)
    ensures c.AddAccepted? ==> c.status == if "status" in body then body["status"] else DefaultStatus
  {
    if "task" !in body then AddRejected(MissingTask)
    else
      var status := if "status" in body then body["status"] else DefaultStatus;
      if !IsValidStatus(status) then AddRejected(InvalidStatus)
      else AddAccepted(body["task"], status, "status" !in body)
  }

  /** An empty task text passes: only the key's presence is checked. */
  lemma EmptyTaskAccepted()
    ensures CheckAdd(map["task" := ""]) == AddAccepted("", "Pending", true)
  {
  }

  /** Where `handleUpdateTask` sends a request. */
  datatype UpdateRoute =
    | UpdateRejected(reason: Reason)
    | AdvanceStatus
    | Replace(task: string, status: string, defaulted: bool)

  predicate WantsAdvance(body: map<string, string>) {
    "changeUp" in body && ParseBool(body["changeUp"]) == Some(true)
  }

  /** `handleUpdateTask`: id, then `changeUp`, then the same field rules as `handleAdd`. */
  function RouteUpdate(id: string, body: map<string, string>): (r: UpdateRoute)
    ensures r == UpdateRejected(MissingId) <==> id == ""
    ensures r == AdvanceStatus <==> id != "" && WantsAdvance(body)
    ensures r == UpdateRejected(InvalidChangeUp) <==> id != "" && "changeUp" in body && ParseBool(body["changeUp"]).None?
  {
    if id == "" then UpdateRejected(MissingId)
    else if "changeUp" in body && ParseBool(body["changeUp"]).None? then UpdateRejected(InvalidChangeUp)
    else if "changeUp" in body && ParseBool(body["changeUp"]) == Some(true) then AdvanceStatus
    else
      match CheckAdd(body)
      case AddRejected(reason) => UpdateRejected(reason)
      case AddAccepted(task, status, defaulted) => Replace(task, status, defaulted)
  }

  /** With `changeUp` absent or false, an update obeys exactly the add rules. */
  lemma UpdateFieldsAreAddFields(id: string, body: map<string, string>)
    requires id != "" && ("changeUp" in body ==> ParseBool(body["changeUp"]) == Some(false))
    ensures RouteUpdate(id, body).Replace? <==> CheckAdd(body).AddAccepted?
    ensures RouteUpdate(id, body).Replace? ==>
      RouteUpdate(id, body) == Replace(CheckAdd(body).task, CheckAdd(body).status, CheckAdd(body).defaulted)
    ensures RouteUpdate(id, body).UpdateRejected? ==> RouteUpdate(id, body) == UpdateRejected(CheckAdd(body).reason)
  {
  }

  /** `handleGet`: the item and 200, or 404. */
  method HandleGet(ts: MemStore.TodoStorage, id: string) returns (o: Outcome, item: Item)
    ensures o == (if id in ts.items then Fetched else NotFound)
    ensures id in ts.items ==> item == ts.items[id]
  {
    var found;
    item, found := ts.GetOne(id);
    o := if found then Fetched else NotFound;
  }

  /** `handleAdd`: only a body that passes the field rules reaches the store. */
  method HandleAdd(ts: MemStore.TodoStorage, body: map<string, string>) returns (o: Outcome)
    requires ts.Valid()
    modifies ts
    ensures ts.Valid()
    ensures CheckAdd(body).AddRejected? ==>
      o == BadRequest(CheckAdd(body).reason) && ts.items == old(ts.items) && ts.nextID == old(ts.nextID)
    ensures CheckAdd(body).AddAccepted? ==>
      var c := CheckAdd(body);
      var id := NatToString(old(ts.nextID));
      && o == Created(id, c.defaulted)
      && ts.items == old(ts.items)[id := Item(id, c.task, c.status)]
      && ts.nextID == old(ts.nextID) + 1
    ensures old(ts.StatusesValid()) ==> ts.StatusesValid()
  {
    match CheckAdd(body)
    case AddRejected(reason) =>
      o := BadRequest(reason);
    case AddAccepted(task, status, defaulted) =>
      var id := ts.Add(task, status);
      o := Created(id, defaulted);
  }

  /** `handleRemove`: 400 for an empty id, 200 when removed, 500 when there was nothing to remove. */
  method HandleRemove(ts: MemStore.TodoStorage, id: string) returns (o: Outcome)
    requires ts.Valid()
    modifies ts
    ensures ts.Valid() && ts.nextID == old(ts.nextID)
    ensures id == "" ==> o == BadRequest(MissingId) && ts.items == old(ts.items)
    ensures id != "" ==> o == (if id in old(ts.items) then Removed else ServerError) && ts.items == old(ts.items) - {id}
    ensures old(ts.StatusesValid()) ==> ts.StatusesValid()
  {
    if id == "" {
      return BadRequest(MissingId);
    }
    var ok := ts.Remove(id);
    o := if ok then Removed else ServerError;
  }

  /** `handleUpdateTask`: advance the status, or replace task and status, or refuse without touching the store. */
  method HandleUpdateTask(ts: MemStore.TodoStorage, id: string, body: map<string, string>) returns (o: Outcome)
    requires ts.Valid()
    modifies ts
    ensures ts.Valid() && ts.nextID == old(ts.nextID)
    ensures RouteUpdate(id, body).UpdateRejected? ==>
      o == BadRequest(RouteUpdate(id, body).reason) && ts.items == old(ts.items)
    ensures RouteUpdate(id, body) == AdvanceStatus ==>
      if id in old(ts.items) && StatusFlow.NextStatus(old(ts.items)[id].status).Some? then
        var s := StatusFlow.NextStatus(old(ts.items)[id].status).value;
        o == Moved(s) && ts.items == old(ts.items)[id := old(ts.items)[id].(status := s)]
      else
        o == Conflict && ts.items == old(ts.items)
    ensures RouteUpdate(id, body).Replace? ==>
      var r := RouteUpdate(id, body);
      if id in old(ts.items) then
        o == Updated(r.defaulted) && ts.items == old(ts.items)[id := Item(id, r.task, r.status)]
      else
        o == ServerError && ts.items == old(ts.items)
    ensures old(ts.StatusesValid()) ==> ts.StatusesValid()
  {
    match RouteUpdate(id, body)
    case UpdateRejected(reason) =>
      o := BadRequest(reason);
    case AdvanceStatus =>
      var newStatus, success := ts.MoveStatusUp(id);
      o := if success then Moved(newStatus) else Conflict;
    case Replace(task, status, defaulted) =>
      var ok := ts.ChangeTask(id, task, status);
      o := if ok then Updated(defaulted) else ServerError;
  }

  /** `handleGetAll`: every stored item by ascending id, then the status filter and the page window. */
  method HandleGetAll(ts: MemStore.TodoStorage, statusFilter: string, pageStr: string, limitStr: string)
    returns (r: Listing.ListReply<Item>, ghost all: seq<Item>)
    requires ts.Valid()
    ensures |all| == |ts.items| && MemStore.AscendingIds(all)
    ensures forall i :: 0 <= i < |all| ==> all[i].id in ts.items && ts.items[all[i].id] == all[i]
    ensures r == Listing.ListQuery(all, (it: Item) => it.status, PossibleStatus, statusFilter, pageStr, limitStr)
  {
    var allTasks := ts.GetAll();
    all := allTasks;
    r := Listing.ListPage(allTasks, (it: Item) => it.status, PossibleStatus, statusFilter, pageStr, limitStr);
  }
}
