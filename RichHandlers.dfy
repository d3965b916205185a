/**
 * The richer variant's request handlers (toDo/internal/handlers/handlers.go):
 * their own field rules for a task with a due date, the `changeUp` dispatch,
 * and the listing query over the tasks the store returns. Their store is not
 * part of this model, so the handlers are modelled up to the store call.
 */
module RichHandlers {
  import opened Wrappers
  import opened Strconv
  import opened RichModels
  import opened Outcomes
  import Listing

  /** The request after `handleAdd`'s field rules. */
  datatype AddCheck =
    | AddRejected(reason: Reason)
    | AddAccepted(task: string, status: string, due: string, defaulted: bool)

  /** `handleAdd`: "task" present; status absent means Pending, present must be valid; "due" present and not empty. */
  function CheckAdd(body: map<string, string>): (c: AddCheck)
    ensures c == AddRejected(MissingTask) <==> "task" !in body
    ensures c == AddRejected(InvalidStatus) <==> "task" in body && "status" in body && !IsValidStatus(body["status"])
    ensures c == AddRejected(MissingDue) <==>
      "task" in body && ("status" in body ==> IsValidStatus(body["status"])) && ("due" !in body || body["due"] == "")
    ensures c.AddAccepted? <==>
      "task" in body && ("status" in body ==> IsValidStatus(body["status"])) && "due" in body && body["due"] != ""
    ensures c.AddAccepted? ==>
      && c.task == body["task"] && IsValidStatus(c.status)
      && c.due == body["due"] && c.due != ""
      && (c.defaulted <==> "status" !in body)
      && c.status == (if "status" in body then body["status"] else DefaultStatus)
  {
    if "task" !in body then AddRejected(MissingTask)
    else
      var status := if "status" in body then body["status"] else DefaultStatus;
      if !IsValidStatus(status) then AddRejected(InvalidStatus)
      else if "due" !in body || body["due"] == "" then AddRejected(MissingDue)
      else AddAccepted(body["task"], status, body["due"], "status" !in body)
  }

  /** Where `handleUpdateTask` sends a request. */
  datatype UpdateRoute =
    | UpdateRejected(reason: Reason)
    | AdvanceStatus
    | Replace(task: string, status: string, due: string, defaulted: bool)

  /** The id is given and `changeUp` is absent or false, so the field rules decide. */
  predicate FieldRulesApply(id: string, body: map<string, string>) {
    id != "" && ("changeUp" in body ==> ParseBool(body["changeUp"]) == Some(false))
  }

  /** `handleUpdateTask`: id, `changeUp`, "task", status default, "due" present, then status valid. */
  function RouteUpdate(id: string, body: map<string, string>): (r: UpdateRoute)
    ensures r == UpdateRejected(MissingId) <==> id == ""
    ensures r == UpdateRejected(InvalidChangeUp) <==> id != "" && "changeUp" in body && ParseBool(body["changeUp"]).None?
    ensures r == AdvanceStatus <==> id != "" && "changeUp" in body && ParseBool(body["changeUp"]) == Some(true)
    ensures r == UpdateRejected(MissingTask) <==> FieldRulesApply(id, body) && "task" !in body
    ensures r == UpdateRejected(MissingDue) <==> FieldRulesApply(id, body) && "task" in body && "due" !in body
    ensures r == UpdateRejected(InvalidStatus) <==>
      FieldRulesApply(id, body) && "task" in body && "due" in body && "status" in body && !IsValidStatus(body["status"])
    ensures r.Replace? <==>
      && id != "" && ("changeUp" in body ==> ParseBool(body["changeUp"]) == Some(false))
      && "task" in body && "due" in body && ("status" in body ==> IsValidStatus(body["status"]))
    ensures r.Replace? ==>
      && r.task == body["task"] && r.due == body["due"] && IsValidStatus(r.status)
      && (r.defaulted <==> "status" !in body)
  {
    if id == "" then UpdateRejected(MissingId)
    else if "changeUp" in body && ParseBool(body["changeUp"]).None? then UpdateRejected(InvalidChangeUp)
    else if "changeUp" in body && ParseBool(body["changeUp"]) == Some(true) then AdvanceStatus
    else if "task" !in body then UpdateRejected(MissingTask)
    else
      var status := if "status" in body then body["status"] else DefaultStatus;
      if "due" !in body then UpdateRejected(MissingDue)
      else if !IsValidStatus(status) then UpdateRejected(InvalidStatus)
      else Replace(body["task"], status, body["due"], "status" !in body)
  }

  /**
   * The two handlers check the same fields in different orders and with
   * different strictness: with a bad status and no due date, adding reports
   * the status and updating reports the due date; an empty due date is
   * refused by add and accepted by update.
   */
  lemma AddAndUpdateDisagree(id: string)
    requires id != ""
    ensures CheckAdd(map["task" := "t", "status" := "Done"]) == AddRejected(InvalidStatus)
    ensures RouteUpdate(id, map["task" := "t", "status" := "Done"]) == UpdateRejected(MissingDue)
    ensures CheckAdd(map["task" := "t", "due" := ""]) == AddRejected(MissingDue)
    ensures RouteUpdate(id, map["task" := "t", "due" := ""]) == Replace("t", "Pending", "", true)
  {
    assert !IsValidStatus("Done");
  }

  /** Neither handler looks at the due date's format, nor at the task text. */
  lemma FreeTextAccepted(id: string, task: string, due: string)
    requires id != "" && due != ""
    ensures CheckAdd(map["task" := task, "due" := due]) == AddAccepted(task, "Pending", due, true)
    ensures RouteUpdate(id, map["task" := task, "due" := due]) == Replace(task, "Pending", due, true)
  {
  }

  /** When update's rules accept a body without `changeUp`, add's accept it too, with the same fields (not the converse). */
  lemma UpdateAcceptedImpliesAddAccepted(id: string, body: map<string, string>)
    requires "changeUp" !in body && RouteUpdate(id, body).Replace? && body["due"] != ""
    ensures CheckAdd(body) == AddAccepted(RouteUpdate(id, body).task, RouteUpdate(id, body).status,
                                          RouteUpdate(id, body).due, RouteUpdate(id, body).defaulted)
  {
  }

  /** `handleGetAll`: the store's tasks in the order it returns them, filtered and windowed, with no sorting. */
  method HandleGetAll(all: seq<TodoItem>, statusFilter: string, pageStr: string, limitStr: string)
    returns (r: Listing.ListReply<TodoItem>)
    ensures (r.page, r.limit) == Listing.ParsePageLimit(pageStr, limitStr)
    ensures var filtered := Listing.ApplyStatusFilter(all, (t: TodoItem) => t.status, PossibleStatus, statusFilter);
      Listing.Paginate(filtered, r.page, r.limit) == Listing.Page(r.tasks, r.total)
  {
    r := Listing.ListPage(all, (t: TodoItem) => t.status, PossibleStatus, statusFilter, pageStr, limitStr);
  }
}
