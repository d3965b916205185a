/** What a handler answers, without the HTTP plumbing; each outcome notes its status code. */
module Outcomes {
  import Validate

  /** Why a request was refused with 400. */
  datatype Reason =
    | MissingId                               // empty `{id}` path value
    | MissingTask                             // no "task" key
    | InvalidStatus                           // a status outside the vocabulary
    | MissingDue                              // no (or an empty) "due" value
    | InvalidChangeUp                         // "changeUp" is not a Go boolean
    | Invalid(error: Validate.ValidationError) // the validation package's error

  datatype Outcome =
    | Created(id: string, defaulted: bool)  // 201; `defaulted` is the "note" that the status defaulted to Pending
    | Updated(defaulted: bool)              // 200 "Task updated successfully"
    | Moved(newStatus: string)              // 200 "Status moved up"
    | Removed                               // 200 "Task removed"
    | Fetched                               // 200 with the item
    | BadRequest(reason: Reason)            // 400
    | NotFound                              // 404
    | Conflict                              // 409 "Status of this task can't be moved up"
    | ServerError                           // 500
}
