/** The richer variant's item, with a due date, and its status vocabulary (toDo/internal/models/models.go). */
module RichModels {
  import Models

  /** `todo_item` / `TodoItem`: id, task, status and a `YYYY-MM-DD` due date. */
  datatype TodoItem = TodoItem(id: string, task: string, status: string, due: string)

  /** `possibleStatus` (exported by the database variant as `PossibleStatus`). */
  const PossibleStatus: seq<string> := ["Completed", "In Progress", "Pending", "Canceled"]

  /** The status a task gets when the request names none. */
  const DefaultStatus := "Pending"

  /** `isValidStatus` (called as `IsValidStatus` by the validation package). */
  function IsValidStatus(s: string): (b: bool)
    ensures b <==> s == "Completed" || s == "In Progress" || s == "Pending" || s == "Canceled"
  {
    s in PossibleStatus
  }

  lemma PossibleStatusDistinct()
    ensures |PossibleStatus| == 4
    ensures forall i, j :: 0 <= i < j < |PossibleStatus| ==> PossibleStatus[i] != PossibleStatus[j]
  {
  }

  lemma NearMissesRejected()
    ensures !IsValidStatus("pending") && !IsValidStatus(" Pending") && !IsValidStatus("Pending ")
    ensures !IsValidStatus("completed") && !IsValidStatus("InProgress") && !IsValidStatus("")
  {
  }

  /** Both variants accept exactly the same statuses, listed in the same order. */
  lemma SameVocabulary(s: string)
    ensures PossibleStatus == Models.PossibleStatus
    ensures IsValidStatus(s) <==> Models.IsValidStatus(s)
  {
  }
}
