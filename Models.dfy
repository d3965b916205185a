/** The minimal variant's item and its status vocabulary (toDo/models.go). */
module Models {
  /** `todo_item`: an id, a task text and a status; no due date. */
  datatype Item = Item(id: string, task: string, status: string)

  /** `possibleStatus`. */
  const PossibleStatus: seq<string> := ["Completed", "In Progress", "Pending", "Canceled"]

  /** The status a task gets when the request names none. */
  const DefaultStatus := "Pending"

  /** `isValidStatus`: exact, case-sensitive membership in `PossibleStatus`. */
  function IsValidStatus(s: string): (b: bool)
    ensures b <==> s == "Completed" || s == "In Progress" || s == "Pending" || s == "Canceled"
  {
    s in PossibleStatus
  }

  /** The four statuses are distinct. */
  lemma PossibleStatusDistinct()
    ensures |PossibleStatus| == 4
    ensures forall i, j :: 0 <= i < j < |PossibleStatus| ==> PossibleStatus[i] != PossibleStatus[j]
  {
  }

  /** Near misses are not statuses: the comparison is exact. */
  lemma NearMissesRejected()
    ensures !IsValidStatus("pending") && !IsValidStatus(" Pending") && !IsValidStatus("Pending ")
    ensures !IsValidStatus("completed") && !IsValidStatus("InProgress") && !IsValidStatus("")
  {
  }
}
