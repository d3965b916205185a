/**
 * The forward-only status workflow that both stores' `moveStatusUp` look up
 * (toDo/src/storage.go and toDo/internal/dbControl/storage.go):
 * Canceled -> Pending -> In Progress -> Completed, and nothing after Completed.
 */
module StatusFlow {
  import opened Wrappers
  import opened RichModels

  /** The `nextStatus` / `next` map literal. */
  const Next: map<string, string> := map["Canceled" := "Pending", "Pending" := "In Progress", "In Progress" := "Completed"]

  /** Looking a status up in `Next`; `None` where the map has no entry. */
  function NextStatus(s: string): (r: Option<string>)
    ensures r.Some? <==> s == "Canceled" || s == "Pending" || s == "In Progress"
    ensures s == "Completed" ==> r.None?
    ensures r.Some? ==> IsValidStatus(r.value) && r.value != s
  {
    if s in Next then Some(Next[s]) else None
  }

  /** Position of a status along the workflow. */
  function Rank(s: string): (k: nat)
    requires IsValidStatus(s)
    ensures k <= 3
  {
    if s == "Canceled" then 0 else if s == "Pending" then 1 else if s == "In Progress" then 2 else 3
  }

  /** Each advance moves exactly one step forward. */
  lemma NextStatusAdvancesRank(s: string)
    requires NextStatus(s).Some?
    ensures IsValidStatus(s) && Rank(NextStatus(s).value) == Rank(s) + 1
  {
  }

  /** Two different statuses never advance to the same one. */
  lemma NextStatusInjective(s: string, t: string)
    requires NextStatus(s).Some? && NextStatus(s) == NextStatus(t)
    ensures s == t
  {
  }

  /** The status after `k` successive advances, or `None` once an advance fails. */
  function Advance(s: string, k: nat): Option<string>
    decreases k
  {
    if k == 0 then Some(s)
    else match NextStatus(s)
      case None => None
      case Some(t) => Advance(t, k - 1)
  }

  /** `k` successful advances move `k` steps forward, so the workflow has no cycle. */
  lemma {:induction false} AdvanceRank(s: string, k: nat)
    requires IsValidStatus(s) && Advance(s, k).Some?
    ensures IsValidStatus(Advance(s, k).value)
    ensures Rank(Advance(s, k).value) == Rank(s) + k
    decreases k
  {
    if k > 0 {
      var t := NextStatus(s).value;
      NextStatusAdvancesRank(s);
      AdvanceRank(t, k - 1);
    }
  }

  /** No sequence of one or more advances returns to where it started. */
  lemma NoCycle(s: string, k: nat)
    requires IsValidStatus(s) && k > 0
    ensures Advance(s, k) != Some(s)
  {
    if Advance(s, k).Some? {
      AdvanceRank(s, k);
    }
  }

  /** Any valid status reaches Completed after `3 - Rank(s)` advances, and the next advance fails. */
  lemma ReachesCompleted(s: string)
    requires IsValidStatus(s)
    ensures Advance(s, 3 - Rank(s)) == Some("Completed")
    ensures Advance(s, 4 - Rank(s)) == None
  {
  }

  /** From Canceled: Pending, In Progress, Completed, then failure. */
  lemma WalkFromCanceled()
    ensures Advance("Canceled", 1) == Some("Pending")
    ensures Advance("Canceled", 2) == Some("In Progress")
    ensures Advance("Canceled", 3) == Some("Completed")
    ensures Advance("Canceled", 4) == None
  {
  }
}
