/**
 * `SanitizeAndValidateTaskInput` (toDo/internal/validate/validate.go): turn a
 * decoded request body into a task, a status and a due date, or one error.
 * The HTML sanitizer (bluemonday's UGC policy) is outside the model and is
 * passed in as `sanitize`.
 */
module Validate {
  import opened Wrappers
  import opened Strings
  import opened Dates
  import RichModels

  datatype ValidationError =
    | MissingTask       // "missing or empty 'task' field"
    | InvalidStatus     // "invalid status value"
    | MissingDue        // "missing or empty 'due' field"
    | InvalidDueFormat  // "invalid due date format, expected YYYY-MM-DD"

  datatype TaskInput = TaskInput(task: string, status: string, due: string)

  /** `sanitizeString`: trim, then sanitize. */
  function SanitizeString(sanitize: string -> string, input: string): (r: string)
    ensures AllSpace(input) ==> r == sanitize("")
    ensures input != [] && !IsSpace(input[0]) && !IsSpace(input[|input| - 1]) ==> r == sanitize(input)
  {
    TrimmedUnchanged(input);
    sanitize(TrimSpace(input))
  }

  /** A Go map lookup: the empty string for a missing key. */
  function Lookup(data: map<string, string>, key: string): string {
    if key in data then data[key] else ""
  }

  predicate TaskMissing(data: map<string, string>) {
    "task" !in data || AllSpace(data["task"])
  }

  /** The status is rejected: non-empty, and not a status once trimmed and sanitized. */
  predicate StatusRejected(data: map<string, string>, sanitize: string -> string) {
    Lookup(data, "status") != "" && !RichModels.IsValidStatus(SanitizeString(sanitize, Lookup(data, "status")))
  }

  predicate DueMissing(data: map<string, string>) {
    "due" !in data || AllSpace(data["due"])
  }

  /** Checks in the order task, status, due; the first failure is the whole answer. */
  function SanitizeAndValidateTaskInput(data: map<string, string>, sanitize: string -> string): (r: Result<TaskInput, ValidationError>)
    ensures r == Err(MissingTask) <==> TaskMissing(data)
    ensures r == Err(InvalidStatus) <==> !TaskMissing(data) && StatusRejected(data, sanitize)
    ensures r == Err(MissingDue) <==> !TaskMissing(data) && !StatusRejected(data, sanitize) && DueMissing(data)
    ensures r == Err(InvalidDueFormat) <==>
      !TaskMissing(data) && !StatusRejected(data, sanitize) && !DueMissing(data) && !IsDate(SanitizeString(sanitize, data["due"]))
    ensures r.Ok? ==> r.value.task == SanitizeString(sanitize, data["task"])
    ensures r.Ok? ==> RichModels.IsValidStatus(r.value.status)
    ensures r.Ok? ==> IsDate(r.value.due) && r.value.due == SanitizeString(sanitize, data["due"])
    ensures r.Ok? && Lookup(data, "status") == "" ==> r.value.status == RichModels.DefaultStatus
    ensures r.Ok? && Lookup(data, "status") != "" ==> r.value.status == SanitizeString(sanitize, data["status"])
  {
    if "task" !in data || TrimSpace(data["task"]) == "" then
      Err(MissingTask)
    else
      var task := SanitizeString(sanitize, data["task"]);
      var raw := Lookup(data, "status");
      var status := if raw == "" then RichModels.DefaultStatus else SanitizeString(sanitize, raw);
      if raw != "" && !RichModels.IsValidStatus(status) then
        Err(InvalidStatus)
      else if "due" !in data || TrimSpace(data["due"]) == "" then
        Err(MissingDue)
      else
        var due := SanitizeString(sanitize, data["due"]);
        if !IsDate(due) then Err(InvalidDueFormat) else Ok(TaskInput(task, status, due))
  }

  /** Validation succeeds exactly when all three fields pass. */
  lemma ValidationSucceedsIff(data: map<string, string>, sanitize: string -> string)
    ensures SanitizeAndValidateTaskInput(data, sanitize).Ok? <==>
      && !TaskMissing(data)
      && !StatusRejected(data, sanitize)
      && !DueMissing(data)
      && IsDate(SanitizeString(sanitize, data["due"]))
  {
  }

  /**
   * A status of white space only is trimmed to the empty string and then
   * sanitized, never defaulted; with a sanitizer that leaves the empty string
   * alone it is rejected.
   */
  lemma BlankStatusNotDefaulted(data: map<string, string>, sanitize: string -> string)
    requires "status" in data && data["status"] != "" && AllSpace(data["status"])
    requires !TaskMissing(data) && sanitize("") == ""
    ensures SanitizeAndValidateTaskInput(data, sanitize) == Err(InvalidStatus)
  {
    assert TrimSpace(data["status"]) == "";
  }

  /** An absent or empty status becomes Pending without passing through the sanitizer. */
  lemma AbsentStatusDefaulted(task: string, due: string, sanitize: string -> string)
    requires !AllSpace(task) && !AllSpace(due) && IsDate(SanitizeString(sanitize, due))
    ensures SanitizeAndValidateTaskInput(map["task" := task, "due" := due], sanitize)
         == Ok(TaskInput(SanitizeString(sanitize, task), "Pending", SanitizeString(sanitize, due)))
    ensures SanitizeAndValidateTaskInput(map["task" := task, "status" := "", "due" := due], sanitize)
         == Ok(TaskInput(SanitizeString(sanitize, task), "Pending", SanitizeString(sanitize, due)))
  {
  }

  /** When every check passes, the result holds the cleaned fields. */
  lemma AllChecksPass(data: map<string, string>, sanitize: string -> string)
    requires !TaskMissing(data) && !StatusRejected(data, sanitize) && !DueMissing(data)
    requires IsDate(SanitizeString(sanitize, data["due"]))
    ensures SanitizeAndValidateTaskInput(data, sanitize) == Ok(TaskInput(
      SanitizeString(sanitize, data["task"]),
      if Lookup(data, "status") == "" then RichModels.DefaultStatus else SanitizeString(sanitize, data["status"]),
      SanitizeString(sanitize, data["due"])))
  {
  }

  /** When the sanitizer and trimming leave a well-formed input alone, validation returns it unchanged. */
  lemma CleanInputRoundTrip(data: map<string, string>, t: TaskInput, sanitize: string -> string)
    requires "task" in data && "status" in data && "due" in data
    requires data["task"] == t.task && data["status"] == t.status && data["due"] == t.due
    requires t.task != "" && !IsSpace(t.task[0]) && !IsSpace(t.task[|t.task| - 1])
    requires RichModels.IsValidStatus(t.status) && IsDate(t.due)
    requires sanitize(t.task) == t.task && sanitize(t.status) == t.status && sanitize(t.due) == t.due
    ensures SanitizeAndValidateTaskInput(data, sanitize) == Ok(t)
  {
    CleanFields(t, sanitize);
    AllChecksPass(data, sanitize);
  }

  /** Each field of a clean input survives trimming and sanitizing, and none is blank. */
  lemma CleanFields(t: TaskInput, sanitize: string -> string)
    requires t.task != "" && !IsSpace(t.task[0]) && !IsSpace(t.task[|t.task| - 1])
    requires RichModels.IsValidStatus(t.status) && IsDate(t.due)
    requires sanitize(t.task) == t.task && sanitize(t.status) == t.status && sanitize(t.due) == t.due
    ensures SanitizeString(sanitize, t.task) == t.task && !AllSpace(t.task)
    ensures SanitizeString(sanitize, t.status) == t.status && t.status != ""
    ensures SanitizeString(sanitize, t.due) == t.due && !AllSpace(t.due)
  {
    SanitizeUnchanged(t.task, sanitize);
    SanitizeUnchanged(t.status, sanitize);
    DateTextShape(t.due);
    SanitizeUnchanged(t.due, sanitize);
  }

  /** A string with no outer white space that the sanitizer leaves alone is its own cleaned form. */
  lemma SanitizeUnchanged(s: string, sanitize: string -> string)
    requires s != [] && !IsSpace(s[0]) && !IsSpace(s[|s| - 1]) && sanitize(s) == s
    ensures SanitizeString(sanitize, s) == s && !AllSpace(s)
  {
    TrimmedUnchanged(s);
  }

  /** A string with no white space at either end is its own trim. */
  lemma TrimmedUnchanged(s: string)
    ensures s != [] && !IsSpace(s[0]) && !IsSpace(s[|s| - 1]) ==> TrimSpace(s) == s
  {
    if s != [] && !IsSpace(s[0]) && !IsSpace(s[|s| - 1]) {
      assert LeadingSpaces(s) == 0;
      assert TrailingSpaces(s) == 0;
    }
  }
}
