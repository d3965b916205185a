# A verified model of the go-lang-api to-do backend

The repository is a to-do list backend in Go, in three variants that share
one status vocabulary and one forward-only status workflow
(Canceled → Pending → In Progress → Completed):

- a minimal in-memory variant: `todo_storage` (a map from id to item and a
  `nextID` counter) with its HTTP handlers;
- a richer variant whose items carry a `YYYY-MM-DD` due date, with its own
  field rules;
- a database-backed variant: `TodoStorage` over a `todos` table, a shared
  sanitize-and-validate step, and a listing that sorts open tasks before
  completed ones and by due date.

This project models, in Dafny:

- the two stores as classes whose methods change their fields (`MemStore`,
  `DbStore`);
- the status vocabularies (`Models`, `RichModels`) and the advance map
  (`StatusFlow`);
- the validation function (`Validate`);
- the field rules and `changeUp` dispatch of every variant's handlers
  (`MinimalHandlers`, `RichHandlers`, `DbHandlers`);
- the listing query shared by the three variants: page/limit defaults, the
  status filter, the page window (`Listing`), and the database variant's
  sort order (`DueOrder`);
- the Go library functions these rely on: `strconv.Itoa`, `Atoi` and
  `ParseBool` (`Strconv`), `strings.TrimSpace` (`Strings`), and
  `time.Parse` with layout `"2006-01-02"` (`Dates`).

A handler's HTTP reply is an `Outcomes.Outcome` (Created, Updated, Moved,
Removed, Fetched, BadRequest with a reason, NotFound, Conflict,
ServerError). The request body is the already-decoded `map[string]string`.
The HTML sanitizer is a function parameter `sanitize`.

Where the code and its documentation disagree, the model follows the code:

- The database store's `changeTask` and `remove` report success for an id
  that has no row, so `HandleUpdateTask` and `HandleRemove` answer 200 for a
  missing task.
- The minimal handlers answer 500, not 404, when `remove` or `changeTask`
  finds no item.
- Validation checks that the task and due are not blank before it
  sanitizes them. A task that the sanitizer empties is therefore accepted.
- A whitespace-only status is not defaulted to Pending. It is trimmed to ""
  and then rejected as invalid.
- The validation package and the database handlers call the exported
  `models.IsValidStatus` and `models.PossibleStatus`. The models file in the
  repository declares them unexported, in package `main`. The model gives
  them the meaning of that file's four-value membership test.
- The richer variant's add and update check the same fields in different
  orders and with different strictness (`RichHandlers.AddAndUpdateDisagree`).

The table schema is not in the repository. The model takes the ids the
database generates to be the decimal forms of an increasing counter. It
takes `ORDER BY id` to list them by ascending number, and a new table's
counter to start at 1. Each store method is one atomic step: the mutex and
the database make it so in the source, apart from the race noted under
"Left out".

## Model

| member | source | states |
|---|---|---|
| Strconv.NatToString | toDo/src/storage.go:19 | `strconv.Itoa` of a natural number is a non-empty digit string with no leading zero |
| Strconv.DigitsValueOfNatToString | toDo/src/storage.go:19 | reading back the decimal form of `n` gives `n` |
| Strconv.NatToStringInjective | toDo/src/storage.go:19-21 | distinct counter values give distinct ids, in both directions |
| Strconv.NatToStringIsNatString | toDo/src/storage.go:19 | every id `add` issues is a canonical decimal string |
| Strconv.Atoi | toDo/internal/dbControl/handlers.go:83-90 | `strconv.Atoi` succeeds exactly on an optional sign followed by one or more digits, with the signed decimal value of those digits (so "+07" and "007" give 7 and "-0" gives 0) |
| Strconv.AtoiOfIntToString | toDo/src/storage.go:64-65 | `Atoi(Itoa(n)) == n` for every integer |
| Strconv.ParseBool | toDo/internal/dbControl/handlers.go:207-208 | `strconv.ParseBool` accepts exactly 1, t, T, TRUE, true, True as true and 0, f, F, FALSE, false, False as false; anything else is an error |
| Strconv.ParseBoolOfFormatBool | toDo/internal/dbControl/handlers.go:207-208 | every boolean round-trips through its spelling |
| Strings.TrimSpace | toDo/internal/validate/validate.go:16 | the result is empty exactly when the input is all white space |
| Strings.TrimSpaceTrims | toDo/internal/validate/validate.go:16 | the result is the slice of the input between its leading and trailing white space, only white space is removed, and a non-empty result starts and ends with a non-space |
| Strings.TrimSpaceIdempotent | toDo/internal/validate/validate.go:16 | trimming twice is trimming once |
| Dates.ParseDate | toDo/internal/validate/validate.go:43 | a parsed date is a real calendar date (month 1-12, day within the month, leap years) |
| Dates.ParseDateOfFormatDate | toDo/internal/validate/validate.go:43 | every valid date formatted as `YYYY-MM-DD` parses back to itself |
| Dates.FormatDateOfParseDate | toDo/internal/validate/validate.go:43 | every string that parses is the canonical form of its date |
| Dates.DigitsValueOfPadded | toDo/internal/validate/validate.go:43 | a zero-padded field reads back as its number |
| Dates.PaddedOfDigitsValue | toDo/internal/validate/validate.go:43 | a digit field is the zero-padded form of its value |
| Dates.DateTextShape | toDo/internal/validate/validate.go:43 | a string that parses as a date has ten characters and starts and ends with a digit |
| Dates.ValidDateBounds | toDo/internal/validate/validate.go:43 | a valid date has a month 1-12 and a day 1-31 |
| Dates.Before | toDo/internal/dbControl/handlers.go:142 | on valid dates, `Before` is exactly the lexicographic order on (year, month, day), the order of their midnight instants |
| Dates.BeforeTotal | toDo/internal/dbControl/handlers.go:142 | `Before` orders any two distinct valid dates one way or the other |
| Models.IsValidStatus | toDo/models.go:11-18 | true exactly for "Completed", "In Progress", "Pending", "Canceled" |
| Models.PossibleStatusDistinct | toDo/models.go:9 | the vocabulary holds four distinct values |
| Models.NearMissesRejected | toDo/models.go:13 | example: matching is exact, so wrong case, extra spaces and "" are rejected |
| RichModels.IsValidStatus | toDo/internal/models/models.go:12-19 | true exactly for the same four values |
| RichModels.PossibleStatusDistinct | toDo/internal/models/models.go:10 | four distinct values |
| RichModels.NearMissesRejected | toDo/internal/models/models.go:14 | example: exact, case-sensitive matching; "" is not a status |
| RichModels.SameVocabulary | toDo/internal/models/models.go:10 | both variants have the same list and accept the same statuses |
| StatusFlow.NextStatus | toDo/internal/dbControl/storage.go:80-89 | the advance map is defined exactly on Canceled, Pending and In Progress, not on Completed, and always yields a different valid status |
| StatusFlow.NextStatusAdvancesRank | toDo/internal/dbControl/storage.go:80-84 | each advance moves exactly one step along the workflow |
| StatusFlow.NextStatusInjective | toDo/src/storage.go:90 | no two statuses advance to the same one |
| StatusFlow.AdvanceRank | toDo/src/storage.go:89-96 | `k` successful advances move `k` steps and stay valid |
| StatusFlow.NoCycle | toDo/src/storage.go:89-96 | no run of advances returns to its starting status |
| StatusFlow.ReachesCompleted | toDo/src/storage.go:89-96 | every valid status reaches Completed, after which advancing fails |
| StatusFlow.WalkFromCanceled | toDo/src/storage.go:89-96 | from Canceled: Pending, In Progress, Completed, then failure |
| MemStore.IdNumber | toDo/src/storage.go:64-65 | the `strconv.Atoi` sort key with the error ignored: 0 for an id that does not parse, negative only for an id with a leading minus sign |
| MemStore.IdNumberOfKey | toDo/src/storage.go:64-65 | the sort key of an issued id is its numeric value |
| MemStore.InsertById | toDo/src/storage.go:63-67 | inserting keeps every item once (multiset) |
| MemStore.InsertByIdAscending | toDo/src/storage.go:63-67 | inserting into an id-ascending list keeps it ascending |
| MemStore.InsertKeepsAbove | toDo/src/storage.go:63-67 | inserting keeps every id above a bound that all the inserted items exceed |
| MemStore.ConsAscending | toDo/src/storage.go:63-67 | an item with an id below all of an ascending list may go in front of it |
| MemStore.EarlierIdsDiffer | toDo/src/storage.go:63-67 | items already sorted have ids different from the next one to insert |
| MemStore.SortById | toDo/src/storage.go:63-67 | the sort yields a permutation in strictly ascending numeric id order |
| MemStore.ListsSameItems | toDo/src/storage.go:58-67 | sorting the gathered copies keeps exactly one copy of every stored item |
| MemStore.TodoStorage.constructor | toDo/src/main.go:25-29 | the store starts empty with `nextID` 0, so its invariant holds |
| MemStore.TodoStorage.Add | toDo/src/storage.go:15-24 | stores the item under the decimal form of the old `nextID`, never an existing or earlier id, and increments `nextID` |
| MemStore.TodoStorage.ChangeTask | toDo/src/storage.go:26-37 | true and only task and status replaced when the id is present; false and nothing changed otherwise |
| MemStore.TodoStorage.Remove | toDo/src/storage.go:39-51 | deletes exactly that key; true exactly when it was present |
| MemStore.TodoStorage.CopyItems | toDo/src/storage.go:58-60 | the loop gathers one copy of every stored item |
| MemStore.TodoStorage.GetAll | toDo/src/storage.go:53-70 | one copy of every item, as many as stored, in ascending numeric id order |
| MemStore.TodoStorage.GetOne | toDo/src/storage.go:72-80 | the item and true exactly when present, else an empty item and false |
| MemStore.TodoStorage.MoveStatusUp | toDo/src/storage.go:82-97 | writes and returns the next status when the id is present and has one; otherwise ("", false) and nothing changes |
| MemStore.TodoStorage.SeedSampleData | toDo/src/storage.go:98-102 | adds the three sample tasks under the next three ids |
| MemStore.AdvanceFromCanceled | toDo/src/storage.go:89-96 | example: four advances of a Canceled item give Pending, In Progress, Completed, then failure |
| MemStore.AddThenGetOne | toDo/src/storage.go:15-24 | an added item is found under the returned id with exactly the given fields |
| DbStore.DistinctListingSize | toDo/internal/dbControl/storage.go:43-59 | a duplicate-free listing of a set's elements has the set's size |
| DbStore.TodoStorage.constructor | toDo/main.go:63 | the model starts from an empty table (serial 1), which satisfies the store invariants |
| DbStore.TodoStorage.IdsBelow | toDo/internal/dbControl/storage.go:44 | the `ORDER BY id` cursor lists table ids in strictly ascending numeric order |
| DbStore.TodoStorage.IdsBelowCovers | toDo/internal/dbControl/storage.go:44 | every row's id is on the cursor |
| DbStore.TodoStorage.CursorListsTable | toDo/internal/dbControl/storage.go:44 | the cursor holds every row exactly once |
| DbStore.TodoStorage.ItemsOf | toDo/internal/dbControl/storage.go:52-56 | scanning rows gives one item per id, with that row's columns |
| DbStore.TodoStorage.ItemsOfCovers | toDo/internal/dbControl/storage.go:51-57 | every scanned id's row is in the result |
| DbStore.TodoStorage.ItemsOfAscending | toDo/internal/dbControl/storage.go:44-57 | scanning keeps the ascending id order |
| DbStore.TodoStorage.Scan | toDo/internal/dbControl/storage.go:51-57 | the `rows.Next` loop appends exactly the scanned items |
| DbStore.TodoStorage.Add | toDo/internal/dbControl/storage.go:18-25 | inserts exactly one row with the given task, status and due under a fresh id and returns it |
| DbStore.TodoStorage.ChangeTask | toDo/internal/dbControl/storage.go:28-34 | overwrites task, status and due of the row with that id; with no such row nothing changes and there is no error |
| DbStore.TodoStorage.Remove | toDo/internal/dbControl/storage.go:37-40 | deletes that row; an absent id changes nothing and is no error |
| DbStore.TodoStorage.GetAll | toDo/internal/dbControl/storage.go:43-59 | every row exactly once, as many as the table holds, in ascending id order |
| DbStore.TodoStorage.GetOne | toDo/internal/dbControl/storage.go:62-69 | the row's item exactly when the id is present, otherwise the no-rows error |
| DbStore.TodoStorage.MoveStatusUp | toDo/internal/dbControl/storage.go:73-106 | absent id: error before any write; no successor: "cannot move status forward" and no write; otherwise only that row's status becomes the successor, which is returned |
| DbStore.TodoStorage.SeedSampleData | toDo/internal/dbControl/storage.go:109-113 | inserts the three sample rows with their due dates |
| DbStore.AddThenGetOne | toDo/internal/dbControl/storage.go:18-25 | an inserted row is read back unchanged by `getOne` |
| DbStore.AdvanceFromCanceled | toDo/internal/dbControl/storage.go:80-105 | example: four advances of a Canceled row give Pending, In Progress, Completed, then "cannot move status forward" |
| Validate.SanitizeString | toDo/internal/validate/validate.go:15-17 | trimming comes first: a white-space-only input reaches the sanitizer as "", and an input with no outer white space reaches it unchanged |
| Validate.SanitizeAndValidateTaskInput | toDo/internal/validate/validate.go:19-49 | each error happens exactly when its check is the first to fail (task, status, due, date format); on success task and due are trimmed and sanitized, due is a calendar date, and status is valid, "Pending" when absent or "" |
| Validate.ValidationSucceedsIff | toDo/internal/validate/validate.go:19-49 | validation succeeds exactly when all four checks pass |
| Validate.BlankStatusNotDefaulted | toDo/internal/validate/validate.go:29-34 | a whitespace-only status is rejected, not defaulted |
| Validate.AbsentStatusDefaulted | toDo/internal/validate/validate.go:26-28 | an absent or empty status becomes "Pending" |
| Validate.AllChecksPass | toDo/internal/validate/validate.go:19-49 | when every check passes the result holds the trimmed and sanitized task and due and the (defaulted) status |
| Validate.CleanInputRoundTrip | toDo/internal/validate/validate.go:19-49 | any body whose task, status and due are already clean (no outer white space, valid status, calendar date, left alone by the sanitizer) validates to exactly those fields |
| Validate.CleanFields | toDo/internal/validate/validate.go:16-49 | each field of a clean input survives trimming and sanitizing and none is blank |
| Validate.SanitizeUnchanged | toDo/internal/validate/validate.go:16 | a string with no outer white space that the sanitizer leaves alone is its own cleaned form |
| Validate.TrimmedUnchanged | toDo/internal/validate/validate.go:16 | trimming leaves a string with no outer white space as it is |
| Listing.Filter | toDo/internal/dbControl/handlers.go:111-115 | the append loop keeps only items with the wanted status |
| Listing.FilterCounts | toDo/internal/dbControl/handlers.go:111-115 | it keeps every matching item as often as it occurs and drops every other item |
| Listing.FilterAppend | toDo/internal/dbControl/handlers.go:111-115 | filtering keeps the original order (it distributes over concatenation) |
| Listing.FilterAllMatch | toDo/internal/dbControl/handlers.go:111-115 | a list whose items all match is kept whole |
| Listing.ApplyStatusFilter | toDo/internal/dbControl/handlers.go:102-118 | a filter in the vocabulary keeps only matching items; any other value keeps every item |
| Listing.FilterTasks | toDo/handlers.go:78-95 | the vocabulary search and the append loop compute exactly that filter |
| Listing.ParsePageLimit | toDo/internal/dbControl/handlers.go:83-90 | page and limit are used when they parse and are at least 1, and are otherwise 1 and 10 |
| Listing.ParsePageLimitOfIntToString | toDo/internal/handlers/handlers.go:84-91 | any positive page and limit, written in decimal, are used as given |
| Listing.ParsePageLimitDefaults | toDo/handlers.go:68-75 | empty, non-numeric and non-positive values fall back to 1 and 10 |
| Listing.Paginate | toDo/internal/dbControl/handlers.go:144-158 | total is the filtered count; the page is the clamped slice from `(page-1)*limit`, at most `limit` long, and empty past the end |
| Listing.PaginateIsSlice | toDo/internal/dbControl/handlers.go:144-152 | a page is the slice from `min(start, n)` to `min(start+limit, n)` with `start = (page-1)*limit >= 0` |
| Listing.FirstPagesArePrefix | toDo/handlers.go:96-104 | the first `k` pages together are the first `k*limit` items |
| Listing.AllPagesCoverListing | toDo/handlers.go:96-104 | enough pages together give back the whole filtered list |
| Listing.TwentyFiveItems | toDo/internal/handlers/handlers.go:121-137 | example: 25 items, 10 a page: page 3 holds the last 5, page 100 is empty, total 25 |
| Listing.ListPage | toDo/handlers.go:63-114 | the listing handlers' steps compute the listing query |
| MinimalHandlers.DefaultStatusValid | toDo/handlers.go:40-42 | example: the default "Pending" is a valid status |
| MinimalHandlers.CheckAdd | toDo/handlers.go:33-48 | rejected for a missing task exactly when "task" is absent; rejected for an invalid status exactly when the task is present and a given status is invalid; accepted exactly when the task is present and the status is absent or valid, with that status or the Pending default |
| MinimalHandlers.EmptyTaskAccepted | toDo/handlers.go:33-39 | example: an empty task string is accepted |
| MinimalHandlers.RouteUpdate | toDo/handlers.go:135-190 | empty id, unparseable `changeUp`, `changeUp` true and the add rules route exactly as the handler does |
| MinimalHandlers.UpdateFieldsAreAddFields | toDo/handlers.go:179-189 | without an advance, update accepts exactly what add accepts, with the same fields, and rejects for the same reason |
| MinimalHandlers.HandleGet | toDo/handlers.go:11-23 | 200 with the item exactly when present, else 404 |
| MinimalHandlers.HandleAdd | toDo/handlers.go:25-61 | only an accepted body reaches `add`, giving 201 with the new id; a rejected one changes nothing |
| MinimalHandlers.HandleRemove | toDo/handlers.go:116-133 | 400 for an empty id; 200 when removed and 500 when absent |
| MinimalHandlers.HandleUpdateTask | toDo/handlers.go:135-206 | an advance calls only `moveStatusUp` (200 or 409); a rejection changes nothing; a replacement gives 200 when present and 500 when absent |
| MinimalHandlers.HandleGetAll | toDo/handlers.go:63-114 | the reply is the listing query over all items by ascending id |
| RichHandlers.CheckAdd | toDo/internal/handlers/handlers.go:33-57 | checks task present, then status defaulted or valid, then due present and non-empty; each rejection exactly when its check is the first to fail, and acceptance exactly when all three pass, with the given task and due and the status or the Pending default |
| RichHandlers.RouteUpdate | toDo/internal/handlers/handlers.go:164-245 | each outcome holds exactly under its condition: empty id, unparseable `changeUp`, `changeUp` true (advance); otherwise a missing task, then a missing due (checked before the status), then an invalid status, else the replacement with the given fields and the status defaulted to Pending when absent |
| RichHandlers.AddAndUpdateDisagree | toDo/internal/handlers/handlers.go:46-57 | with a bad status and no due, add reports the status and update the due; an empty due is refused by add and accepted by update |
| RichHandlers.FreeTextAccepted | toDo/internal/handlers/handlers.go:33-57 | neither handler checks the due date's format or the task's text |
| RichHandlers.UpdateAcceptedImpliesAddAccepted | toDo/internal/handlers/handlers.go:219-245 | a non-empty due that update accepts is accepted by add with the same fields |
| RichHandlers.HandleGetAll | toDo/internal/handlers/handlers.go:79-138 | the page of the filtered tasks in store order, with the parsed page and limit |
| DueOrder.Less | toDo/internal/dbControl/handlers.go:119-143 | the `sort.Slice` comparator never puts a Completed task before an open one, and puts a task first otherwise only when its due date parses |
| DueOrder.LessByBand | toDo/internal/dbControl/handlers.go:119-143 | the comparator orders open before Completed, dated before undated, then by due date |
| DueOrder.LessStrictOrder | toDo/internal/dbControl/handlers.go:119-143 | the comparator is irreflexive, asymmetric and transitive |
| DueOrder.IncomparableIsTransitive | toDo/internal/dbControl/handlers.go:119-143 | ties are transitive too, so `sort.Slice` is given a strict weak order |
| DueOrder.Insert | toDo/internal/dbControl/handlers.go:119 | insertion keeps every item once |
| DueOrder.InsertSorted | toDo/internal/dbControl/handlers.go:119-143 | insertion keeps the list sorted |
| DueOrder.SortForListing | toDo/internal/dbControl/handlers.go:119-143 | the sort yields a sorted permutation of the filtered list |
| DueOrder.SortedListing | toDo/internal/dbControl/handlers.go:119-142 | in a sorted list no Completed task precedes an open one, and within each group dated tasks come first in non-decreasing date order |
| DbHandlers.HandleGet | toDo/internal/dbControl/handlers.go:22-34 | 200 with the row's item exactly when present, else 404 |
| DbHandlers.HandleAdd | toDo/internal/dbControl/handlers.go:40-72 | validation failure gives 400 and no change; success inserts the validated row under a fresh id and gives 201; rows stay well formed |
| DbHandlers.HandleRemove | toDo/internal/dbControl/handlers.go:166-188 | 400 for an empty id; otherwise the row is deleted and the answer is 200, present or not |
| DbHandlers.RouteUpdate | toDo/internal/dbControl/handlers.go:193-239 | empty id, unparseable `changeUp`, `changeUp` true and validation route exactly as the handler does; a validation failure is rejected with the validator's own error |
| DbHandlers.AdvanceIgnoresFields | toDo/internal/dbControl/handlers.go:207-231 | an advance request is never validated |
| DbHandlers.HandleUpdateTask | toDo/internal/dbControl/handlers.go:193-252 | an advance calls only `moveStatusUp` (200 or 409); a rejection changes nothing; a validated update gives 200 and rewrites the row if it exists |
| DbHandlers.HandleGetAll | toDo/internal/dbControl/handlers.go:78-161 | the reply is the page of a sorted permutation of the filtered rows; total is the filtered count; page and limit are the parsed ones |
| Window64.WindowAsWritten | toDo/internal/dbControl/handlers.go:144-152 | the slice bounds as computed with 64-bit wrap-around, or a panic |
| Window64.AsWrittenAgreesWithoutOverflow | toDo/internal/dbControl/handlers.go:144-152 | without overflow the window as written is the intended one |
| Window64.OverflowShowsFirstPage | toDo/internal/dbControl/handlers.go:144 | page 2^62+1 with limit 4 wraps to the first page where the intended page is empty |
| Window64.OverflowPanics | toDo/internal/dbControl/handlers.go:144-152 | page 2^61+1 with limit 4 wraps to a negative start and the slice panics |

## Findings

| source | as written | input that shows it | evidently intended | confidence | as-written member | corrected member |
|---|---|---|---|---|---|---|
| toDo/internal/dbControl/handlers.go:144-152 | `start := (page - 1) * limit` in 64-bit `int` wraps (the other two listing handlers compute the window the same way); a start that wraps to a small value is not clamped and a negative one makes the slice panic | `?page=4611686018427387905&limit=4` over 25 tasks returns the first four tasks; `?page=2305843009213693953&limit=4` panics | a page past the end is empty | not executed | Window64.OverflowShowsFirstPage | Listing.Paginate |

## Left out

- HTTP plumbing: JSON decoding and encoding, `mux.Vars`, headers, the message texts and route registration. A handler's result is an `Outcome`, and an undecodable body (400) is not modelled.
- Authentication: `LoginHandler`, JWT generation and checking, and the CORS middleware.
- Concurrency: the mutex of the in-memory store and the read-then-write race in the database `moveStatusUp`. Every store method is one atomic step. So the "no task found with given id" branch after the update is not modelled: with no concurrent delete, the row read just before is still there.
- Database and driver failures (connection, query, `Scan`, `RowsAffected`) and the 500 replies they cause. The modelled store methods never fail with a driver or connection error.
- The bluemonday sanitizer is the function parameter `sanitize`; nothing is assumed about it.
- `strconv.Atoi` range errors: numbers beyond 64 bits parse here. Integers are unbounded except in `Window64`.
- Listing.Paginate: computes the window with unbounded integers. The 64-bit behaviour is in `Window64` (see Findings).
- DueOrder.SortForListing: `sort.Slice` is not stable, and its exact output order among tied tasks is not modelled. `DbHandlers.HandleGetAll` promises only a sorted permutation.
- The richer variant's store is not part of this model. Its handlers are modelled up to the store call: the field rules, the `changeUp` routing and the listing over the tasks the store returns. The only decisions of that variant's `handleGet` and `handleRemove` are mapping the store's result to 200/404 and 200/500, plus an empty-id check in `handleRemove`.
- The `todos` schema, which is not in the repository: ids are taken to be the decimal forms of an increasing counter starting at 1, listed in numeric order, and an id is matched as an exact string, so an id string that is not such a form matches no row. With an integer `id` column PostgreSQL would instead convert the parameter, so "01" or "+1" would select row 1 and "abc" would make the statement fail with a 500; that conversion is not modelled. The model starts from an empty table, where the program opens whatever database it is given.
- The `due` column is taken to be a text column that `getAll` and `getOne` return exactly as written. If it were a DATE column, the driver would scan it into the string as an RFC 3339 timestamp (`2025-06-10T00:00:00Z`), `time.Parse("2006-01-02", ...)` in the listing comparator would fail on every row, and `DbStore.AddThenGetOne` would not hold; that case is not modelled.
- The React frontend and the lint configuration.
