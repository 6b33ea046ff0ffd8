# Todo API handlers in Dafny

A model of the request handlers of a small todo-list service backed by a
wide-column store (`todo-api/handlers/todo.go`). The service lists an owner's
todos a page at a time, and creates, reads, partially updates and deletes single
records.

- **Listing** (`GET /todos`). The handler validates `user_id`, `page_size`,
  `page_token` and `prev_page_token`. It then builds a CQL statement and its
  positional parameters, collects the rows the driver yields, and derives the
  `next_page_token` and `prev_page_token` of the response.
  - `Listing.PlanList` and `Listing.Render` are the reference definitions.
  - `Listing.BuildListQuery` and `Listing.GetTodos` are the handler's
    step-by-step construction. Each is proved equal to the reference.
- **Single records.** The `todos` table is a class, `Store.TodoTable`, holding a
  `map<Uuid, Todo>`. Its methods are the create, point-read, update and delete
  handlers. The update's field-by-field overwrite is `Store.ApplyUpdate`,
  specified by `Store.Merged`.
- **Identifier text.** Page tokens are identifiers rendered with the driver's
  `UUID.String()` and read back with its `UnmarshalText`. A path identifier
  bound to a statement is read with the same parser. `UuidText.Format` and
  `UuidText.Parse` model both. `UuidText.ParseFormat` proves that a token handed
  out is read back as the same identifier. The driver's source is not part of
  this model; the two functions follow the driver's documented text form.
- **Page size.** `page_size` is read with `strconv.Atoi` on a 64-bit platform,
  modelled as `Decimal.Atoi`.

Environment inputs are parameters:
- The clock (`time.Now()`) is a `Time` argument.
- The generated identifier (`uuid.New()`) is an argument that must not be in the table yet.
- The driver is an argument: for listing, a function from statement to
  `Answer`; for the single-record handlers, a `fails` flag per statement.
- The store's partitioner function `token(id)` is an abstract `tokenOf: Uuid -> int`.

Where the code and the service's design description disagree, the model follows the code:
- `page_size` is not required to be positive. Any 64-bit integer, including 0
  and negatives, is accepted (`ListingProperties.PageSizeTaken`).
- Create reads the clock twice, once for `created` and once for `updated`
  (todo.go:21-22). So `created == updated` is not guaranteed. The model
  requires only `created <= updated`.
- An update sets `updated` to the clock reading. The model assumes the clock
  is not behind the updated record's creation time, which keeps
  `created <= updated`. It does not prove that `updated` increases.
- The point read, update and delete receive the identifier as path text. Text
  that is not an identifier makes the driver fail, so the answer is 500, not
  404. Deleting an absent identifier succeeds (204).

## Model

| member | source | states |
|---|---|---|
| `UuidText.ParseFormat` | todo-api/handlers/todo.go:104-106 | the text written for an identifier is read back by the token parser as exactly that identifier |
| `UuidText.Format` | todo-api/handlers/todo.go:104-106 | a token is always 36 characters long, so a page token handed out is never the empty (absent) token |
| `UuidText.Parse` | todo-api/handlers/todo.go:66-78 | an accepted token text has at least 32 characters: shorter text is refused |
| `UuidText.ParseRejectsBadChar` | todo-api/handlers/todo.go:66-78 | a text holding any character other than a dash or a hex digit is refused, wherever that character stands |
| `Decimal.Atoi` | todo-api/handlers/todo.go:47-52 | a value read from `page_size` always fits a 64-bit int, and the empty text is refused |
| `Decimal.AtoiDigits` | todo-api/handlers/todo.go:47-52 | a digit string denotes its decimal value when that is at most 2^63-1 and is refused above; a leading '+' changes nothing; a leading '-' denotes the negated value when that is at least -2^63 and is refused below |
| `Decimal.AtoiAccepts` | todo-api/handlers/todo.go:47-52 | conversely, an accepted text is non-empty and is digits, or one '+' or '-' followed by at least one digit and only digits; its value is the decimal value of the digits, negated after '-' |
| `Decimal.AtoiItoa` | todo-api/handlers/todo.go:45-53 | every 64-bit integer written in decimal, zero and negatives included, is read back unchanged |
| `Decimal.AtoiRejectsNonDigit` | todo-api/handlers/todo.go:47-51 | text with a character other than a leading sign and digits is refused |
| `Listing.PlanList` | todo-api/handlers/todo.go:40-79 | a missing `user_id` is refused whatever the other parameters; the list handler only ever refuses with a client error; an accepted request keeps owner and status; a forward bound comes only from a parsed `page_token`; a backward bound only from a parsed `prev_page_token` when `page_token` is absent; no bound only when both are absent |
| `Listing.QueryText` | todo-api/handlers/todo.go:55-81 | the query text starts with the owner SELECT, ends with `" LIMIT ?ALLOW FILTERING"`, and its length is the sum of the owner filter, the status filter when a status is given, the bound when one is used, and the limit |
| `Listing.QueryTextStatus` | todo-api/handlers/todo.go:58-61 | with a status, `" AND status = ?"` follows the owner filter directly |
| `Listing.QueryTextBound` | todo-api/handlers/todo.go:65-81 | a forward bound puts `" AND token(id) > token(?)"`, a backward bound `" AND token(id) < token(?)"`, right before the limit |
| `Listing.QueryTextPlain` | todo-api/handlers/todo.go:55-81 | without status and bound, the text is the owner SELECT followed by the limit, and nothing else |
| `Listing.Render` | todo-api/handlers/todo.go:55-82 | the statement's text is `QueryText` of the plan's status and bound; the parameters are the owner first, the status second when given, the cursor second to last when a bound is used, and the page size last, with 2 + (status given) + (bound used) entries |
| `Listing.BuildListQuery` | todo-api/handlers/todo.go:40-82 | the handler's step-by-step concatenation of query text and appending of parameters refuses exactly what `PlanList` refuses, with the same message, and otherwise builds exactly `Render` of the plan and its page size |
| `Listing.CollectRows` | todo-api/handlers/todo.go:88-94 | the collected rows are exactly the scanned rows, in scan order |
| `Listing.PageOf` | todo-api/handlers/todo.go:101-114 | an empty result has two empty tokens and size 0; otherwise `next_page_token` is the last row's identifier text and is read back as that identifier; `prev_page_token` is non-empty iff the page is non-empty and exactly full, and then names the first row; the reported size is the row count |
| `Listing.GetTodos` | todo-api/handlers/todo.go:33-118 | a refused request issues no statement and answers with the validation error; an accepted one issues exactly the rendered statement, answers a driver failure with an internal error, and otherwise answers the page of the driver's rows |
| `ListingProperties.Rejections` | todo-api/handlers/todo.go:40-79 | the checks run in the order owner, page size, then the token in use; each refusal carries its message; a request is accepted iff all these checks pass |
| `ListingProperties.PageSizeTaken` | todo-api/handlers/todo.go:45-53 | an absent page size is 10; any 64-bit integer sent as `page_size`, including 0 and negatives, becomes the page size unchanged |
| `ListingProperties.ForwardTokenWins` | todo-api/handlers/todo.go:65-79 | with `page_token` present, `prev_page_token` has no effect (even a malformed one), and an accepted request is bounded forward |
| `ListingProperties.NextPageDisjoint` | todo-api/handlers/todo.go:65-71 | re-sending the request with the returned `next_page_token` is accepted and bounded after the last row; if the page came in token order, no row it can select is on the page |
| `ListingProperties.PrevPageDisjoint` | todo-api/handlers/todo.go:72-78 | for a full page, re-sending the request with the returned `prev_page_token` and no `page_token` is accepted and bounded before the first row; no row it can select is on the page |
| `ListingProperties.RenderInjective` | todo-api/handlers/todo.go:55-82 | two plans that render to the same statement are the same plan |
| `Store.Merged` | todo-api/handlers/todo.go:156-165 | title, description and status take the body's value iff it is non-empty and otherwise keep the stored one; identifier, owner and creation time are kept; the update time is the clock reading |
| `Store.ApplyUpdate` | todo-api/handlers/todo.go:156-165 | the handler's field-by-field overwrite yields exactly `Merged` |
| `Store.MergeIdempotent` | todo-api/handlers/todo.go:156-165 | applying the same body twice at the same time equals applying it once |
| `Store.MergeBlankBody` | todo-api/handlers/todo.go:156-165 | a body without title, description and status only refreshes the update time |
| `Store.MergeTwice` | todo-api/handlers/todo.go:156-165 | two successive updates equal one update with the second body laid over the first |
| `Store.TodoTable.Create` | todo-api/handlers/todo.go:17-31 | on success the body's owner, title, description and status are stored under the fresh identifier with the two clock readings, and nothing else changes; on driver failure, 500 and the table is unchanged; the table stays valid |
| `Store.TodoTable.Get` | todo-api/handlers/todo.go:120-136 | unreadable identifier text or a driver failure gives 500; otherwise the stored record or not found; a returned record carries the requested identifier |
| `Store.TodoTable.Update` | todo-api/handlers/todo.go:138-174 | unreadable text or a failed read gives 500 and a missing record gives 404, both leaving the table unchanged; otherwise the merged record is returned and replaces only that entry, unless the write fails (500, table unchanged); the table stays valid |
| `Store.TodoTable.Delete` | todo-api/handlers/todo.go:176-186 | unreadable text or a driver failure gives 500 with the table unchanged; otherwise success, and exactly that key is removed |
| `Store.CreateThenGet` | todo-api/handlers/todo.go:120-135 | a record just created is read back under the identifier text of the response |
| `Store.DeleteThenGet` | todo-api/handlers/todo.go:176-186 | after a delete, reading the same identifier is not found |
| `Store.UpdateThenGet` | todo-api/handlers/todo.go:138-174 | after an update at a time no earlier than the record's creation, a read sees the kept identifier, owner and creation time, the new update time, and the stored values of every field the body left empty |

## Left out

- HTTP and JSON plumbing: request decoding, response encoding, headers and
  status writing. Outcomes are `Records.Outcome` values with `BadRequest`,
  `NotFound` and `InternalError`. The body of a create or update is any `Todo`
  value, because the handlers ignore decoding errors. An empty listing encodes
  `todos` as JSON `null`, not `[]`; the model does not capture this.
- The raw driver error text written with a 500. `InternalError` carries no message.
- `Store.TodoTable.Get`: does not distinguish the driver's failure to read the
  path text as an identifier from other driver failures. Both are `InternalError`.
- `Store.TodoTable.Update`: same simplification as `Get`. It also requires the
  clock reading to be no earlier than the updated record's creation time; the
  handler has no such check, and a clock set back before that time would store
  a record updated before it was created.
- `Store.TodoTable.Delete`: same simplification as `Get`.
- The store itself:
  - Statement execution, the `LIMIT`, and the order of rows are not modelled.
    `ListingProperties.Selects` states what a statement's WHERE clause
    selects, relative to an abstract `tokenOf`. `InTokenOrder` is the row
    order the disjointness lemmas assume.
  - Rows are not checked to match their statement.
  - The store keeps timestamps at millisecond precision; the model does not.
  - With a backward bound and a `LIMIT`, the store returns the first rows of
    the token order below the cursor, not the rows just before it. The
    model does not capture which rows come back.
- Iterator mechanics: a scan is a sequence of row values, so a later scan
  cannot alter an earlier entry. A failure is reported when the iterator closes.
- `uuid.New()` randomness: the identifier is a parameter, required to be
  fresh. Identifiers that were deleted and then reused are not tracked.
- `time.Now()`: clock readings are parameters.
- The debug print of the rows at todo.go:102.
- `todo-api/main.go` (routes, CORS, listener) and `todo-api/db/scylla.go`
  (session setup, environment reads, `getEnvAsInt`). Neither is part of this model.
- Concurrency between requests. Each handler call is modelled as one atomic step.
