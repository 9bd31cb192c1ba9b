# collaborator-management-api, modelled in Dafny

This project models the core of a service that keeps a roster of collaborators in step with an
external user directory. It covers four parts.

- **Import.** Fetch the directory's users and flatten each record. Look up which of their emails
  the `collaborators` table already holds. Bulk-insert the others with duplicate-ignoring
  semantics. Report `{ imported, ignored }`.
- **Listing.** Turn raw query-string parameters (`page`, `limit`, `search`, `sort`, `order`) into
  a `findAndCountAll` query: a name filter, an order, then `LIMIT`/`OFFSET`. Wrap the page in a
  `{ data, pagination }` envelope.
- **Lookup and deletion by id.** Both fail with an `AppError` 404 "Collaborator not found".
- **The error middleware.** It maps every thrown error to an HTTP status and a JSON `error` body.
  `notFoundHandler` answers every unmatched route.

Modules. The first four follow a source file each; the other four hold the JavaScript built-ins, the
Sequelize queries and the table the service relies on:

| module | file | form |
|---|---|---|
| `ErrorHandler` | `error_handler.dfy` | `AppError` and the `errorHandler` chain, as pure functions |
| `CollaboratorModel` | `collaborator.dfy` | the record, its column bounds, the table invariant (unique `id` and `email`) |
| `ExternalApi` | `external_api_service.dfy` | `fetchUsers`: mapping and error wrapping, as pure functions |
| `Dto` | `collaborator_dto.dfy` | request and response shapes |
| `JsText` | `js_text.dfy` | `parseInt(s, 10)`, `toUpperCase`, and the case-insensitive substring test of `ILIKE '%s%'` |
| `StoreQuery` | `store_query.dfy` | what `findAndCountAll` returns: filter, stable order, window, count |
| `Store` | `store.dfy` | the table as a class (`CollaboratorStore`) whose methods change its rows in place, with `bulkCreate`'s loop |
| `CollaboratorService` | `collaborator_service.dfy` | the four service operations |

Each imperative operation is a method. It is proved against a specification function: `ImportSpec`,
`InsertAll`, `StoredEmailsIn`, `Lookup` or `RemoveId`. The lemmas then state what the source
promises about that function.

The import does not deduplicate within a snapshot. Its filter removes only the emails the table
already holds, so a snapshot `[a, b, a]` of new emails reports `imported = 3, ignored = 0`, while
`ON CONFLICT DO NOTHING` stores a single `a`. `ImportRowsAddedAtMostImported` proves that the rows
actually added never exceed `imported`, with equality exactly when the inserted records carry
pairwise distinct emails; `ImportCountsRepeatedEmailTwice` shows the two counts apart.

Conventions:

- **Inputs.** Effects the model cannot see are inputs:
  - the directory's HTTP answer (`HttpOutcome`);
  - the current time (`now`);
  - a failure of the `findAll`, `bulkCreate` or `findAndCountAll` round trip, as an
    `Option<Failure>` that is the error thrown.
- **NaN.** A JavaScript `NaN` from `parseInt` is `None`. Sequelize writes an `OFFSET` clause only for
  a truthy offset, so a `NaN` offset sends none; a `NaN` limit is sent as `LIMIT NaN` and rejected. `Math.ceil(count / limit)` is a
  `PageCount`: `Pages(n)`, `Infinite` or `NotANumber`.
- **Ids.** UUIDv4 ids are drawn from a counter that never repeats.

## Model

| member | source | states |
|---|---|---|
| `ErrorHandler.NewAppError` | src/shared/middleware/error-handler.ts:8-13 | keeps the message; status code defaults to 500; always operational |
| `ErrorHandler.HandleError` | src/shared/middleware/error-handler.ts:16-58 | an `AppError` answers its own status and message. Otherwise `ValidationError` answers 400 with its message, `SequelizeUniqueConstraintError` 400 "Constraint violation", `SequelizeDatabaseError` 500 "Database error occurred", and every other name 500 "Internal Server Error" |
| `ErrorHandler.NotFoundHandler` | src/shared/middleware/error-handler.ts:60-68 | 404 with body "Not Found" |
| `ErrorHandler.AppErrorIgnoresName` | src/shared/middleware/error-handler.ts:22-28 | the `instanceof AppError` test precedes every name test: renaming an `AppError` changes nothing |
| `ErrorHandler.PlainErrorIsInternal` | src/shared/middleware/error-handler.ts:54-57 | a plain `new Error(...)` answers 500 "Internal Server Error", whatever its message |
| `CollaboratorModel.Build` | src/collaborators/models/collaborator.ts:22-77 | a new row carries the generated id, both timestamps set to now, and exactly the given attributes; it fits the columns exactly when the attributes do |
| `CollaboratorModel.KeysIdentifyRows` | src/collaborators/models/collaborator.ts:24-41 | under the table invariant an id, or an email, picks out at most one row; every row's id is below the generator's next value and its values fit their columns |
| `ExternalApi.MapUsers` | src/collaborators/services/external-api-service.ts:30-35 | succeeds exactly when every record has its `address` and `company` objects; one flat record per element, same order, fields copied |
| `ExternalApi.FetchUsers` | src/collaborators/services/external-api-service.ts:24-44 | an axios error becomes a plain error "Failed to fetch users from external API: " + its message; any other failure, including a record the map cannot read, becomes the bare message. Every failure message starts with the fixed prefix; success is the mapped list |
| `ExternalApi.MissingNestedFieldStaysAbsent` | src/collaborators/services/external-api-service.ts:30-35 | for every snapshot that maps, each record's `city` (company `name`) is absent exactly when the directory left it out, and is otherwise the directory's value |
| `JsText.TrimStart` | src/collaborators/services/collaborator-service.ts:51-52 | removes exactly the leading white space: the result is a suffix, everything dropped is white space, and the result does not start with white space |
| `JsText.DigitPrefix` | src/collaborators/services/collaborator-service.ts:51-52 | the longest prefix of decimal digits |
| `JsText.ParseIntNaNExactly` | src/collaborators/services/collaborator-service.ts:51-52 | `parseInt` is `NaN` exactly when no digit follows the leading white space and the optional sign; the result is negative only after a `-`, and never positive after one |
| `JsText.ParseIntShowRoundTrip` | src/collaborators/services/collaborator-service.ts:51-52 | `parseInt` reads back every integer's decimal rendering |
| `JsText.ParseIntIgnoresSurroundings` | src/collaborators/services/collaborator-service.ts:51-52 | leading white space and anything after the digits are ignored: "  12abc" reads as 12 |
| `JsText.ParseIntOfNonNumeric` | src/collaborators/services/collaborator-service.ts:51-52 | a string whose first character is not white space, a sign or a digit is `NaN` |
| `JsText.UpperCase` | src/collaborators/services/collaborator-service.ts:67 | same length, each letter upper-cased |
| `JsText.UpperCaseIdempotent` | src/collaborators/services/collaborator-service.ts:67 | upper-casing twice is upper-casing once |
| `JsText.LowerCase` | src/collaborators/services/collaborator-service.ts:57-61 | same length, each letter lower-cased |
| `JsText.ContainsIffOccurs` | src/collaborators/services/collaborator-service.ts:57-61 | the substring test holds exactly when the pattern occurs at some position |
| `JsText.EmptySearchMatchesAll` | src/collaborators/services/collaborator-service.ts:57-61 | the pattern `%%` matches every name |
| `StoreQuery.TextLeTotal` | src/collaborators/services/collaborator-service.ts:67 | the text order compares any two strings |
| `StoreQuery.TextLeTransitive` | src/collaborators/services/collaborator-service.ts:67 | the text order is transitive |
| `StoreQuery.TextLeAntisymmetric` | src/collaborators/services/collaborator-service.ts:67 | two strings each at most the other are equal |
| `StoreQuery.KeyLeAntisymmetric` | src/collaborators/services/collaborator-service.ts:67 | two sort keys each at most the other are equal |
| `StoreQuery.InOrderTotal` | src/collaborators/services/collaborator-service.ts:67 | `ORDER BY column ASC/DESC` compares any two rows |
| `StoreQuery.InOrderTransitive` | src/collaborators/services/collaborator-service.ts:67 | `ORDER BY column ASC/DESC` is transitive |
| `StoreQuery.InsertInOrder` | src/collaborators/services/collaborator-service.ts:67 | adds exactly the one row |
| `StoreQuery.InsertInOrderSorted` | src/collaborators/services/collaborator-service.ts:67 | inserting into an ordered sequence keeps it ordered |
| `StoreQuery.SortBy` | src/collaborators/services/collaborator-service.ts:67 | the result is ordered by the column and direction, and is a permutation of its input |
| `StoreQuery.Where` | src/collaborators/services/collaborator-service.ts:55-61 | keeps exactly the rows whose name matches the pattern, each as often as in the table; no pattern keeps every row |
| `StoreQuery.Window` | src/collaborators/services/collaborator-service.ts:63-66 | `LIMIT l OFFSET o`: at most `l` rows, exactly `min(l, n - min(o, n))` of them, the ones from position `o` on |
| `StoreQuery.FindAndCountAll` | src/collaborators/services/collaborator-service.ts:63-68 | rejected exactly when the limit is `NaN` or negative, the offset is negative, the sort is not an attribute, or the direction is not ASC/DESC; a `NaN` offset means no `OFFSET`. On success: the count of all matching rows; at most `limit` rows, each a matching table row, in the requested order |
| `StoreQuery.FindAndCountAllIsWindow` | src/collaborators/services/collaborator-service.ts:63-68 | the rows returned are the requested window of the ordered matching rows, starting at the first row when no `OFFSET` is sent |
| `StoreQuery.SortedUnique` | src/collaborators/services/collaborator-service.ts:67 | when no two rows tie on the sort column, any two orderings of the same rows by that column are equal |
| `Store.StoredEmailsIn` | src/collaborators/services/collaborator-service.ts:16-27 | an email is in the result exactly when it is one of the candidates and some row holds it |
| `Store.Lookup` | src/collaborators/services/collaborator-service.ts:84 | finds a row exactly when some row has the id, and the row found has that id |
| `Store.RemoveId` | src/collaborators/services/collaborator-service.ts:100 | removes every row with the id and keeps every other row, with its multiplicity |
| `Store.InsertStep` | src/collaborators/services/collaborator-service.ts:30-32 | one record draws one id; the stored rows stay a prefix; the email is stored afterwards; a row is added, built from the record, exactly when its email was not stored |
| `Store.InsertAll` | src/collaborators/services/collaborator-service.ts:30-32 | rows already stored are untouched (a prefix); at most one row is added per record; one id is drawn per record |
| `Store.InsertStepKeepsInvariant` | src/collaborators/services/collaborator-service.ts:30-32 | inserting one record that fits its columns, unless its email is stored, keeps ids and emails unique |
| `Store.InsertAllKeepsInvariant` | src/collaborators/services/collaborator-service.ts:30-32 | a fitting batch keeps ids and emails unique |
| `Store.InsertAllStoredEmails` | src/collaborators/services/collaborator-service.ts:30-32 | after the batch, an email is stored exactly when it was before or some record carries it |
| `Store.InsertAllAddsOneRowPerNewEmail` | src/collaborators/services/collaborator-service.ts:30-32 | the batch adds exactly one row per distinct email it carries that the table did not hold |
| `Store.RemoveIdKeepsInvariant` | src/collaborators/services/collaborator-service.ts:100 | deleting keeps ids and emails unique |
| `Store.CollaboratorStore.FindEmailsIn` | src/collaborators/services/collaborator-service.ts:16-23 | the loop returns exactly `StoredEmailsIn` |
| `Store.CollaboratorStore.HasEmail` | src/collaborators/services/collaborator-service.ts:30-32 | the loop answers exactly whether the email is stored |
| `Store.BulkCreateSpec` | src/collaborators/services/collaborator-service.ts:30-32 | an empty batch succeeds at once; otherwise it fails exactly on a failed round trip or a value too long for its column, with that error and nothing stored; on success the new table is `InsertAll` of the old one |
| `Store.CollaboratorStore.BulkCreate` | src/collaborators/services/collaborator-service.ts:30-32 | the result and the new table are exactly `BulkCreateSpec` of the old table; the table invariant is kept |
| `Store.CollaboratorStore.InsertBatch` | src/collaborators/services/collaborator-service.ts:30-32 | the record-by-record loop leaves exactly `InsertAll` of the old table, keeping the invariant |
| `Store.CollaboratorStore.FindByPk` | src/collaborators/services/collaborator-service.ts:84 | the loop returns exactly `Lookup` |
| `Store.CollaboratorStore.Destroy` | src/collaborators/services/collaborator-service.ts:100 | the new table is `RemoveId` of the old one; the invariant is kept |
| `CollaboratorService.EmailsOf` | src/collaborators/services/collaborator-service.ts:15 | one email per user, same order |
| `CollaboratorService.NewUsers` | src/collaborators/services/collaborator-service.ts:25-28 | keeps exactly the users whose email is not in the set, each with its multiplicity |
| `CollaboratorService.NewUsersKeepsOrder` | src/collaborators/services/collaborator-service.ts:28 | the filter keeps the snapshot's order: filtering a concatenation filters each part |
| `CollaboratorService.AsBatch` | src/collaborators/services/collaborator-service.ts:30 | one creation record per user, fields copied |
| `CollaboratorService.UsersToInsert` | src/collaborators/services/collaborator-service.ts:15-28 | keeps exactly the fetched users whose email the table does not hold |
| `CollaboratorService.ImportSpec` | src/collaborators/services/collaborator-service.ts:12-38 | a fetch or lookup failure passes through unchanged, an insert failure only when there is something to insert, and any failure leaves the table as it was. On success, `imported` is the number of records handed to the insert, and `imported + ignored` is the snapshot size, both non-negative |
| `CollaboratorService.ImportInsertFaultPassesThrough` | src/collaborators/services/collaborator-service.ts:30-32 | when the fetched snapshot holds a record whose email is not stored, a failing `bulkCreate` fails the import with that same error and stores nothing |
| `CollaboratorService.ImportCollaborators` | src/collaborators/services/collaborator-service.ts:12-38 | the method's result and new table are exactly `ImportSpec` of the old table; the invariant is kept |
| `CollaboratorService.SelectNewUsers` | src/collaborators/services/collaborator-service.ts:15-28 | the lookup and the filter return exactly `UsersToInsert` of the table |
| `CollaboratorService.InsertFetched` | src/collaborators/services/collaborator-service.ts:15-37 | after the fetch, the method's result and new table are exactly the insert stage of `ImportSpec` |
| `CollaboratorService.ImportKeepsTableInvariant` | src/collaborators/services/collaborator-service.ts:12-38 | no import, failing or not, breaks unique ids and emails |
| `CollaboratorService.ImportStoresEveryFetchedEmail` | src/collaborators/services/collaborator-service.ts:25-32 | after a successful import every fetched email is stored, and the rows stored before are untouched |
| `CollaboratorService.ImportRowsAddedAtMostImported` | src/collaborators/services/collaborator-service.ts:28-37 | rows added ≤ `imported`, with equality exactly when the inserted records have pairwise distinct emails |
| `CollaboratorService.ImportCountsRepeatedEmailTwice` | src/collaborators/services/collaborator-service.ts:28-37 | two new snapshot records with one email: `imported = 2, ignored = 0`, one row added |
| `CollaboratorService.ImportTwiceImportsNothing` | src/collaborators/services/collaborator-service.ts:12-38 | re-importing an unchanged snapshot gives `imported = 0, ignored =` snapshot size and changes nothing; it sends no insert, so no insert failure can reach it |
| `CollaboratorService.ImportOfStoredEmails` | src/collaborators/services/collaborator-service.ts:25-37 | a snapshot whose emails are all stored is skipped in full, with no insert sent |
| `CollaboratorService.ImportEmptySnapshot` | src/collaborators/services/collaborator-service.ts:12-38 | an empty snapshot gives `{0, 0}` and changes nothing; no insert is sent, so an insert failure cannot reach it |
| `CollaboratorService.PlanQuery` | src/collaborators/services/collaborator-service.ts:43-68 | limit is `parseInt(limit ?? "10")`; offset is `(page - 1) * limit` exactly when both parse; a name filter exactly for a non-empty search; sort defaults to `createdAt`; direction is the upper-cased order, default `DESC` |
| `CollaboratorService.EmptyLimitIsNotDefaulted` | src/collaborators/services/collaborator-service.ts:43-52 | a default applies only to an absent parameter: `?limit=` keeps the empty string, which parses to `NaN`, and the listing is rejected |
| `CollaboratorService.PlanQueryDefaults` | src/collaborators/services/collaborator-service.ts:43-53 | no parameters: limit 10, offset 0, `createdAt DESC`, no filter |
| `CollaboratorService.PlanQueryTakesNumbersAsGiven` | src/collaborators/services/collaborator-service.ts:51-53 | any integers for page and limit are used unchecked: offset `(page - 1) * limit` |
| `CollaboratorService.NegativePageIsRejected` | src/collaborators/services/collaborator-service.ts:51-68 | `?page=-1` gives offset -20, and the listing fails with a database error |
| `CollaboratorService.LowerCaseOrderIsAccepted` | src/collaborators/services/collaborator-service.ts:67 | `order=asc` becomes `ASC` |
| `CollaboratorService.CeilDiv` | src/collaborators/services/collaborator-service.ts:76 | `Math.ceil(a / b)`: for `b > 0` the least `n` with `a <= n * b` (non-negative for `a >= 0`); for `b < 0` the greatest `n` with `n * b <= a` |
| `CollaboratorService.TotalPages` | src/collaborators/services/collaborator-service.ts:76 | `NaN` for a `NaN` limit; for limit 0, `NaN` on an empty count and `Infinity` otherwise; for a positive limit, the least `n >= 0` with `count <= n * limit`; for a negative one, the greatest `n` with `n * limit <= count` |
| `CollaboratorService.ListAcceptsExactly` | src/collaborators/services/collaborator-service.ts:51-68 | the listing is answered exactly when the limit parses to a non-negative number, the page is `NaN`, at least 1 or the limit is 0, the sort is a model attribute, and the upper-cased order is `ASC` or `DESC` |
| `CollaboratorService.OffsetAcceptedExactly` | src/collaborators/services/collaborator-service.ts:53 | for a non-negative limit, the offset is absent or non-negative exactly when the page is `NaN`, at least 1, or the limit is 0 |
| `CollaboratorService.NonNumericPageListsFirstPage` | src/collaborators/services/collaborator-service.ts:51-68 | `?page=abc` is not rejected: the offset is `NaN`, no `OFFSET` is sent, and the first page comes back with `page` `NaN` |
| `CollaboratorService.ListedRowsAreWindow` | src/collaborators/services/collaborator-service.ts:43-68 | for any page and limit strings the database accepts, the listing returns the window of the matching rows in the requested order, starting at the parsed offset (row 0 when no `OFFSET` is sent) |
| `CollaboratorService.PageNonEmptyIffWithinTotalPages` | src/collaborators/services/collaborator-service.ts:53-76 | page `p >= 1` has rows exactly when `p <= totalPages` |
| `CollaboratorService.PagesUpToIsPrefix` | src/collaborators/services/collaborator-service.ts:53-66 | pages 1..n laid end to end are the first `n * limit` rows: none skipped, none repeated |
| `CollaboratorService.AllPagesCoverEverything` | src/collaborators/services/collaborator-service.ts:63-76 | pages 1..totalPages together are every row, in order |
| `CollaboratorService.PlanQueryWithPage` | src/collaborators/services/collaborator-service.ts:51-53 | setting `page` changes only the offset of the query |
| `CollaboratorService.ListPageIsWindow` | src/collaborators/services/collaborator-service.ts:40-79 | page `p` of the listing succeeds and is the `p`-th window of the matching rows in the requested order |
| `CollaboratorService.ListingPagesCoverEveryMatch` | src/collaborators/services/collaborator-service.ts:40-79 | when no two matching rows tie on the sort column, every order the database may return them in is the requested one, and for a positive limit pages 1..totalPages, each queried on its own, return every matching row exactly once, in order |
| `CollaboratorService.OrderIsDetermined` | src/collaborators/services/collaborator-service.ts:63-68 | without ties among the matching rows, any ordering the database returns is the model's order |
| `CollaboratorService.IdAndEmailSortsHaveNoTies` | src/collaborators/services/collaborator-service.ts:67 | sorting by `id` or `email`, both unique in the table, leaves no ties among the matching rows |
| `CollaboratorService.Envelope` | src/collaborators/services/collaborator-service.ts:70-77 | data is the store's rows; total is its count; page and limit as parsed; `totalPages` is `Math.ceil(total / limit)` |
| `CollaboratorService.ListCollaborators` | src/collaborators/services/collaborator-service.ts:40-79 | a store failure passes through, and without one the call succeeds exactly when the database accepts the planned query. On success: page and limit as parsed, total the number of matching rows, at most `limit` rows, each a matching table row. `totalPages` is `Math.ceil(total / limit)`: for a positive limit the least `n` with `total <= n * limit`; for limit 0, `NaN` on no matches and `Infinity` otherwise |
| `CollaboratorService.GetCollaboratorById` | src/collaborators/services/collaborator-service.ts:81-91 | returns the row exactly when some row has the id; otherwise fails with 404 "Collaborator not found" |
| `CollaboratorService.DeleteCollaborator` | src/collaborators/services/collaborator-service.ts:93-101 | fails with 404, changing nothing, exactly when no row has the id; otherwise removes that row; the invariant is kept |
| `CollaboratorService.DeletedIdIsNotFound` | src/collaborators/services/collaborator-service.ts:81-101 | after a delete, looking the id up fails |
| `CollaboratorService.DeleteRemovesOneRow` | src/collaborators/services/collaborator-service.ts:93-101 | with unique ids, deleting an existing id removes exactly one row |
| `CollaboratorService.NotFoundRespondsWith404` | src/collaborators/services/collaborator-service.ts:86-88 | the not-found error reaches the client as 404 "Collaborator not found" |
| `CollaboratorService.FailedFetchRespondsWith500` | src/collaborators/services/external-api-service.ts:36-43 | a failed directory fetch fails the import and answers 500 "Internal Server Error" |
| `CollaboratorService.RejectedListRespondsWith500` | src/shared/middleware/error-handler.ts:46-52 | a listing the database rejects answers 500 "Database error occurred" |
| `CollaboratorService.OverlongValueRespondsWith500` | src/collaborators/services/collaborator-service.ts:30-32 | a batch with a value too long for its column fails the import, changing nothing, and answers 500 "Database error occurred" |

## Left out

- The HTTP transport (Express routing, request parsing, `res`), logging, Swagger and database bootstrap are outside the model.
- `ExternalApi.FetchUsers`: the URL, the 10-second timeout and the network are replaced by the `HttpOutcome` input. A record missing its `name` or `email` is not modelled: those fields are always present. Malformed bodies are not modelled either: a `null` element or a `data` that is not an array makes the source's `map` throw, which fails the fetch with the bare "Failed to fetch users from external API" message.
- The unique `email` index is modelled; the race between the email lookup and the insert, where a concurrent importer inserts the same email, is not, because the model is sequential.
- `CollaboratorModel.PassesValidators` is defined but never applied. `bulkCreate` does not run the model validators (`notEmpty`, `isEmail`) by default, and `isEmail` comes from a validation library outside this model (a parameter).
- `Store.CollaboratorStore.BulkCreate`: a value too long for its column fails the insert here even when the excess is all spaces, where PostgreSQL truncates it to the column length and stores it.
- `Store.CollaboratorStore.BulkCreate`: the database's own error message and the other reasons an `INSERT` may fail (types, connections) are not modelled. Only the column-length bound is, with a fixed message; a connection failure is the `insertFault` input.
- `CollaboratorService.GetCollaboratorById` and `CollaboratorService.DeleteCollaborator`: a failing `findByPk` or `destroy` round trip is not modelled.
- Ids: UUIDv4 randomness is replaced by a counter. A malformed id string (which PostgreSQL rejects for a UUID column) is not modelled, since ids are numbers here.
- `JsText.ParseInt`: results are exact integers. Digit strings beyond 2^53, which lose precision as doubles, and `-0` are not distinguished.
- `JsText.UpperCase` and `JsText.LowerCase` map ASCII letters only. Full Unicode case mapping is not modelled.
- `StoreQuery.Where`: `%` and `_` inside the search text are literal here, although `ILIKE` reads them as wildcards, and `\` is literal, although `ILIKE` reads it as the escape character. Case folding is ASCII only.
- `StoreQuery.SortBy`: text compares by code unit, not by the database collation. Rows with equal keys keep table order, where PostgreSQL leaves their order unspecified, and may order them differently in each page's query. Ties are possible on `createdAt`: the model stamps a whole import with one `now`, whereas Sequelize computes the `NOW` default for each record separately, so the records of one batch may or may not share a millisecond. Statements across pages (`ListingPagesCoverEveryMatch`) are therefore made only for sorts without ties. `NULL` sorts last ascending and first descending, PostgreSQL's default.
- `StoreQuery.FindAndCountAll`: which parameters the database rejects is a conservative abstraction. A raw column name such as `created_at`, or a direction such as `ASC NULLS FIRST`, which Sequelize would pass through, is rejected here.
