# Sports and racing catalogs: query composition, row hydration and facades

This project models, in Dafny, the read path of the two catalogs of a sports-betting
back end, races and sports events.

- **Events repository** (`sports/db/events.go`). `applyFilter` appends an optional `WHERE`
  built from `name`/`location`/`sport` equality predicates and collects their positional
  arguments. `applySort` appends a verbatim `ORDER BY`. `List` composes the list query
  from these two, runs it and hydrates the rows with `scanEvents`. `GetByID` runs the
  by-id query and hydrates its single row with `scanEvent`.
- **Fixed queries** (`sports/db/queries.go`, `racing/db/queries.go`). These are the list
  and by-id SQL texts, including the derived `status` column: `CLOSED` once the
  advertised start is at or before the store's clock, otherwise `OPEN`.
- **Facades** (`racing/service/racing.go`, `sports/service/sports.go`). `ListRaces`,
  `GetRace`, `ListEvents` and `GetEvent` map repository outcomes to responses. Errors pass
  through unchanged. A missing race becomes a NotFound error. A missing event does not.

Modules, one file each:

| file | module | contents |
|---|---|---|
| `outcomes.dfy` | `Outcomes` | `Option`, `Result`, `Error`, `Int64`, the Go `(*T, error)` and `([]*T, error)` pairs |
| `text.dfy` | `Text` | `strings.Join`, character counts, substrings, SQLite's BINARY text order |
| `status.dfy` | `Status` | the OPEN/CLOSED rule over instants; the races rule as written, over text |
| `queries.dfy` | `Queries` | the four fixed queries and the two status rules, as text |
| `event_model.dfy` | `EventModel` | stored event, filter, scanned row, `sports.Event`, statements |
| `event_filter.dfy` | `EventFilter` | `applyFilter` and the reading of the `WHERE` clause back into conditions |
| `events.dfy` | `Events` | `applySort`, the list statement, `scanEvents`, `scanEvent`, `List`, `GetByID` |
| `racing_service.dfy` | `RacingService` | `ListRaces`, `GetRace` |
| `sports_service.dfy` | `SportsService` | `ListEvents`, `GetEvent` |

The store, the clock and the timestamp conversion are parameters of the model:

- `List` receives `query: Statement -> QueryResult`. It answers either a query error or
  the outcome of each successive row scan: `Scanned(row)`, `NoRows` (`sql.ErrNoRows`) or
  `ScanError(e)`.
- `GetByID` receives `queryRow: Statement -> ScanOutcome`.
- `convert: Instant -> Result<Timestamp>` stands for `ptypes.TimestampProto`, which may fail.
- Each facade receives its repository as a function of the arguments it is called with.
- `Instant` is an abstract, totally ordered point on the store's clock: the value of
  `datetime(...)`. Only its order matters.

A Go nil slice is the empty sequence. A nil pointer is `None`.

Each SQL constant is written as the concatenation of its clauses, with single spaces
between words. The tabs and line breaks of the Go raw-string literals are collapsed, and
SQL does not tell the two apart. The strings that `applyFilter` and `applySort` append are kept
character for character.

## Model

| member | source | states |
|---|---|---|
| `Status.StatusAt` | sports/db/queries.go:18-21 | the status is `CLOSED` exactly when the normalised start is at or before now, and `OPEN` exactly when it is after now, so it is always one of the two |
| `Status.StatusMonotone` | sports/db/queries.go:19 | once `CLOSED` at some instant, an item stays `CLOSED` at every later instant; `OPEN` at a later instant implies `OPEN` before |
| `Status.StatusFlipsOnce` | sports/db/queries.go:18-21 | two reads of the same unchanged row differ exactly when the advertised start falls after the first read and at or before the second |
| `Status.RaceStatusAsWritten` | racing/db/queries.go:19-22 | the races rule as written: `CLOSED` exactly when the stored start text sorts at or before the text of `datetime('now')`, otherwise `OPEN` |
| `Status.RaceStatusMonotone` | racing/db/queries.go:20 | under the raw text comparison too, a race `CLOSED` at one clock text stays `CLOSED` at every clock text that sorts after it |
| `Status.RaceStatusAsWrittenMisorders` | racing/db/queries.go:20 | on one day, a start in `datetime()` form compares with now exactly as the clock times do, while a start stored as `<day>T<time>Z` is `OPEN` at every time of that day, before or after the start |
| `Status.RaceStatusAsWrittenExample` | racing/db/queries.go:20 | a start stored as `2026-10-10T08:00:00Z` is still `OPEN` at `2026-10-10 12:00:00`, although 08:00:00 sorts before 12:00:00 |
| `Queries.EventQueriesShareStatusRule` | sports/db/queries.go:11-36 | the events list and by-id queries open with the same five stored columns and compute `status` with the same `CASE` expression right after them |
| `Queries.RaceQueriesShareStatusRule` | racing/db/queries.go:11-39 | the races list and by-id queries open with the same six stored columns and compute `status` with the same `CASE` expression right after them |
| `Queries.StatusRulesDiffer` | racing/db/queries.go:19-22 | the races `CASE` is the events `CASE` with `datetime(advertised_start_time)` replaced by the raw `advertised_start_time` and nothing else changed |
| `Queries.EventsListHasNoWhere` | sports/db/queries.go:11-23 | the events list query contains no `WHERE` |
| `Queries.EventsListHasNoPlaceholder` | sports/db/queries.go:11-23 | the events list query contains no `?` placeholder |
| `Queries.EventByIdExtendsList` | sports/db/queries.go:24-36 | the events by-id query is the list query followed by ` WHERE id = ?` |
| `Queries.EventByIdPlaceholder` | sports/db/queries.go:35 | the events by-id query has exactly one placeholder |
| `Queries.RacesListHasNoWhere` | racing/db/queries.go:11-24 | the races list query contains no `WHERE` |
| `Queries.RacesListHasNoPlaceholder` | racing/db/queries.go:11-24 | the races list query contains no `?` placeholder |
| `Queries.RaceByIdExtendsList` | racing/db/queries.go:25-39 | the races by-id query is the list query followed by ` WHERE id = ?` |
| `Queries.RaceByIdPlaceholder` | racing/db/queries.go:38 | the races by-id query has exactly one placeholder |
| `EventFilter.ApplyFilter` | sports/db/events.go:96-126 | a nil filter leaves the query unchanged with no arguments. The query is always a prefix of the result. The arguments are the non-empty fields, each as given, in the order name, location, sport. With no non-empty field there is no `WHERE`. Otherwise there is one ` WHERE ` followed by the predicates of exactly those columns joined by ` AND `. The statement gains exactly one placeholder per argument |
| `EventFilter.NilFilterSameAsEmpty` | sports/db/events.go:102-104 | a nil filter and a filter whose three fields are empty build the same statement |
| `EventFilter.SelectedMembers` | sports/db/events.go:106-119 | a column receives a predicate exactly when the filter's field for it is non-empty |
| `EventFilter.ParseJoinedClauses` | sports/db/events.go:121-123 | a joined predicate list reads back into exactly the columns it was built from, in order |
| `EventFilter.FilterSelectsMatches` | sports/db/events.go:106-123 | read back from the filtered query and its arguments, the conditions hold of a stored event exactly when every non-empty filter field equals the event's value |
| `Events.ApplySort` | sports/db/events.go:88-94 | an empty ordering leaves the query unchanged, and only an empty one does. Otherwise the query is followed by ` ORDER BY ` and then the ordering text verbatim |
| `Events.ListStatement` | sports/db/events.go:56-61 | the filter is applied to the list query before the ordering, and the arguments are the filter's. A `WHERE`, when present, starts right after the base query, and the ` ORDER BY ` starts after the whole filtered query. The placeholders number the arguments plus any `?` inside the caller's ordering |
| `Events.Hydrated` | sports/db/events.go:134-156 | a list is all-or-nothing: when an error is reported there are no records |
| `Events.ScanEvents` | sports/db/events.go:129-157 | the loop returns what `Hydrated` describes. If every row scans and converts, the records are those rows in row order. A scan or conversion error gives no records and that error. `ErrNoRows` gives no records and no error |
| `Events.ScanEvent` | sports/db/events.go:160-182 | a record and an error are never both returned. The record is the hydrated row exactly when the row scanned and converted. The error is the scan or conversion error, and none for `ErrNoRows` |
| `Events.NoRowsDiscardsScannedRows` | sports/db/events.go:138-141 | an `ErrNoRows` after a good row discards that row, leaving the same empty, error-free result as a result set with no rows |
| `Events.ScanEventAgreesWithList` | sports/db/events.go:129-182 | on a one-row result set, the by-id hydration and the list hydration give the same record or the same error |
| `EventModel.Project` | sports/db/queries.go:11-23 | the row the events queries return for a stored event: its id, name, location, sport and start as stored, and a status that is `CLOSED` exactly when the start is at or before the store's clock, `OPEN` exactly when it is after |
| `Events.HydratedStatus` | sports/db/events.go:138-153 | a record hydrated from the row the events query produces carries the stored fields and the converted start, and its status is `CLOSED` exactly when the start is at or before now |
| `Events.List` | sports/db/events.go:49-69 | a query error gives no records and that same error. Otherwise the result is the all-or-nothing hydration of the returned rows |
| `Events.ByIdStatement` | sports/db/events.go:78-80 | the by-id statement is the list query narrowed by ` WHERE id = ?`, with the id as its one argument for its one placeholder |
| `Events.GetByID` | sports/db/events.go:72-86 | `ErrNoRows` gives no record and no error, meaning "not found". Any other scan error is returned as it is. A row that scans but whose start fails to convert gives no record and the conversion error (sports/db/events.go:174-177). A row that scans and converts comes back as the record with the scanned fields and the converted start, and no error |
| `Events.GetByIDFindsStoredEvent` | sports/db/events.go:72-86 | when the store answers the by-id statement with a stored event's row, the lookup returns that event's fields and converted start, `CLOSED` exactly when the start is at or before the store's clock; a failed conversion returns its error and no record |
| `RacingService.ListRaces` | racing/service/racing.go:30-37 | a repository error is returned unchanged with no response. Otherwise the response wraps exactly the repository's races |
| `RacingService.GetRace` | racing/service/racing.go:40-52 | exactly one of response and error is set. A repository error is returned unchanged. A nil race with no error becomes the NotFound error `Race not found`. A found race is wrapped unchanged |
| `RacingService.ListRacesPassesRequestThrough` | racing/service/racing.go:31 | the response depends on the repository only through its answer for the request's own filter and ordering |
| `RacingService.GetRacePassesIdThrough` | racing/service/racing.go:41 | the response depends on the repository only through its answer for the request's id |
| `SportsService.ListEvents` | sports/service/sports.go:28-35 | a repository error is returned unchanged with no response. Otherwise the response holds the repository's events, same length, order and fields |
| `SportsService.GetEvent` | sports/service/sports.go:38-45 | the error is the repository's, unchanged, so no NotFound is made here. Without an error, the response wraps whatever record the repository returned, a nil one included |
| `SportsService.ListEventsPassesRequestThrough` | sports/service/sports.go:29 | the response depends on the repository only through its answer for the request's own filter and ordering |
| `SportsService.GetEventPassesIdThrough` | sports/service/sports.go:39 | the response depends on the repository only through its answer for the request's id |
| `SportsService.AbsentRecordAsymmetry` | sports/service/sports.go:44 | for a nil record with no error, `GetEvent` answers with an empty response and no error, while `GetRace` answers with NotFound |

## Left out

- EventModel.Project, Events.HydratedStatus, Events.GetByIDFindsStoredEvent: the row a query returns for a stored event is assumed, not derived by evaluating the `Queries.EventsList` text. One `Instant` stands both for the scanned `advertised_start_time` handed to the conversion (sports/db/events.go:138, 146) and for `datetime(advertised_start_time)` in the status rule (sports/db/queries.go:19). They differ when the stored start has fractional seconds: `datetime()` compares whole seconds, so a start at 12:00:00.700 is already `CLOSED` at 12:00:00.300 while the record's own timestamp still lies ahead. The model does not express that case.
- Queries.RaceQueriesShareStatusRule, Queries.RaceByIdExtendsList, Queries.EventByIdExtendsList: hold of the text with its whitespace collapsed. In the Go literals, `eventsList` ends with a line break and indentation after `FROM events` (sports/db/queries.go:22-23), while `eventByID` continues that line with ` WHERE id = ?` (line 35). Likewise `raceByID` is indented one tab deeper than `racesList` from its column list on (racing/db/queries.go:27-37 vs 13-23) and puts `WHERE id = ? ` on a line of its own, with a trailing space (line 38), so the same character position and the exact suffix hold only after collapsing, which SQL does not distinguish.
- `Init` and the seeding guarded by `sync.Once` (sports/db/events.go:37-46). They are a concurrency primitive plus writes to the store, outside the read path.
- Running SQL. `db.Query`, `db.QueryRow` and the sqlite3 driver are the parameters described above. The model does not evaluate `WHERE` or `ORDER BY` against a table. Which rows come back, and in what order, is the store's answer. `EventFilter.FilterSelectsMatches` states which rows the `WHERE` selects.
- `rows.Err()` and `rows.Close()`. The Go loop never consults them, so an iteration error that ends `rows.Next()` early is invisible to it. The model's outcome sequence is what `rows.Next()` delivered.
- SQLite's `datetime()`. Its normalisation is the abstract `Instant`. The case where `datetime()` yields NULL for text it cannot parse is not modelled; the `CASE` would then fall to `OPEN`.
- `ptypes.TimestampProto`. Its range checks are the `convert` parameter, which may fail.
- gRPC `status`/`codes` and `context`. NotFound is the `Error` constructor `NotFound`. The context is unused by the facades.
- The check of `err` after `QueryRow` in `GetByID` (sports/db/events.go:80-83). Nothing assigns `err` before it, so it never fires and is not modelled as an error path.
- The races repository (its `List`, `GetByID` and visibility filter). Its source is not part of this model. The racing facade takes it as a parameter, and only the races query texts are modelled. The races test calls `List` with one argument, unlike the facade's two.
- `scanEvents`'s `ErrNoRows` branch (sports/db/events.go:139-141) is modelled as written, although a multi-row scan does not report `ErrNoRows` in practice.
- `ORDER BY` from caller input is appended unescaped and unvalidated, as the source does. `Events.ListStatement` shows that a `?` inside it breaks the match between placeholders and arguments.

## Findings

| source | as written | input that shows it | evidently intended | confidence | as-written member | corrected member |
|---|---|---|---|---|---|---|
| racing/db/queries.go:20 | the races status compares the stored `advertised_start_time` text, as stored, against the text of `datetime('now')` | start stored as `2026-10-10T08:00:00Z` (ISO-8601 with `T`), now `2026-10-10 12:00:00`: at position 10 `T` sorts after the space, so the race is `OPEN` four hours after its start | compare normalised instants, as the events rule does with `datetime(advertised_start_time) <= datetime('now')` | medium, not executed; depends on the stored text form, and the races seed is not part of this model | `Status.RaceStatusAsWritten`, `Status.RaceStatusAsWrittenMisorders`, `Status.RaceStatusAsWrittenExample` | `Status.StatusAt` (with `Status.StatusMonotone`) |
