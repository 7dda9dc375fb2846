# QR-code dashboard, modelled in Dafny

The system is a small dashboard for tourist attractions. Staff record how many
QR codes each attraction handed out on each day and how many sales followed,
and then read the records back as a filtered, ordered listing with a
conversion rate, plus a summary.

The backend is an Express server over SQLite. It offers:

- a login route and a bearer-token gate;
- an upsert of a daily record by `(attraction_id, date)`;
- update and delete of a record by id;
- the attraction list and attraction insert;
- the dashboard listing and the summary.

The frontend is one React file. This model covers the part of it that is logic
rather than layout:

- date formatting;
- building the query from the filter bar;
- the form checks;
- the session and form state that the handlers change.

The project is laid out in modules:

- `Wrappers`: an `Option`.
- `Strings`: the JavaScript and SQLite string operations the code relies on:
  - the comparison of dates as text;
  - `split`, `trim` and `parseInt`;
  - the text-to-integer affinity of an INTEGER column.
- `Rates`: the conversion rate, held exactly in hundredths of a percent.
- `Filters`: the three optional filters. It also holds the step-by-step
  WHERE-clause builder, proved equal to the filter predicate.
- `Sorting`: an insertion sort that works under any total preorder.
- `Tables`: the `daily_data` and `attractions` rows, and the statements run on
  them, over a row sequence kept in rowid order.
- `Queries`: the dashboard join and order, and the summary.
- `Server`: the `Database` class.
  - Both tables are fields with their AUTOINCREMENT counters.
  - There is one method per route after authentication.
  - `ZooScenario` runs from an empty database to a listing.
- `Auth`: the `authenticateToken` decision and the login decision. JWT and
  bcrypt enter as function parameters.
- `Client`, which holds:
  - `formatDate` and the query parameters;
  - the forms and their checks;
  - the `Session` class (the `App` component's token and user);
  - the `DashboardView` class, holding the `Dashboard` component's form state
    and handlers.

Modelling choices:

- **Dates** are `YYYY-MM-DD` strings. Stored dates and date bounds are
  both taken to be text, and two text values compare lexicographically on
  code points (`LexLe`), as SQLite's BINARY collation does. Numeral-like
  values, which the `DATE` column's NUMERIC affinity would store or compare
  as numbers, are outside the model (see "Left out").
- **The attraction filter** arrives as text. It equals a row's integer
  `attraction_id` when the text is a plain decimal numeral of that value.
- **The rate** is `sales * 100 / qrcodes`, rounded to two decimals. It is held
  as an integer number of hundredths of a percent, with ties rounded away from
  zero as `ROUND` does.
- **A SUM over no rows** (SQL NULL) is `None`.
- **Row order.** Rows are kept in rowid order with strictly ascending ids.
  This makes `db.get` return the first matching row.

## Model

| member | source | states |
|---|---|---|
| Server.Database.constructor | backend/server.js:19-44 | Both tables start empty and both AUTOINCREMENT counters start at 1. |
| Server.Database.Upsert | backend/server.js:195-241 | If some row has `(attractionId, date)`, only the first such row (in rowid order) gets the two new counters, the outcome is "updated", and no id is used up. Otherwise exactly one row with the four given fields is appended under a fresh id, and that id is returned. Attractions are untouched, and unique natural keys stay unique. |
| Server.Database.SetCountersById | backend/server.js:212-214 | The rows with the id get the two counters. Nothing else changes, and the table invariant (ascending ids below the counter) is kept. |
| Server.Database.InsertRow | backend/server.js:226-235 | One row is appended under the next AUTOINCREMENT id, which is returned and used up. The other table is unchanged. |
| Server.Database.UpdateById | backend/server.js:158-177 | All four fields of the row with that id are overwritten and every other row is unchanged. The reply is 404, with the table unchanged, exactly when no row has the id. |
| Server.Database.DeleteById | backend/server.js:179-193 | Exactly the row with that id is removed, and the others keep their order. The reply is 404, with the table unchanged, exactly when no row has the id. Unique natural keys stay unique. |
| Server.Database.AddAttraction | backend/server.js:99-107 | The name is inserted as given under the next id, which is returned with the name. A missing name fails on the NOT NULL column and inserts nothing. |
| Server.Database.ListAttractions | backend/server.js:90-97 | Every attraction appears exactly once (a permutation), ordered by name. |
| Server.Database.Dashboard | backend/server.js:110-156 | The output is sorted by date descending, then name ascending. It is a permutation of the join of the matching rows with the attractions. A row is listed exactly when it matches every active filter and its attraction exists. Each listed rate is the conversion rate of its own counters. |
| Server.Database.Summarize | backend/server.js:243-283 | `total_days` is the number of matching rows. The totals are the sums over the matching rows, with no join. The rate is the rate of the sums. |
| Server.ZooScenario | backend/server.js:99-156 | After adding attraction "Zoo" and a 2024-01-01 record of 100 codes and 25 sales, the unfiltered dashboard is exactly that record at 25.00%. A start date of 2024-01-02 gives an empty listing. |
| Server.ZooListing | backend/server.js:112-128 | On that one-row table the unfiltered join gives the single row at 25.00%, and a start date of 2024-01-02 gives nothing. |
| Server.ZooLaterHidden | backend/server.js:133-136 | On that table a start date of 2024-01-02 selects no row, as 2024-01-01 sorts before it. |
| Filters.BuildClauses | backend/server.js:131-146 | The appended clauses number as many as the active filters. A row passes all of them exactly when it matches the filter. The start date comes first and the attraction last. |
| Filters.AppendClause | backend/server.js:133-146 | Appending a clause conjoins it to the WHERE condition. |
| Filters.Matches | backend/server.js:131-146 | A row matches when it passes every active filter; with no active filter (absent or empty dates, absent, empty or `all` attraction) every row matches. |
| Filters.InvertedRangeMatchesNothing | backend/server.js:133-141 | A start date after the end date selects no row, since a matching date would lie between them. |
| Filters.AttractionNumeralSelects | backend/server.js:143-145 | The decimal text of an attraction id selects exactly that attraction's rows. |
| Queries.Where | backend/server.js:128-146 | Never more rows than the table, and each row kept is a table row that passes every clause. |
| Queries.WhereIsSelected | backend/server.js:131-146 | Clauses equivalent to the filter select the same rows. |
| Queries.Selected | backend/server.js:131-146 | The rows kept by the WHERE clauses: never more than the table, and every one of them matches the filter. |
| Queries.SelectedMembers | backend/server.js:131-146 | A row is selected iff it is in the table and matches the filter. |
| Queries.JoinOne | backend/server.js:126 | A daily row joins with at most as many rows as there are attractions, with none when no attraction has its id, and with at most one when attraction ids are ascending, as a primary key makes them. |
| Queries.InnerJoin | backend/server.js:112-128 | With ascending attraction ids, the join has at most as many rows as the selection. |
| Queries.Combine | backend/server.js:114-125 | A listed row carries the daily row's id, date, attraction id and counters, and the attraction's name. Its rate lies between 0% and 100% when sales do not exceed codes. |
| Queries.JoinOneMembers | backend/server.js:127 | A row's join results are exactly its combinations with the attractions carrying its `attraction_id`. |
| Queries.InnerJoinMembers | backend/server.js:126-127 | The join's members are exactly the combinations of a selected row with an attraction of its id. |
| Queries.InnerJoinIsListed | backend/server.js:126-146 | The join of the selection holds exactly the listed rows. |
| Queries.ListedIffAttractionExists | backend/server.js:127 | A table row appears in the listing iff it matches the filter and an attraction with its `attraction_id` exists. |
| Queries.DashboardLe | backend/server.js:148 | A row sorts before another only if its date is not earlier. On equal dates, the attraction name decides in ascending order. On different dates, the later date comes first. |
| Queries.DashboardOrder | backend/server.js:148 | `ORDER BY d.date DESC, a.name` is a total preorder. |
| Queries.DashboardTies | backend/server.js:148 | Rows compare equal only when they share date and attraction name. |
| Queries.NameOrder | backend/server.js:91 | `ORDER BY name` is a total preorder. |
| Queries.SumQrcodes | backend/server.js:249 | With no negative counts, the sum is non-negative and at least each row's count. |
| Queries.SumSales | backend/server.js:250 | With no negative counts, the sum is non-negative. It is at most the code sum when no row has more sales than codes. |
| Queries.SummaryOf | backend/server.js:246-256 | `total_days` is the number of selected rows. Both sums are NULL exactly when no row is selected, and otherwise the column sums. The rate is the conversion rate of the two sums, so 0 when the code sum is not positive. |
| Queries.SummaryCountsRows | backend/server.js:248 | `total_days` counts the matching rows, not distinct dates. |
| Queries.SelectedCount | backend/server.js:248 | The selection has as many rows as match the filter. |
| Queries.SummaryOfSumsNotMeanOfRates | backend/server.js:249-255 | Rows (10,5) and (0,0) give totals 10 and 5 and a rate of 50.00%, although the mean of the per-row rates is 25.00%. |
| Queries.SummaryOfNothing | backend/server.js:248-255 | No matching rows give count 0, NULL totals and rate 0. |
| Rates.RoundDiv | backend/server.js:123 | Rounding a quotient to the nearest integer: within half a unit, ties away from zero. |
| Rates.RoundDivUnique | backend/server.js:123 | That rounding has exactly one result. |
| Rates.HalfUp | backend/server.js:123 | On non-negative values, the rounding goes half up. |
| Rates.ConversionRate | backend/server.js:121-125 | The rate is 0 when no codes were delivered. Otherwise it is the nearest hundredth of a percent to `sales*100/qrcodes`. |
| Rates.ConversionRateBounds | backend/server.js:121-125 | When sales are at most the codes, the rate lies between 0% and 100%. No sales give 0%, and as many sales as codes give 100%. |
| Rates.ConversionRateExamples | backend/server.js:121-125 | Concrete rates: 25/100, 5/10, 1/3, 2/3 and 1/8 give 25.00%, 50.00%, 33.33%, 66.67% and 12.50%. Seven sales of 0 codes give 0. |
| Sorting.Insert | backend/server.js:148 | Inserting into a sorted sequence keeps it sorted and adds exactly the one element. |
| Sorting.SortBy | backend/server.js:148 | The result is sorted and is a permutation of the input. |
| Sorting.PermutationMembers | backend/server.js:148 | A permutation has the same length and the same members. |
| Tables.FindKey | backend/server.js:201-203 | The first row with the natural key, or none exactly when no row has it. |
| Tables.CountKey | backend/server.js:202 | The number of rows with the key, which is 0 iff none has it. |
| Tables.CountId | backend/server.js:170-171 | `this.changes` of a statement by id, which is 0 iff no row has the id. |
| Tables.Assigned | backend/server.js:163-213 | An UPDATE's SET keeps the id, and the counter-only SET keeps attraction and date. |
| Tables.UpdateWhereId | backend/server.js:162-164 | Every row with the id gets the assignment, and every other row stays. |
| Tables.DeleteWhereId | backend/server.js:182 | As many rows are removed as have the id, and no remaining row has it. |
| Tables.UpdateAtIndex | backend/server.js:162-164 | With unique ids, an update by the id at position `i` changes that row alone. |
| Tables.AbsentIdUnchanged | backend/server.js:170-188 | A statement whose id matches no row leaves the table unchanged. |
| Tables.DeleteMembers | backend/server.js:182 | After the delete, a row is present iff it was present and has another id. |
| Tables.DeleteKeepsIdsAscending | backend/server.js:182 | The delete keeps ids ascending. |
| Tables.DeleteKeepsKeysUnique | backend/server.js:182 | The delete keeps natural keys unique. |
| Tables.DeleteKeepsIdsAbove | backend/server.js:182 | A lower bound on all ids survives the delete. |
| Tables.DeleteKeepsKeyAbsent | backend/server.js:182 | A key that no row has is still absent after the delete. |
| Tables.IdsIdentifyRows | backend/server.js:182 | With ascending ids, two positions hold the same id exactly when they are the same position. |
| Tables.DeleteAtIndex | backend/server.js:182 | With unique ids, deleting the id at position `i` removes exactly that row. |
| Tables.UpsertRows | backend/server.js:201-237 | The upsert adds one row exactly when the key was absent. It keeps every existing row's id, attraction and date in place. |
| Tables.UpsertStoresCounters | backend/server.js:201-237 | Afterwards some row holds the key with the posted counters. |
| Tables.UpsertFoundRow | backend/server.js:201-237 | After the upsert, the lookup finds the key at the row that had it first, or else at the appended last row. |
| Tables.UpsertOutcomeOf | backend/server.js:201-237 | The reply is "updated" exactly when some row already had the key, and otherwise "inserted" under the next id. |
| Tables.UpsertExisting | backend/server.js:210-223 | An existing key: only that row's two counters change, and the outcome is "updated". |
| Tables.UpsertNew | backend/server.js:224-237 | An absent key: one row with the four fields is appended under the unused next id. |
| Tables.UpsertKeepsKeysUnique | backend/server.js:201-237 | Unique natural keys stay unique after an upsert. |
| Tables.UpsertKeyCount | backend/server.js:201-237 | The key's row count becomes 1 if it was 0, and is otherwise unchanged. The upsert never duplicates a key. |
| Tables.CountKeyAfterCounters | backend/server.js:212-214 | Overwriting counters leaves every key's count unchanged. |
| Tables.CountKeyAppend | backend/server.js:226-228 | An inserted row adds one to its own key's count. |
| Tables.UpsertKeepsIds | backend/server.js:224-237 | Ids stay ascending and below the next id. |
| Tables.FirstKeyAfterCounters | backend/server.js:201-214 | Overwriting counters keeps the same row first for its key. |
| Tables.UpsertTwice | backend/server.js:195-241 | The second post of a key reports "updated". The lookup finds the key at the same row after both posts: the row that first had it, or else the row the first post appended. With at most one row for the key before, exactly one remains, and it holds the second post's counters. |
| Tables.UpdateByIdCanDuplicateKeys | backend/server.js:162-164 | A concrete table where an update by id gives two rows the same `(attraction_id, date)`: this route does not re-check the key. |
| Auth.BearerToken | backend/server.js:58 | A missing or empty header gives no token. A token is found only in a header holding a space, and it holds no space itself. |
| Auth.Authenticate | backend/server.js:56-69 | 401 iff there is no non-empty second space-separated field. 403 iff there is one and verification fails. Otherwise the request proceeds with the decoded claims. |
| Auth.BearerField | backend/server.js:58 | The second space-separated field of `Bearer <t>` is `t`, for a non-empty `t` without spaces. |
| Auth.NoTokenIsUnauthenticated | backend/server.js:57-62 | No header, a header without a space, and `Bearer ` with nothing after it all give 401. |
| Auth.BearerHeaderToken | backend/server.js:57-67 | `Bearer <t>` hands exactly `t` to verification. |
| Auth.FindUser | backend/server.js:75 | The first user with the name, or none exactly when no user has it. |
| Auth.FindUserUnique | backend/server.js:75 | With unique usernames (the users table declares `username` UNIQUE), the holder of the name is the user found. |
| Auth.LoginFailsUniformly | backend/server.js:80-82 | An unknown user and a wrong password get the same 401 reply. |
| Auth.Login | backend/server.js:72-87 | A successful login names a stored user with that username whose password matched. The reply is that user's `{id, username}`, and the token signs exactly that. |
| Auth.LoginSucceedsIff | backend/server.js:75-85 | With unique usernames, login succeeds iff a stored user has the name and a matching password. |
| Auth.LoginTokenPassesGate | backend/server.js:56-85 | A login token sent back as `Bearer <token>` passes the gate with the login's claims. This assumes verification decodes what signing encoded. |
| Strings.LexLe | backend/server.js:134-139 | A prefix sorts before or equal to any extension of it. A non-empty text sorts first only if its first character is at most the other's. |
| Strings.LexLeFirstDifference | backend/server.js:134-139 | At the first position where two texts differ, the smaller character decides the comparison. |
| Strings.LexLeReflexive | backend/server.js:134-139 | Text comparison of dates is reflexive. |
| Strings.LexLeTotal | backend/server.js:134-139 | Text comparison of dates is total. |
| Strings.LexLeAntisymmetric | backend/server.js:134-139 | Text comparison of dates is antisymmetric. |
| Strings.LexLeTransitive | backend/server.js:134-139 | Text comparison of dates is transitive. |
| Strings.LexLtTrichotomy | backend/server.js:148 | Two dates are equal, or exactly one precedes the other. |
| Strings.LexLeCommonPrefix | backend/server.js:134 | A common prefix does not change how two dates compare. |
| Strings.Split | backend/server.js:58 | `split` gives separator-free fields that join back into the input. |
| Strings.SplitJoin | backend/server.js:58 | Splitting what was joined from separator-free fields gives back those fields. |
| Strings.SplitStep | backend/server.js:58 | A separator-free field followed by the separator is split off as the first part, and the rest is split as before. |
| Client.DateSplits | frontend/src/App.js:429 | Splitting `YYYY-MM-DD` at `-` gives the year, month and day. |
| Strings.SplitFirstField | frontend/src/App.js:429 | The text before the first separator is the first field. |
| Strings.SkipWhitespace | frontend/src/App.js:296 | The scan forward from `i` stops at the first non-whitespace character or the end, having passed only whitespace. |
| Strings.BackWhitespace | frontend/src/App.js:296 | The scan back from `j` stops after the last non-whitespace character at or above `i`, having passed only whitespace. |
| Strings.Trim | frontend/src/App.js:296-306 | `trim()` keeps a slice that neither starts nor ends with whitespace, and drops only whitespace around it. It is empty iff the input is all whitespace. |
| Strings.ParseDecimal | backend/server.js:143-145 | The INTEGER column's affinity gives text a value exactly when the text is a non-empty run of digits. |
| Strings.ParseToDecimal | backend/server.js:143-145 | The decimal text of a number reads back as that number. |
| Strings.TrimStart | frontend/src/App.js:269-273 | The leading whitespace `parseInt` skips: a suffix of the input, empty iff the input is all whitespace, otherwise starting with a character that is not whitespace. |
| Strings.ParseInt | frontend/src/App.js:269-273 | Blank text is NaN. A negative result needs a leading `-` after the whitespace. |
| Strings.ParseIntHex | frontend/src/App.js:269-273 | Without a radix, `0x` followed by hexadecimal digits reads them in base 16. |
| Strings.ParseIntOfDigits | frontend/src/App.js:269-273 | `parseInt` of a digit string is its value. |
| Client.FormatDate | frontend/src/App.js:424-431 | Defined exactly on the empty string and on strings starting with `YYYY-MM-DD`. Only the empty string gives `''`. |
| Client.FormatDateOf | frontend/src/App.js:424-431 | `YYYY-MM-DD`, bare or followed by `T...`, is shown as `DD/MM/YYYY`, and the empty input as `''`. For example `2024-01-05T00:00:00` becomes `05/01/2024`. |
| Client.QueryParams | frontend/src/App.js:212-215 | The parameters are appended in the order startDate, endDate, attractionId, and are only those. |
| Client.QueryParamsLookup | frontend/src/App.js:212-215 | Each date is sent iff it is filled in. The attraction is sent iff it is not `'all'`. |
| Client.BuildParams | frontend/src/App.js:212-215 | The step-by-step appends build exactly those parameters. |
| Client.LookupAppend | frontend/src/App.js:212-215 | A name is looked up in the earlier parameters first. |
| Client.Lookup | backend/server.js:111 | A name is absent exactly when no parameter has that name. A value found was sent under that name. |
| Client.ServerFilter | backend/server.js:111 | Each of the three filters the routes read is absent exactly when no parameter carries its name, and a present one was sent under its name. |
| Client.ParamsSelectAsForm | frontend/src/App.js:212-215 | The server keeps a record exactly when the filter bar selects it. This relates the client's parameters to the server's filters. |
| Client.InitialFiltersSelectAll | frontend/src/App.js:172-215 | The initial filter bar sends nothing and selects every record. |
| Client.ChosenAttractionSelects | frontend/src/App.js:215 | Choosing an attraction id selects exactly that attraction's records. |
| Client.RejectedAsWritten | frontend/src/App.js:256-257 | The truthiness check refuses everything the intended check refuses. On typed-in forms it refuses exactly the forms with an empty field. |
| Client.Rejected | frontend/src/App.js:357-358 | The intended check never refuses a form that sends a date and three numbers. |
| Client.ParseField | frontend/src/App.js:268-273 | A number copied from a record is sent as itself. An empty input is sent as `null`. |
| Client.RequestOf | frontend/src/App.js:368-374 | The date is sent as typed. Each number field left empty is sent as `null`. |
| Client.EditFromRow | frontend/src/App.js:345-352 | The edit form keeps the record's id. Sent untouched, it carries the record's attraction id, date and counters. |
| Client.EditRoundTrip | frontend/src/App.js:345-375 | Opening a record and saving it untouched sends back that record's id and values. The intended check accepts it whenever its date is non-empty. |
| Client.EditRejectedAsWritten | frontend/src/App.js:345-361 | As written, saving an untouched record is refused iff its date is empty or one of its numbers is 0. |
| Client.NumeralParses | frontend/src/App.js:269-273 | A typed numeral is sent as its value. |
| Client.AddFormNumerals | frontend/src/App.js:255-273 | The add form accepts typed numerals, `0` among them, and sends their values. |
| Client.ZeroSalesEdited | frontend/src/App.js:345-361 | A record with zero sales, opened and saved untouched, is refused as written and accepted by the intended check. |
| Client.AuthorizationHeader | frontend/src/App.js:195 | The server reads a non-empty, space-free token back out of `Bearer ${token}`. With no token it reads the text `null`. |
| Client.SessionTokenPassesGate | frontend/src/App.js:191-199 | The `Authorization` header the client sends passes the server's gate when its token verifies. |
| Client.Session.constructor | frontend/src/App.js:1179-1182 | The session starts from the stored token and user. |
| Client.Session.ShowsLogin | frontend/src/App.js:1196-1198 | The Login view is shown exactly when the token is falsy (missing or empty) or the user is missing. |
| Client.Session.LogIn | frontend/src/App.js:1184-1200 | Both token and user are set. The Login view stays up only when the token is empty. |
| Client.Session.LogOut | frontend/src/App.js:1189-1200 | Both token and user are cleared, and the Login view is shown. |
| Client.Session.ApiCall | frontend/src/App.js:201-206 | A 401 status logs out and yields null. Any other status yields the body and leaves the session as it was. |
| Client.DashboardView.constructor | frontend/src/App.js:169-189 | The initial form state, the empty add form and the initial filters. |
| Client.DashboardView.LoadDataParams | frontend/src/App.js:212-215 | The request's parameters are those of the current filter bar. |
| Client.DashboardView.HandleAddData | frontend/src/App.js:255-293 | A form with a falsy field gets the required message, and nothing is sent or changed. Otherwise the parsed form is sent. A non-401 reply shows its message, empties all four fields and closes the form. A 401 reply logs out: the session token and user are both cleared. A failure shows the add error. Loading ends false. |
| Client.DashboardView.HandleEditData | frontend/src/App.js:345-354 | The edit form holds the record's id, attraction id, date and counters, and opens. |
| Client.DashboardView.HandleUpdateData | frontend/src/App.js:356-389 | Under the intended check: a form with an empty field is refused. Otherwise the parsed form is sent for the record's id. A non-401 reply shows its message and closes the edit form. A 401 reply logs out: the session token and user are both cleared. A failure shows the update error. |
| Client.DashboardView.HandleAddAttraction | frontend/src/App.js:295-320 | A blank name (all whitespace) gets the required message, and nothing is sent. Otherwise the trimmed name is sent: non-empty, without surrounding whitespace. Any non-401 reply shows the success message and clears the input. A 401 reply logs out: the session token and user are both cleared. A failure shows the error. |

## Left out

- HTTP plumbing is not modelled:
  - Express routing, CORS, body parsing, `app.listen` and the `req`/`res` objects;
  - the gate's and login's JSON error bodies are represented only by their outcome.
- SQLite I/O is not modelled: the connection, the DDL, the admin seed and `created_at`. Database errors are left out too, with one exception: `Server.Database.AddAttraction` models the NOT NULL failure of a missing name (server.js:102-105), which inserts nothing. Every other statement of the model always succeeds, and every other HTTP 500 branch is left out.
- bcrypt and JWT are foreign calls. `bcrypt.compareSync`, `jwt.sign` and `jwt.verify` are function parameters of `Auth.Login` and `Auth.Authenticate`.
- The login route is a function over the user list; there is no users table in `Server.Database`, because no route changes that table.
- JSON bodies are modelled only well-formed. These are not modelled:
  - missing or ill-typed fields;
  - a `null` counter sent when `parseInt` yields `NaN` (modelled as `None`), which the server would store as NULL.
  The server's methods take the four values as integers.
- The attraction query parameter equals a row's `attraction_id` only as a plain decimal numeral. SQLite's other numeric spellings (`+1`, ` 1`, `1.0`) are not modelled, and neither is URL encoding of the query string.
- Dates and date bounds are modelled as text. The `date DATE NOT NULL` column (server.js:40) has NUMERIC affinity. So a numeral-like value is stored, or compared, as a number, and every number sorts below every text. That covers a posted date such as `20240101` and a bound such as `endDate=2025` (server.js:133-141, 263-269). Such numbers are not modelled. For `endDate=2025`, SQLite would return no `YYYY-MM-DD` row, while `Filters.Matches` keeps them. The filter bar's date inputs and the add form send only `YYYY-MM-DD`.
- Rates are exact rationals rounded to hundredths. The floating-point rounding of `ROUND(x * 100.0 / y, 2)` is not modelled.
- Server.Database.Dashboard: the order among rows with the same date and name is unspecified, as in SQLite. The contract states sortedness and a permutation, not one particular tie order.
- Server.Database.UpdateById and Server.Database.DeleteById take the path's `:id` as an integer. The route receives it as text. SQLite's INTEGER affinity turns a decimal numeral into its value. Any other text matches no row and gives 404, the same as an integer id no row has; the text form itself is not modelled.
- Strings.ParseInt reads exact integers. JavaScript's `parseInt` returns a double, so numerals beyond 2^53 lose precision there; this is not modelled.
- The check-then-insert race between concurrent upserts is not modelled; the model is sequential.
- Attraction deletion is not modelled. The route `handleDeleteAttraction` calls has no handler on the server, and no route removes attractions.
- These client actions are not modelled:
  - `handleDeleteData` (it would confirm, then call the delete route, which `Server.Database.DeleteById` models);
  - the `Login` component's own submit handler (App.js:11-38).
- `window.confirm`, `setTimeout` message clearing, `localStorage` writes and removals, `fetch` are not modelled. Neither are the `loadData`/`loadAttractions` refreshes after a successful save, with their `Promise.all` and the `data`/`summary` state they set.
- Client.FormatDate: the `new Date(...)` fallback for strings that do not start with `YYYY-MM-DD` is left out; the function returns `None` there.
- All rendering, CSS and `console.log` debugging are left out.
- Client.DashboardView.HandleAddData: an absent `message` in a reply body (`setMessage(undefined)`) is modelled as `''`, which the view displays the same way.
- Client.DashboardView.HandleUpdateData uses the intended check (`Client.Rejected`), not the check as written. See Findings.

## Findings

| source | as written | input that shows it | evidently intended | confidence | as-written member | corrected member |
|---|---|---|---|---|---|---|
| frontend/src/App.js:345-361 | `handleEditData` copies `qrcodes_delivered` and `sales_made` into the edit form as numbers. `handleUpdateData` then refuses any falsy field, and the number `0` is falsy. An unedited record with zero sales or zero codes cannot be saved: it gets 'Todos os campos são obrigatórios'. The same values typed into the add form are the non-empty text `"0"` and are accepted. | the row `(id 1, attraction 1, 2024-01-01, 100 codes, 0 sales)`, opened with Edit and saved untouched | refuse only fields left empty, so that a record that could be added can also be saved from the edit form | high (not executed) | Client.ZeroSalesEdited | Client.EditRoundTrip |
