# Employee-data query tool: SQL filter and result envelope

This project models the core of the employee-data tool server in `railway_host.py`. The server offers a single tool, `query_employee_data`. A language-model agent sends it SQL text. The handler `call_tool` trims the text and upper-cases it. It rejects the text unless it starts with `SELECT`. It then rejects the text if any of `INSERT`, `UPDATE`, `DELETE`, `DROP`, `CREATE`, `ALTER` or `TRUNCATE` appears anywhere in it. Otherwise it runs the trimmed text through `execute_query` and answers with a JSON envelope, stamped with `executed_query`.

Modules:

- `PyText` (`text.dfy`) models the Python `str` operations the filter uses, restricted to ASCII:
  - `strip()` is `Strip`, built from `TrimStart` and `TrimEnd`. These cut at `LeadingSpace` and `TextEnd`.
  - `upper()` is `Upper`.
  - `k in s` is `Contains`, proved equal to "there is an index where `k` occurs" (`OccursAt`).
- `QueryFilter` (`query_filter.dfy`) holds the two rules:
  - `Validate` decides on the trimmed text.
  - Its contract states each verdict as an if-and-only-if over `StartsWith` and the occurrence-based `MentionsForbidden`.
  - It also has lemmas for rule order, false positives, case-insensitivity and blank input.
  - Acceptance of a concrete query is shown through seven letter pairs, one from each keyword (`NoForbiddenWithoutPairs`): text free of the pairs mentions no keyword.
- `RailwayHost` (`railway_host.dfy`) holds the envelope (`Envelope`, one `Option` per JSON key, so an absent key is `None`), `execute_query`'s envelope (`ExecuteQuery`) and the dispatcher (`CallTool`).

The database is a function parameter `run: string -> DbOutcome`. It maps the statement text to all fetched rows or to the driver's error text. "A rejected query never reaches the database" is then stated as: the answer does not depend on `run`. "An accepted query is run as its trimmed text" is stated as: the answer depends on `run` only at `Strip(raw)`.

Assumptions:

- Text is ASCII. `upper()` maps `a`-`z` to `A`-`Z` and leaves every other character alone.
- `strip()` removes the characters Python's `str.isspace` accepts in ASCII. These are tab, LF, VT, FF, CR, the separators 0x1C-0x1F and the space.
- Python's `str.strip` on non-ASCII whitespace and `str.upper` on non-ASCII letters are not modelled.

Behaviour of the handler worth noting:

- `executed_query` is stamped only on the accepted path (`railway_host.py:180`). Rejections carry only `success` and `error`.
- The handler does not always return an envelope. Without an `sql` argument, `arguments["sql"]` raises `KeyError`. A non-string `sql` raises `AttributeError` on `.strip()`. Both are modelled as `Raised`.
- Empty or blank input is not excluded. It is trimmed to the empty text and rejected by Rule 1.

## Model

| member | source | states |
|---|---|---|
| PyText.IsSpace | railway_host.py:146 | a character is whitespace exactly when it is one of tab, LF, VT, FF, CR, the separators 0x1C-0x1F or the space, as Python's `str.isspace` holds on ASCII |
| PyText.UpperChar | railway_host.py:150 | the result is never a lower-case letter; a lower-case letter becomes the capital 32 code points below, anything else is kept |
| PyText.Upper | railway_host.py:150 | `upper()` keeps the length, leaves no lower-case letter, turns each lower-case letter into its capital and keeps every other character |
| PyText.UpperIdempotent | railway_host.py:150 | `upper()` leaves no lower-case letter, so applying it twice is applying it once |
| PyText.LeadingSpace | railway_host.py:146 | the count of characters `lstrip()` drops: all of them whitespace, and the next character (if any) is not |
| PyText.TextEnd | railway_host.py:146 | the length `rstrip()` keeps: everything after it is whitespace, and the last kept character (if any) is not |
| PyText.TrimStart | railway_host.py:146 | `lstrip()` is no longer than its input and does not start with whitespace |
| PyText.TrimStartSpec | railway_host.py:146 | `lstrip()` keeps a suffix of its input and drops only whitespace before it |
| PyText.TrimEnd | railway_host.py:146 | `rstrip()` is no longer than its input and does not end with whitespace |
| PyText.TrimEndSpec | railway_host.py:146 | `rstrip()` keeps a prefix of its input and drops only whitespace after it |
| PyText.Strip | railway_host.py:146 | `strip()` is no longer than its input and neither starts nor ends with whitespace |
| PyText.StripSpec | railway_host.py:146 | `strip()` returns the block after the leading whitespace with whitespace-only margins on both sides, neither end of the result is whitespace, and the result is empty exactly for all-whitespace input |
| PyText.StripIdempotent | railway_host.py:146 | stripping twice is stripping once |
| PyText.StripPadded | railway_host.py:146 | whitespace added on either side is removed again by `strip()` |
| PyText.StripKeepsHead | railway_host.py:146 | text that starts and ends with non-whitespace survives `strip()` whole, whatever follows it |
| PyText.StripIgnoresCase | railway_host.py:146-150 | inputs equal after `upper()` stay equal after `upper()` once stripped: case never changes what `strip()` removes |
| PyText.Contains | railway_host.py:165 | `k in s` holds exactly when `k` occurs at some index of `s` (the empty keyword occurs everywhere) |
| QueryFilter.AnyContained | railway_host.py:164-165 | the `any(...)` scan is true exactly when some keyword of the list occurs at some index |
| QueryFilter.StartsWith | railway_host.py:153 | `u.startswith(p)` holds exactly when `p` is no longer than `u` and agrees with `u` position by position |
| QueryFilter.Validate | railway_host.py:150-175 | "Only SELECT queries are allowed" iff the upper-cased text does not start with SELECT; "Query contains forbidden operations" iff it does and a forbidden keyword occurs anywhere; accept iff it starts with SELECT and no keyword occurs |
| QueryFilter.ForbiddenAnywhere | railway_host.py:164-173 | a keyword at any position after a leading SELECT rejects with the forbidden-operations message |
| QueryFilter.KeywordAfterSelect | railway_host.py:146-173 | raw text made of `select` in any case, any text, a keyword in any case and any text after it (a keyword at the very end included) is rejected as forbidden |
| QueryFilter.BlankRejected | railway_host.py:146-161 | empty or all-whitespace input is rejected with the SELECT message |
| QueryFilter.VerdictIgnoresCase | railway_host.py:146-165 | two inputs that differ only in ASCII letter case get the same verdict |
| QueryFilter.NoForbiddenWithoutDOrR | railway_host.py:164-165 | every forbidden keyword contains D or R, so upper-cased text without either letter passes Rule 2 |
| QueryFilter.KeywordFirstIsNotSelect | railway_host.py:153-173 | text that starts with any forbidden keyword (any case) mentions it, yet is rejected by Rule 1 with the SELECT message: Rule 1 is decided first |
| QueryFilter.DropTableIsNotSelect | railway_host.py:153-173 | `DROP TABLE employee` mentions DROP but is rejected with the SELECT message |
| QueryFilter.StackedDropRejected | railway_host.py:164-173 | `SELECT * FROM employee; DROP TABLE employee;` passes Rule 1 and is rejected as forbidden |
| QueryFilter.QuotedKeywordRejected | railway_host.py:164-173 | false positive: `SELECT 'drop' AS x` is rejected as forbidden, the quoted keyword being upper-cased with the rest |
| QueryFilter.ColumnNameRejected | railway_host.py:164-173 | false positive: `select updated_at from public.employee` is rejected as forbidden, through lower-case `update` |
| QueryFilter.NoForbiddenWithoutPairs | railway_host.py:164-165 | upper-cased text without any of the pairs `NS`, `UP`, `ET`, `DR`, `CR`, `AL`, `TR` (one from each keyword) passes Rule 2 |
| QueryFilter.PairFreeFromSound | railway_host.py:164-165 | the left-to-right pair scan from an index succeeds exactly when no pair starts at or after that index |
| QueryFilter.EngineersAccepted | railway_host.py:112 | the tool description's example `SELECT * FROM public.employee WHERE department = 'Engineering' LIMIT 100`, which holds D and R, passes both rules |
| QueryFilter.CountAccepted | railway_host.py:150-175 | a lower-case `select count(*)` is accepted |
| RailwayHost.ExecuteQuery | railway_host.py:62-75 | success carries `data` = the fetched rows and `row_count` = their number and no `error`; failure carries `success = false` and the exception text only |
| RailwayHost.Rejection | railway_host.py:155-173 | a rejection carries `success = false` and the reason, and no `data`, `row_count` or `executed_query` |
| RailwayHost.CallTool | railway_host.py:139-193 | raises exactly for the query tool with a missing or non-string `sql`; query-tool answers have the result shape; `executed_query` appears only for an accepted query and is its trimmed text |
| RailwayHost.UnknownTool | railway_host.py:189-193 | any other tool name gets the bare `{error: "Unknown tool: <name>"}` whatever the arguments and the database |
| RailwayHost.MalformedArguments | railway_host.py:146 | no `sql` key raises `KeyError('sql')`; a non-string `sql` raises `AttributeError` |
| RailwayHost.RejectedNeverExecuted | railway_host.py:153-173 | a rejected query gets the same answer under every database, `{success: false, error: reason}` with no `executed_query` |
| RailwayHost.AcceptedRunsTrimmedText | railway_host.py:146-180 | for an accepted query the answer depends on the database only through the trimmed text |
| RailwayHost.EnvelopeInvariant | railway_host.py:146-187 | every answer to a string `sql` has the result shape; `executed_query` is present iff the query was accepted and then equals the trimmed text; success implies acceptance and rows from the database |
| RailwayHost.ZeroRows | railway_host.py:62-66 | an accepted query with no rows answers `success = true`, `data = []`, `row_count = 0` and the trimmed text |
| RailwayHost.DatabaseFailure | railway_host.py:67-75 | a driver error on an accepted query answers `success = false` with the error text, stamped with the trimmed text |
| RailwayHost.AcceptedAnswer | railway_host.py:176-180 | an accepted query with rows answers those rows, their number and the trimmed text |
| RailwayHost.PaddingIgnored | railway_host.py:146 | whitespace around the `sql` argument changes nothing in the answer |
| RailwayHost.DecisionIgnoresCase | railway_host.py:146-173 | changing letter case never flips accept and reject, and leaves a rejection unchanged |
| RailwayHost.PaddedQueryAnswered | railway_host.py:146-187 | `select count(*)` padded with whitespace is accepted, run as `select count(*)` and answered with its rows and that text |

## Left out

- The psycopg2 connection is not modelled: connect, cursor, `execute`, `fetchall`, and the `finally` that closes the connection (railway_host.py:51-59, 76-79). These are a foreign driver and I/O. Only their outcome (rows or error text) enters the model, as `run`.
- Reading `DATABASE_URL` at import time is process configuration (railway_host.py:13).
- Logging and the startup banner are a side channel with no effect on answers (railway_host.py:15-35, the logging calls throughout).
- The FastAPI `/mcp` route, the `HttpServer` wrapper and the stdio `main` loop are transport plumbing over external frameworks (railway_host.py:37-44, 195-212).
- `list_tools` and its description and input schema are static metadata (railway_host.py:81-136).
- JSON serialisation (`json.dumps(..., default=str)`) and the `TextContent` wrapping are library formatting. The envelope is a datatype, and a column value (`Value`) is kept as the driver returns it, not as its JSON text.
- `dict(row)` is identity on the row's content: a `Row` is already the column-name-to-value list the cursor returns. A `Row` could list a column name twice, which the driver's dictionary cannot (it keeps the last value); no contract depends on column names.
- Column values are not converted: `Value` has forms for null, integers, text and numerics, and `Other` carries any other type by its text.
- Python's Unicode behaviour of `str.upper` and `str.strip` outside ASCII is not modelled (see the assumptions above).
- Running the same query twice against an unchanged table gives the same answer because `run` is a function. The model does not represent a table that changes between calls.
