# Stock loader and blog API, modelled in Dafny

This project models two parts of one repository.

**The stock loader** (`stock_insert.py`) reads a directory of exchange feed documents and
writes each one into ten PostgreSQL tables keyed by `symbol`. For every `.json` file it:

- binds twelve sub-trees of the document;
- builds the parameters of one INSERT per table, or of one INSERT per element for the
  four list tables;
- commits after each table;
- on any exception, rolls back what is not yet committed, reports the file and moves on.

The model keeps the ten tables as one map from `(table, symbol)` to the row's other
columns. Four tables are written as upserts: equity_info, equity_price_info,
equity_industry_info and trade_info. The other six are written insert-if-absent. The
psycopg2 connection is a class with a committed state and an open-transaction state. Each
file's stages run against it through methods proved equal to a functional specification
(`Loader.RunFrom`, `Loader.LoadAll`). The properties of the loader are proved about that
specification.

**The blog API** (`blog-api`) is an Express service over three Prisma tables: users,
posts and comments. The model keeps these as maps inside a `Store` class. The handlers are
methods (when they write) or functions (when they only read) that return a status code and
a body. The authentication middleware is `Store.Authenticate`; it either hands a user on or
sends a 401. bcrypt, the JWT utilities and express-validator's `isEmail` are uninterpreted
functions fixed when the store is created. Where a Prisma call raises, the handler gets a
`Fault` parameter that says at which call.

Modules:

| module | models |
|---|---|
| `Results` | Option, Result and a map that stops at the first failure |
| `Json` | the Python values `json.load` gives, with subscripting and iteration |
| `Text` | `str.strip` and `str.replace(p, '')` |
| `Coerce` | `safe_date`, `safe_string`, `safe_numeric`, `float` and the inline `'NA'` tests |
| `Tables` | the schema, the two conflict policies and the server's key checks |
| `Shareholding` | the four-field pivot of the shareholding patterns |
| `Extract` | the sections of a document and every INSERT's parameters |
| `Database` | the connection: execute, commit, rollback |
| `Loader` | the per-file stages, the failure policy and the directory loop |
| `Blog` | the API's records, replies, validation rules and foreign libraries |
| `JsString` | `startsWith`, `split(' ')[1]` and `parseInt` as JavaScript defines them |
| `BlogStore` | the middleware and the handlers of the three controllers |

Where the two disagree, this model follows the code rather than the design description:

- trade_info is written as an upsert.
- Commits are per table, so a file that fails halfway keeps the tables already committed
  for it. The design description calls a file's load atomic; the code does not make it so.
- Many columns take the feed's placeholders `'-'` and `'NA'` raw. Only the columns that
  go through a helper or an inline test are converted.

## Model

| member | source | states |
|---|---|---|
| `Coerce.SafeString` | stock_insert.py:380-382 | None exactly for `'-'`, `'NA'` or None; otherwise the value itself |
| `Coerce.SafeDate` | stock_insert.py:376-378 | None exactly for a placeholder; otherwise succeeds exactly on strings (AttributeError else), with every `' EOD'` the scan finds deleted, never longer than the input |
| `Coerce.SafeDateExample` | stock_insert.py:376-378 | `'15-MAR-2023 EOD'` becomes `'15-MAR-2023'` and `'NA'` becomes None |
| `Coerce.SafeDatePlain` | stock_insert.py:376-378 | a date with no `' EOD'` passes through unchanged |
| `Coerce.SafeDateRepeated` | stock_insert.py:376-378 | two `' EOD'` in a row after a space-free date are both deleted |
| `Coerce.SafeDateInside` | stock_insert.py:376-378 | an `' EOD'` inside the string is deleted and the text on both sides is joined |
| `Coerce.SafeDateSinglePass` | stock_insert.py:376-378 | the text a deletion joins is not scanned again: `' E EODOD'` becomes `' EOD'` |
| `Text.RemoveAll` | stock_insert.py:378 | `replace(p, '')` never lengthens the string |
| `Text.RemoveAllLeftmost` | stock_insert.py:378 | `replace(p, '')` keeps what comes before the leftmost occurrence of `p`, drops that occurrence and goes on with the rest |
| `Text.Without` | stock_insert.py:431 | deleting a character leaves none of it and keeps the count of every other character |
| `Text.RemoveAllChar` | stock_insert.py:431 | `replace('%', '')` deletes exactly the percent signs |
| `Text.RemoveAllTrailing` | stock_insert.py:378 | a trailing `' EOD'` on a space-free date is removed and nothing else changes |
| `Text.Strip` | stock_insert.py:430-431 | `strip` never lengthens the string |
| `Text.StripEnds` | stock_insert.py:430-431 | the stripped string has no whitespace at either end |
| `Text.StripSlice` | stock_insert.py:430-431 | strip removes only surrounding whitespace: the result is the input minus a whitespace prefix and suffix |
| `Coerce.Float` | stock_insert.py:386 | `float` succeeds exactly on numbers, booleans and parsable strings; it returns a number unchanged, taking every JSON number to be a float already, and returns a string's parsed value |
| `Coerce.SafeNumeric` | stock_insert.py:384-386 | None exactly for a placeholder; otherwise `float` of the value, failing when `float` fails |
| `Coerce.NaToNull` | stock_insert.py:240-246 | None exactly for `'NA'` (or an absent None); every other value unchanged |
| `Coerce.NaOrFloat` | stock_insert.py:243-244 | None exactly for `'NA'`; otherwise `float` of the value |
| `Coerce.NaToNullVersusSafeString` | stock_insert.py:240-246 | the inline test agrees with `safe_string` on every value except `'-'` |
| `Coerce.NaOrFloatVersusSafeNumeric` | stock_insert.py:243-244 | the inline numeric test differs from `safe_numeric` exactly on `'-'` and None, and raises TypeError on None |
| `Json.LookupSpec` | stock_insert.py:187-203 | a dict lookup finds nothing exactly when no entry has the key, and otherwise returns an entry's value |
| `Json.GetSpec` | stock_insert.py:187-203 | `v[key]` succeeds exactly on a dict holding the key and returns that entry's value; a dict without it raises KeyError, anything else TypeError |
| `Json.Iterate` | stock_insert.py:408 | a `for` loop visits a list's items, a dict's keys or a string's characters, and raises on anything else |
| `Extract.ExtractSectionsSpec` | stock_insert.py:187-203 | binding succeeds exactly when all twelve paths (including `borad_meeting`) are present, and binds the value at each |
| `Extract.SymbolIsInfoSymbol` | stock_insert.py:203 | the file's symbol is the info section's `symbol` |
| `Tables.Columns` | stock_insert.py:22-169 | each table has the schema's number of columns after `symbol` |
| `Extract.RowOfColumns` | stock_insert.py:22-169 | a row of a table binds one parameter per column the table is created with |
| `Tables.Apply` | stock_insert.py:213-217 | an upsert sets the row to the new values; insert-if-absent leaves an existing row alone or adds the new row; no other row changes |
| `Extract.PlainRow` | stock_insert.py:207-226 | a row of plain columns is built exactly when the symbol and every column's path are present, and holds each path's value in column order |
| `Extract.PrefixedRow` | stock_insert.py:321-372 | the same row behind two leading cells, failing when either of them fails |
| `Extract.InfoRow` | stock_insert.py:207-226 | equity_info gets the info symbol and the feed's values, exactly when all are present, with `slb_isin` equal to `isin` |
| `Extract.MetadataRow` | stock_insert.py:230-248 | equity_metadata's symbol is the metadata section's own `symbol`, and each column is converted as its cast says |
| `Extract.MetadataConversions` | stock_insert.py:240-246 | the two dates and `pdSectorInd` go through the `'NA'` test, and the two P/E ratios through `float` unless `'NA'` |
| `Extract.PriceRow` | stock_insert.py:252-297 | equity_price_info holds the 23 price values as the feed gives them, exactly when all are present |
| `Extract.IndustryRow` | stock_insert.py:301-317 | equity_industry_info holds the four classification values as they are |
| `Extract.DealNames` | stock_insert.py:353 | the names of `bulkBlockDeals` in input order, failing if any deal has no `name` |
| `Extract.TradeRow` | stock_insert.py:321-372 | trade_info holds `noBlockDeals`, the deal-name array, then the 17 order-book values |
| `Extract.SecurityWiseDpRow` | stock_insert.py:388-404 | security_wise_dp runs each column through its `safe_*` helper |
| `Extract.SecurityWiseDpNulls` | stock_insert.py:388-404 | every delivery-position column is NULL exactly where the feed has a placeholder |
| `Extract.CorporateActionRow` | stock_insert.py:408-418 | a corporate action's own symbol, `exdate` and `purpose` |
| `Extract.ShareholdingRow` | stock_insert.py:441-451 | one row per date: the file's symbol, the date, and each category's pivoted value in its column |
| `Extract.FinancialResultRow` | stock_insert.py:455-471 | the file's symbol and the 13 result values as they are |
| `Extract.BoardMeetingRow` | stock_insert.py:475-485 | a meeting's own symbol, `purpose` and `meetingdate` |
| `Extract.EachRowSpec` | stock_insert.py:408-418 | a loop stage raises when its loop cannot start, or exactly when some element's row cannot be built; otherwise it holds one row per element, built from that element, in order |
| `Extract.CorporateActionRows` | stock_insert.py:408-418 | every statement of the stage writes corporate_actions |
| `Extract.CorporateActionRowsOfFeed` | stock_insert.py:408-418 | the stage gets through exactly when every corporate action gives a row, and then holds those rows in the feed's order |
| `Extract.ShareholdingRows` | stock_insert.py:422-452 | every statement of the stage writes shareholdings_patterns |
| `Extract.ShareholdingRowsOfFeed` | stock_insert.py:422-452 | the stage gets through exactly when the section is a dict and every date gives a row, and then holds those rows in the feed's order |
| `Extract.FinancialResultRows` | stock_insert.py:455-472 | every statement of the stage writes financial_results |
| `Extract.FinancialResultRowsOfFeed` | stock_insert.py:455-472 | the stage gets through exactly when every financial result gives a row, and then holds those rows in the feed's order |
| `Extract.BoardMeetingRows` | stock_insert.py:475-486 | every statement of the stage writes board_meeting |
| `Extract.BoardMeetingRowsOfFeed` | stock_insert.py:475-486 | the stage gets through exactly when every board meeting gives a row, and then holds those rows in the feed's order |
| `Extract.Plan` | stock_insert.py:207-486 | a file is ten stages: the six single INSERTs from equity_info to security_wise_dp, then the four loops |
| `Extract.PlanStages` | stock_insert.py:207-486 | stage `i` writes only the `i`-th table of the loader's order, and each of the first six stages runs one INSERT |
| `Shareholding.Classify` | stock_insert.py:430-440 | only the four exact category names set a field; every other key leaves all four unchanged |
| `Shareholding.CleanPercentageDropsSign` | stock_insert.py:431 | the cleaned value has no `%`, and it is the stripped value with every `%` deleted |
| `Shareholding.CleanExample` | stock_insert.py:431 | `'d %'` cleans to `'d '`: the space before the sign stays |
| `Shareholding.Pivot` | stock_insert.py:422-440 | the loops over patterns and entries compute the pivot function, including its errors |
| `Shareholding.PivotLastWins` | stock_insert.py:423-440 | each field starts as None, stays None when no entry names its category, and otherwise holds the cleaned value of the last entry that does |
| `Shareholding.OtherKeysIgnored` | stock_insert.py:430-440 | entries with no category name leave the four fields as they were |
| `Shareholding.PivotExample` | stock_insert.py:422-440 | a sample date with the three common categories |
| `Tables.ApplyAllConcat` | stock_insert.py:207-486 | running two statement lists in turn is running their concatenation |
| `Tables.ApplyAllFrame` | stock_insert.py:207-486 | statements never delete a row, every written key is present afterwards, and keys nobody writes are untouched |
| `Tables.ApplyAllKeepsInsertIfAbsentRows` | stock_insert.py:237 | an existing row of an insert-if-absent table survives any statements unchanged |
| `Tables.FirstInsertWins` | stock_insert.py:124-166 | under UNIQUE(symbol) the first insert-if-absent row for a new symbol is the one kept |
| `Loader.LoopStageFirstWins` | stock_insert.py:408-486 | in a loop stage that commits, the first element whose row has a new symbol in an insert-if-absent table is the row kept |
| `Tables.LastUpsertWins` | stock_insert.py:213-217 | for an upsert table the last row written for a symbol is the one kept |
| `Tables.HoldsLastUpsertsAfterRun` | stock_insert.py:260-283 | after a run every upsert table holds each symbol's last written row |
| `Tables.ApplyAllAccepted` | stock_insert.py:207-486 | a run that gets through had every statement accepted by the server |
| `Tables.RerunSettles` | stock_insert.py:207-486 | the same statements, re-run over a state with the same keys that differs only in upsert rows they rewrite, reach the same state |
| `Tables.ApplyAllIdempotent` | stock_insert.py:207-486 | re-running a stage's statements on its own result changes nothing |
| `Tables.ApplyAllIntegrity` | stock_insert.py:23-34 | statements the server admits keep the primary-key and foreign-key constraints |
| `Database.Connection.constructor` | stock_insert.py:5-12 | a fresh connection whose committed and open states are the given database |
| `Database.Connection.Execute` | stock_insert.py:208-226 | a statement the server admits changes the open transaction by `Apply`; a refused one changes nothing; commits are untouched |
| `Database.Connection.Commit` | stock_insert.py:227 | the open transaction's state becomes durable |
| `Database.Connection.Rollback` | stock_insert.py:490 | the open transaction's state is discarded |
| `Loader.InsertOne` | stock_insert.py:207-226 | the single INSERT of a stage either gets through, leaving the stage's result, or reports failure |
| `Loader.InsertEach` | stock_insert.py:408-418 | the loop over elements stops at the first one that raises and otherwise leaves the whole stage's result |
| `Loader.InsertShareholdings` | stock_insert.py:422-451 | the date loop, with the pivot inside it, leaves the shareholding stage's result |
| `Loader.StageEnd` | stock_insert.py:227-491 | a stage that got through is committed and the file moves on; one that raised is rolled back and ends the file |
| `Loader.SingleStage` | stock_insert.py:207-227 | a single-statement stage followed by its commit or rollback |
| `Loader.EachStage` | stock_insert.py:408-419 | a loop stage followed by its commit or rollback |
| `Loader.ShareholdingStage` | stock_insert.py:422-452 | the shareholding loop followed by its commit or rollback |
| `Loader.LoadEquityDetails` | stock_insert.py:207-405 | stages 0 to 5 behave as the file's specification says |
| `Loader.LoadCorporateInfo` | stock_insert.py:408-486 | stages 6 to 9 behave as the file's specification says |
| `Loader.LoadFile` | stock_insert.py:180-491 | a file's stages leave committed exactly what the per-file specification says, and report whether the file loaded |
| `Loader.RunFromOutcome` | stock_insert.py:227-491 | from any stage on, the file stops at some stage `k`; it leaves the work of stages before `k`, and stage `k` raised unless the file loaded |
| `Loader.FileOutcome` | stock_insert.py:227-491 | a failing file keeps exactly the stages committed before the first one that raised; it loads exactly when no stage raises |
| `Loader.UnreadableFileWritesNothing` | stock_insert.py:183-203 | an unreadable file, or one missing a section, changes nothing |
| `Loader.RunStageKeeps` | stock_insert.py:207-486 | a committed stage removes no row, changes no insert-if-absent row and keeps the key constraints |
| `Loader.RunFromKeeps` | stock_insert.py:207-491 | the same holds for the stages of a file, up to where it stops |
| `Loader.ProcessFileKeeps` | stock_insert.py:180-491 | the same holds for any file, loaded or not |
| `Loader.JsonEntries` | stock_insert.py:178 | exactly the entries whose name ends in `.json` are kept: each kept entry is from the directory, and every such entry of the directory is kept |
| `Loader.JsonEntriesConcat` | stock_insert.py:177-178 | the filter keeps the directory's order: filtering two listings in turn is filtering their concatenation |
| `Loader.SkipsOtherFiles` | stock_insert.py:177-178 | files whose name does not end in `.json` have no effect on the run |
| `Loader.LoadAllKeeps` | stock_insert.py:177-491 | a directory run keeps rows and constraints, and reports only `.json` files of the directory |
| `Loader.LoadDirectory` | stock_insert.py:177-491 | the directory loop leaves committed what the run specification says and returns the failed files in order |
| `Blog.RegisterErrors` | blog-api/src/routes/authRoutes.js:7-15 | no errors exactly when name, email and password pass; each check's message appears exactly when that check fails |
| `Blog.LoginErrors` | blog-api/src/routes/authRoutes.js:17-24 | no errors exactly when the email is valid and a password is present, with one message per failed check |
| `Blog.Patch` | blog-api/src/controllers/blogController.js:93-100 | only `title`, `content` and `published` change, each to the new value when given; the id and author stay |
| `Blog.PatchComment` | blog-api/src/controllers/commentController.js:61-66 | only `text` changes, to the new value when given |
| `JsString.Split` | blog-api/src/middleware/authMiddleware.js:13 | `split` always gives at least one segment |
| `JsString.SplitJoin` | blog-api/src/middleware/authMiddleware.js:13 | no segment holds the separator, and joining the segments gives back the string |
| `JsString.JoinSplit` | blog-api/src/middleware/authMiddleware.js:13 | splitting separator-free parts joined together gives back the parts |
| `JsString.BearerToken` | blog-api/src/middleware/authMiddleware.js:13 | the token is the space-free text after `'Bearer '`, up to the next space or the end |
| `JsString.BearerTokenOf` | blog-api/src/middleware/authMiddleware.js:13 | `'Bearer ' + t` yields `t` for a space-free `t` |
| `JsString.Decimal` | blog-api/src/controllers/blogController.js:29 | a natural's decimal form is non-empty, digits only, with no leading zero |
| `JsString.ValueDecimal` | blog-api/src/controllers/blogController.js:29 | reading a decimal form gives back the number |
| `JsString.ParseIntShow` | blog-api/src/controllers/blogController.js:29 | `parseInt` of an integer's decimal form, followed by anything that is not a digit (nor `x` after a zero), gives back the integer |
| `JsString.ParseIntSkipsSpace` | blog-api/src/controllers/blogController.js:29 | `parseInt` ignores leading whitespace |
| `JsString.IdOf` | blog-api/src/controllers/blogController.js:29 | an id is usable exactly when `parseInt` gives a 32-bit integer, and it is that integer |
| `BlogStore.Store.constructor` | blog-api/src/controllers/authController.js:6 | the database the client connects to starts empty: no users, posts or comments, with every autoincrement counter at 1 |
| `BlogStore.Store.Authenticate` | blog-api/src/middleware/authMiddleware.js:6-37 | without a `'Bearer '` header, 401 "Authentication required: No token provided". The user is handed on exactly when the token verifies to a 32-bit id of an existing user and the lookup does not raise. A falsy verification gives 401 "Invalid token"; a verification that raises, a failing lookup or an id beyond 32 bits gives 401 "Authentication failed"; an unknown id gives 401 "User not found" |
| `BlogStore.AuthenticatesSignedToken` | blog-api/src/middleware/authMiddleware.js:9-29 | a `'Bearer '` header whose token verifies to the 32-bit id of an existing user hands on that user |
| `BlogStore.Store.Register` | blog-api/src/controllers/authController.js:11-49 | 400 with the validation errors; 500 when a lookup or the insert raises; 400 "User already exists" for a known email. Otherwise exactly one user is added with the hashed password, and 201 comes back with that user's token, which a later login returns too. Every failure leaves the store unchanged |
| `BlogStore.Store.Login` | blog-api/src/controllers/authController.js:54-86 | 400 with the validation errors; 500 "Login failed" when the lookup raises; one 400 "Invalid credentials" exactly for an unknown email or a wrong password; 200 exactly on a match, with a token for that user's id. It only reads |
| `BlogStore.LoginFailuresAlike` | blog-api/src/controllers/authController.js:64-73 | an unknown email and a wrong password get the very same reply |
| `BlogStore.Store.View` | blog-api/src/controllers/blogController.js:9-12 | a post with its author and exactly the comments on it |
| `BlogStore.Store.GetPosts` | blog-api/src/controllers/blogController.js:7-19 | 500 when the lookup raises; otherwise 200 with exactly one view per post in the store |
| `BlogStore.Store.GetPostById` | blog-api/src/controllers/blogController.js:24-44 | 500 when the id does not parse or the lookup raises; 404 "Post not found" for an id with no post; otherwise 200 with that post |
| `BlogStore.Store.CreatePost` | blog-api/src/controllers/blogController.js:49-69 | 500 on a fault and no change; otherwise 201 with one new post whose author is the authenticated user, which fetching it by id then returns |
| `BlogStore.Store.UpdatePost` | blog-api/src/controllers/blogController.js:74-109 | 404 first, then 403 "Unauthorized: You can only update your own posts", then 500 on a failing write, each changing nothing; otherwise 200 and only that post is patched |
| `BlogStore.Store.DeletePost` | blog-api/src/controllers/blogController.js:114-143 | 404, then 403 for a non-owner, changing nothing; otherwise 200, exactly that post is removed and fetching it then gives 404 |
| `BlogStore.Store.CreateComment` | blog-api/src/controllers/commentController.js:7-37 | 404 for a missing post and no change; otherwise 201 with one new comment on that post by the authenticated user, returned together with its author |
| `BlogStore.Store.UpdateComment` | blog-api/src/controllers/commentController.js:42-75 | 404, then 403 for a non-owner, then 500, each changing nothing; otherwise 200 and only that comment's text changes |
| `BlogStore.Store.DeleteComment` | blog-api/src/controllers/commentController.js:80-109 | 404, then 403 for a non-owner, then 500, each changing nothing; otherwise 200 and exactly that comment is removed |

## Left out

- `float()` on a string and `TO_DATE(..., 'DD-MON-YYYY')` are not modelled. String-to-float is the parameter `parse`; the server's casts, date parsing and VARCHAR limits are the predicate `accepts`. Both are partial functions the model does not open.
- Reading a file and `json.load` are not modelled: each directory entry carries its document, or None when reading or decoding raises.
- The order of `os.listdir` is whatever order the entries are given in.
- `Coerce.Float`: Python ints and floats are both `Number` here, and `float` returns a number unchanged. In Python, `json.load` gives an int for an integer literal, and `float` of an int rounds above 2^53 and raises OverflowError beyond the double range. Such an error would roll back that stage (stock_insert.py:488-491). The model has no rounding and no OverflowError on the P/E ratios (stock_insert.py:243-244) or in `safe_numeric` (stock_insert.py:384-386). It also does not tell apart the int 5 and the float 5.0, which psycopg2 sends differently.
- The psycopg2 connection string, the cursor, and closing the connection are left out; only execute, commit and rollback are modelled.
- `Database.Connection.Commit`, `Database.Connection.Rollback`: commit and rollback never raise in the model, and the connection is never lost. In the program a lost connection makes the rollback inside the `except` raise (stock_insert.py:488-491), which ends the run: later files are skipped and the connection is not closed. The model promises nothing about that case.
- A missing `selected_stocks` folder (stock_insert.py:16-19) raises FileNotFoundError before any file is read; the model starts from a directory listing and does not model that check.
- `Tables.FirstInsertWins`, `Tables.LastUpsertWins`, `Loader.LoopStageFirstWins` and the frame lemmas key rows by the symbol as a JSON value. The server compares symbols as VARCHAR text, so the number 500325 and the string `'500325'` are one key there. These lemmas agree with the server only when every symbol is a string or None.
- Table creation (stock_insert.py:171-174) is not executed: the schema is a constant and the tables are assumed to exist.
- A statement that raises inside a transaction leaves PostgreSQL's transaction aborted until the rollback. The model leaves the open state as it was, and the loader rolls back before anything else runs, so the two agree.
- Several rows with a NULL symbol in a UNIQUE column are allowed by PostgreSQL. The model keeps one row per (table, symbol), NULL included.
- Python dicts have distinct keys; the model's dicts are entry lists that are assumed to be dicts, and a lookup takes the first entry.
- The `print` of the failing file's error is modelled as the list of failed file names.
- Prisma is not modelled. Each handler receives a `Fault` saying whether its lookup or its write raises; a Prisma call on an id that `parseInt` gives as NaN or beyond 32 bits is taken to raise. In a handler that is a 500; in the middleware it is the 401 "Authentication failed".
- The Prisma schema is not part of this model, so what a post's deletion does to its comments is unknown; the model keeps them.
- Id counters are unbounded; autoincrement exhaustion is not modelled.
- `createPost` fields missing from the request body are not modelled: `title`, `content` and `published` are taken as given.
- `BlogStore.Store.CreateComment` takes `text` as given: a request body without it is not modelled.
- `BlogStore.Store.GetPosts` and `BlogStore.Store.View` return sets of posts and of comments. The source replies with arrays in the order `findMany` returns them; the model states which posts and comments are sent, not their order.
- `BlogStore.Store.Authenticate` assumes that a token payload that verifies carries an integer `userId`. A payload without one makes `findUnique` raise, which gives the 401 "Authentication failed"; the model has no such payload.
- bcrypt hashing is a function of the password alone, so salting is not modelled; `compare` never raises.
- `generateToken` never raises in the model.
- `prisma.$disconnect` in every handler's and the middleware's `finally` is left out.
- `JsString.ParseInt`: JavaScript's `parseInt` goes through a double, so integers beyond 2^53 round; the model reads them exactly and uses only results inside 32 bits.
- Concurrency between requests and the Express wiring (app.js and the routes) are left out; the handlers that write take the authenticated user as given, as the routes arrange.
- The comment reply includes the author record with its password hash, as the source's `include` does; the model returns it as it is and states nothing about it.
- The scrapers, the AI and UI scripts and the crawler passthroughs are outside this model.
