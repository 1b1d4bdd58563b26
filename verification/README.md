# bp-server core, modelled in Dafny

bp-server receives breakpad crash dumps and symbol files over HTTP, stores the
blobs under a configured directory tree, keeps one metadata row per dump in a
SQLite table, lists those rows page by page and (in intent) symbolicates a
dump on request. This project models its core as pure functions over an
abstract state:

- `Db` (db.dfy): the `dumps` table as a sequence of `Dump` rows in insertion
  order; `QueryDumpList` (fixed page size 20, offset clamped at 0) and
  `AddDump` (append one row, no validation). Backend failures are a per-call
  `Option<DbError>` argument.
- `Server` (server.go → server.dfy): `toGinMode`; the handlers `uploadDump`,
  `uploadSymbol`, `view` and `list`, each a function from the store (table +
  blob map keyed by path segments) and a request to the new store, the
  response body and the trace of storage calls made; and `Stop` as the
  sequence of its shutdown steps. The ingestion invariant `Consistent` (every
  row has its blob) is proved to be kept by both upload handlers.
- `App` (app.dfy): `Run` as a fold over an arbitrary trace of `Tick`,
  `SigInt`, `SigTerm` events, recording which callbacks fired.
- `Breakpad` (breakpad.dfy): the package initialiser that refuses an empty
  dump root or symbol root, and the `WalkStack` stub.
- `Text` (text.dfy): ASCII lower-casing, Go's `strconv.Atoi` (64-bit) and
  decimal formatting, which the handlers need for the mode, the route
  parameters and the `%d` in a message. `Base` and `Conf` hold shared
  wrappers and the configuration record.

Facts about the code that shape the model:

- The code does not sanitise `program`, `version`, `entry`, `id` or the file
  name before joining them into a path, and writes blobs in place (no
  temporary file and rename). A storage key here is the segment list
  `[root, a, b, filename]` exactly as received, and no property claims that a
  path stays inside its root.
- `AddDump` returns only an error, not the new row's id.
- The routes are `/updump` and `/upsym`; the symbol handler's invalid-input
  message is `Upload file symbol failed: invalid parameters`.
- `view` calls a lookup (`db.QueryDump`) that `internal/db/db.go` does not
  define, and uses the `[]string` result of `WalkStack` as a string. Both
  are oracle parameters of `Server.View`. The lookup takes the clamped id.
  The walker takes the dump's segment list and returns report text or an
  error.
- SIGINT ends `Run` only when a teardown callback was passed; with a nil
  teardown callback SIGINT is ignored and only SIGTERM ends the loop. The
  model keeps this behaviour (`App.SigIntWithoutUninitIgnored`).
- `Server.StubWalk` is the walker built from the breakpad stub. It turns the
  stub's frame list into report text with one frame per line. The code
  instead assigns the list to a string.

## Model

| member | source | states |
|---|---|---|
| Text.ToLowerAscii | internal/server/server.go:97 | lower-casing keeps the length, maps each of `A`..`Z` to the matching letter of `a`..`z` and changes no other character |
| Text.ToLowerAsciiIdempotent | internal/server/server.go:97 | lower-casing twice is the same as lower-casing once |
| Text.ToLowerAsciiFixes | internal/server/server.go:97-98 | a string with no upper-case letter is its own lower-case form |
| Text.ParseInt | internal/server/server.go:187-192 | `Atoi` accepts exactly the strings made of an optional sign and at least one digit whose signed value is in the int64 range (so `+007` and `-0` parse); a negative result needs a leading `-`; the value is the digits' decimal value with that sign |
| Text.FormatNat | internal/server/server.go:198 | `%d` of a non-negative id is a non-empty digit string, with no leading zero, whose decimal value is the id |
| Text.FormatInt | internal/server/server.go:198 | `%d` of an integer starts with `-` exactly when the integer is negative |
| Text.ParseFormatRoundTrip | internal/server/server.go:187-198 | for every int64 value, parsing its `%d` form with `Atoi` gives the value back |
| Text.ParseIntRejectsDoubleSign | internal/server/server.go:170-175 | a route parameter with two leading signs does not parse |
| Server.ToGinMode | internal/server/server.go:96-104 | the result is always release, debug or test; it is the lower-cased input when that is a known mode and release otherwise |
| Server.GinModesAreLower | internal/server/server.go:98 | the three mode names are fixed points of lower-casing |
| Server.ToGinModeIdempotent | internal/server/server.go:96-104 | normalising a normalised mode changes nothing |
| Server.ToGinModeIgnoresCase | internal/server/server.go:97-99 | the mode is case-insensitive, and a known lower-case mode is returned unchanged |
| Server.UploadDump | internal/server/server.go:212-242 | an empty build, program or version, or a missing file part, answers with its error and touches nothing; otherwise the blob at `[dumpRoot, program, version, filename]` is saved first; a failed save answers "Save dump file to disk failed" with the store unchanged and no insert; after a good save a failed insert leaves the rows unchanged and answers "Add meta info to database failed"; otherwise exactly the row (program, version, filename, build) is appended and the answer is "Success"; an insert call always follows a successful save of its own blob |
| Server.UploadDumpSuccessIff | internal/server/server.go:216-241 | "Success" is answered exactly when the fields are valid, the file part exists, the save succeeds and the insert succeeds, and then the table grew by one row |
| Server.UploadDumpKeepsConsistent | internal/server/server.go:228-239 | because the blob is written before the row, an upload never leaves a row without its blob, whatever fails |
| Server.FailedInsertLeavesOrphan | internal/server/server.go:229-238 | a good save followed by a failed insert leaves the blob at its path with no new row |
| Server.UploadSymbol | internal/server/server.go:244-268 | never touches the table and makes no insert call; an empty entry or id, or a missing file part, answers with its error and touches nothing; otherwise it saves only `[symbolRoot, entry, id, filename]` and answers "Success", or "Save file failed" with the store unchanged |
| Server.UploadSymbolKeepsConsistent | internal/server/server.go:259-267 | a symbol upload only adds or overwrites blobs, so it keeps every row's blob in place |
| Server.View | internal/server/server.go:186-210 | an id that does not parse answers the parse error with no lookup and no walk; otherwise the looked-up id is the parsed id clamped at 0; a failed lookup answers "Query dump with id '<id>' failed" with no walk; a found row has its path `[dumpRoot, program, version, filename]` walked, answering "Get crash info failed" or the report |
| Server.NegativeIdViewsZero | internal/server/server.go:187-196 | every id parsing to a value at or below 0 is served exactly like id 0 |
| Server.StartupGuardRootsPaths | internal/breakpad/bp.go:5-12 | once the start-up guard has passed, the first segment of every location an upload saves or the view walks is the configured root, which the guard makes non-empty; this is about the segment list before joining, and a joined path with `..` segments can still leave the root |
| Server.ViewWithStubWalk | internal/breakpad/bp.go:14-16 | with the breakpad stub as the walker, a view whose lookup succeeds answers the empty report, and never "Get crash info failed" |
| Server.List | internal/server/server.go:169-184 | a page that does not parse answers the parse error; a query failure answers "Query dump list internal error"; otherwise it renders the whole page: min(20, rows remaining) rows, the consecutive rows from the page's offset |
| Server.ListRendersEveryPage | internal/server/server.go:169-183 | every int64 page number written in decimal renders exactly that page's slice of the table |
| Server.ListZeroIsListOne | internal/db/db.go:61-68 | `/list/0` and `/list/1` render the same rows |
| Server.Stop | internal/server/server.go:147-159 | each listener's shutdown is attempted exactly once, the upload listener's first and the view listener's after it, whatever the first outcome; a failure is logged exactly for a listener that failed, right after its own attempt; exactly one completion token is sent, as the last step |
| Db.Offset | internal/db/db.go:62-66 | the offset is 20 × (page − 1) from page 1 on and 0 for every page at or below 1 |
| Db.QueryDumpList | internal/db/db.go:61-74 | a backend error is returned as is with no rows; otherwise at most 20 rows, exactly the rows from the page's offset on, as many as remain up to 20 |
| Db.AddDump | internal/db/db.go:76-89 | on success exactly one row carrying the four given fields unchanged is appended and nothing else changes, for every input including empty strings; on a backend error the table is unchanged and the error is returned |
| Db.PagesBelowOneAreFirst | internal/db/db.go:63-66 | every page at or below 1 lists the same rows as page 1 |
| Db.PageIsSlice | internal/db/db.go:62-68 | a page from 1 on is the slice from 20 × (page − 1) to min(20 × page, row count) |
| Db.PastEndIsEmpty | internal/db/db.go:67-73 | a page whose offset is at or past the last row is an empty success, not an error |
| Db.AdjacentPages | internal/db/db.go:63-68 | pages p and p + 1 concatenated are one contiguous slice of the table |
| Db.NextPageNeedsFullPage | internal/db/db.go:63-68 | a non-empty page p + 1 means page p is full and page p + 1 starts where page p ends |
| Db.FirstPagesArePrefix | internal/db/db.go:62-68 | pages 1..k concatenated are the first min(20k, row count) rows |
| Db.AddedRowIsListed | internal/db/db.go:61-83 | a row just appended is listed on the page its position falls into, at its position within that page |
| Breakpad.Init | internal/breakpad/bp.go:5-12 | start-up passes exactly when both roots are non-empty; an empty dump root is reported first, an empty symbol root otherwise |
| Breakpad.BothEmptyReportsDump | internal/breakpad/bp.go:6-11 | when both roots are empty the panic names the dump root |
| Breakpad.WalkStack | internal/breakpad/bp.go:14-16 | succeeds for every input with an empty frame list |
| App.Loop | internal/app/app.go:53-68 | the loop returns exactly when the trace holds an ending event (SIGTERM, or SIGINT with a teardown callback), at the first one, and otherwise consumes the whole trace; it never runs the initialiser |
| App.LoopEffectsAre | internal/app/app.go:53-68 | the loop's effects are one diagnostics call per tick handled (when that callback exists) followed, if it returned, by the ending event's single effect |
| App.Run | internal/app/app.go:44-69 | a non-nil initialiser fires exactly once, before anything else; a nil one never fires; the run returns exactly when an ending event occurs |
| App.NothingAfterReturn | internal/app/app.go:53-68 | events after the one that ended the loop change nothing: no callback fires after that point |
| App.TickContinues | internal/app/app.go:55-58 | a tick never ends the loop and calls the diagnostics callback once exactly when it exists |
| App.SigIntWithUninitReturns | internal/app/app.go:59-63 | SIGINT with a teardown callback runs it once and returns at once |
| App.SigIntWithoutUninitIgnored | internal/app/app.go:59-63 | SIGINT without a teardown callback is ignored and the following events are still handled |
| App.OnlySigTermStopsWithoutUninit | internal/app/app.go:53-68 | without a teardown callback a trace with no SIGTERM is consumed entirely and teardown never fires |
| App.SigTermNeverTearsDown | internal/app/app.go:64-66 | SIGTERM returns at once, its last effect is the stack log, and teardown never fires |
| App.UninitOnlyOnSigInt | internal/app/app.go:59-66 | teardown fires at most once, only on a SIGINT with a teardown callback, as the last effect |

## Left out

- HTTP plumbing: gin routing, `Start`, `ListenAndServe`, the listener goroutines and the `stopedChan` channel, and `StopedChan`. These are concurrency and network I/O. `PrintStats` is empty.
- Server.Stop: the shared 500 ms shutdown deadline and what `Shutdown` does with in-flight requests are not modelled. Each shutdown outcome is a boolean argument.
- `New`: the call to `gin.SetMode` and the parsing of the HTML template. Template rendering of `list` is the response `Rendered(rows)`.
- Configuration loading (internal/conf/xml.go): file reading and XML unmarshalling. `Conf.Config` is an input record.
- The package initialiser of the database: opening SQLite and auto-migration.
- Db.Dump: gorm's store-assigned `ID`, `CreatedAt`, `UpdatedAt` and `DeletedAt` columns are not modelled.
- Db.QueryDumpList: the query has no ORDER BY. Returning rows in insertion order is an assumption of the model.
- Db.Offset: uses unbounded integers, so Go's `int` wrap-around in `20*(page-1)` for huge pages is not modelled.
- Text.ToLowerAscii: lower-cases ASCII letters only, where Go's `strings.ToLower` maps all of Unicode. For the three mode names the two agree. Go's simple case mapping sends two non-ASCII letters to ASCII: U+212A (Kelvin sign) to `k` and U+0130 (capital I with dot) to `i`. Neither `k` nor `i` occurs in release, debug or test.
- Server.UploadDump: a failed save leaves the blob map unchanged. In reality a save that fails mid-copy can leave a partial file behind. The same holds for Server.UploadSymbol.
- Server.UploadDump: the client file name is taken as given. The framework's reduction of the multipart file name to its base name is not modelled.
- Joining path segments with `path.Join`, and its lexical cleaning: a location is the list of segments before joining. A joined path with `..` segments can leave its root, and nothing in the model says otherwise.
- Server.View: the row lookup and the stack walk are oracle arguments, since the lookup is not defined in the code and the walk's result is used with the wrong type. The external stack-walking process, its timeout and the text it prints are not modelled.
- App.Run: the 1-second ticker period, logging, and the contents of the stack snapshot logged on SIGTERM (only the fact that it is logged).
- Logging everywhere: log lines are not part of any response and are not modelled.
