/**
 * The request handlers of the HTTP server and its shutdown sequence.
 *
 * A handler is a function from the server's durable state (the metadata
 * table and the blob store) and one request to the new state, the plain-text
 * response and the trace of storage calls it made, in order. Every failure
 * is answered with HTTP status 200 and a message body, so only the body is
 * modelled. Disk and database failures are oracle parameters.
 *
 * A storage location is the list of path segments before they are joined;
 * the segments are taken from the request unchecked.
 */
module Server {
  import opened Base
  import opened Text
  import opened Conf
  import Db
  import Breakpad

  // ---------------------------------------------------------------- gin mode

  const ReleaseMode: string := "release"
  const DebugMode: string := "debug"
  const TestMode: string := "test"

  predicate IsGinMode(m: string) { m == ReleaseMode || m == DebugMode || m == TestMode }

  /** `toGinMode`: the lower-cased mode if gin knows it, release mode otherwise. */
  function ToGinMode(mode: string): (r: string)
    ensures IsGinMode(r)
    ensures IsGinMode(ToLowerAscii(mode)) ==> r == ToLowerAscii(mode)
    ensures !IsGinMode(ToLowerAscii(mode)) ==> r == ReleaseMode
  {
    var m := ToLowerAscii(mode);
    if IsGinMode(m) then m else ReleaseMode
  }

  /** The three mode names are already lower case. */
  lemma GinModesAreLower(m: string)
    requires IsGinMode(m)
    ensures ToLowerAscii(m) == m
  {
  }

  /** Normalising a normalised mode changes nothing. */
  lemma ToGinModeIdempotent(mode: string)
    ensures ToGinMode(ToGinMode(mode)) == ToGinMode(mode)
  {
  }

  /** The mode is case-insensitive, and a known mode spelled in lower case is kept as is. */
  lemma ToGinModeIgnoresCase(mode: string)
    ensures ToGinMode(mode) == ToGinMode(ToLowerAscii(mode))
    ensures IsGinMode(mode) ==> ToGinMode(mode) == mode
  {
  }

  // ---------------------------------------------------------------- state

  /** A storage location: the root followed by the path segments, before joining. */
  type Key = seq<string>

  function DumpKey(root: string, program: string, version: string, filename: string): Key
  {
    [root, program, version, filename]
  }

  function SymbolKey(root: string, entry: string, id: string, filename: string): Key
  {
    [root, entry, id, filename]
  }

  /** Where the blob of a metadata row lives. */
  function RecordKey(root: string, d: Db.Dump): Key
  {
    DumpKey(root, d.program, d.version, d.filename)
  }

  datatype Store = Store(records: seq<Db.Dump>, blobs: map<Key, Bytes>)

  /** The ingestion invariant: every metadata row has its blob on disk. */
  predicate Consistent(cfg: Config, st: Store)
  {
    forall i :: 0 <= i < |st.records| ==> RecordKey(cfg.dumpPath, st.records[i]) in st.blobs
  }

  /** A plain-text body, or the rendered listing template over some rows. */
  datatype Response = Body(text: string) | Rendered(dumps: seq<Db.Dump>)

  /** Storage calls a handler makes, in the order it makes them. */
  datatype Call = SaveFile(key: Key) | AddDumpCall(dump: Db.Dump)

  datatype Handled = Handled(store: Store, response: Response, calls: seq<Call>)

  /** The multipart `file` part: its client-supplied name and bytes. */
  datatype Upload = Upload(filename: string, content: Bytes)

  /** Form of `POST /updump`; `file` is the framework's error text when the part is missing. */
  datatype DumpForm = DumpForm(build: string, program: string, version: string, file: Result<Upload, string>)

  /** Form of `POST /upsym`. */
  datatype SymbolForm = SymbolForm(entry: string, id: string, file: Result<Upload, string>)

  /** Outcomes of the disk save and the metadata insert for one request. */
  datatype Faults = Faults(saveFails: bool, insertFault: Option<Db.DbError>)

  const SuccessBody: string := "Success"
  const InvalidDumpParams: string := "Upload dump failed: invalid parameters"
  const DumpFormFilePrefix: string := "Upload dump failed: "
  const SaveDumpFailed: string := "Save dump file to disk failed"
  const AddMetaFailed: string := "Add meta info to database failed"
  const InvalidSymbolParams: string := "Upload file symbol failed: invalid parameters"
  const SymbolFormFilePrefix: string := "Upload symbol file failed: "
  const SaveSymbolFailed: string := "Save file failed"
  const ParseIdFailed: string := "Parse GET parameter 'id' as integer failed"
  const CrashInfoFailed: string := "Get crash info failed"
  const ParsePageFailed: string := "Parse GET parameter 'page' as integer failed"
  const QueryListFailed: string := "Query dump list internal error"

  function QueryDumpFailed(id: nat): string
  {
    "Query dump with id '" + FormatNat(id) + "' failed"
  }

  // ---------------------------------------------------------------- uploads

  /** The form fields `uploadDump` insists on; the file name is not among them. */
  predicate ValidDumpForm(form: DumpForm)
  {
    form.build != "" && form.program != "" && form.version != ""
  }

  /** `uploadDump`: validate, save the blob, and only then insert the metadata row. */
  function UploadDump(cfg: Config, st: Store, form: DumpForm, faults: Faults): (r: Handled)
    ensures !ValidDumpForm(form) ==> r == Handled(st, Body(InvalidDumpParams), [])
    ensures ValidDumpForm(form) && form.file.Failure? ==>
              r == Handled(st, Body(DumpFormFilePrefix + form.file.error), [])
    // the metadata call is always preceded by a save of the blob it describes, and that save succeeded
    ensures forall i :: 0 <= i < |r.calls| && r.calls[i].AddDumpCall? ==>
              0 < i && r.calls[i - 1] == SaveFile(RecordKey(cfg.dumpPath, r.calls[i].dump))
              && r.calls[i - 1].key in r.store.blobs
    ensures ValidDumpForm(form) && form.file.Success? ==>
              var f := form.file.value;
              var key := DumpKey(cfg.dumpPath, form.program, form.version, f.filename);
              var row := Db.Dump(form.program, form.version, f.filename, form.build);
              && (faults.saveFails ==>
                    r == Handled(st, Body(SaveDumpFailed), [SaveFile(key)]))
              && (!faults.saveFails ==>
                    && r.store.blobs == st.blobs[key := f.content]
                    && r.calls == [SaveFile(key), AddDumpCall(row)])
              && (!faults.saveFails && faults.insertFault.Some? ==>
                    r.store.records == st.records && r.response == Body(AddMetaFailed))
              && (!faults.saveFails && faults.insertFault.None? ==>
                    r.store.records == st.records + [row] && r.response == Body(SuccessBody))
  {
    if !ValidDumpForm(form) then Handled(st, Body(InvalidDumpParams), [])
    else if form.file.Failure? then Handled(st, Body(DumpFormFilePrefix + form.file.error), [])
    else
      var f := form.file.value;
      var key := DumpKey(cfg.dumpPath, form.program, form.version, f.filename);
      if faults.saveFails then Handled(st, Body(SaveDumpFailed), [SaveFile(key)])
      else
        var saved := st.(blobs := st.blobs[key := f.content]);
        var calls := [SaveFile(key), AddDumpCall(Db.Dump(form.program, form.version, f.filename, form.build))];
        var ins := Db.AddDump(st.records, form.program, form.version, f.filename, form.build, faults.insertFault);
        if ins.err.Some? then Handled(saved, Body(AddMetaFailed), calls)
        else Handled(saved.(records := ins.records), Body(SuccessBody), calls)
  }

  /** "Success" is answered exactly when every step went through, and then exactly one row was added. */
  lemma UploadDumpSuccessIff(cfg: Config, st: Store, form: DumpForm, faults: Faults)
    ensures var r := UploadDump(cfg, st, form, faults);
            var succeeded := ValidDumpForm(form) && form.file.Success? && !faults.saveFails && faults.insertFault.None?;
            r.response == Body(SuccessBody) <==> succeeded
    ensures var r := UploadDump(cfg, st, form, faults);
            r.response == Body(SuccessBody) ==> |r.store.records| == |st.records| + 1
  {
  }

  /** Blob first, metadata second: an upload never leaves a row without its blob. */
  lemma UploadDumpKeepsConsistent(cfg: Config, st: Store, form: DumpForm, faults: Faults)
    requires Consistent(cfg, st)
    ensures Consistent(cfg, UploadDump(cfg, st, form, faults).store)
  {
  }

  /** A failed insert after a good save leaves the blob behind with no row for it. */
  lemma FailedInsertLeavesOrphan(cfg: Config, st: Store, form: DumpForm, faults: Faults)
    requires ValidDumpForm(form) && form.file.Success?
    requires !faults.saveFails && faults.insertFault.Some?
    ensures var f := form.file.value;
            var key := DumpKey(cfg.dumpPath, form.program, form.version, f.filename);
            var r := UploadDump(cfg, st, form, faults);
            && r.store.blobs[key] == f.content
            && r.store.records == st.records
            && r.response == Body(AddMetaFailed)
  {
  }

  predicate ValidSymbolForm(form: SymbolForm)
  {
    form.entry != "" && form.id != ""
  }

  /** `uploadSymbol`: validate and save the symbol file; the metadata table is never involved. */
  function UploadSymbol(cfg: Config, st: Store, form: SymbolForm, saveFails: bool): (r: Handled)
    ensures r.store.records == st.records
    ensures forall i :: 0 <= i < |r.calls| ==> r.calls[i].SaveFile?
    ensures !ValidSymbolForm(form) ==> r == Handled(st, Body(InvalidSymbolParams), [])
    ensures ValidSymbolForm(form) && form.file.Failure? ==>
              r == Handled(st, Body(SymbolFormFilePrefix + form.file.error), [])
    ensures ValidSymbolForm(form) && form.file.Success? ==>
              var f := form.file.value;
              var key := SymbolKey(cfg.symbolPath, form.entry, form.id, f.filename);
              && r.calls == [SaveFile(key)]
              && (saveFails ==> r.store == st && r.response == Body(SaveSymbolFailed))
              && (!saveFails ==> r.store.blobs == st.blobs[key := f.content] && r.response == Body(SuccessBody))
  {
    if !ValidSymbolForm(form) then Handled(st, Body(InvalidSymbolParams), [])
    else if form.file.Failure? then Handled(st, Body(SymbolFormFilePrefix + form.file.error), [])
    else
      var f := form.file.value;
      var key := SymbolKey(cfg.symbolPath, form.entry, form.id, f.filename);
      if saveFails then Handled(st, Body(SaveSymbolFailed), [SaveFile(key)])
      else Handled(st.(blobs := st.blobs[key := f.content]), Body(SuccessBody), [SaveFile(key)])
  }

  /** Symbol uploads only add or overwrite blobs, so they cannot break the ingestion invariant. */
  lemma UploadSymbolKeepsConsistent(cfg: Config, st: Store, form: SymbolForm, saveFails: bool)
    requires Consistent(cfg, st)
    ensures Consistent(cfg, UploadSymbol(cfg, st, form, saveFails).store)
  {
  }

  // ---------------------------------------------------------------- reads

  /** What `view` did: the id it looked up, the dump path it walked, and its answer. */
  datatype Viewed = Viewed(queried: Option<nat>, walked: Option<Key>, response: Response)

  function ClampId(id: int): nat
  {
    if id < 0 then 0 else id
  }

  /**
   * `view`: parse the id, clamp a negative one to 0, look the row up and walk
   * the stack of its dump. The lookup and the stack walk are oracles.
   */
  function View(cfg: Config, idParam: string,
                lookup: nat -> Result<Db.Dump, Db.DbError>,
                walk: Key -> Result<string, string>): (r: Viewed)
    ensures ParseInt(idParam).None? ==> r == Viewed(None, None, Body(ParseIdFailed))
    ensures ParseInt(idParam).Some? ==>
              var n := ParseInt(idParam).value;
              && r.queried.Some? && r.queried.value >= 0
              && (n >= 0 ==> r.queried == Some(n))
              && (n < 0 ==> r.queried == Some(0))
    ensures r.queried.Some? && lookup(r.queried.value).Failure? ==>
              r.walked == None && r.response == Body(QueryDumpFailed(r.queried.value))
    ensures r.queried.Some? && lookup(r.queried.value).Success? ==>
              var d := lookup(r.queried.value).value;
              && r.walked == Some(RecordKey(cfg.dumpPath, d))
              && (walk(r.walked.value).Failure? ==> r.response == Body(CrashInfoFailed))
              && (walk(r.walked.value).Success? ==> r.response == Body(walk(r.walked.value).value))
  {
    match ParseInt(idParam)
    case None => Viewed(None, None, Body(ParseIdFailed))
    case Some(n) =>
      var id := ClampId(n);
      match lookup(id)
      case Failure(_) => Viewed(Some(id), None, Body(QueryDumpFailed(id)))
      case Success(d) =>
        var key := RecordKey(cfg.dumpPath, d);
        match walk(key)
        case Failure(_) => Viewed(Some(id), Some(key), Body(CrashInfoFailed))
        case Success(report) => Viewed(Some(id), Some(key), Body(report))
  }

  /** Every id that parses to a value at or below 0 is served exactly like id 0. */
  lemma NegativeIdViewsZero(cfg: Config, idParam: string,
                            lookup: nat -> Result<Db.Dump, Db.DbError>,
                            walk: Key -> Result<string, string>)
    requires ParseInt(idParam).Some? && ParseInt(idParam).value <= 0
    ensures View(cfg, idParam, lookup, walk) == View(cfg, "0", lookup, walk)
  {
  }

  /** The segments of a location separated by `/`, without lexical cleaning. */
  function JoinSegments(key: Key): string
  {
    if |key| == 0 then "" else if |key| == 1 then key[0] else key[0] + "/" + JoinSegments(key[1..])
  }

  /** The frames of a stack walk as report text, one frame per line. */
  function Lines(frames: seq<string>): string
  {
    if |frames| == 0 then "" else frames[0] + "\n" + Lines(frames[1..])
  }

  /** The walker the breakpad package provides: its stub walk, with the frames as text. */
  function StubWalk(key: Key): Result<string, string>
  {
    match Breakpad.WalkStack(JoinSegments(key))
    case Success(frames) => Success(Lines(frames))
    case Failure(e) => Failure(e)
  }

  /**
   * With the breakpad stub as the walker, a found row is always answered with
   * the (empty) report, so "Get crash info failed" is never the answer.
   */
  lemma ViewWithStubWalk(cfg: Config, idParam: string, lookup: nat -> Result<Db.Dump, Db.DbError>)
    ensures var r := View(cfg, idParam, lookup, StubWalk);
            r.walked.Some? ==> r.response == Body("")
    ensures View(cfg, idParam, lookup, StubWalk).response != Body(CrashInfoFailed)
  {
  }

  /**
   * Once start-up has passed the breakpad guard, every location a handler
   * saves to or walks starts with a non-empty configured root.
   */
  lemma StartupGuardRootsPaths(cfg: Config, st: Store, dumpForm: DumpForm, faults: Faults,
                               symbolForm: SymbolForm, saveFails: bool, idParam: string,
                               lookup: nat -> Result<Db.Dump, Db.DbError>,
                               walk: Key -> Result<string, string>)
    requires Breakpad.Init(cfg) == None
    ensures var v := View(cfg, idParam, lookup, walk);
            v.walked.Some? ==> |v.walked.value| == 4 && v.walked.value[0] == cfg.dumpPath != ""
    ensures var calls := UploadDump(cfg, st, dumpForm, faults).calls;
            forall i :: 0 <= i < |calls| && calls[i].SaveFile? ==> calls[i].key[0] == cfg.dumpPath != ""
    ensures var calls := UploadSymbol(cfg, st, symbolForm, saveFails).calls;
            forall i :: 0 <= i < |calls| ==> calls[i].SaveFile? && calls[i].key[0] == cfg.symbolPath != ""
  {
  }

  /** `list`: parse the page number and render that page of the table. */
  function List(records: seq<Db.Dump>, pageParam: string, fault: Option<Db.DbError>): (r: Response)
    ensures ParseInt(pageParam).None? ==> r == Body(ParsePageFailed)
    ensures ParseInt(pageParam).Some? && fault.Some? ==> r == Body(QueryListFailed)
    ensures ParseInt(pageParam).Some? && fault.None? ==>
              && r.Rendered?
              && |r.dumps| <= Db.PageSize
              && |r.dumps| == Max(0, Min(Db.PageSize, |records| - Db.Offset(ParseInt(pageParam).value)))
              && forall i :: 0 <= i < |r.dumps| ==>
                   Db.Offset(ParseInt(pageParam).value) + i < |records|
                   && r.dumps[i] == records[Db.Offset(ParseInt(pageParam).value) + i]
  {
    match ParseInt(pageParam)
    case None => Body(ParsePageFailed)
    case Some(page) =>
      match Db.QueryDumpList(records, page, fault)
      case Failure(_) => Body(QueryListFailed)
      case Success(dumps) => Rendered(dumps)
  }

  /** `/list/0` and `/list/1` render the same rows. */
  lemma ListZeroIsListOne(records: seq<Db.Dump>)
    ensures List(records, "0", None) == List(records, "1", None)
  {
  }

  /** Every int64 page number, written in decimal, renders exactly that page of the table. */
  lemma ListRendersEveryPage(records: seq<Db.Dump>, page: int)
    requires MinInt64 <= page <= MaxInt64
    ensures List(records, FormatInt(page), None) == Rendered(Db.PageOf(records, page))
  {
  }

  // ---------------------------------------------------------------- shutdown

  datatype Listener = UploadListener | ViewListener

  /** Observable steps of `Stop`: shutdown attempts, logged failures, the completion token. */
  datatype StopAction = ShutdownAttempt(listener: Listener) | ShutdownErrorLogged(listener: Listener) | CompletionSent

  /**
   * `Stop`: shut down the upload listener, then the view listener, logging a
   * failure of either without giving up, then send one completion token.
   */
  function Stop(uploadFails: bool, viewFails: bool): (r: seq<StopAction>)
    ensures |r| > 0 && r[0] == ShutdownAttempt(UploadListener)
    ensures ShutdownAttempt(ViewListener) in r[1..]
    ensures r[|r| - 1] == CompletionSent
    ensures forall i :: 0 <= i < |r| - 1 ==> r[i] != CompletionSent
    ensures ShutdownErrorLogged(UploadListener) in r <==> uploadFails
    ensures ShutdownErrorLogged(ViewListener) in r <==> viewFails
    // each listener's shutdown is attempted exactly once
    ensures forall i :: 0 < i < |r| ==> r[i] != ShutdownAttempt(UploadListener)
    ensures forall i, j :: 0 <= i < j < |r| && r[i] == ShutdownAttempt(ViewListener) ==> r[j] != ShutdownAttempt(ViewListener)
    // a failure is logged right after the attempt it belongs to
    ensures forall i :: 0 <= i < |r| && r[i].ShutdownErrorLogged? ==>
              0 < i && r[i - 1] == ShutdownAttempt(r[i].listener)
  {
    var up := ShutdownAttempt(UploadListener);
    var view := ShutdownAttempt(ViewListener);
    match (uploadFails, viewFails)
    case (false, false) => [up, view, CompletionSent]
    case (true, false) => [up, ShutdownErrorLogged(UploadListener), view, CompletionSent]
    case (false, true) => [up, view, ShutdownErrorLogged(ViewListener), CompletionSent]
    case (true, true) => [up, ShutdownErrorLogged(UploadListener), view, ShutdownErrorLogged(ViewListener), CompletionSent]
  }
}
