/**
 * The breakpad package: a start-up guard on the configured storage roots and
 * the stack-walking entry point, which is a stub that always succeeds.
 */
module Breakpad {
  import opened Base
  import opened Conf

  /** Why start-up is refused; the process panics with `PanicMessage`. */
  datatype InitError = DumpPathEmpty | SymbolPathEmpty

  function PanicMessage(e: InitError): string
  {
    match e
    case DumpPathEmpty => "config file 'dump' is empty"
    case SymbolPathEmpty => "config file 'symbol' is empty"
  }

  /** The package initialiser: `None` lets start-up continue, `Some(e)` panics. The dump root is checked first. */
  function Init(cfg: Config): (r: Option<InitError>)
    ensures r == None <==> cfg.dumpPath != "" && cfg.symbolPath != ""
    ensures cfg.dumpPath == "" ==> r == Some(DumpPathEmpty)
    ensures cfg.dumpPath != "" && cfg.symbolPath == "" ==> r == Some(SymbolPathEmpty)
  {
    if cfg.dumpPath == "" then Some(DumpPathEmpty)
    else if cfg.symbolPath == "" then Some(SymbolPathEmpty)
    else None
  }

  /** When both roots are missing, the dump root is the one reported. */
  lemma BothEmptyReportsDump(cfg: Config)
    requires cfg.dumpPath == "" && cfg.symbolPath == ""
    ensures Init(cfg) == Some(DumpPathEmpty)
    ensures PanicMessage(Init(cfg).value) == "config file 'dump' is empty"
  {
  }

  /** The stack walker is total: every input yields an empty frame list and no error. */
  function WalkStack(id: string): (r: Result<seq<string>, string>)
    ensures r.Success? && r.value == []
  {
    Success([])
  }
}
