/** The records the window layer hands to its logging sink. The text of a
    record is not modelled, only which record is emitted with which data. */
module Logs {
  import opened Common
  import opened Keyboard

  datatype LogRecord =
    | CgxNotFound(path: string)                 // error: the viewer executable is missing
    | CgxPid(pid: int)                          // debug: the pid of the started viewer
    | CantGetWindow(title: string)              // error: the window did not show up in time
    | WindowListDump                            // debug: the list of all windows, for diagnostics
    | CommunicationWillNotWork(title: string)   // error: posting to that window will be a no-op
    | FoundWindow(title: string, wid: Wid)      // debug: the window was found
    | NoConfigFile(file: string)                // error: a configuration file is missing
    | StoppingThreads(names: seq<string>)       // debug: the stdout readers being stopped
    | SymbolNotSupported(symbol: Symbol)        // warning: `post` met a symbol with no key
    | KeyNotSupported(key: Symbol)              // warning: `send_hotkey` met a key with no keysym

  /** One `SymbolNotSupported` warning per symbol, in order. */
  function SymbolWarnings(symbols: seq<Symbol>): (r: seq<LogRecord>)
    ensures |r| == |symbols|
    decreases |symbols|
  {
    if symbols == [] then [] else SymbolWarnings(Init(symbols)) + [SymbolNotSupported(Last(symbols))]
  }

  lemma {:induction false} SymbolWarningsAppend(a: seq<Symbol>, b: seq<Symbol>)
    ensures SymbolWarnings(a + b) == SymbolWarnings(a) + SymbolWarnings(b)
    decreases |b|
  {
    if b == [] {
      assert a + b == a;
    } else {
      SymbolWarningsAppend(a, Init(b));
      InitOfAppend(a, b);
    }
  }
}
