/** The main window as far as it drives the external viewer: the ids of
    the four windows it arranges (itself, the viewer, the keyword dialog
    and the help browser), the viewer process, the threads relaying the
    viewer's output, and the OS calls and log records it has produced so
    far. Both OS variants are one class; `os` selects the behaviour of the
    Linux and the Windows subclass. */
module MainWindow {
  import opened Common
  import opened Keyboard
  import opened Layout
  import opened Events
  import opened Logs
  import opened Posting
  import opened Titles
  import opened Polling
  import opened Aligning

  /** The title the viewer's window is looked up by. */
  const ViewerTitle: string := "CalculiX GraphiX"
  /** The name of the thread relaying the viewer's output. */
  const ReaderName: string := "read_cgx_stdout"
  const IsoConfig: string := "iso.fbd"
  const ColorsConfig: string := "colors.fbd"

  /** The viewer process: `poll()` answers `returncode`, None while it runs. */
  datatype Process = Process(pid: int, returncode: Option<int>)

  /** A thread relaying the viewer's output to the log. */
  class StdoutReader {
    const name: string
    var active: bool

    constructor (name: string)
      ensures this.name == name && !active
    {
      this.name := name;
      active := false;
    }

    /** `start()`: the thread runs until it is stopped. */
    method Start()
      modifies this
      ensures active
    {
      active := true;
    }

    /** `stop()`: the thread is told to finish. */
    method Stop()
      modifies this
      ensures !active
    {
      active := false;
    }
  }

  /** The names of the readers that are active, in order. */
  function ActiveNames(readers: seq<StdoutReader>): seq<string>
    reads readers
    decreases |readers|
  {
    if readers == [] then []
    else ActiveNames(Init(readers)) + (if Last(readers).active then [Last(readers).name] else [])
  }

  /** Some name is logged exactly when some reader is active, and every
      logged name is the name of an active reader. */
  lemma {:induction false} ActiveNamesAreActive(readers: seq<StdoutReader>)
    ensures ActiveNames(readers) == [] <==> forall r | r in readers :: !r.active
    ensures forall n | n in ActiveNames(readers) :: exists r | r in readers :: r.active && r.name == n
    decreases |readers|
  {
    if readers != [] {
      ActiveNamesAreActive(Init(readers));
      assert readers == Init(readers) + [Last(readers)];
    }
  }

  /** The names of `readers`, in order. */
  function Names(readers: seq<StdoutReader>): (r: seq<string>)
    ensures |r| == |readers|
    decreases |readers|
  {
    if readers == [] then [] else Names(Init(readers)) + [Last(readers).name]
  }

  /** What `stop_stdout_readers` logs: one record naming the stopped
      threads, and nothing when there are none. */
  function StopLog(names: seq<string>): seq<LogRecord> {
    if names == [] then [] else [StoppingThreads(names)]
  }

  /** The events `post` sends for a configuration file that exists, and
      none when it is missing or the viewer has no window. */
  function ConfigEvents(os: Os, mainWid: Option<Wid>, viewerWid: Option<Wid>, fileExists: bool, path: string): seq<Event> {
    if fileExists && viewerWid.Some? then PostEvents(os, mainWid, viewerWid.value, "read " + path) else []
  }

  /** What reading a configuration file logs: the symbols of the command
      that have no key, or that the file is missing. */
  function ConfigLog(os: Os, viewerWid: Option<Wid>, fileExists: bool, path: string, file: string): seq<LogRecord> {
    if !fileExists then [NoConfigFile(file)]
    else if viewerWid.Some? then SymbolWarnings(Unsupported(os, "read " + path))
    else []
  }

  /** The warnings of the three sends of `post(cmd)` are those of the
      command alone: the framing characters all have keys. */
  lemma PostWarnings(os: Os, cmd: string)
    ensures SymbolWarnings(Unsupported(os, "\n")) + SymbolWarnings(Unsupported(os, cmd + "\n"))
      + SymbolWarnings(Unsupported(os, " ")) == SymbolWarnings(Unsupported(os, cmd))
  {
    PostWarnsAboutCommandOnly(os, cmd);
    SymbolWarningsAppend(Unsupported(os, "\n"), Unsupported(os, cmd + "\n"));
    SymbolWarningsAppend(Unsupported(os, "\n") + Unsupported(os, cmd + "\n"), Unsupported(os, " "));
  }

  /** The validation loop's view of `FirstUnsupportedKey`: the first
      unsupported key from position `i` on is `keys[i]` itself, or else the
      first one from `i + 1` on. */
  lemma FirstUnsupportedFrom(keys: seq<Symbol>, i: nat)
    requires i < |keys|
    ensures FirstUnsupportedKey(keys[i..])
      == if Supports(Linux, keys[i]) then FirstUnsupportedKey(keys[i + 1..]) else Some(keys[i])
  {
    assert keys[i..][0] == keys[i];
    assert keys[i..][1..] == keys[i + 1..];
  }

  /** The second loop of `stop_stdout_readers`: every reader of
      `readers` is told to stop; their names, in order. */
  method StopReaders(readers: seq<StdoutReader>) returns (names: seq<string>)
    modifies readers
    ensures names == Names(readers)
    ensures forall r | r in readers :: !r.active
  {
    names := [];
    for i := 0 to |readers|
      invariant names == Names(readers[..i])
      invariant forall j | 0 <= j < i :: !readers[j].active
    {
      TakeOneMore(readers, i);
      names := names + [readers[i].name];
      readers[i].Stop();
    }
    assert readers[..|readers|] == readers;
  }

  class Window {
    const os: Os
    /** Where the viewer executable is expected. */
    const cgxPath: string
    /** The available geometry of the desktop. */
    const screenWidth: nat
    const screenHeight: nat

    var wid1: Option<Wid>   // this application's window
    var wid2: Option<Wid>   // the viewer
    var wid3: Option<Wid>   // the keyword dialog
    var wid4: Option<Wid>   // the help browser
    /** Windows only: the window the enumeration callback last matched. */
    var wid: Option<Wid>
    var cgxProcess: Option<Process>
    var stdoutReaders: seq<StdoutReader>
    /** Which kind of file the viewer was opened for (the caller's name). */
    var mode: Option<string>

    /** Every OS call made so far, in order. */
    var events: seq<Event>
    /** Every log record emitted so far, in order. */
    var log: seq<LogRecord>

    constructor (os: Os, cgxPath: string, screenWidth: nat, screenHeight: nat)
      ensures this.os == os && this.cgxPath == cgxPath
      ensures this.screenWidth == screenWidth && this.screenHeight == screenHeight
      ensures wid1 == None && wid2 == None && wid3 == None && wid4 == None && wid == None
      ensures cgxProcess == None && stdoutReaders == [] && mode == None
      ensures events == [] && log == []
    {
      this.os := os;
      this.cgxPath := cgxPath;
      this.screenWidth := screenWidth;
      this.screenHeight := screenHeight;
      wid1, wid2, wid3, wid4, wid := None, None, None, None, None;
      cgxProcess := None;
      stdoutReaders := [];
      mode := None;
      events, log := [], [];
    }

    /** The guard of `post_wrapper`: a viewer process exists, `poll()` says
        it is still running, and its window is known. */
    predicate CanPost()
      reads this
    {
      cgxProcess.Some? && cgxProcess.value.returncode.None? && wid2.Some?
    }

    // ------------------------------------------------------------ post

    /** `sendkey(c)` of each OS: the key of `c` is typed into the viewer,
        or a warning is logged when the table has no key for it. */
    method SendKey(viewer: Wid, c: char)
      modifies this`events, this`log
      ensures events == old(events) + SymbolEvents(os, viewer, c)
      ensures log == old(log) + SymbolWarnings(if Supports(os, Char(c)) then [] else [Char(c)])
    {
      if os == Linux {
        match LinuxKeyboard(Char(c)) {
          case Some(k) =>
            events := events + [XKeyPress(viewer, k.keysym, k.shift), XKeyRelease(viewer, k.keysym, k.shift)];
          case None =>
            log := log + [SymbolNotSupported(Char(c))];
        }
      } else {
        match WindowsKeyboard(Char(c)) {
          case Some(k) =>
            if k.shift == 1 {
              events := events + [KeybdEvent(VkShift, KeyDown)];
            }
            events := events + [KeybdEvent(k.code, KeyDown), KeybdEvent(k.code, KeyUp)];
            if k.shift == 1 {
              events := events + [KeybdEvent(VkShift, KeyUp)];
            }
          case None =>
            log := log + [SymbolNotSupported(Char(c))];
        }
      }
    }

    /** The loop of the inner `post`: `sendkey` for every symbol of
        `text`, in order. */
    method TypeText(viewer: Wid, text: string)
      modifies this`events, this`log
      ensures events == old(events) + KeyEvents(os, viewer, text)
      ensures log == old(log) + SymbolWarnings(Unsupported(os, text))
    {
      for i := 0 to |text|
        invariant events == old(events) + KeyEvents(os, viewer, text[..i])
        invariant log == old(log) + SymbolWarnings(Unsupported(os, text[..i]))
      {
        TakeOneMore(text, i);
        SendKey(viewer, text[i]);
        KeyEventsSnoc(os, viewer, text[..i], text[i]);
        AppendStep(old(events), KeyEvents(os, viewer, text[..i]), SymbolEvents(os, viewer, text[i]),
          KeyEvents(os, viewer, text[..i + 1]));
        ghost var missing := if Supports(os, Char(text[i])) then [] else [Char(text[i])];
        SymbolWarningsAppend(Unsupported(os, text[..i]), missing);
        AppendStep(old(log), SymbolWarnings(Unsupported(os, text[..i])), SymbolWarnings(missing),
          SymbolWarnings(Unsupported(os, text[..i + 1])));
      }
      assert text[..|text|] == text;
    }

    /** The inner `post` of each OS: on Linux the symbols are typed and the
        display synced; on Windows the viewer is brought to the foreground
        first and the main window given the foreground last. */
    method SendText(text: string)
      requires wid2.Some?
      modifies this`events, this`log
      ensures events == old(events) + Send(os, wid1, wid2.value, text)
      ensures log == old(log) + SymbolWarnings(Unsupported(os, text))
    {
      var viewer := wid2.value;
      if os == Linux {
        TypeText(viewer, text);
        events := events + [XSync];
        AppendStep(old(events), KeyEvents(os, viewer, text), [XSync], Send(os, wid1, viewer, text));
      } else {
        var front, back := [SetForegroundWindow(Some(viewer))], [SetForegroundWindow(wid1)];
        events := events + front;
        TypeText(viewer, text);
        events := events + back;
        ghost var keys := KeyEvents(os, viewer, text);
        AppendStep(old(events), front + keys, back, front + keys + back);
        AppendAssoc(old(events), front, keys);
      }
    }

    /** `post(cmd)`: nothing at all unless the viewer runs and its window
        is known; then a newline, the command with a newline, and a space,
        with one warning per symbol of the command that has no key. */
    method Post(cmd: string)
      modifies this`events, this`log
      ensures !old(CanPost()) ==> events == old(events) && log == old(log)
      ensures old(CanPost()) ==>
        && events == old(events) + PostEvents(os, wid1, wid2.value, cmd)
        && log == old(log) + SymbolWarnings(Unsupported(os, cmd))
    {
      if cgxProcess.Some? && cgxProcess.value.returncode.None? && wid2.Some? {
        SendText("\n");
        SendText(cmd + "\n");
        SendText(" ");
        PostWarnings(os, cmd);
        ghost var sent1, sent2, sent3 := Send(os, wid1, wid2.value, "\n"), Send(os, wid1, wid2.value, cmd + "\n"), Send(os, wid1, wid2.value, " ");
        AppendStep(old(events), sent1 + sent2, sent3, sent1 + sent2 + sent3);
        AppendAssoc(old(events), sent1, sent2);
        ghost var warned1, warned2, warned3 :=
          SymbolWarnings(Unsupported(os, "\n")), SymbolWarnings(Unsupported(os, cmd + "\n")), SymbolWarnings(Unsupported(os, " "));
        AppendStep(old(log), warned1 + warned2, warned3, warned1 + warned2 + warned3);
        AppendAssoc(old(log), warned1, warned2);
      }
    }

    // ------------------------------------------------------ send_hotkey

    /** The press loop of `send_hotkey`: a fake KeyPress of every key's
        keysym, in order. */
    method PressKeys(keysyms: seq<string>)
      modifies this`events
      ensures events == old(events) + PressAll(keysyms)
    {
      for i := 0 to |keysyms|
        invariant events == old(events) + PressAll(keysyms[..i])
      {
        TakeOneMore(keysyms, i);
        events := events + [XFakeKeyPress(keysyms[i])];
        AppendStep(old(events), PressAll(keysyms[..i]), [XFakeKeyPress(keysyms[i])], PressAll(keysyms[..i + 1]));
      }
      assert keysyms[..|keysyms|] == keysyms;
    }

    /** The release loop of `send_hotkey`: a fake KeyRelease of every
        keysym, in reverse order. */
    method ReleaseKeys(keysyms: seq<string>)
      modifies this`events
      ensures events == old(events) + ReleaseAll(Reverse(keysyms))
    {
      var reversed := Reverse(keysyms);
      for i := 0 to |reversed|
        invariant events == old(events) + ReleaseAll(reversed[..i])
      {
        TakeOneMore(reversed, i);
        events := events + [XFakeKeyRelease(reversed[i])];
        AppendStep(old(events), ReleaseAll(reversed[..i]), [XFakeKeyRelease(reversed[i])], ReleaseAll(reversed[..i + 1]));
      }
      assert reversed[..|reversed|] == reversed;
    }

    /** The validation loop of `send_hotkey`: the first key the Linux
        table does not have, if any. */
    method FindUnsupportedKey(keys: seq<Symbol>) returns (missing: Option<Symbol>)
      ensures missing == FirstUnsupportedKey(keys)
    {
      for i := 0 to |keys|
        invariant FirstUnsupportedKey(keys) == FirstUnsupportedKey(keys[i..])
      {
        FirstUnsupportedFrom(keys, i);
        if LinuxKeyboard(keys[i]).None? {
          return Some(keys[i]);
        }
      }
      return None;
    }

    /** Linux `send_hotkey(*keys)`: when some key has no keysym, one warning
        naming the first such key and nothing sent; otherwise every key is
        pressed in order, released in reverse order, and the display
        synced. */
    method SendHotkey(keys: seq<Symbol>)
      requires os == Linux
      modifies this`events, this`log
      ensures FirstUnsupportedKey(keys).Some? ==>
        events == old(events) && log == old(log) + [KeyNotSupported(FirstUnsupportedKey(keys).value)]
      ensures FirstUnsupportedKey(keys).None? ==>
        events == old(events) + HotkeyEvents(keys) && log == old(log)
    {
      var missing := FindUnsupportedKey(keys);
      if missing.Some? {
        log := log + [KeyNotSupported(missing.value)];
        return;
      }
      var keysyms := Keysyms(keys);
      PressKeys(keysyms);
      ReleaseKeys(keysyms);
      events := events + [XSync];
      ghost var presses, releases := PressAll(keysyms), ReleaseAll(Reverse(keysyms));
      AppendStep(old(events), presses + releases, [XSync], presses + releases + [XSync]);
      AppendAssoc(old(events), presses, releases);
    }

    // ------------------------------------------------------------ align

    /** One iteration of an `align` loop: a known window is restored and
        given `rect`; an unknown one is skipped. */
    method PlaceWindow(target: Option<Wid>, rect: Rect)
      modifies this`events, this`log
      ensures events == old(events) + Place(os, target, rect, RestoreHotkey)
      ensures log == old(log)
    {
      if target.Some? {
        var w := target.value;
        if os == Linux {
          RestoreLinuxWindow(w, rect);
        } else {
          events := events + [ShowWindow(w, SwRestore), MoveWindow(w, rect)];
        }
      }
    }

    /** The Linux placement of a known window: focus it, send the restore
        hotkey, then configure it. */
    method RestoreLinuxWindow(w: Wid, rect: Rect)
      requires os == Linux
      modifies this`events, this`log
      ensures events == old(events) + ([XSetInputFocus(w)] + RestoreHotkey + [XConfigure(w, rect)])
      ensures log == old(log)
    {
      var focus, configure := [XSetInputFocus(w)], [XConfigure(w, rect)];
      events := events + focus;
      RestoreKeysSupported();
      SendHotkey(RestoreKeys);
      events := events + configure;
      AppendStep(old(events), focus + RestoreHotkey, configure, focus + RestoreHotkey + configure);
      AppendAssoc(old(events), focus, RestoreHotkey);
    }

    /** One loop of `align()`: every window of `windows` in turn is
        placed in `rect`. */
    method PlaceColumn(windows: seq<Option<Wid>>, rect: Rect)
      modifies this`events, this`log
      ensures events == old(events) + PlaceAll(os, windows, rect, RestoreHotkey)
      ensures log == old(log)
    {
      for i := 0 to |windows|
        invariant events == old(events) + PlaceAll(os, windows[..i], rect, RestoreHotkey)
        invariant log == old(log)
      {
        TakeOneMore(windows, i);
        PlaceWindow(windows[i], rect);
        AppendStep(old(events), PlaceAll(os, windows[..i], rect, RestoreHotkey), Place(os, windows[i], rect, RestoreHotkey),
          PlaceAll(os, windows[..i + 1], rect, RestoreHotkey));
      }
      assert windows[..|windows|] == windows;
    }

    /** `align()`: the main window and the keyword dialog to the left
        column, the viewer and the help browser to the right column. */
    method Align()
      modifies this`events, this`log
      ensures events == old(events) + AlignEvents(os, wid1, wid2, wid3, wid4, screenWidth, screenHeight)
      ensures log == old(log)
    {
      var left, right := LeftColumn(screenWidth, screenHeight), RightColumn(screenWidth, screenHeight);
      var dpi := DpiSetup(os);
      events := events + dpi;
      PlaceColumn([wid1, wid3], left);
      PlaceColumn([wid2, wid4], right);
      var sync := FinalSync(os);
      events := events + sync;
      var placeLeft, placeRight := PlaceAll(os, [wid1, wid3], left, RestoreHotkey), PlaceAll(os, [wid2, wid4], right, RestoreHotkey);
      AppendStep(old(events), dpi + placeLeft + placeRight, sync, dpi + placeLeft + placeRight + sync);
      AppendStep(old(events), dpi + placeLeft, placeRight, dpi + placeLeft + placeRight);
      AppendAssoc(old(events), dpi, placeLeft);
    }

    // ---------------------------------------------------------- get_wid

    /** Linux `get_wid`: the first window in client-list order whose name
        matches the title. */
    method LinuxGetWid(windows: seq<WindowInfo>, title: string) returns (found: Option<Wid>)
      ensures found == FirstMatch(windows, title)
    {
      found := None;
      var i := 0;
      while i < |windows|
        invariant 0 <= i <= |windows|
        invariant FirstMatch(windows[i..], title) == FirstMatch(windows, title)
      {
        assert windows[i..][1..] == windows[i + 1..];
        if TitleMatches(windows[i].name, title) {
          found := Some(windows[i].id);
          break;
        }
        i := i + 1;
      }
    }

    /** Windows `get_wid`: the enumeration callback records every visible
        matching window in `wid`, so the last one is returned. */
    method WindowsGetWid(windows: seq<WindowInfo>, title: string) returns (found: Option<Wid>)
      modifies this`wid
      ensures found == wid == LastVisibleMatch(windows, title)
    {
      wid := None;
      for i := 0 to |windows|
        invariant wid == LastVisibleMatch(windows[..i], title)
      {
        if windows[i].visible && TitleMatches(windows[i].name, title) {
          wid := Some(windows[i].id);
        }
        assert Init(windows[..i + 1]) == windows[..i] && Last(windows[..i + 1]) == windows[i];
      }
      assert windows[..|windows|] == windows;
      found := wid;
    }

    /** One lookup of the OS variant. */
    method GetWidOnce(windows: seq<WindowInfo>, title: string) returns (found: Option<Wid>)
      modifies this`wid
      ensures found == Probe(os, windows, title)
      ensures os == Windows ==> wid == found
      ensures os == Linux ==> wid == old(wid)
    {
      if os == Linux {
        found := LinuxGetWid(windows, title);
      } else {
        found := WindowsGetWid(windows, title);
      }
    }

    /** `get_wid` under `wid_wrapper`: probe every 100 ms against the window
        list of that moment until the window shows up or five seconds have
        passed, and log the outcome. */
    method GetWid(title: string, snapshots: seq<seq<WindowInfo>>, clock: seq<int>) returns (found: Option<Wid>)
      requires ClockAdvances(clock) && |snapshots| >= MaxProbes
      modifies this`wid, this`log
      ensures found == PollResult(Probes(os, snapshots, title), clock)
      ensures log == old(log) + PollLog(title, Probes(os, snapshots, title), clock)
      ensures os == Linux ==> wid == old(wid)
      ensures os == Windows ==> wid == Probes(os, snapshots, title)[StopFrom(Probes(os, snapshots, title), clock, 0)]
    {
      ghost var probes := Probes(os, snapshots, title);
      found := None;
      var k := 0;
      while found.None?
        invariant 0 <= k <= MaxProbes
        invariant found.None? ==> k < MaxProbes
        invariant forall j | 0 <= j < k && (found.None? || j < k - 1) :: clock[j] <= Deadline && probes[j].None?
        invariant found.Some? ==> 0 < k && found == probes[k - 1] && clock[k - 1] <= Deadline
        invariant log == old(log)
        invariant os == Linux ==> wid == old(wid)
        invariant os == Windows && k > 0 ==> wid == probes[k - 1]
        decreases MaxProbes - k
      {
        found := GetWidOnce(snapshots[k], title);
        if clock[k] > Deadline {
          StopAtFirst(probes, clock, k);
          log := log + [CantGetWindow(title), WindowListDump, CommunicationWillNotWork(title)];
          return None;
        }
        k := k + 1;
      }
      StopAtFirst(probes, clock, k - 1);
      log := log + [FoundWindow(title, found.value)];
    }

    // ---------------------------------------------- stop_stdout_readers

    /** `stop_stdout_readers()`: every reader active on entry is stopped,
        and their names are logged together; with none active nothing is
        logged. Afterwards no reader of the list is active. */
    method StopStdoutReaders()
      modifies this`log, stdoutReaders
      ensures log == old(log) + StopLog(old(ActiveNames(stdoutReaders)))
      ensures forall r | r in stdoutReaders :: !r.active
    {
      var readers := AliveReaders();
      if |readers| > 0 {
        assert forall j | 0 <= j < |readers| :: readers[j] in stdoutReaders;
        var names := StopReaders(readers);
        log := log + [StoppingThreads(names)];
      }
    }

    /** The first loop of `stop_stdout_readers`: the readers still alive,
        in order. */
    method AliveReaders() returns (readers: seq<StdoutReader>)
      ensures Names(readers) == ActiveNames(stdoutReaders)
      ensures forall r | r in readers :: r in stdoutReaders
      ensures forall r | r in stdoutReaders && r.active :: r in readers
    {
      readers := [];
      for i := 0 to |stdoutReaders|
        invariant Names(readers) == ActiveNames(stdoutReaders[..i])
        invariant forall r | r in readers :: r in stdoutReaders
        invariant forall r | r in stdoutReaders[..i] && r.active :: r in readers
      {
        var r := stdoutReaders[i];
        TakeOneMore(stdoutReaders, i);
        if r.active {
          TakeOneMore(readers + [r], |readers|);
          readers := readers + [r];
        }
      }
      assert stdoutReaders[..|stdoutReaders|] == stdoutReaders;
    }

    // ---------------------------------------------------------- run_cgx

    /** The start of `run_cgx` once the executable exists: the viewer
        process is started, its window polled for, and a thread relaying
        its output added and started. */
    method StartViewer(pid: int, snapshots: seq<seq<WindowInfo>>, clock: seq<int>)
      requires ClockAdvances(clock) && |snapshots| >= MaxProbes
      modifies this`cgxProcess, this`wid2, this`wid, this`stdoutReaders, this`log
      ensures cgxProcess == Some(Process(pid, None))
      ensures wid2 == PollResult(Probes(os, snapshots, ViewerTitle), clock)
      ensures os == Linux ==> wid == old(wid)
      ensures os == Windows ==>
        wid == Probes(os, snapshots, ViewerTitle)[StopFrom(Probes(os, snapshots, ViewerTitle), clock, 0)]
      ensures |stdoutReaders| == |old(stdoutReaders)| + 1 && stdoutReaders[..|old(stdoutReaders)|] == old(stdoutReaders)
      ensures fresh(Last(stdoutReaders)) && Last(stdoutReaders).active && Last(stdoutReaders).name == ReaderName
      ensures log == old(log) + [CgxPid(pid)] + PollLog(ViewerTitle, Probes(os, snapshots, ViewerTitle), clock)
    {
      cgxProcess := Some(Process(pid, None));
      log := log + [CgxPid(pid)];
      wid2 := GetWid(ViewerTitle, snapshots, clock);
      var reader := new StdoutReader(ReaderName);
      stdoutReaders := stdoutReaders + [reader];
      reader.Start();
    }

    /** The rest of `run_cgx`: the windows are aligned when the settings
        ask for it, then the two configuration files are read. */
    method SetUpViewer(alignWindows: bool, isoPath: string, isoExists: bool, colorsPath: string, colorsExists: bool)
      requires cgxProcess.Some? && cgxProcess.value.returncode.None?
      modifies this`events, this`log
      ensures events == old(events)
        + (if alignWindows then AlignEvents(os, wid1, wid2, wid3, wid4, screenWidth, screenHeight) else [])
        + ConfigEvents(os, wid1, wid2, isoExists, isoPath)
        + ConfigEvents(os, wid1, wid2, colorsExists, colorsPath)
      ensures log == old(log)
        + ConfigLog(os, wid2, isoExists, isoPath, IsoConfig)
        + ConfigLog(os, wid2, colorsExists, colorsPath, ColorsConfig)
    {
      ghost var aligning: seq<Event> := [];
      if alignWindows {
        Align();
        aligning := AlignEvents(os, wid1, wid2, wid3, wid4, screenWidth, screenHeight);
      }
      assert events == old(events) + aligning;
      ReadConfig(isoExists, isoPath, IsoConfig);
      assert events == old(events) + aligning + ConfigEvents(os, wid1, wid2, isoExists, isoPath);
      ReadConfig(colorsExists, colorsPath, ColorsConfig);
    }

    /** One configuration file of `run_cgx`: when it exists its path is
        posted as a `read` command, otherwise an error is logged. The
        viewer is taken to be still running here, so only a missing window
        keeps the command from being sent. */
    method ReadConfig(fileExists: bool, path: string, file: string)
      requires cgxProcess.Some? && cgxProcess.value.returncode.None?
      modifies this`events, this`log
      ensures events == old(events) + ConfigEvents(os, wid1, wid2, fileExists, path)
      ensures log == old(log) + ConfigLog(os, wid2, fileExists, path, file)
    {
      if fileExists {
        Post("read " + path);
      } else {
        log := log + [NoConfigFile(file)];
      }
    }


    /** `run_cgx`: with no executable, an error and nothing else. Otherwise
        the viewer is started, its window polled for, a relay thread added
        and started, the windows aligned when the settings ask for it, the
        two configuration files read into the viewer (or their absence
        logged), and the mode set to the caller's name. */
    method RunCgx(cgxExists: bool, pid: int, snapshots: seq<seq<WindowInfo>>, clock: seq<int>,
                  alignWindows: bool, isoPath: string, isoExists: bool,
                  colorsPath: string, colorsExists: bool, caller: string)
      requires ClockAdvances(clock) && |snapshots| >= MaxProbes
      modifies this`cgxProcess, this`wid2, this`wid, this`stdoutReaders, this`mode, this`events, this`log
      ensures !cgxExists ==>
        && log == old(log) + [CgxNotFound(cgxPath)]
        && events == old(events) && cgxProcess == old(cgxProcess) && wid2 == old(wid2)
        && stdoutReaders == old(stdoutReaders) && mode == old(mode) && wid == old(wid)
      ensures cgxExists ==>
        var probes := Probes(os, snapshots, ViewerTitle);
        && cgxProcess == Some(Process(pid, None))
        && wid2 == PollResult(probes, clock)
        && (os == Linux ==> wid == old(wid))
        && (os == Windows ==> wid == probes[StopFrom(probes, clock, 0)])
        && |stdoutReaders| == |old(stdoutReaders)| + 1
        && stdoutReaders[..|old(stdoutReaders)|] == old(stdoutReaders)
        && fresh(Last(stdoutReaders)) && Last(stdoutReaders).active && Last(stdoutReaders).name == ReaderName
        && events == old(events)
             + (if alignWindows then AlignEvents(os, wid1, wid2, wid3, wid4, screenWidth, screenHeight) else [])
             + ConfigEvents(os, wid1, wid2, isoExists, isoPath)
             + ConfigEvents(os, wid1, wid2, colorsExists, colorsPath)
        && log == old(log) + [CgxPid(pid)] + PollLog(ViewerTitle, probes, clock)
             + ConfigLog(os, wid2, isoExists, isoPath, IsoConfig)
             + ConfigLog(os, wid2, colorsExists, colorsPath, ColorsConfig)
        && mode == Some(caller)
    {
      if !cgxExists {
        log := log + [CgxNotFound(cgxPath)];
        return;
      }
      StartViewer(pid, snapshots, clock);
      SetUpViewer(alignWindows, isoPath, isoExists, colorsPath, colorsExists);
      mode := Some(caller);
    }
  }
}
