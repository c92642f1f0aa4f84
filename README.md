# CAE main window: driving the CalculiX GraphiX viewer

This project is a Dafny model of the window layer of the CAE GUI
(`src/gui/window.py`). The CAE application does not embed the CalculiX GraphiX
(CGX) viewer. It starts CGX as a separate process, finds the viewer's window by
its title, and arranges the windows on the screen. It then "types" commands
into the viewer by sending it synthetic key events: X events on Linux, Win32
`keybd_event` calls on Windows.

The model replaces every OS call by an abstract `Event` value. Each operation
is specified by the sequence of events and log records it produces. The pieces
are:

- **Keyboard tables** (`Keyboard`, `Tables`): one per OS. Each maps a symbol (a
  character, or the name of a non-printable key) to a native key and a shift
  flag. `Tables` models the loops that fill each dictionary, and proves that
  the result is the lookup function `Keyboard` defines.
- **Posting** (`Posting`; methods `SendKey`, `TypeText`, `SendText`, `Post` of
  `MainWindow.Window`): `post(cmd)` sends "\n", then cmd + "\n", then " ".
  Each character becomes key events, or becomes a warning when the table has
  no key for it.
- **Hotkeys** (`Posting`; methods `PressKeys`, `ReleaseKeys`, `SendHotkey`):
  the hotkey is validated all-or-nothing. The keys are then pressed in order
  and released in reverse order.
- **Window titles** (`Titles`): the case-insensitive full match of
  `(\S+ - )*title( - \S+)*` is written as a deterministic matcher. It is proved
  equal to the language it denotes. A lookup takes the first match on Linux
  and the last visible match on Windows.
- **Polling** (`Polling`; method `GetWid`): the wrapper probes every 100 ms
  until it finds the window or five seconds have passed.
- **Layout** (`Layout`, `Aligning`; methods `PlaceWindow`, `PlaceColumn`,
  `Align`): the left third of the screen holds the main window and the keyword
  dialog; the right two thirds hold the viewer and the help browser.
- **Session state** (`MainWindow.Window`, `MainWindow.StdoutReader`): a class
  holding:
  - the four window ids and the viewer process;
  - the output-relay threads;
  - the mode;
  - the events and log records produced so far.

  `run_cgx` and `stop_stdout_readers` are methods of this class.

The source has one base class and two OS subclasses. The model has a single
class with a constant `os` that selects the Linux or the Windows behaviour.

Three kinds of input are method parameters rather than calls:

- The window lists the OS would enumerate at each probe (`snapshots`).
- The clock readings after each probe, in milliseconds (`clock`).
- The results of the file-existence checks (`cgxExists`, `isoExists`,
  `colorsExists`).

The process id the OS assigns is a parameter too.

Two behaviours of the code are worth stating:

- **Discarded probe.** The polling loop checks the clock after each probe. A
  window found by the probe after which more than five seconds have passed is
  therefore discarded, and the lookup reports failure (`LateWindowIsDiscarded`).
- **Newline and carriage return on Linux.** The Linux table types both as
  `Return`, so the Linux keystroke encoding cannot be inverted
  (`LinuxReturnIsShared`). The Windows encoding can be inverted
  (`WindowsKeystrokeRoundTrip`).

## Model

| member | source | states |
|---|---|---|
| Keyboard.LinuxAlphanumeric | src/gui/window.py:253-256 | Linux: digits and lower-case letters are typed by their own keysym unshifted, upper-case letters by their own keysym shifted |
| Keyboard.WindowsAlphanumeric | src/gui/window.py:427-432 | Windows: a lower-case letter is the key of its upper-case letter with shift 0, and the upper-case letter has the same key with shift 1; a digit is its own code, unshifted |
| Keyboard.LoopsDoNotOverwriteLiteral | src/gui/window.py:251-256 | the loops that extend each dictionary (the Linux loops here, and the Windows loops at lines 427-432) never replace an entry of its literal part |
| Keyboard.WindowsNeverShiftKey | src/gui/window.py:486-491 | no Windows entry uses the Shift key's own code, so the Shift bracket never presses or releases the symbol's key |
| Keyboard.WindowsShiftedSharesBaseKey | src/gui/window.py:385-426 | every shifted Windows entry is Shift plus the key of its unshifted US-layout partner, which is itself in the table |
| Keyboard.WindowsKeystrokeRoundTrip | src/gui/window.py:385-432 | reading a Windows keystroke back gives the character typed, so no two characters share a (code, shift) pair |
| Keyboard.LinuxReturnIsShared | src/gui/window.py:205-206 | on Linux "\n" and "\r" are both typed as Return, so the Linux encoding is not injective |
| Keyboard.FramingKeysSupported | src/gui/window.py:180-186 | the framing characters "\n" and " " have keys on both systems, and the restore hotkey keys Super_L and Down are in the Linux table |
| Tables.AddCharacters | src/gui/window.py:253-256 | a `for c in chars: table[c] = entry` loop: every character of the run gets its entry and every other key keeps its own |
| Tables.AddNames | src/gui/window.py:251-252 | the KEY_NAMES loop: every named key maps to its own keysym unshifted and every other key keeps its entry |
| Tables.BuildLinuxKeyboard | src/gui/window.py:203-256 | the literal dictionary extended by the three Linux loops answers every lookup as the table `LinuxKeyboard` does |
| Tables.BuildWindowsKeyboard | src/gui/window.py:385-432 | the literal dictionary extended by the three Windows loops answers every lookup as the table `WindowsKeyboard` does |
| Layout.FloorDiv | src/gui/window.py:361 | the quotient q satisfies d*q <= n < d*(q+1): `math.floor` of an exact division |
| Layout.CeilDiv | src/gui/window.py:373 | the quotient q satisfies d*q >= n and d*(q-1) < n: `math.ceil` of an exact division |
| Layout.LeftColumn | src/gui/window.py:360-362 | the left column is at x = 0, y = 0, full height, with width floor(W/3) |
| Layout.RightColumn | src/gui/window.py:373-375 | the right column is at x = ceil(W/3), y = 0, full height, with width floor(2W/3) |
| Layout.ColumnsTileScreen | src/gui/window.py:355-375 | the right column starts at or after the end of the left one, at most one pixel later, and ends exactly at W; both columns lie on the screen |
| Logs.SymbolWarnings | src/gui/window.py:326 | one warning record per unsupported symbol |
| Posting.EverySymbolAccountedFor | src/gui/window.py:314-330 | every character of a command is either typed or warned about, never both; typed characters have a key and warned-about ones do not |
| Posting.LinuxKeyEventsArePairs | src/gui/window.py:314-330 | on Linux the events for a text are one KeyPress and one KeyRelease per typed character, in order, with that character's keysym and shift state |
| Posting.LinuxSkipsUnsupported | src/gui/window.py:325-330 | an unsupported symbol sends nothing and does not stop the symbols after it |
| Posting.WindowsSymbolShape | src/gui/window.py:482-493 | Windows: a shifted symbol is Shift-down, key-down, key-up, Shift-up and an unshifted one is key-down, key-up; Shift is held exactly while a shifted key goes down; an unmapped symbol sends nothing |
| Posting.WindowsKeyEventsReleaseAll | src/gui/window.py:482-498 | after typing any text on Windows no key is left held |
| Posting.LinuxKeyEventsReleaseAll | src/gui/window.py:314-330 | after typing any text on Linux no key is left held |
| Posting.SendKeystrokes | src/gui/window.py:328-331 | the keystrokes of one inner `post` are exactly those of its text, and no key is left held |
| Posting.PostDeliversFramedText | src/gui/window.py:172-190 | the keystrokes of `post(cmd)` are those of "\n" + cmd + "\n" + " " in order and no key is left held; on Linux the last event is a sync; on Windows the viewer gets the foreground first and the main window gets it last |
| Posting.PostWarnsAboutCommandOnly | src/gui/window.py:179-186 | the three sends of `post(cmd)` warn about exactly the unsupported symbols of cmd |
| Posting.FirstUnsupportedKeyIsFirst | src/gui/window.py:335-338 | None exactly when every hotkey key is in the Linux table; otherwise the first key that is not |
| Posting.NestedShape | src/gui/window.py:339-350 | the events of a hotkey (those of its keys' keysyms) are one press and one release per keysym and end with a sync |
| Posting.NestedPresses | src/gui/window.py:339-343 | a hotkey presses keysym i at position i |
| Posting.NestedReleases | src/gui/window.py:344-348 | a hotkey then releases the keysyms in reverse order |
| Posting.HotkeyReleasesAll | src/gui/window.py:339-348 | once all presses are sent, exactly the hotkey's keys are held; at the end none is |
| Titles.FullMatchIsPattern | src/gui/window.py:272-273 | the deterministic matcher accepts a name exactly when it is words joined by " - ", then the title, then more " - "-joined words |
| Titles.TitleMatchesIsPattern | src/gui/window.py:449-450 | a window name matches a title exactly when, both lower-cased, the name is in the language of `(\S+ - )*title( - \S+)*` |
| Titles.BareTitleMatches | src/gui/window.py:272-273 | "viewer" matches "viewer" |
| Titles.PrefixedTitleMatches | src/gui/window.py:272-273 | "model - viewer" matches "viewer" |
| Titles.SuffixedTitleMatches | src/gui/window.py:272-273 | "viewer - unsaved" matches "viewer" |
| Titles.TitleCaseIgnored | src/gui/window.py:272-273 | for all names and titles, two names with the same lower-case form and two titles with the same lower-case form give the same match answer |
| Titles.MixedCaseTitleMatches | src/gui/window.py:272-273 | example: "CalculiX GraphiX" matches the title "calculix GRAPHIX" |
| Titles.LongerWordDoesNotMatch | src/gui/window.py:272-273 | "viewers" does not match "viewer": the match is a full match |
| Titles.FirstMatchIsFirst | src/gui/window.py:265-276 | Linux: None exactly when no window matches; otherwise the id of a matching window with no match before it |
| Titles.NoVisibleMatch | src/gui/window.py:443-455 | Windows: None exactly when no visible window matches |
| Titles.LastVisibleMatchIsLast | src/gui/window.py:443-455 | Windows: when a window is found, it is the id of a visible matching window with no visible match after it |
| Titles.SingleMatchAgrees | src/gui/window.py:443-455 | when exactly one window matches and it is visible, both systems choose it |
| Titles.Probes | src/gui/window.py:154-156 | one lookup result per window-list snapshot |
| Polling.StopFrom | src/gui/window.py:154-163 | the loop stops at the first iteration that finds the window or passes the deadline |
| Polling.PollFindsFirstInTime | src/gui/window.py:152-166 | polling returns window w exactly when some probe finds w in time and every earlier probe, also in time, found nothing |
| Polling.PollTimesOut | src/gui/window.py:157-163 | polling returns None exactly when the deadline passes before any probe has found the window |
| Polling.LateWindowIsDiscarded | src/gui/window.py:156-157 | for any probe k: when every earlier probe was in time and found nothing, and probe k finds a window but the clock is past the deadline after it, polling returns None |
| Aligning.PlacePair | src/gui/window.py:355-362 | one column loop places its two windows in order |
| Aligning.RestoreKeysSupported | src/gui/window.py:359 | the restore hotkey Super_L + Down passes validation |
| Aligning.RestoreHotkeyEvents | src/gui/window.py:334-350 | the restore hotkey `send_hotkey('Super_L', 'Down')` sends exactly: press Super_L, press Down, release Down, release Super_L, sync |
| Aligning.RestoreHotkeyIsNeutral | src/gui/window.py:359 | the restore hotkey moves no window and leaves no key held |
| Aligning.NestedMovesNothing | src/gui/window.py:339-350 | no hotkey moves a window |
| Aligning.FocusRestoreConfigure | src/gui/window.py:357-362 | focus, a neutral hotkey, then configure moves exactly that window, once |
| Aligning.LinuxPlaceMovesOnlyIt | src/gui/window.py:356-362 | Linux placement of a known window, with restore keys that move nothing and release what they press, moves exactly that window to the rectangle and leaves no key held |
| Aligning.WindowsPlaceMovesOnlyIt | src/gui/window.py:507-511 | Windows placement of a known window moves exactly that window to the rectangle |
| Aligning.PlaceMovesOnlyIt | src/gui/window.py:368-375 | placement moves a known window once and skips an unknown one |
| Aligning.PlaceReleasesAll | src/gui/window.py:368-375 | placing a window, known or not, leaves no key held |
| Aligning.AlignWithMoves | src/gui/window.py:354-376 | the window moves of `align` for any neutral restore key sequence: each known window once, in the order wid1, wid3, wid2, wid4 |
| Aligning.AlignWithKeys | src/gui/window.py:354-376 | `align` with any neutral restore key sequence leaves no key held |
| Aligning.AlignMovesKnownWindows | src/gui/window.py:354-376 | `align` moves each known window once, in the order wid1, wid3, wid2, wid4: the first two to the left column, the others to the right; unknown ids are skipped |
| Aligning.AlignReleasesAllKeys | src/gui/window.py:354-376 | after `align`, including its Super+Down restores on Linux, no key is left held |
| Aligning.AlignMainWindowOnly | src/gui/window.py:506-511 | with only the main window known, it alone is moved, to x = 0 with width floor(W/3) |
| MainWindow.ActiveNamesAreActive | src/gui/window.py:132-133 | the names logged are empty exactly when no reader is active, and each is the name of an active reader |
| MainWindow.FirstUnsupportedFrom | src/gui/window.py:335-338 | the first unsupported key from a position on is the key there when it is unsupported, and otherwise the first one after it: what lets the validation loop stop at the first unsupported key |
| MainWindow.PostWarnings | src/gui/window.py:179-186 | the warning records of the three sends are those of the command alone |
| MainWindow.StdoutReader.constructor | src/gui/window.py:105-106 | a new reader has the given name and is not yet active |
| MainWindow.StdoutReader.Start | src/gui/window.py:108 | a started reader is active |
| MainWindow.StdoutReader.Stop | src/gui/window.py:137 | a stopped reader is no longer active |
| MainWindow.Window.constructor | src/gui/window.py:55-76 | a new window knows no window ids, no process, no readers and no mode, and has produced no events or log records |
| MainWindow.Window.SendKey | src/gui/window.py:314-326 | `sendkey` appends the events of one character, or one warning when the table has no key for it |
| MainWindow.Window.TypeText | src/gui/window.py:329-330 | the loop appends the key events of the whole text and one warning per unsupported symbol |
| MainWindow.Window.SendText | src/gui/window.py:478-499 | the inner `post` appends exactly `Send` of its text: on Windows (these lines) foreground to the viewer, keys, foreground to the main window; on Linux (lines 299-331) keys then a sync |
| MainWindow.Window.Post | src/gui/window.py:172-190 | nothing changes unless the process exists, is running and the viewer's window is known; otherwise it appends `PostEvents(cmd)` and the warnings for cmd |
| MainWindow.Window.FindUnsupportedKey | src/gui/window.py:335-338 | the validation loop returns the first key the Linux table lacks, and nothing when every key is present |
| MainWindow.Window.PressKeys | src/gui/window.py:339-343 | appends a press of every keysym of the hotkey, in order |
| MainWindow.Window.ReleaseKeys | src/gui/window.py:344-348 | appends a release of every keysym of the hotkey, in reverse order |
| MainWindow.Window.SendHotkey | src/gui/window.py:334-350 | with an unsupported key: one warning naming the first one and no events; otherwise the nested hotkey events and no warning |
| MainWindow.Window.PlaceWindow | src/gui/window.py:356-362 | appends the placement events of one window, or nothing for an unknown id |
| MainWindow.Window.RestoreLinuxWindow | src/gui/window.py:357-362 | Linux placement of a known window: appends exactly the focus call, the restore hotkey's events and the configure call with the rectangle, and logs nothing |
| MainWindow.Window.PlaceColumn | src/gui/window.py:368-375 | appends the placement events of every window of a column, in order |
| MainWindow.Window.Align | src/gui/window.py:504-519 | appends exactly `AlignEvents` for the current window ids and screen size and logs nothing, on Windows (these lines) and on Linux (lines 354-376) |
| MainWindow.Window.LinuxGetWid | src/gui/window.py:260-276 | the result is the first matching window of the list |
| MainWindow.Window.WindowsGetWid | src/gui/window.py:436-455 | the enumeration leaves the last visible matching window in `wid` and returns it |
| MainWindow.Window.GetWidOnce | src/gui/window.py:436-455 | one lookup gives `Probe` of the OS; only the Windows variant writes `wid` |
| MainWindow.Window.GetWid | src/gui/window.py:152-166 | polling returns `PollResult` of the probes and logs `PollLog`: the window id, or an error, the window list and a warning |
| MainWindow.Window.StopStdoutReaders | src/gui/window.py:131-139 | every reader active on entry is stopped, their names are logged in one record (none when none was active), and afterwards no reader is active |
| MainWindow.Window.AliveReaders | src/gui/window.py:132 | the comprehension returns readers of the list only, includes every active one, and their names are exactly the names of the active readers, in list order |
| MainWindow.StopReaders | src/gui/window.py:134-137 | the stop loop returns the readers' names in order and leaves every one of them inactive |
| MainWindow.Window.StartViewer | src/gui/window.py:86-108 | the process is recorded as running and its pid logged; wid2 becomes the polling result; on Windows `wid` holds the last probe's answer, on Linux it is unchanged; a new, active reader named read_cgx_stdout is appended |
| MainWindow.Window.ReadConfig | src/gui/window.py:113-118 | an existing configuration file is posted as a `read` command; a missing one is logged as an error |
| MainWindow.Window.SetUpViewer | src/gui/window.py:110-126 | aligns when the settings ask for it, then reads iso.fbd and colors.fbd in that order |
| MainWindow.Window.RunCgx | src/gui/window.py:80-129 | without the executable: one error and no other change; otherwise the viewer is started, polled for (wid2 the polling result; on Windows `wid` the last probe's answer), relayed, aligned, configured, and the mode set to the caller |

## Left out

- Xlib, ctypes and user32 are replaced by abstract `Event` constructors. This covers `send_event`, `fake_input`, `keybd_event`, `SetForegroundWindow`, `MoveWindow`, `ShowWindow`, `configure` and `set_input_focus`. `XK.string_to_keysym` and `keysym_to_keycode` are not modelled: a key event carries the keysym name, not a keycode.
- `time.sleep` is not modelled. `time.perf_counter` becomes a sequence of integer clock readings in milliseconds, each taken after at least one more 100 ms sleep.
- `subprocess.Popen` and the command line it receives are not modelled. The process id is a parameter, and the process is taken to be running right after the start. A process that dies later is seen only through `returncode` in `CanPost`.
- MainWindow.Window.ReadConfig: the viewer is taken to keep running until `run_cgx` returns, and the method requires a running process. The `poll()` part of the post guard (src/gui/window.py:175-177) is therefore never false for the two configuration posts at src/gui/window.py:115 and 123. In the source, a viewer that exits after its window is found but before those posts gets nothing posted; that case is not modelled.
- MainWindow.Window.SetUpViewer: it requires a running process in the same way, so a viewer that exits during `align` or between the two configuration posts is not modelled.
- The output of `CgxStdoutReader` (gui.log is not part of this model) is not modelled. Only the reader's name and its active flag are, plus the `start` and `stop` calls; the threads and their concurrency are not.
- `gui.cgx.kill`, called by `run_cgx` before it starts a new viewer, is not part of this model. Its effect on the previous process and readers is not captured.
- The `time.sleep(1)` after stopping the readers, and the text layout of the log messages, are not modelled. Hex formatting of ids and multi-line message text are among them. Each log call is one `LogRecord`.
- `log_window_list` is recorded as one `WindowListDump` record; the window list it prints is not modelled.
- `inspect.stack()` is not modelled: the caller's name is a parameter of `RunCgx`.
- `help` and `webbrowser.open` are not modelled.
- The Qt form, the log handler and the screen geometry are not modelled. The available screen size is a constant of the window.
- `os.path.isfile` and `os.path.join` are replaced by boolean parameters and by the paths of the two configuration files.
- A title containing regular-expression metacharacters is not modelled: the title is matched literally.
- Lower-casing covers ASCII letters only; `str.lower` of other letters is not modelled.
- Tables.BuildLinuxKeyboard: the literal dictionary is a parameter whose contents the precondition states, not a map display in the method body.
- Tables.BuildWindowsKeyboard: the literal dictionary is a parameter in the same way.
- MainWindow.Window.RunCgx: operating systems other than Linux and Windows are not modelled.
- Every window in the Linux client list is taken to have a readable name. When `_NET_WM_NAME` cannot be read, `get_wid` falls back to `get_wm_name()` outside its `try` (src/gui/window.py:267-273). That call may return None or raise, for example for a window closed during the enumeration, and the exception then escapes `get_wid`, the polling loop and `run_cgx`. `FirstMatch`, `GetWid` and `RunCgx` always return here; that aborting outcome is not modelled.
- `src/cae.py`, `src/model/__init__.py` and `src/test/test_gui_job.py` are outside the window layer and are not modelled.
