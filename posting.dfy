/** What posting a command and sending a hotkey put on the wire, as
    functions of the text, the keyboard table and the window handles. The
    methods of `MainWindow.Window` produce these sequences with loops. */
module Posting {
  import opened Common
  import opened Keyboard
  import opened Events

  // ---------------------------------------------------------------- Linux

  /** Linux `sendkey`: a mapped symbol becomes a KeyPress followed by a
      KeyRelease sent to the window, with the same keysym and shift state;
      an unmapped symbol sends nothing (it is warned about instead). */
  function LinuxSymbolEvents(win: Wid, c: char): seq<Event> {
    match LinuxKeyboard(Char(c))
    case None => []
    case Some(k) => [XKeyPress(win, k.keysym, k.shift), XKeyRelease(win, k.keysym, k.shift)]
  }

  /** The events of Linux `sendkey` applied to every character of `text`. */
  function LinuxKeyEvents(win: Wid, text: string): seq<Event>
    decreases |text|
  {
    if text == [] then [] else LinuxKeyEvents(win, Init(text)) + LinuxSymbolEvents(win, Last(text))
  }

  /** One call of the inner Linux `post`: the key events, then a sync. */
  function LinuxSend(win: Wid, text: string): seq<Event> {
    LinuxKeyEvents(win, text) + [XSync]
  }

  // -------------------------------------------------------------- Windows

  /** Windows `sendkey`: key-down and key-up of the virtual key, bracketed
      by Shift-down and Shift-up when the entry is shifted. */
  function WindowsSymbolEvents(c: char): seq<Event> {
    match WindowsKeyboard(Char(c))
    case None => []
    case Some(k) =>
      if k.shift == 1 then
        [KeybdEvent(VkShift, KeyDown), KeybdEvent(k.code, KeyDown), KeybdEvent(k.code, KeyUp), KeybdEvent(VkShift, KeyUp)]
      else
        [KeybdEvent(k.code, KeyDown), KeybdEvent(k.code, KeyUp)]
  }

  function WindowsKeyEvents(text: string): seq<Event>
    decreases |text|
  {
    if text == [] then [] else WindowsKeyEvents(Init(text)) + WindowsSymbolEvents(Last(text))
  }

  /** One call of the inner Windows `post`: bring the viewer to the
      foreground, inject the keys, give the foreground back to the main
      window. */
  function WindowsSend(mainWid: Option<Wid>, viewerWid: Wid, text: string): seq<Event> {
    [SetForegroundWindow(Some(viewerWid))] + WindowsKeyEvents(text) + [SetForegroundWindow(mainWid)]
  }

  // --------------------------------------------------------------- common

  /** The keystrokes `sendkey` of `os` produces for `text`. */
  function KeyEvents(os: Os, viewerWid: Wid, text: string): seq<Event> {
    match os
    case Linux => LinuxKeyEvents(viewerWid, text)
    case Windows => WindowsKeyEvents(text)
  }

  /** One call of the inner `post` of `os`. */
  function Send(os: Os, mainWid: Option<Wid>, viewerWid: Wid, text: string): seq<Event> {
    match os
    case Linux => LinuxSend(viewerWid, text)
    case Windows => WindowsSend(mainWid, viewerWid, text)
  }

  /** The symbols of `text` that the table of `os` cannot type, in order:
      one warning each. */
  function Unsupported(os: Os, text: string): seq<Symbol>
    decreases |text|
  {
    if text == [] then []
    else Unsupported(os, Init(text)) + (if Supports(os, Char(Last(text))) then [] else [Char(Last(text))])
  }

  /** The characters of `text` that the table of `os` can type, in order. */
  function Supported(os: Os, text: string): string
    decreases |text|
  {
    if text == [] then []
    else Supported(os, Init(text)) + (if Supports(os, Char(Last(text))) then [Last(text)] else [])
  }

  /** Every symbol is either typed or warned about, never both and never
      neither. */
  lemma {:induction false} EverySymbolAccountedFor(os: Os, text: string)
    ensures |Supported(os, text)| + |Unsupported(os, text)| == |text|
    ensures forall c | c in Supported(os, text) :: Supports(os, Char(c))
    ensures forall s | s in Unsupported(os, text) :: s.Char? && !Supports(os, s)
    decreases |text|
  {
    if text != [] {
      EverySymbolAccountedFor(os, Init(text));
    }
  }

  lemma {:induction false} UnsupportedAppend(os: Os, a: string, b: string)
    ensures Unsupported(os, a + b) == Unsupported(os, a) + Unsupported(os, b)
    ensures Supported(os, a + b) == Supported(os, a) + Supported(os, b)
    decreases |b|
  {
    if b == [] {
      assert a + b == a;
    } else {
      InitOfAppend(a, b);
      UnsupportedAppend(os, a, Init(b));
    }
  }

  lemma {:induction false} LinuxKeyEventsAppend(win: Wid, a: string, b: string)
    ensures LinuxKeyEvents(win, a + b) == LinuxKeyEvents(win, a) + LinuxKeyEvents(win, b)
    decreases |b|
  {
    if b == [] {
      assert a + b == a;
    } else {
      InitOfAppend(a, b);
      LinuxKeyEventsAppend(win, a, Init(b));
      AppendAssoc(LinuxKeyEvents(win, a), LinuxKeyEvents(win, Init(b)), LinuxSymbolEvents(win, Last(b)));
    }
  }

  lemma {:induction false} WindowsKeyEventsAppend(a: string, b: string)
    ensures WindowsKeyEvents(a + b) == WindowsKeyEvents(a) + WindowsKeyEvents(b)
    decreases |b|
  {
    if b == [] {
      assert a + b == a;
    } else {
      InitOfAppend(a, b);
      WindowsKeyEventsAppend(a, Init(b));
      AppendAssoc(WindowsKeyEvents(a), WindowsKeyEvents(Init(b)), WindowsSymbolEvents(Last(b)));
    }
  }

  lemma KeyEventsAppend(os: Os, viewerWid: Wid, a: string, b: string)
    ensures KeyEvents(os, viewerWid, a + b) == KeyEvents(os, viewerWid, a) + KeyEvents(os, viewerWid, b)
  {
    if os == Linux { LinuxKeyEventsAppend(viewerWid, a, b); } else { WindowsKeyEventsAppend(a, b); }
  }

  /** Linux: the key events of `text` are exactly one press/release pair per
      supported symbol, in the order of the text, each pair carrying that
      symbol's keysym and shift state; unsupported symbols leave no gap and
      do not stop the symbols after them. */
  lemma {:induction false} LinuxKeyEventsArePairs(win: Wid, text: string)
    ensures var typed := Supported(Linux, text);
      var events := LinuxKeyEvents(win, text);
      && |events| == 2 * |typed|
      && forall i | 0 <= i < |typed| ::
           LinuxKeyboard(Char(typed[i])).Some?
           && events[2 * i] == XKeyPress(win, LinuxKeyboard(Char(typed[i])).value.keysym, LinuxKeyboard(Char(typed[i])).value.shift)
           && events[2 * i + 1] == XKeyRelease(win, LinuxKeyboard(Char(typed[i])).value.keysym, LinuxKeyboard(Char(typed[i])).value.shift)
    decreases |text|
  {
    if text != [] {
      LinuxKeyEventsArePairs(win, Init(text));
      var before := Supported(Linux, Init(text));
      var c := Last(text);
      if Supports(Linux, Char(c)) {
        var typed := Supported(Linux, text);
        var events := LinuxKeyEvents(win, text);
        var k := LinuxKeyboard(Char(c)).value;
        assert typed == before + [c];
        assert events == LinuxKeyEvents(win, Init(text)) + [XKeyPress(win, k.keysym, k.shift), XKeyRelease(win, k.keysym, k.shift)];
        forall i | 0 <= i < |typed|
          ensures LinuxKeyboard(Char(typed[i])).Some?
            && events[2 * i] == XKeyPress(win, LinuxKeyboard(Char(typed[i])).value.keysym, LinuxKeyboard(Char(typed[i])).value.shift)
            && events[2 * i + 1] == XKeyRelease(win, LinuxKeyboard(Char(typed[i])).value.keysym, LinuxKeyboard(Char(typed[i])).value.shift)
        {
          if i < |before| {
            assert typed[i] == before[i];
          }
        }
      }
    }
  }

  /** Linux: the unsupported symbols can be dropped from a text without
      changing what is sent. */
  lemma {:induction false} LinuxSkipsUnsupported(win: Wid, text: string)
    ensures LinuxKeyEvents(win, text) == LinuxKeyEvents(win, Supported(Linux, text))
    decreases |text|
  {
    if text != [] {
      var c := Last(text);
      var before := Supported(Linux, Init(text));
      LinuxSkipsUnsupported(win, Init(text));
      if Supports(Linux, Char(c)) {
        assert Supported(Linux, text) == before + [c];
        LinuxKeyEventsAppend(win, before, [c]);
        assert Init([c]) == [] && Last([c]) == c;
        assert LinuxKeyEvents(win, [c]) == LinuxSymbolEvents(win, c);
      } else {
        assert LinuxSymbolEvents(win, c) == [];
        assert Supported(Linux, text) == before + [] == before;
        assert LinuxKeyEvents(win, text) == LinuxKeyEvents(win, Init(text)) + [];
      }
    }
  }

  /** Windows: every symbol's Shift bracket is closed and every key it
      presses is released. */
  lemma WindowsSymbolReleasesAll(c: char)
    ensures KeysHeld({}, WindowsSymbolEvents(c)) == {}
  {
    match WindowsKeyboard(Char(c))
    case None =>
    case Some(k) =>
      WindowsNeverShiftKey(Char(c));
      var down, up := KeybdEvent(k.code, KeyDown), KeybdEvent(k.code, KeyUp);
      if k.shift == 1 {
        var shiftDown, shiftUp := KeybdEvent(VkShift, KeyDown), KeybdEvent(VkShift, KeyUp);
        assert Vk(k.code) != Vk(VkShift);
        assert WindowsSymbolEvents(c) == [shiftDown] + ([down] + ([up] + [shiftUp]));
        var h1, h2, h3 := {Vk(VkShift)}, {Vk(VkShift), Vk(k.code)}, {Vk(VkShift)};
        assert KeyStep({}, shiftDown) == h1;
        assert KeyStep(h1, down) == h2;
        assert KeyStep(h2, up) == h3;
        assert KeyStep(h3, shiftUp) == {};
        KeysHeldCons({}, shiftDown, [down] + ([up] + [shiftUp]));
        KeysHeldCons(h1, down, [up] + [shiftUp]);
        KeysHeldCons(h2, up, [shiftUp]);
        assert [shiftUp] == [shiftUp] + [];
        KeysHeldCons(h3, shiftUp, []);
      } else {
        assert WindowsSymbolEvents(c) == [down] + ([up] + []);
        assert KeyStep({}, down) == {Vk(k.code)};
        assert KeyStep({Vk(k.code)}, up) == {};
        KeysHeldCons({}, down, [up] + []);
        KeysHeldCons({Vk(k.code)}, up, []);
      }
  }

  /** Windows: a whole text leaves the keyboard with no key held. */
  lemma {:induction false} WindowsKeyEventsReleaseAll(text: string)
    ensures KeysHeld({}, WindowsKeyEvents(text)) == {}
    decreases |text|
  {
    if text != [] {
      WindowsKeyEventsReleaseAll(Init(text));
      KeysHeldAppend({}, WindowsKeyEvents(Init(text)), WindowsSymbolEvents(Last(text)));
      WindowsSymbolReleasesAll(Last(text));
    }
  }

  /** Linux: each symbol presses and then releases the same keysym. */
  lemma LinuxSymbolReleasesAll(win: Wid, c: char, held: set<KeyId>)
    ensures KeysHeld(held, LinuxSymbolEvents(win, c)) == if LinuxKeyboard(Char(c)).None? then held
      else held - {Sym(LinuxKeyboard(Char(c)).value.keysym)}
  {
    match LinuxKeyboard(Char(c))
    case None =>
    case Some(k) =>
      var press, release := XKeyPress(win, k.keysym, k.shift), XKeyRelease(win, k.keysym, k.shift);
      assert LinuxSymbolEvents(win, c) == [press] + ([release] + []);
      KeysHeldCons(held, press, [release] + []);
      KeysHeldCons(held + {Sym(k.keysym)}, release, []);
  }

  /** Linux: a whole text leaves the keyboard with no key held. */
  lemma {:induction false} LinuxKeyEventsReleaseAll(win: Wid, text: string)
    ensures KeysHeld({}, LinuxKeyEvents(win, text)) == {}
    decreases |text|
  {
    if text != [] {
      LinuxKeyEventsReleaseAll(win, Init(text));
      KeysHeldAppend({}, LinuxKeyEvents(win, Init(text)), LinuxSymbolEvents(win, Last(text)));
      LinuxSymbolReleasesAll(win, Last(text), {});
    }
  }

  /** Windows `sendkey` for one symbol: Shift-down, key-down, key-up,
      Shift-up for a shifted entry; key-down, key-up otherwise; nothing for
      an unmapped symbol. The Shift key is held exactly while the key of a
      shifted symbol goes down. */
  lemma WindowsSymbolShape(c: char)
    ensures WindowsKeyboard(Char(c)).None? ==> WindowsSymbolEvents(c) == []
    ensures WindowsKeyboard(Char(c)).Some? ==>
      var k := WindowsKeyboard(Char(c)).value;
      var events := WindowsSymbolEvents(c);
      var i := if k.shift == 1 then 1 else 0;
      && |events| == 2 + 2 * i
      && events[i] == KeybdEvent(k.code, KeyDown) && events[i + 1] == KeybdEvent(k.code, KeyUp)
      && (Vk(VkShift) in KeysHeld({}, events[..i]) <==> k.shift == 1)
  {
    if WindowsKeyboard(Char(c)).Some? {
      var k := WindowsKeyboard(Char(c)).value;
      var events := WindowsSymbolEvents(c);
      if k.shift == 1 {
        assert events[..1] == [] + [events[0]];
        assert KeysHeld({}, events[..1]) == KeyStep({}, KeybdEvent(VkShift, KeyDown));
      } else {
        assert events[..0] == [];
      }
    }
  }

  lemma {:induction false} AllKeystrokes(events: seq<Event>)
    requires forall i | 0 <= i < |events| :: IsKeystroke(events[i])
    ensures Keystrokes(events) == events
    decreases |events|
  {
    if events != [] {
      var init, last := Init(events), Last(events);
      assert forall i | 0 <= i < |init| :: init[i] == events[i];
      AllKeystrokes(init);
      assert IsKeystroke(last);
      assert Keystrokes(events) == Keystrokes(init) + [last];
      assert init + [last] == events;
    }
  }

  lemma {:induction false} KeyEventsAreKeystrokes(os: Os, viewerWid: Wid, text: string)
    ensures Keystrokes(KeyEvents(os, viewerWid, text)) == KeyEvents(os, viewerWid, text)
    decreases |text|
  {
    if text != [] {
      var init, c := Init(text), Last(text);
      KeyEventsAreKeystrokes(os, viewerWid, init);
      assert init + [c] == text;
      KeyEventsSnoc(os, viewerWid, init, c);
      KeystrokesAppend(KeyEvents(os, viewerWid, init), SymbolEvents(os, viewerWid, c));
      SymbolEventsAreKeystrokes(os, viewerWid, c);
    }
  }

  lemma SymbolEventsAreKeystrokes(os: Os, viewerWid: Wid, c: char)
    ensures Keystrokes(SymbolEvents(os, viewerWid, c)) == SymbolEvents(os, viewerWid, c)
  {
    var events := SymbolEvents(os, viewerWid, c);
    assert forall i | 0 <= i < |events| :: IsKeystroke(events[i]);
    AllKeystrokes(events);
  }

  /** One inner send delivers exactly the keystrokes of its text and leaves
      no key held. */
  lemma SendKeystrokes(os: Os, mainWid: Option<Wid>, viewerWid: Wid, text: string)
    ensures Keystrokes(Send(os, mainWid, viewerWid, text)) == KeyEvents(os, viewerWid, text)
    ensures KeysHeld({}, Send(os, mainWid, viewerWid, text)) == {}
  {
    KeyEventsAreKeystrokes(os, viewerWid, text);
    if os == Linux {
      LinuxSendKeystrokes(viewerWid, text);
      LinuxSendReleasesAll(viewerWid, text);
    } else {
      WindowsSendKeystrokes(mainWid, viewerWid, text);
      WindowsSendReleasesAll(mainWid, viewerWid, text);
    }
  }

  lemma LinuxSendKeystrokes(viewerWid: Wid, text: string)
    requires Keystrokes(LinuxKeyEvents(viewerWid, text)) == LinuxKeyEvents(viewerWid, text)
    ensures Keystrokes(LinuxSend(viewerWid, text)) == LinuxKeyEvents(viewerWid, text)
  {
    var keys := LinuxKeyEvents(viewerWid, text);
    assert LinuxSend(viewerWid, text) == keys + [XSync];
    TrailerKeystrokes(keys, XSync);
  }

  lemma LinuxSendReleasesAll(viewerWid: Wid, text: string)
    ensures KeysHeld({}, LinuxSend(viewerWid, text)) == {}
  {
    var keys := LinuxKeyEvents(viewerWid, text);
    assert LinuxSend(viewerWid, text) == keys + [XSync];
    LinuxKeyEventsReleaseAll(viewerWid, text);
    TrailerReleasesAll(keys, XSync);
  }

  lemma TrailerKeystrokes(keys: seq<Event>, tail: Event)
    requires !IsKeystroke(tail) && Keystrokes(keys) == keys
    ensures Keystrokes(keys + [tail]) == keys
  {
    KeystrokesAppend(keys, [tail]);
    assert [tail] == [tail] + [];
    KeystrokesCons(tail, []);
    assert keys + [] == keys;
  }

  lemma TrailerReleasesAll(keys: seq<Event>, tail: Event)
    requires Pressed(tail).None? && Released(tail).None? && KeysHeld({}, keys) == {}
    ensures KeysHeld({}, keys + [tail]) == {}
  {
    KeysHeldAppend({}, keys, [tail]);
    assert [tail] == [tail] + [];
    KeysHeldCons(KeysHeld({}, keys), tail, []);
  }

  lemma WindowsSendKeystrokes(mainWid: Option<Wid>, viewerWid: Wid, text: string)
    requires Keystrokes(WindowsKeyEvents(text)) == WindowsKeyEvents(text)
    ensures Keystrokes(WindowsSend(mainWid, viewerWid, text)) == WindowsKeyEvents(text)
  {
    var keys := WindowsKeyEvents(text);
    var head, tail := SetForegroundWindow(Some(viewerWid)), SetForegroundWindow(mainWid);
    assert WindowsSend(mainWid, viewerWid, text) == [head] + (keys + [tail]);
    BracketKeystrokes(head, keys, tail);
  }

  lemma WindowsSendReleasesAll(mainWid: Option<Wid>, viewerWid: Wid, text: string)
    ensures KeysHeld({}, WindowsSend(mainWid, viewerWid, text)) == {}
  {
    var keys := WindowsKeyEvents(text);
    var head, tail := SetForegroundWindow(Some(viewerWid)), SetForegroundWindow(mainWid);
    assert WindowsSend(mainWid, viewerWid, text) == [head] + (keys + [tail]);
    WindowsKeyEventsReleaseAll(text);
    BracketReleasesAll(head, keys, tail);
  }

  /** Two calls that are not keystrokes around a run of keystrokes. */
  lemma BracketKeystrokes(head: Event, keys: seq<Event>, tail: Event)
    requires !IsKeystroke(head) && !IsKeystroke(tail) && Keystrokes(keys) == keys
    ensures Keystrokes([head] + (keys + [tail])) == keys
  {
    KeystrokesCons(head, keys + [tail]);
    KeystrokesAppend(keys, [tail]);
    assert [tail] == [tail] + [];
    KeystrokesCons(tail, []);
    assert [] + keys + [] == keys;
  }

  lemma BracketReleasesAll(head: Event, keys: seq<Event>, tail: Event)
    requires Pressed(head).None? && Released(head).None? && Pressed(tail).None? && Released(tail).None?
    requires KeysHeld({}, keys) == {}
    ensures KeysHeld({}, [head] + (keys + [tail])) == {}
  {
    KeysHeldCons({}, head, keys + [tail]);
    KeysHeldAppend({}, keys, [tail]);
    assert [tail] == [tail] + [];
    KeysHeldCons(KeysHeld({}, keys), tail, []);
  }

  /** The events `sendkey` of `os` produces for one character. */
  function SymbolEvents(os: Os, viewerWid: Wid, c: char): seq<Event> {
    match os
    case Linux => LinuxSymbolEvents(viewerWid, c)
    case Windows => WindowsSymbolEvents(c)
  }

  /** Typing one more character appends its events, and its warning when
      the table has no entry for it. */
  lemma KeyEventsSnoc(os: Os, viewerWid: Wid, text: string, c: char)
    ensures KeyEvents(os, viewerWid, text + [c]) == KeyEvents(os, viewerWid, text) + SymbolEvents(os, viewerWid, c)
    ensures Unsupported(os, text + [c]) == Unsupported(os, text) + (if Supports(os, Char(c)) then [] else [Char(c)])
  {
    assert Init(text + [c]) == text && Last(text + [c]) == c;
  }

  // ----------------------------------------------------------- post(cmd)

  /** What `post(cmd)` sends once its preconditions hold: three calls of
      the inner sender, with a newline, the command plus a newline, and a
      space. */
  function PostEvents(os: Os, mainWid: Option<Wid>, viewerWid: Wid, cmd: string): seq<Event> {
    Send(os, mainWid, viewerWid, "\n") + Send(os, mainWid, viewerWid, cmd + "\n") + Send(os, mainWid, viewerWid, " ")
  }

  /** The keystrokes of `post(cmd)` are those of the whole framed text
      "\n" + cmd + "\n" + " " in order, and the keyboard is left with no key
      held. On Linux the last event is a sync; on Windows the viewer is
      brought to the foreground first and the main window is given the
      foreground last. */
  lemma PostDeliversFramedText(os: Os, mainWid: Option<Wid>, viewerWid: Wid, cmd: string)
    ensures var events := PostEvents(os, mainWid, viewerWid, cmd);
      && Keystrokes(events) == KeyEvents(os, viewerWid, "\n" + cmd + "\n" + " ")
      && KeysHeld({}, events) == {}
      && (os == Linux ==> Last(events) == XSync)
      && (os == Windows ==> events[0] == SetForegroundWindow(Some(viewerWid))
                            && Last(events) == SetForegroundWindow(mainWid))
  {
    var s1, s2, s3 := Send(os, mainWid, viewerWid, "\n"), Send(os, mainWid, viewerWid, cmd + "\n"), Send(os, mainWid, viewerWid, " ");
    assert "\n" + cmd + "\n" + " " == "\n" + (cmd + "\n") + " ";
    SendKeystrokes(os, mainWid, viewerWid, "\n");
    SendKeystrokes(os, mainWid, viewerWid, cmd + "\n");
    SendKeystrokes(os, mainWid, viewerWid, " ");
    KeystrokesAppend(s1 + s2, s3);
    KeystrokesAppend(s1, s2);
    KeyEventsAppend(os, viewerWid, "\n", cmd + "\n");
    KeyEventsAppend(os, viewerWid, "\n" + (cmd + "\n"), " ");
    KeysHeldAppend({}, s1 + s2, s3);
    KeysHeldAppend({}, s1, s2);
  }

  /** The framing characters always have keys, so `post(cmd)` warns once
      for each unsupported symbol of `cmd` and for nothing else. */
  lemma PostWarnsAboutCommandOnly(os: Os, cmd: string)
    ensures Unsupported(os, "\n") + Unsupported(os, cmd + "\n") + Unsupported(os, " ") == Unsupported(os, cmd)
  {
    FramingKeysSupported(os);
    KeyEventsSnoc(os, 0, [], '\n');
    KeyEventsSnoc(os, 0, [], ' ');
    KeyEventsSnoc(os, 0, cmd, '\n');
    assert [] + "\n" == "\n" && [] + " " == " ";
  }

  // ------------------------------------------------------- send_hotkey

  /** The first key that the Linux table does not have, if any. */
  function FirstUnsupportedKey(keys: seq<Symbol>): Option<Symbol>
    decreases |keys|
  {
    if keys == [] then None
    else if !Supports(Linux, keys[0]) then Some(keys[0])
    else FirstUnsupportedKey(keys[1..])
  }

  /** The validation finds nothing exactly when every key is in the Linux
      table, and otherwise the first key that is not. */
  lemma {:induction false} FirstUnsupportedKeyIsFirst(keys: seq<Symbol>)
    ensures FirstUnsupportedKey(keys).None? <==> forall i | 0 <= i < |keys| :: Supports(Linux, keys[i])
    ensures FirstUnsupportedKey(keys).Some? ==>
      exists i | 0 <= i < |keys| ::
        && keys[i] == FirstUnsupportedKey(keys).value && !Supports(Linux, keys[i])
        && forall j | 0 <= j < i :: Supports(Linux, keys[j])
    decreases |keys|
  {
    if keys == [] {
    } else if !Supports(Linux, keys[0]) {
      assert keys[0] == FirstUnsupportedKey(keys).value;
    } else {
      var tail := keys[1..];
      FirstUnsupportedKeyIsFirst(tail);
      assert forall i | 1 <= i < |keys| :: keys[i] == tail[i - 1];
      if FirstUnsupportedKey(tail).Some? {
        var i :| 0 <= i < |tail| && tail[i] == FirstUnsupportedKey(tail).value && !Supports(Linux, tail[i])
          && forall j | 0 <= j < i :: Supports(Linux, tail[j]);
        assert keys[i + 1] == tail[i];
      }
    }
  }

  /** The keysym a Linux key is typed by ("" for a key with no entry, which
      a validated hotkey never has). */
  function KeysymOf(s: Symbol): string {
    match LinuxKeyboard(s)
    case Some(k) => k.keysym
    case None => ""
  }

  /** The keysyms of `keys`, one per key. */
  function Keysyms(keys: seq<Symbol>): (r: seq<string>)
    ensures |r| == |keys|
  {
    seq(|keys|, i requires 0 <= i < |keys| => KeysymOf(keys[i]))
  }

  lemma KeysymsAt(keys: seq<Symbol>, i: nat)
    requires i < |keys|
    ensures Keysyms(keys)[i] == KeysymOf(keys[i])
  {
  }

  function Reverse<T>(s: seq<T>): (r: seq<T>)
    ensures |r| == |s| && forall i | 0 <= i < |s| :: r[i] == s[|s| - 1 - i]
    decreases |s|
  {
    if s == [] then [] else [Last(s)] + Reverse(Init(s))
  }

  /** `fake_input` KeyPress of every keysym, in order. */
  function PressAll(keysyms: seq<string>): (r: seq<Event>)
    ensures |r| == |keysyms|
    decreases |keysyms|
  {
    if keysyms == [] then [] else PressAll(Init(keysyms)) + [XFakeKeyPress(Last(keysyms))]
  }

  lemma {:induction false} PressAllAt(keysyms: seq<string>, i: nat)
    requires i < |keysyms|
    ensures PressAll(keysyms)[i] == XFakeKeyPress(keysyms[i])
    decreases |keysyms|
  {
    if i < |keysyms| - 1 {
      PressAllAt(Init(keysyms), i);
    }
  }

  /** `fake_input` KeyRelease of every keysym, in order. */
  function ReleaseAll(keysyms: seq<string>): (r: seq<Event>)
    ensures |r| == |keysyms|
    decreases |keysyms|
  {
    if keysyms == [] then [] else ReleaseAll(Init(keysyms)) + [XFakeKeyRelease(Last(keysyms))]
  }

  lemma {:induction false} ReleaseAllAt(keysyms: seq<string>, i: nat)
    requires i < |keysyms|
    ensures ReleaseAll(keysyms)[i] == XFakeKeyRelease(keysyms[i])
    decreases |keysyms|
  {
    if i < |keysyms| - 1 {
      ReleaseAllAt(Init(keysyms), i);
    }
  }

  /** What `send_hotkey(*keys)` sends once every key is supported: all
      presses in order, all releases in reverse order, then a sync. */
  function HotkeyEvents(keys: seq<Symbol>): seq<Event> {
    Nested(Keysyms(keys))
  }

  /** Presses of the keysyms in order, releases in reverse order, a sync. */
  function Nested(keysyms: seq<string>): seq<Event> {
    PressAll(keysyms) + ReleaseAll(Reverse(keysyms)) + [XSync]
  }

  /** The keys a sequence of keysyms names. */
  function SymSet(keysyms: seq<string>): set<KeyId>
    decreases |keysyms|
  {
    if keysyms == [] then {} else SymSet(Init(keysyms)) + {Sym(Last(keysyms))}
  }

  lemma {:induction false} SymSetContains(keysyms: seq<string>, i: nat)
    requires i < |keysyms|
    ensures Sym(keysyms[i]) in SymSet(keysyms)
    decreases |keysyms|
  {
    if i < |keysyms| - 1 {
      SymSetContains(Init(keysyms), i);
      assert Init(keysyms)[i] == keysyms[i];
    }
  }

  lemma {:induction false} SymSetIndex(keysyms: seq<string>, k: KeyId) returns (i: nat)
    requires k in SymSet(keysyms)
    ensures i < |keysyms| && k == Sym(keysyms[i])
    decreases |keysyms|
  {
    if k == Sym(Last(keysyms)) {
      i := |keysyms| - 1;
    } else {
      i := SymSetIndex(Init(keysyms), k);
      assert Init(keysyms)[i] == keysyms[i];
    }
  }

  lemma {:induction false} PressAllHolds(held: set<KeyId>, keysyms: seq<string>)
    ensures KeysHeld(held, PressAll(keysyms)) == held + SymSet(keysyms)
    decreases |keysyms|
  {
    if keysyms != [] {
      PressAllHolds(held, Init(keysyms));
      assert Init(PressAll(keysyms)) == PressAll(Init(keysyms));
    }
  }

  lemma {:induction false} ReleaseAllFrees(held: set<KeyId>, keysyms: seq<string>)
    ensures KeysHeld(held, ReleaseAll(keysyms)) == held - SymSet(keysyms)
    decreases |keysyms|
  {
    if keysyms != [] {
      ReleaseAllFrees(held, Init(keysyms));
      assert Init(ReleaseAll(keysyms)) == ReleaseAll(Init(keysyms));
    }
  }

  /** Reversing does not change which keys are named. */
  lemma ReverseSymSet(keysyms: seq<string>)
    ensures SymSet(Reverse(keysyms)) == SymSet(keysyms)
  {
    var n := |keysyms|;
    forall k | k in SymSet(keysyms) ensures k in SymSet(Reverse(keysyms)) {
      var i := SymSetIndex(keysyms, k);
      SymSetContains(Reverse(keysyms), n - 1 - i);
    }
    forall k | k in SymSet(Reverse(keysyms)) ensures k in SymSet(keysyms) {
      var i := SymSetIndex(Reverse(keysyms), k);
      SymSetContains(keysyms, n - 1 - i);
    }
  }

  /** Pressing keys and then releasing them in reverse order leaves no
      key held. */
  lemma PressReleaseFrees(ks: seq<string>)
    ensures KeysHeld({}, PressAll(ks) + ReleaseAll(Reverse(ks))) == {}
  {
    PressAllHolds({}, ks);
    ReleaseAllFrees(SymSet(ks), Reverse(ks));
    ReverseSymSet(ks);
    KeysHeldAppend({}, PressAll(ks), ReleaseAll(Reverse(ks)));
    assert {} + SymSet(ks) == SymSet(ks);
    assert SymSet(ks) - SymSet(ks) == {};
  }

  /** Nested presses and releases hold all the keys down together once
      every key is pressed. */
  lemma NestedHoldsAll(ks: seq<string>)
    ensures KeysHeld({}, Nested(ks)[..|ks|]) == SymSet(ks)
  {
    NestedPrefix(ks);
    PressAllHolds({}, ks);
    assert {} + SymSet(ks) == SymSet(ks);
  }

  /** The first `|ks|` events of a hotkey are its presses. */
  lemma NestedPrefix(ks: seq<string>)
    ensures Nested(ks)[..|ks|] == PressAll(ks)
  {
    var presses, rest := PressAll(ks), ReleaseAll(Reverse(ks)) + [XSync];
    assert Nested(ks) == presses + rest;
    PrefixOfAppend(presses, rest, |ks|);
  }

  lemma PrefixOfAppend<T>(a: seq<T>, b: seq<T>, n: nat)
    requires n == |a|
    ensures (a + b)[..n] == a
  {
  }

  /** Nested presses and releases end with no key held. */
  lemma NestedReleasesAll(ks: seq<string>)
    ensures KeysHeld({}, Nested(ks)) == {}
  {
    var all := PressAll(ks) + ReleaseAll(Reverse(ks));
    PressReleaseFrees(ks);
    KeysHeldAppend({}, all, [XSync]);
    assert Init([XSync]) == [];
  }

  /** A hotkey holds all its keys down together once every key is pressed,
      and releases every key it pressed, ending with no key held. */
  lemma HotkeyReleasesAll(keys: seq<Symbol>)
    ensures KeysHeld({}, HotkeyEvents(keys)[..|keys|]) == SymSet(Keysyms(keys))
    ensures KeysHeld({}, HotkeyEvents(keys)) == {}
  {
    NestedHoldsAll(Keysyms(keys));
    NestedReleasesAll(Keysyms(keys));
  }

  /** Nested presses come in the order given. */
  lemma NestedPressesInOrder(ks: seq<string>, i: nat)
    requires i < |ks|
    ensures |Nested(ks)| == 2 * |ks| + 1 && Nested(ks)[i] == XFakeKeyPress(ks[i])
  {
    assert Nested(ks)[i] == PressAll(ks)[i];
    PressAllAt(ks, i);
  }

  /** Nested releases come in the reverse order. */
  lemma NestedReleasesReversed(ks: seq<string>, j: nat)
    requires |ks| <= j < 2 * |ks|
    ensures Nested(ks)[j] == XFakeKeyRelease(ks[2 * |ks| - 1 - j])
  {
    var n := |ks|;
    assert Nested(ks)[j] == ReleaseAll(Reverse(ks))[j - n];
    ReleaseAllAt(Reverse(ks), j - n);
  }

  /** A hotkey is one press and one release per keysym, then a sync. */
  lemma NestedShape(ks: seq<string>)
    ensures |Nested(ks)| == 2 * |ks| + 1 && Last(Nested(ks)) == XSync
  {
    assert Nested(ks) == (PressAll(ks) + ReleaseAll(Reverse(ks))) + [XSync];
  }

  /** A hotkey presses its keysyms in the order given. */
  lemma NestedPresses(ks: seq<string>)
    ensures |Nested(ks)| == 2 * |ks| + 1
    ensures forall i | 0 <= i < |ks| :: Nested(ks)[i] == XFakeKeyPress(ks[i])
  {
    forall i | 0 <= i < |ks| ensures Nested(ks)[i] == XFakeKeyPress(ks[i]) {
      NestedPressesInOrder(ks, i);
    }
    NestedShape(ks);
  }

  /** A hotkey then releases its keysyms in the reverse order. */
  lemma NestedReleases(ks: seq<string>)
    ensures |Nested(ks)| == 2 * |ks| + 1
    ensures forall j | |ks| <= j < 2 * |ks| :: Nested(ks)[j] == XFakeKeyRelease(ks[2 * |ks| - 1 - j])
  {
    forall j | |ks| <= j < 2 * |ks| ensures Nested(ks)[j] == XFakeKeyRelease(ks[2 * |ks| - 1 - j]) {
      NestedReleasesReversed(ks, j);
    }
    NestedShape(ks);
  }
}
