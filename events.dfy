/** The observable effects of the window layer, one constructor per OS
    call it makes. The native key code of an X keysym is looked up by
    Xlib and is not part of this model, so X events carry the keysym. */
module Events {
  import opened Common
  import opened Keyboard
  import opened Layout

  /** `keybd_event` flags: 0 presses a key, 2 (KEYEVENTF_KEYUP) releases it. */
  const KeyDown := 0
  const KeyUp := 2

  /** `ShowWindow` command 9 (SW_RESTORE): un-minimise / un-maximise. */
  const SwRestore := 9

  datatype Event =
      // X11: an event sent to a window (`send_event`), with the shift state
    | XKeyPress(window: Wid, keysym: string, state: Shift)
    | XKeyRelease(window: Wid, keysym: string, state: Shift)
      // X11: a global key event of the XTEST extension (`fake_input`)
    | XFakeKeyPress(keysym: string)
    | XFakeKeyRelease(keysym: string)
      // X11: `set_input_focus`, `configure` and `display.sync()`
    | XSetInputFocus(window: Wid)
    | XConfigure(window: Wid, rect: Rect)
    | XSync
      // Win32 (user32): `keybd_event`, `SetForegroundWindow`,
      // `SetProcessDPIAware`, `ShowWindow` and `MoveWindow`
    | KeybdEvent(vk: int, flags: int)
    | SetForegroundWindow(target: Option<Wid>)
    | SetProcessDpiAware
    | ShowWindow(window: Wid, command: int)
    | MoveWindow(window: Wid, rect: Rect)

  /** A physical or synthetic key, as far as key state is concerned. */
  datatype KeyId = Sym(keysym: string) | Vk(code: int)

  /** The key an event puts down, if any. */
  function Pressed(e: Event): Option<KeyId> {
    match e
    case XKeyPress(_, ks, _) => Some(Sym(ks))
    case XFakeKeyPress(ks) => Some(Sym(ks))
    case KeybdEvent(vk, flags) => if flags == KeyUp then None else Some(Vk(vk))
    case _ => None
  }

  /** The key an event lets go, if any. */
  function Released(e: Event): Option<KeyId> {
    match e
    case XKeyRelease(_, ks, _) => Some(Sym(ks))
    case XFakeKeyRelease(ks) => Some(Sym(ks))
    case KeybdEvent(vk, flags) => if flags == KeyUp then Some(Vk(vk)) else None
    case _ => None
  }

  /** Whether an event presses or releases a key. */
  predicate IsKeystroke(e: Event) {
    Pressed(e).Some? || Released(e).Some?
  }

  /** The key state after one event. */
  function KeyStep(held: set<KeyId>, e: Event): set<KeyId> {
    if Pressed(e).Some? then held + {Pressed(e).value}
    else if Released(e).Some? then held - {Released(e).value}
    else held
  }

  /** The keys held down after `events`, starting from `held`. */
  function KeysHeld(held: set<KeyId>, events: seq<Event>): set<KeyId>
    decreases |events|
  {
    if events == [] then held else KeyStep(KeysHeld(held, Init(events)), Last(events))
  }

  /** Only the keystrokes of `events`, in order. */
  function Keystrokes(events: seq<Event>): (r: seq<Event>)
    ensures forall i | 0 <= i < |r| :: IsKeystroke(r[i])
    decreases |events|
  {
    if events == [] then []
    else
      Keystrokes(Init(events)) + (if IsKeystroke(Last(events)) then [Last(events)] else [])
  }

  /** Replaying events piecewise gives the same key state. */
  lemma {:induction false} KeysHeldAppend(held: set<KeyId>, a: seq<Event>, b: seq<Event>)
    ensures KeysHeld(held, a + b) == KeysHeld(KeysHeld(held, a), b)
    decreases |b|
  {
    if b == [] {
      assert a + b == a;
    } else {
      KeysHeldAppend(held, a, Init(b));
      InitOfAppend(a, b);
    }
  }

  lemma {:induction false} KeystrokesAppend(a: seq<Event>, b: seq<Event>)
    ensures Keystrokes(a + b) == Keystrokes(a) + Keystrokes(b)
    decreases |b|
  {
    if b == [] {
      assert a + b == a;
    } else {
      KeystrokesAppend(a, Init(b));
      InitOfAppend(a, b);
    }
  }

  /** Replaying one event first, then the rest. */
  lemma KeysHeldCons(held: set<KeyId>, e: Event, rest: seq<Event>)
    ensures KeysHeld(held, [e] + rest) == KeysHeld(KeyStep(held, e), rest)
  {
    KeysHeldAppend(held, [e], rest);
    assert Init([e]) == [];
  }

  lemma KeystrokesCons(e: Event, rest: seq<Event>)
    ensures Keystrokes([e] + rest) == (if IsKeystroke(e) then [e] else []) + Keystrokes(rest)
  {
    KeystrokesAppend([e], rest);
    assert Init([e]) == [];
  }
}
