/** What `align` does to the four tracked windows: the main window and the
    keyword dialog go to the left column, the viewer and the help browser
    to the right column, and a window whose id is unknown is skipped. On
    Linux each window is focused, restored with the Super+Down hotkey and
    configured; on Windows the process is made DPI aware once, then each
    window is restored (`ShowWindow` with SW_RESTORE) and moved. */
module Aligning {
  import opened Common
  import opened Keyboard
  import opened Layout
  import opened Events
  import opened Posting

  /** The hotkey that restores (un-maximises) a window on Linux. */
  const RestoreKeys: seq<Symbol> := [Named("Super_L"), Named("Down")]

  /** The key events that hotkey sends. The placement functions below take
      them as a parameter `restore`, so that what is proved about placing
      holds for any key sequence that moves nothing and releases what it
      presses; `align` passes this one. */
  const RestoreHotkey: seq<Event> := HotkeyEvents(RestoreKeys)

  /** The events that place one window on Linux. */
  function LinuxPlace(wid: Option<Wid>, rect: Rect, restore: seq<Event>): seq<Event> {
    match wid
    case None => []
    case Some(w) => [XSetInputFocus(w)] + restore + [XConfigure(w, rect)]
  }

  /** The calls that place one window on Windows. */
  function WindowsPlace(wid: Option<Wid>, rect: Rect): seq<Event> {
    match wid
    case None => []
    case Some(w) => [ShowWindow(w, SwRestore), MoveWindow(w, rect)]
  }

  function Place(os: Os, wid: Option<Wid>, rect: Rect, restore: seq<Event>): seq<Event> {
    match os
    case Linux => LinuxPlace(wid, rect, restore)
    case Windows => WindowsPlace(wid, rect)
  }

  /** One loop of `align`: every window of the list, in order, to `rect`. */
  function PlaceAll(os: Os, wids: seq<Option<Wid>>, rect: Rect, restore: seq<Event>): seq<Event>
    decreases |wids|
  {
    if wids == [] then [] else PlaceAll(os, Init(wids), rect, restore) + Place(os, Last(wids), rect, restore)
  }

  /** Everything `align` emits for the windows `wid1`..`wid4` on a screen
      of the given size. */
  function AlignEvents(os: Os, wid1: Option<Wid>, wid2: Option<Wid>, wid3: Option<Wid>, wid4: Option<Wid>,
                       screenWidth: nat, screenHeight: nat): seq<Event>
  {
    AlignWith(os, RestoreHotkey, wid1, wid2, wid3, wid4, screenWidth, screenHeight)
  }

  /** `align` with `restore` as the Linux restore key events. */
  function AlignWith(os: Os, restore: seq<Event>, wid1: Option<Wid>, wid2: Option<Wid>, wid3: Option<Wid>,
                     wid4: Option<Wid>, screenWidth: nat, screenHeight: nat): seq<Event>
  {
    DpiSetup(os)
    + PlaceAll(os, [wid1, wid3], LeftColumn(screenWidth, screenHeight), restore)
    + PlaceAll(os, [wid2, wid4], RightColumn(screenWidth, screenHeight), restore)
    + FinalSync(os)
  }

  /** Windows only: the process is made DPI aware before any window is
      placed. */
  function DpiSetup(os: Os): seq<Event> {
    if os == Windows then [SetProcessDpiAware] else []
  }

  /** Linux only: the display is synced after the last window. */
  function FinalSync(os: Os): seq<Event> {
    if os == Linux then [XSync] else []
  }

  lemma PlacePair(os: Os, a: Option<Wid>, b: Option<Wid>, rect: Rect, restore: seq<Event>)
    ensures PlaceAll(os, [a, b], rect, restore) == Place(os, a, rect, restore) + Place(os, b, rect, restore)
  {
    assert PlaceAll(os, [a], rect, restore) == Place(os, a, rect, restore) by {
      assert Init([a]) == [] && Last([a]) == a;
      assert PlaceAll(os, [], rect, restore) == [];
    }
    assert Init([a, b]) == [a] && Last([a, b]) == b;
  }

  // ------------------------------------------------ reading the events

  /** A window being given a position and size. */
  datatype Move = Move(window: Wid, rect: Rect)

  /** The window moves among `events`, in order. */
  function Moves(events: seq<Event>): seq<Move>
    decreases |events|
  {
    if events == [] then []
    else Moves(Init(events)) + MoveIn(Last(events))
  }

  function MoveIn(e: Event): seq<Move> {
    match e
    case XConfigure(w, r) => [Move(w, r)]
    case MoveWindow(w, r) => [Move(w, r)]
    case _ => []
  }

  lemma {:induction false} NoMoves(events: seq<Event>)
    requires forall i | 0 <= i < |events| :: MoveIn(events[i]) == []
    ensures Moves(events) == []
    decreases |events|
  {
    if events != [] {
      NoMoves(Init(events));
    }
  }

  lemma {:induction false} MovesAppend(a: seq<Event>, b: seq<Event>)
    ensures Moves(a + b) == Moves(a) + Moves(b)
    decreases |b|
  {
    if b == [] {
      assert a + b == a;
    } else {
      InitOfAppend(a, b);
      MovesAppend(a, Init(b));
    }
  }

  /** Two keys pressed in order and released in reverse order. */
  lemma NestedPair(a: string, b: string)
    ensures Nested([a, b]) == [XFakeKeyPress(a), XFakeKeyPress(b), XFakeKeyRelease(b), XFakeKeyRelease(a), XSync]
  {
    assert PressAll([a]) == [XFakeKeyPress(a)] by {
      assert Init([a]) == [] && Last([a]) == a;
    }
    assert PressAll([a, b]) == [XFakeKeyPress(a), XFakeKeyPress(b)] by {
      assert Init([a, b]) == [a] && Last([a, b]) == b;
    }
    assert Reverse([a, b]) == [b, a] by {
      var r := Reverse([a, b]);
      assert |r| == 2 && r[0] == b && r[1] == a;
    }
    assert ReleaseAll([b]) == [XFakeKeyRelease(b)] by {
      assert Init([b]) == [] && Last([b]) == b;
    }
    assert ReleaseAll([b, a]) == [XFakeKeyRelease(b), XFakeKeyRelease(a)] by {
      assert Init([b, a]) == [b] && Last([b, a]) == a;
    }
  }

  /** The restore hotkey is sent in full: both its keys are in the table. */
  lemma RestoreKeysSupported()
    ensures FirstUnsupportedKey(RestoreKeys).None?
  {
    FramingKeysSupported(Linux);
    assert Supports(Linux, RestoreKeys[0]) && Supports(Linux, RestoreKeys[1]);
    FirstUnsupportedKeyIsFirst(RestoreKeys);
  }

  /** The restore hotkey in full: Super_L and Down pressed, released in
      reverse order, then a sync. */
  lemma RestoreHotkeyEvents()
    ensures RestoreHotkey == [XFakeKeyPress("Super_L"), XFakeKeyPress("Down"),
                              XFakeKeyRelease("Down"), XFakeKeyRelease("Super_L"), XSync]
  {
    FramingKeysSupported(Linux);
    KeysymsAt(RestoreKeys, 0);
    KeysymsAt(RestoreKeys, 1);
    assert Keysyms(RestoreKeys) == ["Super_L", "Down"];
    NestedPair("Super_L", "Down");
  }

  /** The restore hotkey moves no window and leaves no key held. */
  lemma RestoreHotkeyIsNeutral()
    ensures Moves(RestoreHotkey) == []
    ensures KeysHeld({}, RestoreHotkey) == {}
  {
    NestedReleasesAll(Keysyms(RestoreKeys));
    NestedMovesNothing(Keysyms(RestoreKeys));
  }

  /** A hotkey moves no window. */
  lemma NestedMovesNothing(ks: seq<string>)
    ensures Moves(Nested(ks)) == []
  {
    var events := Nested(ks);
    forall i | 0 <= i < |events| ensures MoveIn(events[i]) == [] {
      if i < |ks| {
        NestedPressesInOrder(ks, i);
      } else if i < 2 * |ks| {
        NestedReleasesReversed(ks, i);
      } else {
        assert events == PressAll(ks) + ReleaseAll(Reverse(ks)) + [XSync];
      }
    }
    NoMoves(events);
  }

  /** The move a known window gets, and none for an unknown one. */
  function MoveOf(wid: Option<Wid>, rect: Rect): seq<Move> {
    match wid
    case None => []
    case Some(w) => [Move(w, rect)]
  }

  /** Focus, a key sequence that moves nothing and releases what it
      presses, then a configure: exactly one move. */
  lemma {:induction false} FocusRestoreConfigure(w: Wid, hot: seq<Event>, rect: Rect)
    requires Moves(hot) == [] && KeysHeld({}, hot) == {}
    ensures Moves([XSetInputFocus(w)] + hot + [XConfigure(w, rect)]) == [Move(w, rect)]
    ensures KeysHeld({}, [XSetInputFocus(w)] + hot + [XConfigure(w, rect)]) == {}
  {
    var focus, configure := [XSetInputFocus(w)], [XConfigure(w, rect)];
    assert Moves(focus) == [] by {
      assert Init(focus) == [] && Last(focus) == XSetInputFocus(w);
    }
    assert Moves(configure) == [Move(w, rect)] by {
      assert Init(configure) == [] && Last(configure) == XConfigure(w, rect);
    }
    MovesAppend(focus, hot);
    MovesAppend(focus + hot, configure);
    KeysHeldCons({}, XSetInputFocus(w), hot);
    KeysHeldAppend({}, focus + hot, configure);
    assert KeysHeld({}, configure) == {} by {
      assert Init(configure) == [] && Last(configure) == XConfigure(w, rect);
    }
  }

  lemma LinuxPlaceMovesOnlyIt(w: Wid, rect: Rect, restore: seq<Event>)
    requires Moves(restore) == [] && KeysHeld({}, restore) == {}
    ensures Moves(LinuxPlace(Some(w), rect, restore)) == [Move(w, rect)]
    ensures KeysHeld({}, LinuxPlace(Some(w), rect, restore)) == {}
  {
    FocusRestoreConfigure(w, restore, rect);
  }

  lemma WindowsPlaceMovesOnlyIt(w: Wid, rect: Rect)
    ensures Moves(WindowsPlace(Some(w), rect)) == [Move(w, rect)]
    ensures KeysHeld({}, WindowsPlace(Some(w), rect)) == {}
  {
    var show, move := ShowWindow(w, SwRestore), MoveWindow(w, rect);
    var events := [show, move];
    assert Init(events) == [show] && Last(events) == move;
    assert Init([show]) == [] && Last([show]) == show;
    assert Moves([show]) == [];
    assert KeysHeld({}, [show]) == {};
  }

  /** Placing one window moves exactly it, to the given rectangle,
      whenever the restore key events move nothing and release what they
      press. */
  lemma PlaceMovesOnlyIt(os: Os, wid: Option<Wid>, rect: Rect, restore: seq<Event>)
    requires Moves(restore) == [] && KeysHeld({}, restore) == {}
    ensures Moves(Place(os, wid, rect, restore)) == MoveOf(wid, rect)
  {
    if wid.Some? {
      if os == Linux {
        LinuxPlaceMovesOnlyIt(wid.value, rect, restore);
      } else {
        WindowsPlaceMovesOnlyIt(wid.value, rect);
      }
    }
  }

  /** Placing one window leaves no key held under the same condition. */
  lemma PlaceReleasesAll(os: Os, wid: Option<Wid>, rect: Rect, restore: seq<Event>)
    requires Moves(restore) == [] && KeysHeld({}, restore) == {}
    ensures KeysHeld({}, Place(os, wid, rect, restore)) == {}
  {
    if wid.Some? {
      if os == Linux {
        LinuxPlaceMovesOnlyIt(wid.value, rect, restore);
      } else {
        WindowsPlaceMovesOnlyIt(wid.value, rect);
      }
    }
  }

  /** `align` moves each known window once, in the order wid1, wid3, wid2,
      wid4: the first two to the left column, the other two to the right
      column; unknown ids are skipped. */
  lemma AlignMovesKnownWindows(os: Os, wid1: Option<Wid>, wid2: Option<Wid>, wid3: Option<Wid>, wid4: Option<Wid>,
                               screenWidth: nat, screenHeight: nat)
    ensures var left, right := LeftColumn(screenWidth, screenHeight), RightColumn(screenWidth, screenHeight);
      Moves(AlignEvents(os, wid1, wid2, wid3, wid4, screenWidth, screenHeight))
        == MoveOf(wid1, left) + MoveOf(wid3, left) + MoveOf(wid2, right) + MoveOf(wid4, right)
  {
    RestoreHotkeyIsNeutral();
    AlignWithMoves(os, RestoreHotkey, wid1, wid2, wid3, wid4, screenWidth, screenHeight);
  }

  /** `align` leaves no key held. */
  lemma AlignReleasesAllKeys(os: Os, wid1: Option<Wid>, wid2: Option<Wid>, wid3: Option<Wid>, wid4: Option<Wid>,
                             screenWidth: nat, screenHeight: nat)
    ensures KeysHeld({}, AlignEvents(os, wid1, wid2, wid3, wid4, screenWidth, screenHeight)) == {}
  {
    RestoreHotkeyIsNeutral();
    AlignWithKeys(os, RestoreHotkey, wid1, wid2, wid3, wid4, screenWidth, screenHeight);
  }

  /** The moves of `align`, for any neutral restore key sequence. */
  lemma AlignWithMoves(os: Os, restore: seq<Event>, wid1: Option<Wid>, wid2: Option<Wid>, wid3: Option<Wid>,
                       wid4: Option<Wid>, screenWidth: nat, screenHeight: nat)
    requires Moves(restore) == [] && KeysHeld({}, restore) == {}
    ensures var left, right := LeftColumn(screenWidth, screenHeight), RightColumn(screenWidth, screenHeight);
      Moves(AlignWith(os, restore, wid1, wid2, wid3, wid4, screenWidth, screenHeight))
        == MoveOf(wid1, left) + MoveOf(wid3, left) + MoveOf(wid2, right) + MoveOf(wid4, right)
  {
    var left, right := LeftColumn(screenWidth, screenHeight), RightColumn(screenWidth, screenHeight);
    PlaceMovesOnlyIt(os, wid1, left, restore);
    PlaceMovesOnlyIt(os, wid3, left, restore);
    PlaceMovesOnlyIt(os, wid2, right, restore);
    PlaceMovesOnlyIt(os, wid4, right, restore);
    SetupAndSyncAreQuiet(os);
    AlignWithUnfold(os, restore, wid1, wid2, wid3, wid4, screenWidth, screenHeight);
    MovesChain(DpiSetup(os),
      Place(os, wid1, left, restore), Place(os, wid3, left, restore),
      Place(os, wid2, right, restore), Place(os, wid4, right, restore),
      FinalSync(os));
  }

  /** `align` leaves no key held, for any neutral restore key sequence. */
  lemma AlignWithKeys(os: Os, restore: seq<Event>, wid1: Option<Wid>, wid2: Option<Wid>, wid3: Option<Wid>,
                      wid4: Option<Wid>, screenWidth: nat, screenHeight: nat)
    requires Moves(restore) == [] && KeysHeld({}, restore) == {}
    ensures KeysHeld({}, AlignWith(os, restore, wid1, wid2, wid3, wid4, screenWidth, screenHeight)) == {}
  {
    var left, right := LeftColumn(screenWidth, screenHeight), RightColumn(screenWidth, screenHeight);
    PlaceReleasesAll(os, wid1, left, restore);
    PlaceReleasesAll(os, wid3, left, restore);
    PlaceReleasesAll(os, wid2, right, restore);
    PlaceReleasesAll(os, wid4, right, restore);
    SetupAndSyncAreQuiet(os);
    AlignWithUnfold(os, restore, wid1, wid2, wid3, wid4, screenWidth, screenHeight);
    KeysChain(DpiSetup(os),
      Place(os, wid1, left, restore), Place(os, wid3, left, restore),
      Place(os, wid2, right, restore), Place(os, wid4, right, restore),
      FinalSync(os));
  }

  /** Four placements between two segments that move nothing: their moves
      in order. */
  lemma MovesChain(pre: seq<Event>, p1: seq<Event>, p3: seq<Event>, p2: seq<Event>, p4: seq<Event>, post: seq<Event>)
    requires Moves(pre) == [] && Moves(post) == []
    ensures Moves(pre + p1 + p3 + p2 + p4 + post) == Moves(p1) + Moves(p3) + Moves(p2) + Moves(p4)
  {
    MovesAppend(pre, p1);
    assert Moves(pre + p1) == Moves(p1);
    MovesAppend(pre + p1, p3);
    MovesAppend(pre + p1 + p3, p2);
    MovesAppend(pre + p1 + p3 + p2, p4);
    MovesAppend(pre + p1 + p3 + p2 + p4, post);
    assert Moves(p1) + Moves(p3) + Moves(p2) + Moves(p4) + [] == Moves(p1) + Moves(p3) + Moves(p2) + Moves(p4);
  }

  /** Six segments that each release what they press release everything. */
  lemma KeysChain(a: seq<Event>, b: seq<Event>, c: seq<Event>, d: seq<Event>, e: seq<Event>, f: seq<Event>)
    requires KeysHeld({}, a) == {} && KeysHeld({}, b) == {} && KeysHeld({}, c) == {}
    requires KeysHeld({}, d) == {} && KeysHeld({}, e) == {} && KeysHeld({}, f) == {}
    ensures KeysHeld({}, a + b + c + d + e + f) == {}
  {
    KeysHeldAppend({}, a, b);
    KeysHeldAppend({}, a + b, c);
    KeysHeldAppend({}, a + b + c, d);
    KeysHeldAppend({}, a + b + c + d, e);
    KeysHeldAppend({}, a + b + c + d + e, f);
  }

  lemma AlignWithUnfold(os: Os, restore: seq<Event>, wid1: Option<Wid>, wid2: Option<Wid>, wid3: Option<Wid>,
                        wid4: Option<Wid>, screenWidth: nat, screenHeight: nat)
    ensures var left, right := LeftColumn(screenWidth, screenHeight), RightColumn(screenWidth, screenHeight);
      AlignWith(os, restore, wid1, wid2, wid3, wid4, screenWidth, screenHeight)
        == DpiSetup(os)
           + Place(os, wid1, left, restore) + Place(os, wid3, left, restore)
           + Place(os, wid2, right, restore) + Place(os, wid4, right, restore)
           + FinalSync(os)
  {
    var left, right := LeftColumn(screenWidth, screenHeight), RightColumn(screenWidth, screenHeight);
    PlacePair(os, wid1, wid3, left, restore);
    PlacePair(os, wid2, wid4, right, restore);
    var place1, place3 := Place(os, wid1, left, restore), Place(os, wid3, left, restore);
    var place2, place4 := Place(os, wid2, right, restore), Place(os, wid4, right, restore);
    AppendAssoc(DpiSetup(os), place1, place3);
    AppendAssoc(DpiSetup(os) + place1 + place3, place2, place4);
  }

  /** The calls around the placements move nothing and hold no key. */
  lemma SetupAndSyncAreQuiet(os: Os)
    ensures Moves(DpiSetup(os)) == [] && KeysHeld({}, DpiSetup(os)) == {}
    ensures Moves(FinalSync(os)) == [] && KeysHeld({}, FinalSync(os)) == {}
  {
    QuietCall(if os == Windows then Some(SetProcessDpiAware) else None);
    QuietCall(if os == Linux then Some(XSync) else None);
  }

  /** At most one call that neither moves a window nor touches a key. */
  lemma QuietCall(e: Option<Event>)
    requires e.Some? ==> MoveIn(e.value) == [] && Pressed(e.value).None? && Released(e.value).None?
    ensures var s := if e.Some? then [e.value] else [];
      Moves(s) == [] && KeysHeld({}, s) == {}
  {
    if e.Some? {
      assert Init([e.value]) == [] && Last([e.value]) == e.value;
    }
  }

  /** With only the main window known, `align` moves just that window, to
      the left third of the screen. */
  lemma AlignMainWindowOnly(os: Os, wid1: Wid, screenWidth: nat, screenHeight: nat)
    ensures Moves(AlignEvents(os, Some(wid1), None, None, None, screenWidth, screenHeight))
      == [Move(wid1, Rect(0, 0, screenWidth / 3, screenHeight))]
  {
    AlignMovesKnownWindows(os, Some(wid1), None, None, None, screenWidth, screenHeight);
  }
}
