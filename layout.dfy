/** The two-column screen layout used when aligning windows: the main
    window and the keyword dialog in the left third, the viewer and the
    help browser in the right two thirds, all full height. Screen sizes are
    whole pixels; `math.floor(w/3)`, `math.ceil(w/3)` and
    `math.floor(w*2/3)` are exact integer floor and ceiling here. */
module Layout {

  /** A window rectangle as passed to `configure` / `MoveWindow`. */
  datatype Rect = Rect(x: int, y: int, width: int, height: int)

  /** floor(n / d) for a natural n and a positive d. */
  function FloorDiv(n: nat, d: nat): (q: nat)
    requires d > 0
    ensures d * q <= n < d * (q + 1)
  {
    n / d
  }

  /** ceil(n / d) for a natural n and a positive d. */
  function CeilDiv(n: nat, d: nat): (q: nat)
    requires d > 0
    ensures d * q >= n && (q == 0 || d * (q - 1) < n)
  {
    (n + d - 1) / d
  }

  /** The rectangle of the left column: x = 0, width floor(W/3). */
  function LeftColumn(screenWidth: nat, screenHeight: nat): (r: Rect)
    ensures r.x == 0 && r.y == 0 && r.height == screenHeight
    ensures 3 * r.width <= screenWidth < 3 * r.width + 3
  {
    Rect(0, 0, FloorDiv(screenWidth, 3), screenHeight)
  }

  /** The rectangle of the right column: x = ceil(W/3), width floor(2W/3). */
  function RightColumn(screenWidth: nat, screenHeight: nat): (r: Rect)
    ensures r.y == 0 && r.height == screenHeight
    ensures 3 * r.x >= screenWidth > 3 * r.x - 3
    ensures 3 * r.width <= 2 * screenWidth < 3 * r.width + 3
  {
    Rect(CeilDiv(screenWidth, 3), 0, FloorDiv(2 * screenWidth, 3), screenHeight)
  }

  /** Whether `r` lies within a screen of the given size. */
  predicate OnScreen(r: Rect, screenWidth: nat, screenHeight: nat) {
    0 <= r.x && 0 <= r.y && 0 <= r.width && 0 <= r.height
    && r.x + r.width <= screenWidth && r.y + r.height <= screenHeight
  }

  /** The two columns tile the screen width: the right column starts at or
      after the end of the left one, at most one pixel later, and ends
      exactly at the right edge of the screen; both lie on the screen. */
  lemma ColumnsTileScreen(screenWidth: nat, screenHeight: nat)
    ensures
      var left := LeftColumn(screenWidth, screenHeight);
      var right := RightColumn(screenWidth, screenHeight);
      && left.x + left.width <= right.x <= left.x + left.width + 1
      && right.x + right.width == screenWidth
      && OnScreen(left, screenWidth, screenHeight)
      && OnScreen(right, screenWidth, screenHeight)
  {
    var left := LeftColumn(screenWidth, screenHeight);
    var right := RightColumn(screenWidth, screenHeight);
    var k := screenWidth / 3;
    var m := screenWidth % 3;
    assert screenWidth == 3 * k + m;
    if m == 0 {
      assert left.width == k && right.x == k && right.width == 2 * k;
    } else if m == 1 {
      assert left.width == k && right.x == k + 1 && right.width == 2 * k;
    } else {
      assert left.width == k && right.x == k + 1 && right.width == 2 * k + 1;
    }
  }
}
