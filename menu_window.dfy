/** The cursor arithmetic of the menu macros: the selected entry is
    `encoder_position / ENCODER_STEPS_PER_MENU_ITEM`, and `display_view_menu_offset` is the
    entry shown on the top row. One render of a menu applies, in order, the guard and the
    upward slide of START_MENU, then the clamp and the downward slide of END_MENU. */
module MenuWindow {
  import opened Ints

  /** START_MENU's `if (encoder_position > 0x8000) encoder_position = 0;`. The literal is an
      unsigned int on a 16-bit target, so the comparison is unsigned and resets exactly the
      negative positions other than -32768. */
  function Guard(p: int16): (r: int16)
    ensures r == (if -0x8000 < p < 0 then 0 else p)
  {
    if AsUnsigned16(p) > 0x8000 then 0 else p
  }

  /** The entry a position selects. */
  function Selection(p: int16, steps: int): int
    requires steps >= 1
  {
    CDiv(p, steps)
  }

  /** START_MENU: when the selection is above the top row, the top row becomes the selection. */
  function SlideUp(p: int16, offset: uint8, steps: int): (r: uint8)
    requires steps >= 1
  {
    if Selection(p, steps) < offset then ToUint8(Selection(p, steps)) else offset
  }

  /** END_MENU: a selection past the last of n entries is pulled back to the last step of the
      last entry. */
  function ClampToItems(p: int16, n: nat, steps: int): (r: int16)
    requires steps >= 1
  {
    if Selection(p, steps) >= n then ToInt16(n * steps - 1) else p
  }

  /** END_MENU: when the selection (as a uint8_t) is below the bottom row, the window slides
      down so that it is on the bottom row. */
  function SlideDown(p: int16, offset: uint8, steps: int, height: int): (r: uint8)
    requires steps >= 1
  {
    if ToUint8(Selection(p, steps)) >= offset + height then ToUint8(Selection(p, steps) - height + 1)
    else offset
  }

  /** Whether END_MENU rewinds the row loop. */
  predicate Rewinds(p: int16, offset: uint8, steps: int, height: int)
    requires steps >= 1
  {
    ToUint8(Selection(p, steps)) >= offset + height
  }

  /** The encoder position and top row of a menu. */
  datatype Window = Window(position: int16, offset: uint8)

  /** What START_MENU leaves behind: the guarded position and the window slid up to it. */
  function StartMenu(w: Window, steps: int): Window
    requires steps >= 1
  {
    var p1 := Guard(w.position);
    Window(p1, SlideUp(p1, w.offset, steps))
  }

  /** What one complete render of a menu of n entries leaves behind: START_MENU, then the
      clamp and the downward slide of END_MENU. */
  function Render(w: Window, n: nat, steps: int, height: int): Window
    requires steps >= 1
  {
    var s := StartMenu(w, steps);
    var p2 := ClampToItems(s.position, n, steps);
    Window(p2, SlideDown(p2, s.offset, steps, height))
  }

  /** The position is not negative, the selection is an entry of the menu and it lies in the
      window of `height` rows. */
  predicate Settled(w: Window, n: nat, steps: int, height: int)
    requires steps >= 1
  {
    && 0 <= w.position
    && 0 <= Selection(w.position, steps) < n
    && w.offset <= Selection(w.position, steps) < w.offset + height
  }

  // ---------------------------------------------------------------------------
  // Arithmetic facts

  /** A uint8_t that differs from x by a multiple of 256 is x's low byte. */
  lemma LowByteUnique(x: int, r: int)
    requires 0 <= r < 0x100 && (x - r) % 0x100 == 0
    ensures ToUint8(x) == r
  {
    var k := (x - r) / 0x100;
    assert x == k * 0x100 + r;
    DivUnique(x, 0x100, k, r);
  }

  /** After the downward slide the selection's low byte is inside the window, so a second
      slide does nothing. */
  lemma SlideDownSettles(p: int16, offset: uint8, steps: int, height: int)
    requires steps >= 1 && 1 <= height
    requires Rewinds(p, offset, steps, height)
    ensures var off := SlideDown(p, offset, steps, height);
            ToUint8(Selection(p, steps)) == off + height - 1 && !Rewinds(p, off, steps, height)
  {
    var q := Selection(p, steps);
    var u := ToUint8(q);
    assert (q - height + 1) - (u - height + 1) == q - u;
    LowByteUnique(q - height + 1, u - height + 1);
  }

  /** With n*steps - 1 representable, the clamp is idempotent and lands on entry n-1. */
  lemma ClampLandsOnLast(p: int16, n: nat, steps: int)
    requires steps >= 1 && 1 <= n && n * steps <= 0x8000
    ensures var c := ClampToItems(p, n, steps);
            ClampToItems(c, n, steps) == c
            && (Selection(p, steps) >= n ==> Selection(c, steps) == n - 1)
            && (Selection(p, steps) < n ==> c == p)
  {
    if Selection(p, steps) >= n {
      MulMonotone(1, n, steps);
      LastStepOfBlock(n, steps);
    }
  }

  /** For an empty menu the clamp sends every position to -1 and stays there. */
  lemma ClampEmptyMenu(p: int16, steps: int)
    requires steps >= 1
    ensures ClampToItems(p, 0, steps) == (if Selection(p, steps) >= 0 then -1 else p)
    ensures ClampToItems(ClampToItems(p, 0, steps), 0, steps) == ClampToItems(p, 0, steps)
  {
  }

  // ---------------------------------------------------------------------------
  // What a render guarantees

  /** One render of a non-empty menu (from any position except -32768, which the guard lets
      through): the selection is an entry of the menu and not below the bottom row; if the
      top row was an entry of the menu, the selection is not above it either. */
  lemma {:induction false} RenderKeepsSelectionVisible(w: Window, n: nat, steps: int, height: int)
    requires 1 <= steps && 1 <= height && 1 <= n <= 255 && n * steps <= 0x8000
    requires w.position != -0x8000
    ensures var r := Render(w, n, steps, height);
            && 0 <= Selection(r.position, steps) <= n - 1
            && Selection(r.position, steps) < r.offset + height
            && (w.offset <= n - 1 ==> r.offset <= Selection(r.position, steps))
  {
    var p1 := Guard(w.position);
    assert p1 >= 0;
    var off1 := SlideUp(p1, w.offset, steps);
    var p2 := ClampToItems(p1, n, steps);
    ClampLandsOnLast(p1, n, steps);
    var q2 := Selection(p2, steps);
    assert 0 <= q2 <= n - 1;
    assert ToUint8(q2) == q2;
    if Rewinds(p2, off1, steps, height) {
      SlideDownSettles(p2, off1, steps, height);
    }
    var q1 := Selection(p1, steps);
    assert off1 <= q1;
    if w.offset <= n - 1 {
      assert off1 <= n - 1;
    }
  }

  /** After the first END_MENU of a render, every further END_MENU of the same render is a
      no-op: the clamp keeps the position, the window does not slide again, and when the
      first END_MENU did not slide, the top row is still the one START_MENU chose. */
  lemma {:induction false} EndMenuIsStable(w: Window, n: nat, steps: int, height: int)
    requires 1 <= steps && 1 <= height && n * steps <= 0x8000
    ensures var f := StartMenu(w, steps);
            var r := Render(w, n, steps, height);
            && r.position == ClampToItems(f.position, n, steps)
            && r.offset == SlideDown(r.position, f.offset, steps, height)
            && ClampToItems(r.position, n, steps) == r.position
            && !Rewinds(r.position, r.offset, steps, height)
            && SlideDown(r.position, r.offset, steps, height) == r.offset
            && (!Rewinds(r.position, f.offset, steps, height) ==> r.offset == f.offset)
  {
    var f := StartMenu(w, steps);
    if n == 0 {
      ClampEmptyMenu(f.position, steps);
    } else {
      ClampLandsOnLast(f.position, n, steps);
    }
    var r := Render(w, n, steps, height);
    if Rewinds(r.position, f.offset, steps, height) {
      SlideDownSettles(r.position, f.offset, steps, height);
    }
  }

  /** A render of a settled window changes nothing. */
  lemma {:induction false} SettledIsFixed(w: Window, n: nat, steps: int, height: int)
    requires 1 <= steps && 1 <= height && 1 <= n <= 255 && n * steps <= 0x8000
    requires Settled(w, n, steps, height)
    ensures Render(w, n, steps, height) == w
  {
    var q := Selection(w.position, steps);
    assert ToUint8(q) == q;
  }

  /** Whatever the top row was, two renders without input settle the window: the first may
      leave the top row past a selection it has just pulled back (when the old top row was
      past the end of a shorter menu), the second slides it up. */
  lemma {:induction false} SecondRenderSettles(w: Window, n: nat, steps: int, height: int)
    requires 1 <= steps && 1 <= height && 1 <= n <= 255 && n * steps <= 0x8000
    requires w.position != -0x8000
    ensures Settled(Render(Render(w, n, steps, height), n, steps, height), n, steps, height)
  {
    var r1 := Render(w, n, steps, height);
    RenderKeepsSelectionVisible(w, n, steps, height);
    var q := Selection(r1.position, steps);
    assert r1.position >= 0 by {
      if r1.position < 0 {
        assert q * steps - steps < r1.position;
      }
    }
    assert Guard(r1.position) == r1.position;
    assert ToUint8(q) == q;
    ClampLandsOnLast(r1.position, n, steps);
  }

  /** The transient case, concretely: three entries, four rows, one step per entry, the
      cursor at 10 and the top row at 20. One render pulls the cursor back to entry 2 but
      leaves the top row at 10, so no row shows the selection; the next render shows it. */
  lemma OneRenderMayHideSelection()
    ensures Render(Window(10, 20), 3, 1, 4) == Window(2, 10)
    ensures Render(Window(2, 10), 3, 1, 4) == Window(2, 2)
  {
    assert ToUint8(10) == 10;
    assert ToUint8(2) == 2;
  }

  /** Seven entries, four rows, one step per entry: a cursor moved onto the last entry from
      the top window slides the window so that the bottom row shows entry 6. */
  lemma SevenEntriesFourRows()
    ensures Render(Window(6, 0), 7, 1, 4) == Window(6, 3)
  {
    assert ToUint8(6) == 6;
    assert ToUint8(3) == 3;
  }

  /** The guard lets -32768 through: its selection is negative, no entry is selected and the
      clamp does not apply. */
  lemma GuardMissesMinimum(n: nat, steps: int, height: int)
    requires 1 <= steps <= 128 && n * steps <= 0x8000
    ensures Guard(-0x8000) == -0x8000
    ensures Selection(Render(Window(-0x8000, 0), n, steps, height).position, steps) < 0
  {
  }
}
