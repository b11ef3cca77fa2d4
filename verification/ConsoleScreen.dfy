/** The screen of the console: how rectangles are copied and filled row by row in place, and
    what scrolling makes of the text (Kernel/Sources/console/Console_Video.c:241-317,
    Kernel/Sources/console/Console.c:193-240). */
module ConsoleScreen {
  import opened Arithmetic
  import opened Bytes

  const GLYPH_HEIGHT := 8

  /** A row of pixels in one plane; a byte holds a row of one glyph. */
  type Row = seq<byte>

  /** In text cells; right and bottom are exclusive. */
  datatype Rect = Rect(left: int, top: int, right: int, bottom: int)

  datatype Point = Point(x: int, y: int)

  function Max(a: int, b: int): int { if a >= b then a else b }

  function Min(a: int, b: int): int { if a <= b then a else b }

  function Intersection(a: Rect, b: Rect): Rect {
    Rect(Max(a.left, b.left), Max(a.top, b.top), Min(a.right, b.right), Min(a.bottom, b.bottom))
  }

  function Bounds(width: nat, height: nat): Rect { Rect(0, 0, width, height) }

  /** A plane has eight rows of pixels for each row of text, and a byte for each column. */
  predicate Shaped(rows: seq<Row>, width: nat, height: nat) {
    |rows| >= GLYPH_HEIGHT * height && forall k | 0 <= k < |rows| :: |rows[k]| >= width
  }

  // ---- Copying ------------------------------------------------------------------

  /** `n` bytes of `src` from `sl` on put over `dst` from `dl` on. */
  function CopyRow(dst: Row, src: Row, dl: nat, sl: nat, n: nat): (r: Row)
    requires dl + n <= |dst| && sl + n <= |src|
    ensures |r| == |dst|
  {
    dst[..dl] + src[sl..sl + n] + dst[dl + n..]
  }

  /** The row loop of CopyRect_Locked from row `y` on: rows are copied in ascending order,
      and the source row of `y` is `y - offset`. */
  function CopyRows(rows: seq<Row>, y: int, bottom: int, offset: int, srcTop: int, srcBottom: int,
                    dl: nat, sl: nat, n: nat): (r: seq<Row>)
    requires 0 <= y && bottom <= |rows| && 0 <= srcTop && srcBottom <= |rows|
    requires forall k | 0 <= k < |rows| :: dl + n <= |rows[k]| && sl + n <= |rows[k]|
    ensures |r| == |rows| && forall k | 0 <= k < |rows| :: |r[k]| == |rows[k]|
    decreases bottom - y
  {
    if y >= bottom then rows
    else if !(srcTop <= y - offset < srcBottom) then
      CopyRows(rows, y + 1, bottom, offset, srcTop, srcBottom, dl, sl, n)
    else
      CopyRows(rows[y := CopyRow(rows[y], rows[y - offset], dl, sl, n)], y + 1, bottom, offset, srcTop, srcBottom,
               dl, sl, n)
  }

  /** A rectangle on the screen that may be copied to a place on the screen. */
  predicate Copyable(src: Rect, dst: Point, width: nat, height: nat) {
    && 0 <= src.left <= src.right <= width && 0 <= src.top <= src.bottom <= height
    && 0 <= dst.x <= width && 0 <= dst.y <= height
  }

  function CopyRect(rows: seq<Row>, src: Rect, dst: Point, width: nat, height: nat): (r: seq<Row>)
    requires Shaped(rows, width, height) && Copyable(src, dst, width, height)
    ensures Shaped(r, width, height) && |r| == |rows|
  {
    var s := Intersection(src, Bounds(width, height));
    var d := Intersection(Rect(dst.x, dst.y, dst.x + (src.right - src.left), dst.y + (src.bottom - src.top)),
                          Bounds(width, height));
    var xOffset, yOffset := d.left - s.left, d.top - s.top;
    if s.right - s.left == 0 || s.bottom - s.top == 0 || d.right - d.left == 0 || (xOffset == 0 && yOffset == 0)
    then rows
    else
      var lx, rx := Max(d.left - xOffset, s.left), Min(d.right - xOffset, s.right);
      var n := Min(rx - lx, d.right - d.left);
      CopyRows(rows, GLYPH_HEIGHT * d.top, GLYPH_HEIGHT * d.bottom, GLYPH_HEIGHT * yOffset,
               GLYPH_HEIGHT * s.top, GLYPH_HEIGHT * s.bottom, d.left, lx, n)
  }

  // ---- Filling ------------------------------------------------------------------

  function FillRow(row: Row, left: nat, n: nat, value: byte): (r: Row)
    requires left + n <= |row|
    ensures |r| == |row|
  {
    row[..left] + seq(n, _ => value) + row[left + n..]
  }

  /** Fills rows `y` to `bottom`. */
  function FillRows(rows: seq<Row>, y: int, bottom: int, left: nat, n: nat, value: byte): (r: seq<Row>)
    requires 0 <= y && bottom <= |rows| && forall k | 0 <= k < |rows| :: left + n <= |rows[k]|
    ensures |r| == |rows|
    ensures forall k | 0 <= k < |rows| :: r[k] == if y <= k < bottom then FillRow(rows[k], left, n, value) else rows[k]
    decreases bottom - y
  {
    if y >= bottom then rows
    else FillRows(rows[y := FillRow(rows[y], left, n, value)], y + 1, bottom, left, n, value)
  }

  predicate Fillable(r: Rect, width: nat, height: nat) {
    0 <= r.left <= r.right <= width && 0 <= r.top <= r.bottom <= height
  }

  /** FillRect_Locked with a blank; `value` is the plane's bit of the background colour,
      eight times. */
  function FillRect(rows: seq<Row>, rect: Rect, width: nat, height: nat, value: byte): (r: seq<Row>)
    requires Shaped(rows, width, height) && Fillable(rect, width, height)
    ensures Shaped(r, width, height) && |r| == |rows|
  {
    FillRows(rows, GLYPH_HEIGHT * rect.top, GLYPH_HEIGHT * rect.bottom, rect.left, rect.right - rect.left, value)
  }

  // ---- Scrolling ----------------------------------------------------------------

  function Abs(a: int): nat { if a >= 0 then a else -a }

  /** The copy that scrolls the text that stays on the screen. */
  function MoveText(rows: seq<Row>, dY: int, width: nat, height: nat): (r: seq<Row>)
    requires Shaped(rows, width, height) && Abs(dY) < height
    ensures Shaped(r, width, height) && |r| == |rows|
  {
    var n := Abs(dY);
    if dY < 0 then CopyRect(rows, Rect(0, 0, width, height - n), Point(0, n), width, height)
    else CopyRect(rows, Rect(0, n, width, height), Point(0, 0), width, height)
  }

  /** ScrollBy_Locked without a horizontal part; positive `dY` scrolls the text up. */
  function ScrollBy(rows: seq<Row>, dY: int, width: nat, height: nat, value: byte): (r: seq<Row>)
    requires Shaped(rows, width, height) && width >= 1
    ensures Shaped(r, width, height) && |r| == |rows|
  {
    var n := Abs(dY);
    if n >= height then FillRect(rows, Bounds(width, height), width, height, value)
    else if n == 0 then rows
    else FillRect(MoveText(rows, dY, width, height),
                  Rect(0, if dY < 0 then 0 else height - n, width, if dY < 0 then n else height),
                  width, height, value)
  }

  /** What is to be seen in row `k`. */
  function Seen(rows: seq<Row>, k: nat, width: nat): Row
    requires k < |rows| && |rows[k]| >= width
  {
    rows[k][..width]
  }

  function Blank(width: nat, value: byte): (r: Row)
    ensures |r| == width
  {
    seq(width, _ => value)
  }

  /** The simple picture of scrolling: row `k` shows what was `dY` rows of text below it,
      or is blank if there was none. */
  ghost predicate RowShifted(before: seq<Row>, after: seq<Row>, dY: int, width: nat, height: nat, value: byte, k: nat)
    requires Shaped(before, width, height) && Shaped(after, width, height) && k < GLYPH_HEIGHT * height
  {
    Seen(after, k, width) ==
      if 0 <= k + GLYPH_HEIGHT * dY < GLYPH_HEIGHT * height then Seen(before, k + GLYPH_HEIGHT * dY, width)
      else Blank(width, value)
  }

  ghost predicate IsShift(before: seq<Row>, after: seq<Row>, dY: int, width: nat, height: nat, value: byte)
    requires Shaped(before, width, height) && Shaped(after, width, height)
  {
    forall k: nat | k < GLYPH_HEIGHT * height :: RowShifted(before, after, dY, width, height, value, k)
  }

  /** What is seen after the screen has been blanked from text row `top` to `bottom`. */
  lemma FillSeen(rows: seq<Row>, top: nat, bottom: nat, width: nat, height: nat, value: byte, k: nat)
    requires Shaped(rows, width, height) && top <= bottom <= height && k < |rows|
    ensures Seen(FillRect(rows, Rect(0, top, width, bottom), width, height, value), k, width)
            == if GLYPH_HEIGHT * top <= k < GLYPH_HEIGHT * bottom then Blank(width, value) else Seen(rows, k, width)
  {
    assert FillRow(rows[k], 0, width, value)[..width] == Blank(width, value);
  }

  /** What is seen after scrolling, in terms of what is seen after the copy. */
  lemma ScrollSeen(rows: seq<Row>, dY: int, width: nat, height: nat, value: byte, k: nat)
    requires Shaped(rows, width, height) && width >= 1 && k < GLYPH_HEIGHT * height
    ensures var r, n := ScrollBy(rows, dY, width, height, value), Abs(dY);
            Seen(r, k, width) ==
              if n >= height then Blank(width, value)
              else if n == 0 then Seen(rows, k, width)
              else if dY < 0 && k < GLYPH_HEIGHT * n then Blank(width, value)
              else if dY > 0 && k >= GLYPH_HEIGHT * (height - n) then Blank(width, value)
              else Seen(MoveText(rows, dY, width, height), k, width)
  {
    var n := Abs(dY);
    if n >= height {
      FillSeen(rows, 0, height, width, height, value, k);
    } else if n > 0 {
      FillSeen(MoveText(rows, dY, width, height), if dY < 0 then 0 else height - n, if dY < 0 then n else height,
               width, height, value, k);
    }
  }

  /** Copying from rows further down never reads a row that has been written already. */
  lemma {:induction false} CopyUp(rows: seq<Row>, y: int, bottom: int, offset: int, srcTop: int, srcBottom: int,
                                  dl: nat, sl: nat, n: nat, k: nat)
    requires 0 <= y && bottom <= |rows| && 0 <= srcTop && srcBottom <= |rows| && offset <= 0 && k < |rows|
    requires forall k | 0 <= k < |rows| :: dl + n <= |rows[k]| && sl + n <= |rows[k]|
    ensures var r := CopyRows(rows, y, bottom, offset, srcTop, srcBottom, dl, sl, n);
            r[k] == if y <= k < bottom && srcTop <= k - offset < srcBottom
                    then CopyRow(rows[k], rows[k - offset], dl, sl, n) else rows[k]
    decreases bottom - y
  {
    if y < bottom {
      if srcTop <= y - offset < srcBottom {
        CopyUp(rows[y := CopyRow(rows[y], rows[y - offset], dl, sl, n)], y + 1, bottom, offset, srcTop, srcBottom,
               dl, sl, n, k);
      } else {
        CopyUp(rows, y + 1, bottom, offset, srcTop, srcBottom, dl, sl, n, k);
      }
    }
  }

  lemma MoveTextUp(rows: seq<Row>, n: nat, width: nat, height: nat)
    requires Shaped(rows, width, height) && width >= 1 && 0 < n < height
    ensures MoveText(rows, n, width, height)
            == CopyRows(rows, 0, GLYPH_HEIGHT * (height - n), 0 - GLYPH_HEIGHT * n, GLYPH_HEIGHT * n,
                        GLYPH_HEIGHT * height, 0, 0, width)
  {
  }

  lemma CopyUpSeen(rows: seq<Row>, offset: nat, bottom: nat, width: nat, k: nat)
    requires offset <= bottom <= |rows| && k < bottom - offset
    requires forall k | 0 <= k < |rows| :: |rows[k]| >= width
    ensures Seen(CopyRows(rows, 0, bottom - offset, 0 - offset, offset, bottom, 0, 0, width), k, width)
            == Seen(rows, k + offset, width)
  {
    CopyUp(rows, 0, bottom - offset, 0 - offset, offset, bottom, 0, 0, width, k);
    CopyRowSeen(rows[k], rows[k + offset], width);
  }

  lemma MoveUpSeen(rows: seq<Row>, n: nat, width: nat, height: nat, k: nat)
    requires Shaped(rows, width, height) && width >= 1 && 0 < n < height && k < GLYPH_HEIGHT * (height - n)
    ensures Seen(MoveText(rows, n, width, height), k, width) == Seen(rows, k + GLYPH_HEIGHT * n, width)
  {
    MoveTextUp(rows, n, width, height);
    CopyUpSeen(rows, GLYPH_HEIGHT * n, GLYPH_HEIGHT * height, width, k);
  }

  lemma CopyRowSeen(dst: Row, src: Row, width: nat)
    requires width <= |dst| && width <= |src|
    ensures CopyRow(dst, src, 0, 0, width)[..width] == src[..width]
  {
  }

  /** Scrolling up by any number of rows is the simple shift. */
  lemma ScrollUpIsShift(rows: seq<Row>, n: nat, width: nat, height: nat, value: byte)
    requires Shaped(rows, width, height) && width >= 1
    ensures IsShift(rows, ScrollBy(rows, n, width, height, value), n, width, height, value)
  {
    var r := ScrollBy(rows, n, width, height, value);
    forall k: nat | k < GLYPH_HEIGHT * height ensures RowShifted(rows, r, n, width, height, value, k) {
      ScrollSeen(rows, n, width, height, value, k);
      if 0 < n < height && k < GLYPH_HEIGHT * (height - n) { MoveUpSeen(rows, n, width, height, k); }
    }
  }

  // ---- Scrolling down -----------------------------------------------------------

  /** Copying to rows further down reads rows that have been written already: what is seen
      repeats the first `offset` rows. */
  lemma {:induction false} CopyDown(rows: seq<Row>, orig: seq<Row>, y: int, bottom: int, offset: int, width: nat)
    requires 0 < offset <= y && offset <= bottom && bottom <= |rows| == |orig|
    requires forall k | 0 <= k < |rows| :: |rows[k]| >= width && |orig[k]| >= width
    requires forall k: nat | k < y && k < |rows| :: Seen(rows, k, width) == Seen(orig, k % offset, width)
    requires forall k: nat | y <= k < |rows| :: rows[k] == orig[k]
    ensures var r := CopyRows(rows, y, bottom, offset, 0, bottom - offset, 0, 0, width);
            forall k: nat | k < bottom :: Seen(r, k, width) == Seen(orig, k % offset, width)
    decreases bottom - y
  {
    if y < bottom {
      var next := rows[y := CopyRow(rows[y], rows[y - offset], 0, 0, width)];
      assert (y - offset) % offset == y % offset by { StepBack(y, offset); }
      assert Seen(next, y, width) == Seen(rows, y - offset, width);
      forall k: nat | k < y + 1 && k < |next| ensures Seen(next, k, width) == Seen(orig, k % offset, width) {
        if k < y { assert Seen(next, k, width) == Seen(rows, k, width); }
      }
      CopyDown(next, orig, y + 1, bottom, offset, width);
    }
  }

  lemma StepBack(y: nat, offset: nat)
    requires 0 < offset <= y
    ensures (y - offset) % offset == y % offset
  {
    assert y == y / offset * offset + y % offset;
    assert y - offset == (y / offset - 1) * offset + y % offset;
    DivisionUnique(y - offset, offset, y / offset - 1, y % offset);
  }

  lemma MoveDownSeen(rows: seq<Row>, n: nat, width: nat, height: nat, k: nat)
    requires Shaped(rows, width, height) && width >= 1 && 0 < n < height && k < GLYPH_HEIGHT * height
    ensures Seen(MoveText(rows, 0 - n, width, height), k, width) == Seen(rows, k % (GLYPH_HEIGHT * n), width)
  {
    var offset, bottom := GLYPH_HEIGHT * n, GLYPH_HEIGHT * height;
    forall j: nat | j < offset ensures j % offset == j { DivisionUnique(j, offset, 0, j); }
    CopyDown(rows, rows, offset, bottom, offset, width);
    assert MoveText(rows, 0 - n, width, height)
           == CopyRows(rows, offset, bottom, offset, 0, bottom - offset, 0, 0, width);
  }

  /** Scrolling down by fewer rows than there are repeats the rows at the top. */
  lemma ScrollDownRepeats(rows: seq<Row>, n: nat, width: nat, height: nat, value: byte, k: nat)
    requires Shaped(rows, width, height) && width >= 1 && 0 < n < height && k < GLYPH_HEIGHT * height
    ensures Seen(ScrollBy(rows, 0 - n, width, height, value), k, width)
            == if k < GLYPH_HEIGHT * n then Blank(width, value) else Seen(rows, k % (GLYPH_HEIGHT * n), width)
  {
    ScrollSeen(rows, 0 - n, width, height, value, k);
    MoveDownSeen(rows, n, width, height, k);
  }

  /** A screen whose first row shows a one in its first column, and only that row. */
  function OneMark(width: nat, height: nat): (rows: seq<Row>)
    requires width >= 1
    ensures Shaped(rows, width, height) && |rows| == GLYPH_HEIGHT * height
    ensures forall k | 0 <= k < |rows| :: |rows[k]| == width && rows[k][0] == if k == 0 then 1 else 0
  {
    seq(GLYPH_HEIGHT * height, (k: nat) => [if k == 0 then 1 else 0] + Blank(width - 1, 0))
  }

  lemma ScrollDownFarRow(rows: seq<Row>, n: nat, width: nat, height: nat, value: byte, k: nat)
    requires Shaped(rows, width, height) && width >= 1 && (n == 0 || height <= 2 * n) && k < GLYPH_HEIGHT * height
    ensures RowShifted(rows, ScrollBy(rows, 0 - n, width, height, value), 0 - n, width, height, value, k)
  {
    if 0 < n < height && k >= GLYPH_HEIGHT * n {
      ScrollDownFarText(rows, n, width, height, value, k);
    } else {
      ScrollSeen(rows, 0 - n, width, height, value, k);
    }
  }

  lemma ScrollDownFarText(rows: seq<Row>, n: nat, width: nat, height: nat, value: byte, k: nat)
    requires Shaped(rows, width, height) && width >= 1 && 0 < n < height <= 2 * n
    requires GLYPH_HEIGHT * n <= k < GLYPH_HEIGHT * height
    ensures Seen(ScrollBy(rows, 0 - n, width, height, value), k, width) == Seen(rows, k - GLYPH_HEIGHT * n, width)
  {
    var offset := GLYPH_HEIGHT * n;
    assert k % offset == k - offset by { DivisionUnique(k, offset, 1, k - offset); }
    ScrollDownRepeats(rows, n, width, height, value, k);
  }

  lemma ScrollDownFar(rows: seq<Row>, n: nat, width: nat, height: nat, value: byte)
    requires Shaped(rows, width, height) && width >= 1 && (n == 0 || height <= 2 * n)
    ensures IsShift(rows, ScrollBy(rows, 0 - n, width, height, value), 0 - n, width, height, value)
  {
    var dY := 0 - n;
    var r := ScrollBy(rows, dY, width, height, value);
    forall k: nat | k < GLYPH_HEIGHT * height ensures RowShifted(rows, r, dY, width, height, value, k) {
      ScrollDownFarRow(rows, n, width, height, value, k);
    }
  }

  /** The mark shows up twice as far down as well, where the row below it should be. */
  lemma ScrollDownSmears(rows: seq<Row>, n: nat, width: nat, height: nat, value: byte)
    requires width >= 1 && 0 < n && 2 * n < height && rows == OneMark(width, height)
    ensures !IsShift(rows, ScrollBy(rows, 0 - n, width, height, value), 0 - n, width, height, value)
  {
    var r, offset := ScrollBy(rows, 0 - n, width, height, value), GLYPH_HEIGHT * n;
    var k := 2 * offset;
    ScrollDownRepeats(rows, n, width, height, value, k);
    DivisionUnique(k, offset, 2, 0);
    assert Seen(r, k, width)[0] == 1;
    assert Seen(rows, k - offset, width)[0] == 0;
    assert !RowShifted(rows, r, 0 - n, width, height, value, k);
  }

  /** Scrolling down is the simple shift on every screen if and only if the text moves by at
      least half the height of the screen, or not at all: then no row is read after it has
      been written. */
  lemma ScrollDownIsShiftExactly(n: nat, width: nat, height: nat, value: byte)
    requires width >= 1
    ensures (forall rows: seq<Row> | Shaped(rows, width, height) ::
               IsShift(rows, ScrollBy(rows, 0 - n, width, height, value), 0 - n, width, height, value))
            <==> n == 0 || height <= 2 * n
  {
    if n == 0 || height <= 2 * n {
      forall rows: seq<Row> | Shaped(rows, width, height)
        ensures IsShift(rows, ScrollBy(rows, 0 - n, width, height, value), 0 - n, width, height, value)
      {
        ScrollDownFar(rows, n, width, height, value);
      }
    } else {
      var rows := OneMark(width, height);
      ScrollDownSmears(rows, n, width, height, value);
      assert Shaped(rows, width, height);
    }
  }
}
