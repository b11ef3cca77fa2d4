/** The console as the kernel runs it: the row loops of the blitter over the planes of the
    frame buffer and the cursor movements that scroll them. */
module Consoles {
  import opened Bytes
  import opened ConsoleScreen
  import opened ConsoleCursor

  /** The part of CopyRect_Locked for one plane: rows are copied in ascending order. */
  method CopyRectInPlane(rows: array<Row>, src: Rect, dst: Point, width: nat, height: nat)
    requires Shaped(rows[..], width, height) && Copyable(src, dst, width, height)
    modifies rows
    ensures rows[..] == ConsoleScreen.CopyRect(old(rows[..]), src, dst, width, height)
  {
    hide CopyRows, CopyRow;
    var s := Intersection(src, Bounds(width, height));
    var d := Intersection(Rect(dst.x, dst.y, dst.x + (src.right - src.left), dst.y + (src.bottom - src.top)),
                          Bounds(width, height));
    var xOffset, yOffset := d.left - s.left, d.top - s.top;
    if s.right - s.left == 0 || s.bottom - s.top == 0 || d.right - d.left == 0 || (xOffset == 0 && yOffset == 0) {
      return;
    }
    var lx, rx := Max(d.left - xOffset, s.left), Min(d.right - xOffset, s.right);
    var n := Min(rx - lx, d.right - d.left);
    CopyRowLoop(rows, GLYPH_HEIGHT * d.top, GLYPH_HEIGHT * d.bottom, GLYPH_HEIGHT * yOffset,
                GLYPH_HEIGHT * s.top, GLYPH_HEIGHT * s.bottom, d.left, lx, n);
  }

  method CopyRowLoop(rows: array<Row>, top: nat, bottom: int, offset: int, srcTop: int, srcBottom: int,
                     dl: nat, sl: nat, n: nat)
    requires bottom <= rows.Length && 0 <= srcTop && srcBottom <= rows.Length
    requires forall k | 0 <= k < rows.Length :: dl + n <= |rows[k]| && sl + n <= |rows[k]|
    modifies rows
    ensures rows[..] == CopyRows(old(rows[..]), top, bottom, offset, srcTop, srcBottom, dl, sl, n)
  {
    hide CopyRow;
    var y := top;
    while y < bottom
      invariant top <= y
      invariant forall k | 0 <= k < rows.Length :: dl + n <= |rows[k]| && sl + n <= |rows[k]|
      invariant CopyRows(rows[..], y, bottom, offset, srcTop, srcBottom, dl, sl, n)
                == CopyRows(old(rows[..]), top, bottom, offset, srcTop, srcBottom, dl, sl, n)
    {
      var srcY := y - offset;
      if srcTop <= srcY < srcBottom {
        ghost var before := rows[..];
        rows[y] := CopyRow(rows[y], rows[srcY], dl, sl, n);
        assert rows[..] == before[y := CopyRow(before[y], before[srcY], dl, sl, n)];
      }
      y := y + 1;
    }
  }

  /** The part of FillRect_Locked for one plane and a blank. */
  method FillRectInPlane(rows: array<Row>, rect: Rect, width: nat, height: nat, background: byte)
    requires Shaped(rows[..], width, height) && Fillable(rect, width, height)
    modifies rows
    ensures rows[..] == ConsoleScreen.FillRect(old(rows[..]), rect, width, height, background)
  {
    var y, bottom := GLYPH_HEIGHT * rect.top, GLYPH_HEIGHT * rect.bottom;
    var left, n := rect.left, rect.right - rect.left;
    while y < bottom
      invariant 0 <= y && Shaped(rows[..], width, height)
      invariant FillRows(rows[..], y, bottom, left, n, background)
                == ConsoleScreen.FillRect(old(rows[..]), rect, width, height, background)
    {
      ghost var before := rows[..];
      rows[y] := FillRow(rows[y], left, n, background);
      assert rows[..] == before[y := FillRow(before[y], left, n, background)];
      y := y + 1;
    }
  }

  /** ScrollBy_Locked for one plane. */
  method ScrollPlane(rows: array<Row>, dY: int, width: nat, height: nat, background: byte)
    requires Shaped(rows[..], width, height) && width >= 1
    modifies rows
    ensures rows[..] == ConsoleScreen.ScrollBy(old(rows[..]), dY, width, height, background)
  {
    var n := Abs(dY);
    if n < height {
      if n > 0 {
        if dY < 0 {
          CopyRectInPlane(rows, Rect(0, 0, width, height - n), Point(0, n), width, height);
          FillRectInPlane(rows, Rect(0, 0, width, n), width, height, background);
        } else {
          CopyRectInPlane(rows, Rect(0, n, width, height), Point(0, 0), width, height);
          FillRectInPlane(rows, Rect(0, height - n, width, height), width, height, background);
        }
      }
    } else {
      FillRectInPlane(rows, Bounds(width, height), width, height, background);
    }
  }

  class Console {
    const width: nat
    const height: nat
    /** The planes of the frame buffer, and the bit of the background colour in each, eight
        times. */
    const planes: seq<array<Row>>
    var backgrounds: seq<byte>
    var cursor: Cursor

    ghost predicate Valid()
      reads this, planes
    {
      && width >= 1 && height >= 1 && Inside(cursor, width, height) && |backgrounds| == |planes|
      && (forall i | 0 <= i < |planes| :: Shaped(planes[i][..], width, height))
      && (forall i, j | 0 <= i < j < |planes| :: planes[i] != planes[j])
    }

    constructor (width: nat, height: nat, planes: seq<array<Row>>, backgrounds: seq<byte>)
      requires width >= 1 && height >= 1 && |backgrounds| == |planes|
      requires forall i | 0 <= i < |planes| :: Shaped(planes[i][..], width, height)
      requires forall i, j | 0 <= i < j < |planes| :: planes[i] != planes[j]
      ensures Valid() && this.planes == planes && this.width == width && this.height == height
    {
      this.width, this.height, this.planes, this.backgrounds := width, height, planes, backgrounds;
      cursor := Cursor(0, 0, 0, 0, true, false);
    }

    /** The contents of all planes. */
    ghost function PlaneRows(): (r: seq<seq<Row>>)
      reads planes
      ensures |r| == |planes| && forall k | 0 <= k < |planes| :: r[k] == planes[k][..]
    {
      seq(|planes|, k requires 0 <= k < |planes| reads planes => planes[k][..])
    }

    /** Every plane is what scrolling makes of its earlier contents. */
    ghost predicate ScrolledBy(before: seq<seq<Row>>, dY: int)
      reads this, planes
    {
      && width >= 1 && |before| == |planes| == |backgrounds|
      && forall k | 0 <= k < |planes| ::
           Shaped(before[k], width, height)
           && planes[k][..] == ConsoleScreen.ScrollBy(before[k], dY, width, height, backgrounds[k])
    }

    /** Scrolls one plane; no other plane shares its rows. */
    method ScrollOne(i: nat, dY: int)
      requires Valid() && i < |planes|
      modifies planes[i]
      ensures Valid() && forall k | 0 <= k < |planes| ::
                planes[k][..] ==
                if k == i then ConsoleScreen.ScrollBy(old(planes[k][..]), dY, width, height, backgrounds[k])
                                 else old(planes[k][..])
    {
      ScrollPlane(planes[i], dY, width, height, backgrounds[i]);
    }

    /** Scrolls all planes. */
    method ScrollAll(dY: int)
      requires Valid()
      modifies planes
      ensures Valid() && ScrolledBy(old(PlaneRows()), dY)
    {
      ghost var before := PlaneRows();
      var i := 0;
      while i < |planes|
        invariant 0 <= i <= |planes| && Valid()
        invariant forall k | 0 <= k < i ::
                    planes[k][..] == ConsoleScreen.ScrollBy(before[k], dY, width, height, backgrounds[k])
        invariant forall k | i <= k < |planes| :: planes[k][..] == before[k]
      {
        ScrollOne(i, dY);
        i := i + 1;
      }
    }

    /** The part of MoveCursor_Locked that works out where the cursor goes. */
    method FindMove(mode: CursorMovement, dx: int, dy: int) returns (m: Move)
      ensures m == Moved(cursor, mode, dx, dy, width, height)
    {
      if dx == 0 && dy == 0 { return Move(cursor.x, cursor.y, 0); }
      var x, y, scroll := cursor.x + dx, cursor.y + dy, 0;
      var eX, eY := width - 1, height - 1;
      match mode {
        case Clamp =>
          x, y := Clamped(x, eX), Clamped(y, eY);
        case AutoWrap =>
          if x < 0 {
            x := 0;
          } else if x > eX {
            x, y := 0, y + 1;
          }
          if y < 0 { scroll, y := y, 0; } else if y > eY { scroll, y := y - eY, eY; }
        case AutoScroll =>
          x := Clamped(x, eX);
          if y < 0 { scroll, y := y, 0; } else if y > eY { scroll, y := y - eY, eY; }
      }
      return Move(x, y, scroll);
    }

    /** MoveCursor_Locked: moves the cursor and scrolls what it runs into. */
    method MoveCursor(mode: CursorMovement, dx: int, dy: int)
      requires Valid()
      modifies this`cursor, planes
      ensures Valid() && cursor == At(old(cursor), Moved(old(cursor), mode, dx, dy, width, height))
      ensures ScrolledBy(old(PlaneRows()), Moved(old(cursor), mode, dx, dy, width, height).scroll)
    {
      var m := FindMove(mode, dx, dy);
      ScrollAll(m.scroll);
      MovedInside(cursor, mode, dx, dy, width, height);
      cursor := cursor.(x := m.x, y := m.y);
    }

    /** The operations of the console, without the glyphs that Print draws. */
    method Perform(op: Op)
      requires Valid()
      modifies this`cursor, planes
      ensures Valid() && cursor == Apply(old(cursor), op, width, height)
      ensures ScrolledBy(old(PlaneRows()), MoveOf(old(cursor), op, width, height).scroll)
    {
      hide Intersection, CopyRows, FillRows, Clamped, Overshoot, ConsoleScreen.CopyRect, ConsoleScreen.FillRect;
      match op {
        case MoveBy(mode, dx, dy) => MoveCursor(mode, dx, dy);
        case MoveTo(x, y) => MoveCursor(Clamp, x - cursor.x, y - cursor.y);
        case Print => MoveCursor(if cursor.isAutoWrapEnabled then AutoWrap else Clamp, 1, 0);
        case LineFeed => MoveCursor(AutoScroll, 0 - cursor.x, 1);
        case Backspace => if cursor.x > 0 { MoveCursor(Clamp, -1, 0); }
        case Save => cursor := cursor.(savedX := cursor.x, savedY := cursor.y);
        case Restore => MoveCursor(Clamp, cursor.savedX - cursor.x, cursor.savedY - cursor.y);
        case Reset =>
          cursor := cursor.(savedX := 0, savedY := 0);
          MoveCursor(Clamp, 0 - cursor.x, 0 - cursor.y);
          cursor := cursor.(isAutoWrapEnabled := true, isInsertionMode := false);
        case SetModes(autoWrap, insertion) =>
          cursor := cursor.(isAutoWrapEnabled := autoWrap, isInsertionMode := insertion);
      }
    }
  }
}
