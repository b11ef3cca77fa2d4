/** The cursor of the console (Kernel/Sources/console/Console.c:113-138, 298-392, 428-468). */
module ConsoleCursor {
  import opened ConsoleScreen

  datatype CursorMovement = Clamp | AutoWrap | AutoScroll

  datatype Cursor = Cursor(x: int, y: int, savedX: int, savedY: int, isAutoWrapEnabled: bool, isInsertionMode: bool)

  /** Where a movement ends, and by how many rows it scrolls the text up. */
  datatype Move = Move(x: int, y: int, scroll: int)

  function Clamped(a: int, last: int): int {
    Max(Min(a, last), 0)
  }

  /** How far `y` is outside the rows from 0 to `last`. */
  function Overshoot(y: int, last: int): int {
    if y < 0 then y else if y > last then y - last else 0
  }

  /** MoveCursor_Locked. */
  function Moved(c: Cursor, mode: CursorMovement, dx: int, dy: int, width: nat, height: nat): Move {
    var eX, eY, x, y := width - 1, height - 1, c.x + dx, c.y + dy;
    if dx == 0 && dy == 0 then Move(c.x, c.y, 0)
    else match mode
         case Clamp => Move(Clamped(x, eX), Clamped(y, eY), 0)
         case AutoWrap =>
           var wrapped := if x > eX then y + 1 else y;
           Move(if x < 0 || x > eX then 0 else x, wrapped - Overshoot(wrapped, eY), Overshoot(wrapped, eY))
         case AutoScroll => Move(Clamped(x, eX), y - Overshoot(y, eY), Overshoot(y, eY))
  }

  /** What the console can be asked to do to its cursor. */
  datatype Op =
    | MoveBy(mode: CursorMovement, dx: int, dy: int)
    | MoveTo(x: int, y: int)
    | Print
    | LineFeed
    | Backspace
    | Save
    | Restore
    | Reset
    | SetModes(autoWrap: bool, insertion: bool)

  function At(c: Cursor, m: Move): Cursor { c.(x := m.x, y := m.y) }

  /** The movement that an operation makes. */
  function MoveOf(c: Cursor, op: Op, width: nat, height: nat): Move {
    match op
    case MoveBy(mode, dx, dy) => Moved(c, mode, dx, dy, width, height)
    case MoveTo(x, y) => Moved(c, Clamp, x - c.x, y - c.y, width, height)
    case Print => Moved(c, if c.isAutoWrapEnabled then AutoWrap else Clamp, 1, 0, width, height)
    case LineFeed => Moved(c, AutoScroll, 0 - c.x, 1, width, height)
    case Backspace => if c.x > 0 then Moved(c, Clamp, -1, 0, width, height) else Move(c.x, c.y, 0)
    case Restore => Moved(c, Clamp, c.savedX - c.x, c.savedY - c.y, width, height)
    case Reset => Moved(c, Clamp, 0 - c.x, 0 - c.y, width, height)
    case _ => Move(c.x, c.y, 0)
  }

  function Apply(c: Cursor, op: Op, width: nat, height: nat): Cursor {
    var r := At(c, MoveOf(c, op, width, height));
    match op
    case Save => r.(savedX := c.x, savedY := c.y)
    case Reset => r.(savedX := 0, savedY := 0, isAutoWrapEnabled := true, isInsertionMode := false)
    case SetModes(autoWrap, insertion) => r.(isAutoWrapEnabled := autoWrap, isInsertionMode := insertion)
    case _ => r
  }

  predicate Inside(c: Cursor, width: nat, height: nat) {
    && 0 <= c.x < width && 0 <= c.y < height
    && 0 <= c.savedX < width && 0 <= c.savedY < height
  }

  function After(c: Cursor, ops: seq<Op>, width: nat, height: nat): Cursor {
    if ops == [] then c else Apply(After(c, ops[..|ops| - 1], width, height), ops[|ops| - 1], width, height)
  }

  lemma MovedInside(c: Cursor, mode: CursorMovement, dx: int, dy: int, width: nat, height: nat)
    requires width >= 1 && height >= 1 && Inside(c, width, height)
    ensures Inside(At(c, Moved(c, mode, dx, dy, width, height)), width, height)
  {
  }

  lemma ApplyKeepsInside(c: Cursor, op: Op, width: nat, height: nat)
    requires width >= 1 && height >= 1 && (Inside(c, width, height) || op == Reset)
    ensures Inside(Apply(c, op, width, height), width, height)
  {
  }

  /** Wherever the cursor was before the console is reset, it is inside the screen from then
      on, whatever is done. */
  lemma {:induction false} CursorStaysInside(c: Cursor, ops: seq<Op>, width: nat, height: nat)
    requires width >= 1 && height >= 1 && ops != [] && ops[0] == Reset
    ensures Inside(After(c, ops, width, height), width, height)
  {
    var n := |ops| - 1;
    if n > 0 { CursorStaysInside(c, ops[..n], width, height); }
    ApplyKeepsInside(After(c, ops[..n], width, height), ops[n], width, height);
  }

  /** Scrolling makes up for the rows that a movement goes past the screen: in terms of the
      text, the cursor is in the row it would be in on a screen without top and bottom. */
  lemma MovementsFollowTheText(c: Cursor, mode: CursorMovement, dx: int, dy: int, width: nat, height: nat)
    requires width >= 1 && height >= 1 && Inside(c, width, height) && !mode.Clamp?
    ensures var m := Moved(c, mode, dx, dy, width, height);
            && 0 <= m.y < height && 0 <= m.x < width
            && m.y + m.scroll == c.y + dy + (if mode.AutoWrap? && c.x + dx >= width then 1 else 0)
            && (m.scroll > 0 ==> m.y == height - 1) && (m.scroll < 0 ==> m.y == 0)
  {
  }

  predicate Keeps(op: Op) { op == Save || op == Reset }

  /** Restoring returns exactly to where the cursor was when it was last saved, or to the
      origin if the console has been reset since, whatever else has been done before and
      afterwards. */
  lemma RestoreUndoesMoves(c: Cursor, before: seq<Op>, kept: Op, ops: seq<Op>, width: nat, height: nat)
    requires width >= 1 && height >= 1 && Inside(c, width, height)
    requires Keeps(kept) && forall op | op in ops :: !Keeps(op)
    ensures var earlier := After(c, before, width, height);
            var r := Apply(After(c, before + [kept] + ops, width, height), Restore, width, height);
            && r.x == (if kept == Save then earlier.x else 0)
            && r.y == (if kept == Save then earlier.y else 0)
  {
    var saved := Apply(After(c, before, width, height), kept, width, height);
    AfterInside(c, before, width, height);
    ApplyKeepsInside(After(c, before, width, height), kept, width, height);
    AfterConcat(c, before + [kept], ops, width, height);
    assert (before + [kept])[..|before|] == before;
    AfterInside(saved, ops, width, height);
    SavedKept(saved, ops, width, height);
  }

  lemma {:induction false} AfterInside(c: Cursor, ops: seq<Op>, width: nat, height: nat)
    requires width >= 1 && height >= 1 && Inside(c, width, height)
    ensures Inside(After(c, ops, width, height), width, height)
  {
    if ops != [] {
      var n := |ops| - 1;
      AfterInside(c, ops[..n], width, height);
      ApplyKeepsInside(After(c, ops[..n], width, height), ops[n], width, height);
    }
  }

  lemma {:induction false} AfterConcat(c: Cursor, a: seq<Op>, b: seq<Op>, width: nat, height: nat)
    ensures After(c, a + b, width, height) == After(After(c, a, width, height), b, width, height)
  {
    if b == [] {
      assert a + b == a;
    } else {
      var n := |b| - 1;
      AfterConcat(c, a, b[..n], width, height);
      assert (a + b)[..|a + b| - 1] == a + b[..n];
    }
  }

  lemma {:induction false} SavedKept(c: Cursor, ops: seq<Op>, width: nat, height: nat)
    requires forall op | op in ops :: !Keeps(op)
    ensures After(c, ops, width, height).savedX == c.savedX && After(c, ops, width, height).savedY == c.savedY
  {
    if ops != [] {
      var n := |ops| - 1;
      assert ops[n] in ops && forall op | op in ops[..n] :: op in ops;
      SavedKept(c, ops[..n], width, height);
    }
  }
}
