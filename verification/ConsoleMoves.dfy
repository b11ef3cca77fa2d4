/** Where each operation of the console takes the cursor, and when it scrolls the text
    (Kernel/Sources/console/Console.c:113-138, 300-382, 410-468). */
module ConsoleMoves {
  import opened Arithmetic
  import opened ConsoleCursor

  /** By how many rows an operation scrolls the text up. */
  function Scrolls(c: Cursor, op: Op, width: nat, height: nat): int {
    MoveOf(c, op, width, height).scroll
  }

  /** Nothing about the cursor but its position has changed. */
  predicate OnlyMoved(c: Cursor, r: Cursor) {
    r == c.(x := r.x, y := r.y)
  }

  /** A line feed goes to the first column of the next row of text; in the last row of the
      screen the text scrolls up by one row instead. */
  lemma LineFeedMoves(c: Cursor, width: nat, height: nat)
    requires width >= 1 && height >= 1 && Inside(c, width, height)
    ensures var r, up := Apply(c, LineFeed, width, height), Scrolls(c, LineFeed, width, height);
            && OnlyMoved(c, r) && r.x == 0 && r.y + up == c.y + 1
            && up == (if c.y == height - 1 then 1 else 0)
  {
  }

  /** Printing goes one column to the right.  In the last column it goes on in the next row of
      text, if automatic wrapping is on, and stays where it is otherwise. */
  lemma PrintMoves(c: Cursor, width: nat, height: nat)
    requires width >= 1 && height >= 1 && Inside(c, width, height)
    ensures var r, up := Apply(c, Print, width, height), Scrolls(c, Print, width, height);
            && OnlyMoved(c, r)
            && if c.x < width - 1 then r.x == c.x + 1 && r.y == c.y && up == 0
               else if c.isAutoWrapEnabled then
                 r.x == 0 && r.y + up == c.y + 1 && up == (if c.y == height - 1 then 1 else 0)
               else r == c && up == 0
  {
  }

  /** A backspace goes one column to the left, and stops at the first. */
  lemma BackspaceMoves(c: Cursor, width: nat, height: nat)
    requires width >= 1 && height >= 1 && Inside(c, width, height)
    ensures var r := Apply(c, Backspace, width, height);
            && OnlyMoved(c, r) && r.y == c.y && r.x == (if c.x == 0 then 0 else c.x - 1)
            && Scrolls(c, Backspace, width, height) == 0
  {
  }

  /** The nearest number from 0 to `size - 1`. */
  function Nearest(a: int, size: nat): int {
    if a < 0 then 0 else if a < size then a else size - 1
  }

  /** A movement to a place ends at the nearest place on the screen. */
  lemma MoveToLands(c: Cursor, x: int, y: int, width: nat, height: nat)
    requires width >= 1 && height >= 1 && Inside(c, width, height)
    ensures var r := Apply(c, MoveTo(x, y), width, height);
            && OnlyMoved(c, r) && r.x == Nearest(x, width) && r.y == Nearest(y, height)
            && Scrolls(c, MoveTo(x, y), width, height) == 0
  {
  }

  /** How far row `y` is above (negative) or below the screen. */
  function Outside(y: int, height: nat): int {
    if y < 0 then y else if y < height then 0 else y - (height - 1)
  }

  /** A relative movement: clamped ones stay on the screen, scrolling ones take the text along
      by as many rows as they would leave the screen, and wrapping ones go on at the start of
      the next row of text when they leave the screen to the right. */
  lemma RelativeMoves(c: Cursor, mode: CursorMovement, dx: int, dy: int, width: nat, height: nat)
    requires width >= 1 && height >= 1 && Inside(c, width, height)
    ensures var op := MoveBy(mode, dx, dy);
            var r, up := Apply(c, op, width, height), Scrolls(c, op, width, height);
            && OnlyMoved(c, r)
            && match mode
               case Clamp => r.x == Nearest(c.x + dx, width) && r.y == Nearest(c.y + dy, height) && up == 0
               case AutoScroll =>
                 r.x == Nearest(c.x + dx, width) && r.y + up == c.y + dy && up == Outside(c.y + dy, height)
               case AutoWrap =>
                 var row := if c.x + dx >= width then c.y + dy + 1 else c.y + dy;
                 && r.x == (if c.x + dx < 0 || c.x + dx >= width then 0 else c.x + dx)
                 && r.y + up == row && up == Outside(row, height)
  {
  }

  /** Saving and setting modes do not move the cursor, restoring goes back to the saved place,
      and a reset goes to the origin and sets everything to its default. */
  lemma StateOperations(c: Cursor, autoWrap: bool, insertion: bool, width: nat, height: nat)
    requires width >= 1 && height >= 1 && Inside(c, width, height)
    ensures Apply(c, Save, width, height) == c.(savedX := c.x, savedY := c.y)
    ensures Apply(c, Restore, width, height) == c.(x := c.savedX, y := c.savedY)
    ensures Apply(c, Reset, width, height) == Cursor(0, 0, 0, 0, true, false)
    ensures Apply(c, SetModes(autoWrap, insertion), width, height)
            == Cursor(c.x, c.y, c.savedX, c.savedY, autoWrap, insertion)
  {
  }

  /** Only a line feed in the last row, a print that wraps there, and relative movements that
      are neither clamped nor stay on the screen scroll the text. */
  lemma OnlyTheseScroll(c: Cursor, op: Op, width: nat, height: nat)
    requires width >= 1 && height >= 1 && Inside(c, width, height)
    ensures Scrolls(c, op, width, height) != 0 <==>
            match op
            case LineFeed => c.y == height - 1
            case Print => c.isAutoWrapEnabled && c.x == width - 1 && c.y == height - 1
            case MoveBy(mode, dx, dy) =>
              && !mode.Clamp?
              && var row := if mode.AutoWrap? && c.x + dx >= width then c.y + dy + 1 else c.y + dy;
                 row < 0 || row >= height
            case _ => false
  {
  }

  // ---- Lines of text --------------------------------------------------------------

  /** By how many rows a list of operations scrolls the text up. */
  function Scrolled(c: Cursor, ops: seq<Op>, width: nat, height: nat): int {
    if ops == [] then 0
    else
      var rest := ops[..|ops| - 1];
      Scrolled(c, rest, width, height) + Scrolls(After(c, rest, width, height), ops[|ops| - 1], width, height)
  }

  function Prints(n: nat): (ops: seq<Op>)
    ensures |ops| == n
  {
    if n == 0 then [] else Prints(n - 1) + [Print]
  }

  lemma NextColumn(n: nat, width: nat)
    requires width >= 1 && n >= 1
    ensures if (n - 1) % width == width - 1 then n % width == 0 && n / width == (n - 1) / width + 1
            else n % width == (n - 1) % width + 1 && n / width == (n - 1) / width
  {
    var q, r := (n - 1) / width, (n - 1) % width;
    assert n - 1 == q * width + r;
    if r == width - 1 {
      assert n == (q + 1) * width + 0 by { assert (q + 1) * width == q * width + width; }
      DivisionUnique(n, width, q + 1, 0);
    } else {
      DivisionUnique(n, width, q, r + 1);
    }
  }

  /** Text that is printed with automatic wrapping fills one row after the other: character `n`
      after the start of a row is in column `n mod width` of row `n / width` of the text,
      however far the screen has scrolled. */
  lemma {:induction false} PrintedTextWraps(c: Cursor, n: nat, width: nat, height: nat)
    requires width >= 1 && height >= 1 && Inside(c, width, height) && c.isAutoWrapEnabled && c.x == 0
    ensures var r := After(c, Prints(n), width, height);
            && Inside(r, width, height) && r.isAutoWrapEnabled && r.x == n % width
            && r.y + Scrolled(c, Prints(n), width, height) == c.y + n / width
  {
    if n > 0 {
      PrintedTextWraps(c, n - 1, width, height);
      assert Prints(n)[..n - 1] == Prints(n - 1);
      PrintMoves(After(c, Prints(n - 1), width, height), width, height);
      NextColumn(n, width);
      AfterInside(c, Prints(n), width, height);
    } else {
      DivisionUnique(0, width, 0, 0);
    }
  }
}
