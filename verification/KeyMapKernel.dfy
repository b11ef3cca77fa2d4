/** The kernel's key map interpreter (Kernel/Sources/console/KeyMap.c): which entry of the
    key table it reaches, and what it makes of it. */
module KeyMapKernel {
  import opened Bytes
  import opened Sequences
  import opened KeyMapFormat
  import opened KeyMapStages
  import opened KeyMapRanges

  const KEY_A := 0x04
  const KEY_Z := 0x1d

  datatype Modifiers = Modifiers(shift: bool, option: bool, control: bool, capsLock: bool)

  // ---- The direct lookup --------------------------------------------------------

  /** The first statement for a key code. */
  function Find(src: seq<KeyStatement>, code: int): (st: Option<KeyStatement>)
    ensures st.Some? ==> st.value in src && st.value.code == code
    ensures st.None? ==> forall x | x in src :: x.code != code
  {
    if src == [] then None
    else if src[0].code == code then Some(src[0])
    else Find(src[1..], code)
  }

  /** Caps lock inverts shift, for the letter keys only. */
  predicate Shifted(code: int, m: Modifiers) {
    if m.capsLock && KEY_A <= code <= KEY_Z then !m.shift else m.shift
  }

  function CharFor(b: Binding, code: int, m: Modifiers): byte
    requires b.Chars?
  {
    var slot := match (Shifted(code, m), m.option)
                case (false, false) => b.plain
                case (true, false) => b.shift
                case (false, true) => b.alt
                case (true, true) => b.shiftAlt;
    var ch: int := if slot == 0 then b.plain else slot;
    if m.control then (ch % 32) as byte else ch as byte
  }

  /** What a key that is bound by `st` produces. */
  function Respond(st: Option<KeyStatement>, code: int, m: Modifiers, maxOut: int): seq<byte> {
    if maxOut <= 0 || st.None? then []
    else match st.value.binding
         case Text(text) => if |text| <= maxOut then text else text[..maxOut]
         case Chars(_, _, _, _) => [CharFor(st.value.binding, code, m)]
  }

  function DirectLookup(src: seq<KeyStatement>, code: int, m: Modifiers, maxOut: int): seq<byte> {
    Respond(Find(src, code), code, m, maxOut)
  }

  // ---- The interpreter ----------------------------------------------------------

  /** The table entry whose trap the interpreter reads for a key code, looking at range `i`
      and the ranges behind it: the first range that encloses the code decides, and the
      distance of the code from the range's first key is taken as the index. */
  ghost function Reached(t: Tables, i: nat, code: int): Option<KeyStatement>
    requires t.Valid() && SortedByCode(t.keys) && i <= t.Ranges()
    decreases t.Ranges() - i
  {
    if i == t.Ranges() then None
    else
      KeyInRange(t, i, code);
      var lower := t.ranges[i].lower;
      if t.keys[lower].code <= code <= t.keys[t.ranges[i].upper].code
      then Some(Meaning(t.keys[lower + (code - t.keys[lower].code)], t.strings))
      else Reached(t, i + 1, code)
  }

  lemma CountOfRanges(image: seq<byte>, t: Tables)
    requires Compiled(image, t)
    ensures |image| >= 6 && Read16(image, 4) == t.Ranges()
  {
    if t.Ranges() > 0 { OffsetsFit(t); }
  }

  /** The record at `range` leads to the trap of the given key code. */
  ghost predicate TrapFor(image: seq<byte>, range: nat, code: int, b: Binding) {
    && range + 8 <= |image| && Read16(image, range + 2) <= code
    && Read16(image, range) == TypeCode(if b.Chars? then FourBytes else StringKey)
    && Trap(image, Read16(image, range + 6)
                   + (code - Read16(image, range + 2)) * TrapSizeOf(if b.Chars? then FourBytes else StringKey), b)
  }

  /** What the test of range `i` against a key code decides. */
  lemma TestRange(image: seq<byte>, t: Tables, i: nat, code: int)
    requires Compiled(image, t) && i < t.Ranges()
    ensures 6 + 2 * i + 2 <= |image| && Read16(image, 6 + 2 * i) + 8 <= |image|
    ensures var o := Read16(image, 6 + 2 * i);
            if Read16(image, o + 2) <= code <= Read16(image, o + 4)
            then Reached(t, i, code).Some? && TrapFor(image, o, code, Reached(t, i, code).value.binding)
            else Reached(t, i, code) == Reached(t, i + 1, code)
  {
    hide Image, RunsUpTo, ValidTables, SortedByCode, LastWrite;
    ReadRecord(image, t, i);
    if t.keys[t.ranges[i].lower].code <= code <= t.keys[t.ranges[i].upper].code {
      var k := TrapOfCode(image, t, i, code);
    }
  }

  /** KeyMapRange_Type0_Map: one character, picked by the modifiers. */
  method MapChar(image: seq<byte>, traps: nat, lower: int, code: int, m: Modifiers, ghost b: Binding)
      returns (ch: byte)
    requires b.Chars? && lower <= code && Trap(image, traps + (code - lower) * 4, b)
    ensures ch == CharFor(b, code, m)
  {
    var flags := m;
    if flags.capsLock && KEY_A <= code <= KEY_Z {
      flags := flags.(shift := !flags.shift);
    }
    var trap := image[traps + (code - lower) * 4..traps + (code - lower) * 4 + 4];
    var modifierIdx := (if flags.shift then 1 else 0) + (if flags.option then 2 else 0);
    var c: int := trap[modifierIdx];
    if c == 0 {
      c := trap[0];
    }
    if flags.control {
      c := c % 32;
    }
    ch := c as byte;
  }

  /** KeyMapRange_Type3_Map: the bytes of a string, as many as fit. */
  method MapString(image: seq<byte>, traps: nat, lower: int, code: int, maxOut: int, ghost b: Binding)
      returns (out: seq<byte>)
    requires b.Text? && maxOut > 0 && lower <= code && Trap(image, traps + (code - lower) * 2, b)
    ensures out == if |b.text| <= maxOut then b.text else b.text[..maxOut]
  {
    var trapString := Read16(image, traps + (code - lower) * 2);
    var i := 0;
    out := [];
    ghost var stored := image[trapString..trapString + |b.text|];
    while image[trapString + i] != 0 && i < maxOut
      invariant 0 <= i <= |b.text| && i <= maxOut && out == b.text[..i]
      decreases |b.text| - i
    {
      assert i < |b.text| ==> image[trapString + i] == stored[i];
      out := out + [image[trapString + i]];
      i := i + 1;
    }
  }

  /** The switch of KeyMap_Map over the type of the range found. */
  method MapInRange(image: seq<byte>, range: nat, code: int, m: Modifiers, maxOut: int, ghost b: Binding)
      returns (out: seq<byte>)
    requires maxOut > 0 && TrapFor(image, range, code, b)
    ensures b.Chars? ==> out == [CharFor(b, code, m)]
    ensures b.Text? ==> out == if |b.text| <= maxOut then b.text else b.text[..maxOut]
  {
    var keyType, lower, traps := Read16(image, range), Read16(image, range + 2), Read16(image, range + 6);
    if keyType == 0 {
      var ch := MapChar(image, traps, lower, code, m, b);
      return [ch];
    } else if keyType == 3 {
      out := MapString(image, traps, lower, code, maxOut, b);
    } else {
      return [];
    }
  }

  /** KeyMap_Map on a compiled image, of any tables. */
  method Map(image: seq<byte>, code: int, m: Modifiers, maxOut: int, ghost t: Tables) returns (out: seq<byte>)
    requires Compiled(image, t)
    ensures out == Respond(Reached(t, 0, code), code, m, maxOut)
  {
    hide Image, RunsUpTo, ValidTables, SortedByCode, LastWrite, TrapFor;
    if maxOut > 0 {
      CountOfRanges(image, t);
      var rangeCount := Read16(image, 4);
      var i := 0;
      while i < rangeCount
        invariant 0 <= i <= rangeCount == t.Ranges() && Reached(t, 0, code) == Reached(t, i, code)
      {
        TestRange(image, t, i, code);
        var range := Read16(image, 6 + 2 * i);
        var lower, upper := Read16(image, range + 2), Read16(image, range + 4);
        if lower <= code <= upper {
          out := MapInRange(image, range, code, m, maxOut, Reached(t, 0, code).value.binding);
          return;
        }
        i := i + 1;
      }
    }
    return [];
  }
}
