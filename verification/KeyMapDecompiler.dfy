/** The decompiler (Tools/keymap.c:918-1140): it reads the key statements of a compiled
    image back, range by range.  `None` stands for giving up with an error message. */
module KeyMapDecompiler {
  import opened Bytes
  import opened Sequences
  import opened KeyMapFormat
  import opened KeyMapStages
  import opened KeyMapCompile
  import opened KeyMapRanges

  // ---- What is read back --------------------------------------------------------

  /** The statement read for the code `d` places behind the first of range `i`: it is bound
      as the key `d` places behind the first key. */
  function SectionEntry(t: Tables, i: nat, d: nat): KeyStatement
    requires t.Valid() && i < t.Ranges() && t.ranges[i].lower + d < |t.keys|
  {
    var lower := t.ranges[i].lower;
    KeyStatement(t.keys[lower].code + d, Meaning(t.keys[lower + d], t.strings).binding)
  }

  /** What is read back of range `i`: a statement for each code between its bounds. */
  function Section(t: Tables, i: nat): (r: seq<KeyStatement>)
    requires t.Valid() && SortedByCode(t.keys) && i < t.Ranges()
    ensures |r| >= 1
  {
    KeyInRange(t, i, 0);
    var lower, upper := t.ranges[i].lower, t.ranges[i].upper;
    seq(t.keys[upper].code + 1 - t.keys[lower].code,
        d requires 0 <= d <= t.keys[upper].code - t.keys[lower].code => SectionEntry(t, i, d))
  }

  lemma SectionLength(t: Tables, i: nat)
    requires t.Valid() && SortedByCode(t.keys) && i < t.Ranges()
    ensures t.ranges[i].lower <= t.ranges[i].upper < |t.keys|
    ensures |Section(t, i)| == t.keys[t.ranges[i].upper].code + 1 - t.keys[t.ranges[i].lower].code
  {
    RangeBounds(t, i);
  }

  function Sections(t: Tables, n: nat): (r: seq<seq<KeyStatement>>)
    requires t.Valid() && SortedByCode(t.keys) && n <= t.Ranges()
    ensures |r| == n
  {
    if n == 0 then [] else Sections(t, n - 1) + [Section(t, n - 1)]
  }

  function Flattened(s: seq<seq<KeyStatement>>): seq<KeyStatement> {
    if s == [] then [] else Flattened(s[..|s| - 1]) + s[|s| - 1]
  }

  function Meanings(t: Tables, m: nat): (r: seq<KeyStatement>)
    requires t.Valid() && m <= |t.keys|
    ensures |r| == m
  {
    seq(m, k requires 0 <= k < m => Meaning(t.keys[k], t.strings))
  }

  /** No code is repeated in range `i`. */
  predicate NoRepeat(t: Tables, i: nat)
    requires t.Valid() && i < t.Ranges() && t.ranges[i].lower <= t.ranges[i].upper < |t.keys|
  {
    t.keys[t.ranges[i].upper].code - t.keys[t.ranges[i].lower].code == t.ranges[i].upper - t.ranges[i].lower
  }

  ghost predicate NoRepeats(t: Tables, n: nat)
    requires t.Valid() && n <= t.Ranges()
  {
    forall i: nat | i < n :: t.ranges[i].lower <= t.ranges[i].upper < |t.keys| && NoRepeat(t, i)
  }

  /** Without repetitions in a range each of its keys is as far behind the first as its code. */
  lemma NoRepeatInStep(t: Tables, i: nat, d: nat)
    requires t.Valid() && SortedByCode(t.keys) && i < t.Ranges()
    requires t.ranges[i].lower + d <= t.ranges[i].upper < |t.keys| && NoRepeat(t, i)
    ensures t.keys[t.ranges[i].lower + d].code == t.keys[t.ranges[i].lower].code + d
  {
    RunSteps(t, i, d);
    StepsFrom(t, i, d, t.ranges[i].upper - t.ranges[i].lower);
  }

  lemma {:induction false} StepsFrom(t: Tables, i: nat, d: nat, e: nat)
    requires t.Valid() && SortedByCode(t.keys) && i < t.Ranges()
    requires d <= e && t.ranges[i].lower + e <= t.ranges[i].upper < |t.keys|
    ensures t.keys[t.ranges[i].lower + e].code <= t.keys[t.ranges[i].lower + d].code + (e - d)
    decreases e
  {
    if d < e {
      StepsFrom(t, i, d, e - 1);
      assert Run(t.keys, t.ranges[i], |t.keys|);
      assert Joined(t.keys[t.ranges[i].lower + e - 1], t.keys[t.ranges[i].lower + e]);
    }
  }

  lemma SectionFollows(t: Tables, i: nat)
    requires t.Valid() && SortedByCode(t.keys) && i < t.Ranges()
    requires t.ranges[i].lower <= t.ranges[i].upper < |t.keys| && NoRepeat(t, i)
    ensures Meanings(t, t.ranges[i].lower) + Section(t, i) == Meanings(t, t.ranges[i].upper + 1)
  {
    hide RunsUpTo;
    var lower := t.ranges[i].lower;
    forall d: nat | d < |Section(t, i)| ensures Section(t, i)[d] == Meaning(t.keys[lower + d], t.strings) {
      NoRepeatInStep(t, i, d);
    }
  }

  /** The sections hold a statement for each key, but one less for each repetition. */
  lemma {:induction false} SectionsCount(t: Tables, n: nat)
    requires t.Valid() && SortedByCode(t.keys) && n <= t.Ranges()
    ensures RangeStart(t, n) <= |t.keys|
    ensures |Flattened(Sections(t, n))| <= if n == 0 then 0 else RangeStart(t, n)
    ensures n > 0 && |Flattened(Sections(t, n))| == RangeStart(t, n) ==> NoRepeats(t, n)
  {
    hide RunsUpTo, ValidTables, SortedByCode, Section;
    if n > 0 {
      RangeBounds(t, n - 1);
      RangeBounds(t, 0);
      SectionsCount(t, n - 1);
      SectionLength(t, n - 1);
      KeyInRange(t, n - 1, 0);
      assert Sections(t, n)[..n - 1] == Sections(t, n - 1);
    } else if t.Ranges() > 0 {
      RangeBounds(t, 0);
    }
  }

  lemma {:induction false} SectionsJoin(t: Tables, n: nat)
    requires t.Valid() && SortedByCode(t.keys) && n <= t.Ranges() && NoRepeats(t, n)
    ensures RangeStart(t, n) <= |t.keys|
    ensures Flattened(Sections(t, n)) == Meanings(t, if n == 0 then 0 else RangeStart(t, n))
  {
    hide RunsUpTo, ValidTables, SortedByCode, Section, Meanings;
    if n > 0 {
      SectionsJoin(t, n - 1);
      RangeBounds(t, n - 1);
      assert Sections(t, n)[..n - 1] == Sections(t, n - 1);
      SectionFollows(t, n - 1);
    }
    if t.Ranges() > 0 { RangeBounds(t, 0); }
  }

  /** What is read back, one range after the other, is the whole sorted key table exactly if
      no code is repeated within a range. */
  lemma SectionsAreTheTable(t: Tables)
    requires t.Valid() && SortedByCode(t.keys)
    ensures Flattened(Sections(t, t.Ranges())) == Meanings(t, |t.keys|) <==> NoRepeats(t, t.Ranges())
  {
    if NoRepeats(t, t.Ranges()) { SectionsJoin(t, t.Ranges()); }
    if Flattened(Sections(t, t.Ranges())) == Meanings(t, |t.keys|) && t.Ranges() > 0 {
      SectionsCount(t, t.Ranges());
    }
  }

  lemma StrictHasNoRepeats(t: Tables)
    requires t.Valid() && StrictlySorted(t.keys)
    ensures NoRepeats(t, t.Ranges())
  {
    forall i: nat | i < t.Ranges()
      ensures t.ranges[i].lower <= t.ranges[i].upper < |t.keys| && NoRepeat(t, i)
    {
      RangeBounds(t, i);
      StrictSteps(t, i, t.ranges[i].upper - t.ranges[i].lower);
    }
  }

  // ---- The reader ---------------------------------------------------------------

  const MAX_FILE := 65535

  method Read8(data: seq<byte>, offset: nat) returns (r: Option<byte>, next: nat)
    requires offset <= MAX_OFFSET
    ensures r == if offset < |data| then Some(data[offset]) else None
    ensures next <= MAX_OFFSET && (r.Some? && |data| <= MAX_FILE ==> next == offset + 1)
  {
    next := offset;
    if offset >= |data| { return None, next; }
    return Some(data[offset]), (offset + 1) % (MAX_OFFSET + 1);
  }

  /** A word whose second byte lies past the end counts as a failure too. */
  method Word(data: seq<byte>, offset: nat) returns (r: Option<nat>, next: nat)
    requires offset <= MAX_OFFSET
    ensures offset + 2 <= |data| <= MAX_FILE ==> r == Some(Read16(data, offset)) && next == offset + 2
    ensures r.Some? ==> offset + 2 <= |data| || |data| > MAX_FILE
    ensures r.Some? ==> r.value <= MAX_OFFSET
    ensures next <= MAX_OFFSET
  {
    var high, afterHigh := Read8(data, offset);
    var low, afterLow := Read8(data, afterHigh);
    if high.None? || low.None? { return None, offset; }
    var h: int, l: int := high.value, low.value;
    return Some(h * 256 + l), afterLow;
  }

  /** The text at offset `o`, up to its NUL or the longest length a text can have. */
  ghost predicate TextAt(data: seq<byte>, o: nat, text: seq<byte>) {
    && ValidText(text)
    && o + |text| + 1 <= |data| && data[o..o + |text|] == text && data[o + |text|] == 0
  }

  method ReadText(data: seq<byte>, o: nat, ghost text: seq<byte>) returns (r: Option<seq<byte>>)
    requires o <= MAX_OFFSET && |data| <= MAX_FILE
    ensures TextAt(data, o, text) ==> r == Some(text)
  {
    var str: seq<byte> := [];
    var offset: nat := o;
    ghost var stored := if o + |text| <= |data| then data[o..o + |text|] else [];
    while |str| < MAX_BYTE_SEQUENCE_LENGTH
      invariant offset <= MAX_OFFSET
      invariant TextAt(data, o, text) ==> offset == o + |str| && |str| <= |text| && str == text[..|str|]
      decreases MAX_BYTE_SEQUENCE_LENGTH - |str|
    {
      assert TextAt(data, o, text) && |str| < |text| ==> data[offset] == stored[|str|];
      var ch, next := Read8(data, offset);
      if ch.None? { return None; }
      offset := next;
      if ch.value == 0 {
        assert TextAt(data, o, text) ==> |str| == |text|;
        break;
      }
      str := str + [ch.value];
    }
    assert TextAt(data, o, text) && |str| == |text| ==> str == text[..|text|] == text;
    return Some(str);
  }

  /** The trap at offset `o` holds binding `b`, with a text short enough to be read back. */
  ghost predicate ReadableTrap(data: seq<byte>, o: nat, b: Binding) {
    Trap(data, o, b) && (b.Text? ==> ValidText(b.text))
  }

  method ReadCharTrap(data: seq<byte>, o: nat, code: nat, ghost b: Binding) returns (r: Option<KeyStatement>)
    requires o <= MAX_OFFSET && |data| <= MAX_FILE
    ensures b.Chars? && ReadableTrap(data, o, b) ==> r == Some(KeyStatement(code, b))
    ensures r.Some? ==> o < |data|
  {
    ghost var stored := if o + 4 <= |data| then data[o..o + 4] else [];
    assert o + 4 <= |data| ==> forall i | 0 <= i < 4 :: stored[i] == data[o + i];
    var unshifted, o1 := Read8(data, o);
    var shifted, o2 := Read8(data, o1);
    var alted, o3 := Read8(data, o2);
    var shiftedAlted, o4 := Read8(data, o3);
    if unshifted.None? || shifted.None? || alted.None? || shiftedAlted.None? { return None; }
    return Some(KeyStatement(code, Chars(unshifted.value, shifted.value, alted.value, shiftedAlted.value)));
  }

  method ReadTextTrap(data: seq<byte>, o: nat, code: nat, ghost b: Binding) returns (r: Option<KeyStatement>)
    requires o <= MAX_OFFSET && |data| <= MAX_FILE
    ensures b.Text? && ReadableTrap(data, o, b) ==> r == Some(KeyStatement(code, b))
    ensures r.Some? ==> o < |data|
  {
    var stringOffset, _ := Word(data, o);
    if stringOffset.None? { return None; }
    var text := ReadText(data, stringOffset.value, if b.Text? then b.text else []);
    if text.None? { return None; }
    return Some(KeyStatement(code, Text(text.value)));
  }

  method ReadTrap(data: seq<byte>, keyType: nat, traps: nat, lower: nat, i: nat, ghost b: Binding)
      returns (r: Option<KeyStatement>)
    requires |data| <= MAX_FILE && i <= MAX_OFFSET
    ensures keyType == TypeCode(if b.Chars? then FourBytes else StringKey) && lower + i <= MAX_OFFSET
            && ReadableTrap(data, traps + i * TrapSizeOf(if b.Chars? then FourBytes else StringKey), b)
            ==> r == Some(KeyStatement(lower + i, b))
    ensures r.Some? && i == 0 && traps <= MAX_OFFSET ==> traps < |data|
  {
    var code := (lower + i) % (MAX_OFFSET + 1);
    if keyType == 0 {
      r := ReadCharTrap(data, (traps + i * 4) % (MAX_OFFSET + 1), code, b);
    } else if keyType == 3 {
      r := ReadTextTrap(data, (traps + i * 2) % (MAX_OFFSET + 1), code, b);
    } else {
      return None;
    }
  }

  /** The traps of one range. */
  method ReadTraps(data: seq<byte>, keyType: nat, traps: nat, lower: nat, nKeyTraps: nat,
                   ghost section: seq<KeyStatement>)
      returns (r: Option<seq<KeyStatement>>)
    requires |data| <= MAX_FILE && traps <= MAX_OFFSET && nKeyTraps <= MAX_OFFSET
    ensures nKeyTraps == |section| && HoldKeys(data, keyType, lower, traps, section) ==> r == Some(section)
    ensures r.Some? && nKeyTraps > 0 ==> traps < |data|
  {
    var keys, i := [], 0;
    ghost var holds := nKeyTraps == |section| && HoldKeys(data, keyType, lower, traps, section);
    while i < nKeyTraps
      invariant 0 <= i <= nKeyTraps && |keys| == i
      invariant holds ==> keys == section[..i]
      invariant i > 0 ==> traps < |data|
    {
      assert holds ==> HoldsKey(data, keyType, lower, traps, section[i], i);
      ghost var b := if i < |section| then section[i].binding else Text([]);
      var key := ReadTrap(data, keyType, traps, lower, i, b);
      if key.None? { return None; }
      keys := keys + [key.value];
      i := i + 1;
    }
    assert holds ==> section[..i] == section;
    return Some(keys);
  }

  ghost predicate HoldsKey(data: seq<byte>, keyType: nat, lower: nat, traps: nat, st: KeyStatement, d: nat) {
    var t := if st.binding.Chars? then FourBytes else StringKey;
    && st.code == lower + d <= MAX_OFFSET && keyType == TypeCode(t)
    && ReadableTrap(data, traps + d * TrapSizeOf(t), st.binding)
  }

  ghost predicate HoldKeys(data: seq<byte>, keyType: nat, lower: nat, traps: nat, section: seq<KeyStatement>) {
    forall d: nat | d < |section| :: HoldsKey(data, keyType, lower, traps, section[d], d)
  }

  /** The record at `offset` and its traps hold exactly the statements of `section`. */
  ghost predicate Holds(data: seq<byte>, offset: nat, section: seq<KeyStatement>) {
    && section != [] && |section| <= MAX_OFFSET && offset + 8 <= |data|
    && Read16(data, offset + 4) == Read16(data, offset + 2) + |section| - 1
    && HoldKeys(data, Read16(data, offset), Read16(data, offset + 2), Read16(data, offset + 6), section)
  }

  method DecompileKeyRange(data: seq<byte>, keyRangeOffset: nat, ghost section: seq<KeyStatement>)
      returns (r: Option<seq<KeyStatement>>)
    requires |data| <= MAX_FILE && keyRangeOffset <= MAX_OFFSET
    ensures Holds(data, keyRangeOffset, section) ==> r == Some(section)
    ensures r.Some? ==> keyRangeOffset + 8 <= |data|
    ensures r.Some? && Read16(data, keyRangeOffset + 2) <= Read16(data, keyRangeOffset + 4)
                       < Read16(data, keyRangeOffset + 2) + MAX_OFFSET
            ==> Read16(data, keyRangeOffset + 6) < |data|
  {
    var keyType, o1 := Word(data, keyRangeOffset);
    var lower, o2 := Word(data, o1);
    var upper, o3 := Word(data, o2);
    var traps, _ := Word(data, o3);
    if keyType.None? || lower.None? || upper.None? || traps.None? { return None; }
    assert keyType.value == Read16(data, keyRangeOffset) && lower.value == Read16(data, keyRangeOffset + 2);
    assert upper.value == Read16(data, keyRangeOffset + 4) && traps.value == Read16(data, keyRangeOffset + 6);
    var nKeyTraps := (upper.value - lower.value + 1) % (MAX_OFFSET + 1);
    r := ReadTraps(data, keyType.value, traps.value, lower.value, nKeyTraps, section);
  }

  ghost predicate HoldsSection(data: seq<byte>, section: seq<KeyStatement>, i: nat) {
    6 + 2 * i + 2 <= |data| && Holds(data, Read16(data, 6 + 2 * i), section)
  }

  /** The first range has a record, and its traps start before the end of the data. */
  ghost predicate FirstRangeReadable(data: seq<byte>) {
    && 8 <= |data|
    && var o := Read16(data, 6);
       && o + 8 <= |data|
       && (Read16(data, o + 2) <= Read16(data, o + 4) < Read16(data, o + 2) + MAX_OFFSET
           ==> Read16(data, o + 6) < |data|)
  }

  ghost predicate HoldsSections(data: seq<byte>, sections: seq<seq<KeyStatement>>) {
    forall i: nat | i < |sections| :: HoldsSection(data, sections[i], i)
  }

  /** The range that the slot at `offset` points to. */
  method DecompileSlot(data: seq<byte>, offset: nat, ghost i: nat, ghost section: seq<KeyStatement>)
      returns (r: Option<seq<KeyStatement>>, next: nat)
    requires |data| <= MAX_FILE && offset <= MAX_OFFSET
    ensures offset == 6 + 2 * i && HoldsSection(data, section, i) ==> r == Some(section) && next == offset + 2
    ensures r.Some? && offset == 6 ==> FirstRangeReadable(data)
    ensures next <= MAX_OFFSET
  {
    var rangeOffset, afterSlot := Word(data, offset);
    next := afterSlot;
    if rangeOffset.None? { return None, next; }
    r := DecompileKeyRange(data, rangeOffset.value, section);
  }

  method DecompileRanges(data: seq<byte>, nRanges: nat, ghost sections: seq<seq<KeyStatement>>)
      returns (r: Option<seq<seq<KeyStatement>>>)
    requires |data| <= MAX_FILE && nRanges <= MAX_OFFSET
    ensures nRanges == |sections| && HoldsSections(data, sections) ==> r == Some(sections)
    ensures r.Some? && nRanges > 0 ==> FirstRangeReadable(data)
  {
    var result, i := [], 0;
    var offset: nat := 6;
    ghost var holds := nRanges == |sections| && HoldsSections(data, sections);
    while i < nRanges
      invariant 0 <= i <= nRanges && |result| == i && offset <= MAX_OFFSET
      invariant i == 0 || holds ==> offset == 6 + 2 * i
      invariant holds ==> result == sections[..i]
      invariant i > 0 ==> FirstRangeReadable(data)
    {
      ghost var expected := if i < |sections| then sections[i] else [];
      assert holds ==> HoldsSection(data, expected, i);
      var section, next := DecompileSlot(data, offset, i, expected);
      if section.None? { return None; }
      result := result + [section.value];
      offset := next;
      i := i + 1;
    }
    assert holds ==> sections[..i] == sections;
    return Some(result);
  }

  // ---- Decompiling what was compiled --------------------------------------------

  lemma FewKeys(t: Tables)
    requires t.Valid() && t.Ranges() > 0 && LastWrite(t.Ranges(), t.keys, t.strings) <= MAX_OFFSET
    ensures |t.keys| < MAX_OFFSET
  {
    RecordsBeforeLastWrite(t);
    KeyOffsetMonotone(t.Ranges(), t.keys, 0, |t.keys|);
  }

  lemma SectionHolds(image: seq<byte>, t: Tables, i: nat)
    requires Compiled(image, t) && i < t.Ranges()
    ensures 6 + 2 * i + 2 <= |image| && Holds(image, Read16(image, 6 + 2 * i), Section(t, i))
  {
    hide RunsUpTo, ValidTables, SortedByCode, Section, Image;
    ReadRecord(image, t, i);
    FewKeys(t);
    var g, section := t.ranges[i], Section(t, i);
    var o := Read16(image, 6 + 2 * i);
    KeyInRange(t, i, 0);
    SectionLength(t, i);
    forall d: nat | d < |section|
      ensures HoldsKey(image, Read16(image, o), Read16(image, o + 2), Read16(image, o + 6), section[d], d)
    {
      SectionKeyHolds(image, t, i, d);
    }
  }

  lemma SectionKeyHolds(image: seq<byte>, t: Tables, i: nat, d: nat)
    requires Compiled(image, t) && i < t.Ranges() && d < |Section(t, i)|
    ensures t.ranges[i].lower < |t.keys|
    ensures HoldsKey(image, TypeCode(t.ranges[i].keyType), t.keys[t.ranges[i].lower].code,
                     KeyOffset(t.Ranges(), t.keys, t.ranges[i].lower), Section(t, i)[d], d)
  {
    hide RunsUpTo, ValidTables, SortedByCode, Section, Image, TrapAt;
    SectionLength(t, i);
    KeyInRange(t, i, 0);
    var k := TrapOfCode(image, t, i, t.keys[t.ranges[i].lower].code + d);
    EntryBinding(t, i, d);
  }

  lemma EntryBinding(t: Tables, i: nat, d: nat)
    requires t.Valid() && SortedByCode(t.keys) && i < t.Ranges() && d < |Section(t, i)|
    ensures t.ranges[i].lower + d < |t.keys|
    ensures var key := t.keys[t.ranges[i].lower + d];
            && (key.TextKey? ==> key.stringIdx < |t.strings| && ValidText(t.strings[key.stringIdx]))
            && Section(t, i)[d].binding == Meaning(key, t.strings).binding
            && Section(t, i)[d].code == t.keys[t.ranges[i].lower].code + d <= MAX_OFFSET
  {
    KeyInRange(t, i, 0);
  }

  /** What is left of an image whose size does not fit its size field: at most 16 bytes,
      too few for a single trap. */
  lemma CutImage(file: seq<byte>, data: seq<byte>, t: Tables)
    requires Compiled(file, t) && |file| > MAX_OFFSET
    requires 0 <= |file| - MAX_OFFSET - 1 <= |file| && data == file[..|file| - MAX_OFFSET - 1]
    ensures t.Ranges() > 0 && |data| <= 16
    ensures |data| >= 6 ==> Read16(data, 4) == t.Ranges()
    ensures |data| >= 8 ==> Read16(data, 6) == RecordOffset(t.Ranges(), 0)
  {
    OffsetsFit(t);
    assert SlotAt(file, t.Ranges(), 0);
    if t.strings != [] {
      assert ValidText(t.strings[|t.strings| - 1]);
    }
  }

  lemma CutRecord(file: seq<byte>, data: seq<byte>, t: Tables)
    requires Compiled(file, t) && t.Ranges() > 0 && data <= file && |data| <= 16
    requires RecordOffset(t.Ranges(), 0) + 8 <= |data|
    ensures var o := RecordOffset(t.Ranges(), 0);
            && Read16(data, o + 2) <= Read16(data, o + 4) < Read16(data, o + 2) + MAX_OFFSET
            && Read16(data, o + 6) >= |data|
  {
    ReadRecord(file, t, 0);
    OffsetsFit(t);
    assert SlotAt(file, t.Ranges(), 0);
    KeyInRange(t, 0, 0);
    FewKeys(t);
    KeyOffsetMonotone(t.Ranges(), t.keys, 0, t.ranges[0].lower);
  }

  lemma HeaderReads(file: seq<byte>, t: Tables)
    requires Compiled(file, t)
    ensures |file| >= 6 && Read16(file, 0) == 0 && Read16(file, 2) == Low16(|file|)
    ensures Read16(file, 4) == t.Ranges()
  {
    if t.Ranges() > 0 { OffsetsFit(t); }
  }

  lemma {:induction false} SectionsAt(t: Tables, n: nat, i: nat)
    requires t.Valid() && SortedByCode(t.keys) && i < n <= t.Ranges()
    ensures Sections(t, n)[i] == Section(t, i)
  {
    hide RunsUpTo, ValidTables, SortedByCode, Section;
    if i < n - 1 { SectionsAt(t, n - 1, i); }
  }

  lemma AllSectionsHold(image: seq<byte>, t: Tables)
    requires Compiled(image, t)
    ensures HoldsSections(image, Sections(t, t.Ranges()))
  {
    var sections := Sections(t, t.Ranges());
    forall i: nat | i < t.Ranges() ensures HoldsSection(image, sections[i], i) {
      SectionsAt(t, t.Ranges(), i);
      SectionHolds(image, t, i);
    }
  }

  lemma CutUnreadable(file: seq<byte>, data: seq<byte>, t: Tables)
    requires Compiled(file, t) && |file| > MAX_OFFSET
    requires 0 <= |file| - MAX_OFFSET - 1 <= |file| && data == file[..|file| - MAX_OFFSET - 1]
    ensures t.Ranges() > 0 && |data| <= 16
    ensures |data| >= 6 ==> Read16(data, 4) == t.Ranges()
    ensures !FirstRangeReadable(data)
  {
    CutImage(file, data, t);
    if |data| >= 8 && RecordOffset(t.Ranges(), 0) + 8 <= |data| {
      CutRecord(file, data, t);
    }
  }

  lemma FileSize(file: seq<byte>, t: Tables)
    requires Compiled(file, t)
    ensures |file| <= MAX_OFFSET + 17
    ensures |file| <= MAX_OFFSET ==> Read16(file, 2) == |file|
    ensures |file| > MAX_OFFSET ==> Read16(file, 2) == |file| - MAX_OFFSET - 1
  {
    HeaderReads(file, t);
    if t.Ranges() > 0 && t.strings != [] {
      assert ValidText(t.strings[|t.strings| - 1]);
    }
  }

  /** Reads a compiled image back.  That succeeds exactly if the size of the image fits the
      size field of its header, and gives the statements of each range, range by range; with
      distinct codes those are the sorted statements of the source. */
  method Decompile(file: seq<byte>, ghost t: Tables) returns (r: Option<seq<seq<KeyStatement>>>)
    requires Compiled(file, t)
    ensures r.Some? <==> |file| <= MAX_OFFSET
    ensures r.Some? ==> r.value == Sections(t, t.Ranges())
    ensures r.Some? && StrictlySorted(t.keys) ==> Flattened(r.value) == Meanings(t, |t.keys|)
  {
    hide RunsUpTo, ValidTables, SortedByCode, Section, Sections, Image, Meanings, Flattened;
    hide ImageSize, LastWrite, FirstRangeReadable, NoRepeats;
    if StrictlySorted(t.keys) { StrictHasNoRepeats(t); }
    SectionsAreTheTable(t);
    HeaderReads(file, t);
    FileSize(file, t);
    var size := Read16(file, 2);
    if Read16(file, 0) != 0 || |file| < size { return None; }
    var data := file[..size];
    if |file| > MAX_OFFSET { CutUnreadable(file, data, t); }
    if |file| <= MAX_OFFSET {
      assert data == file;
      AllSectionsHold(file, t);
    }
    var keyType, o1 := Word(data, 0);
    var keyMapSize, o2 := Word(data, o1);
    var nRanges, _ := Word(data, o2);
    if keyType.None? || keyMapSize.None? || nRanges.None? { return None; }
    r := DecompileRanges(data, nRanges.value, Sections(t, t.Ranges()));
  }

  // ---- Images that cannot be read back ------------------------------------------

  function ManyKeys(m: nat): (keys: seq<Key>)
    ensures |keys| == m
    ensures forall k: nat | k < m :: keys[k] == CharKey(k, 97, 0, 0, 0)
  {
    seq(m, k requires 0 <= k < m => CharKey(k, 97, 0, 0, 0))
  }

  lemma {:induction false} ManyKeysOffset(keys: seq<Key>, k: nat)
    requires k <= |keys| && forall i: nat | i < |keys| :: keys[i].CharKey?
    ensures KeyOffset(1, keys, k) == 16 + 4 * k
  {
    if k > 0 { ManyKeysOffset(keys, k - 1); }
  }

  /** 16380 character keys with the codes from 0 on: the compiler accepts them, since the
      last byte lies at offset 65535, but the image is one byte too long to be read back. */
  lemma OversizedTables()
    ensures var t := Tables(ManyKeys(16380), [KeyRange(FourBytes, 0, 16379)], []);
            && t.Valid() && StrictlySorted(t.keys)
            && LastWrite(t.Ranges(), t.keys, t.strings) <= MAX_OFFSET
            && ImageSize(t.Ranges(), t.keys, t.strings) > MAX_OFFSET
  {
    hide RunsUpTo, KeyOffset, ManyKeys;
    var keys := ManyKeys(16380);
    ManyKeysRun(keys);
    ManyKeysOffset(keys, |keys|);
  }

  lemma ManyKeysRun(keys: seq<Key>)
    requires |keys| >= 1 && forall k: nat | k < |keys| :: keys[k] == CharKey(k, 97, 0, 0, 0)
    ensures MaximalRuns(keys, [KeyRange(FourBytes, 0, |keys| - 1)])
  {
    assert Run(keys, KeyRange(FourBytes, 0, |keys| - 1), |keys|);
  }
}
