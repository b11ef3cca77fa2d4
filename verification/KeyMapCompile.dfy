/** compileKeyMap_Type0: writes the header, the range records, the traps and the strings
    (Tools/keymap.c:776-849). */
module KeyMapCompile {
  import opened KeyMapFormat
  import opened KeyMapCompiler
  import opened KeyMapStages

  lemma RecordsBeforeLastWrite(t: Tables)
    requires t.Valid() && t.Ranges() > 0
    ensures 6 + 10 * t.Ranges() <= LastWrite(t.Ranges(), t.keys, t.strings) + 1
    ensures KeyOffset(t.Ranges(), t.keys, |t.keys|) <= LastWrite(t.Ranges(), t.keys, t.strings) + 1
  {
    KeyOffsetMonotone(t.Ranges(), t.keys, 0, |t.keys|);
    if t.strings != [] {
      StringOffsetMonotone(t.Ranges(), t.keys, t.strings, 0, |t.strings| - 1);
    }
  }

  /** The header is too short to be refused. */
  method WriteHeader(out: CompiledKeyMap, t: Tables) returns (keyMapSizeOffset: nat)
    requires t.Valid() && out.bytes == []
    modifies out`bytes
    ensures keyMapSizeOffset == 2 && |out.bytes| == 6 && HeaderAt(out.bytes, t.Ranges())
  {
    HighLow(t.Ranges());
    var _ := out.Write16(0);
    var sizeOffset := out.Write16(0);
    var _ := out.Write16(t.Ranges());
    return sizeOffset.value;
  }

  /** The empty slots of the range table. */
  method WriteSlots(out: CompiledKeyMap, t: Tables) returns (r: Result<()>)
    requires t.Valid() && t.Ranges() > 0 && |out.bytes| == 6 && HeaderAt(out.bytes, t.Ranges())
    modifies out`bytes
    ensures r.Ok? ==> RecordsWritten(out.bytes, t, 0)
    ensures r.TooBig? ==> LastWrite(t.Ranges(), t.keys, t.strings) > MAX_OFFSET
  {
    RecordsBeforeLastWrite(t);
    var i := 0;
    while i < t.Ranges()
      invariant 0 <= i <= t.Ranges()
      invariant |out.bytes| == 6 + 2 * i && HeaderAt(out.bytes, t.Ranges())
    {
      var _ :- out.Write16(0);
      i := i + 1;
    }
    return Ok(());
  }

  /** One range record and its slot in the range table. */
  method WriteRecord(out: CompiledKeyMap, t: Tables, offsetToFirstRangeOffset: nat, i: nat)
    returns (r: Result<()>)
    requires t.Valid() && i < t.Ranges() && RecordsWritten(out.bytes, t, i) && offsetToFirstRangeOffset == 6
    modifies out
    ensures r.Ok? ==> RecordsWritten(out.bytes, t, i + 1)
    ensures r.Ok? ==> out.patchLocs == old(out.patchLocs) +
                        [PatchLocation(RecordOffset(t.Ranges(), i) + 6, RangeLabel(i))]
    ensures r.TooBig? ==> RecordOffset(t.Ranges(), i) + 6 > MAX_OFFSET
  {
    hide ValidTables, RecordDone, HeaderAt, High, Low, Patched16;
    var cur := t.ranges[i];
    ghost var before := out.bytes;
    var offsetToCurRange :- out.Write16(TypeCode(cur.keyType));
    var _ :- out.Write16(t.keys[cur.lower].code);
    var _ :- out.Write16(t.keys[cur.upper].code);
    var trapPointer :- out.Write16(0);
    assert out.bytes == before + Pair(TypeCode(cur.keyType)) + Pair(t.keys[cur.lower].code)
                        + Pair(t.keys[cur.upper].code) + Pair(0);
    out.AddPatchLocation(trapPointer, RangeLabel(i));
    NextRecord(before, out.bytes, t, i);
    out.Patch16(offsetToFirstRangeOffset + 2 * i, offsetToCurRange);
    return Ok(());
  }

  method WriteRecords(out: CompiledKeyMap, t: Tables, offsetToFirstRangeOffset: nat) returns (r: Result<()>)
    requires t.Valid() && t.Ranges() > 0 && RecordsWritten(out.bytes, t, 0) && out.patchLocs == []
    requires offsetToFirstRangeOffset == 6
    modifies out
    ensures r.Ok? ==> RecordsWritten(out.bytes, t, t.Ranges()) && out.patchLocs == RangeLocs(t.Ranges(), t.Ranges())
    ensures r.TooBig? ==> LastWrite(t.Ranges(), t.keys, t.strings) > MAX_OFFSET
  {
    RecordsBeforeLastWrite(t);
    var i := 0;
    while i < t.Ranges()
      invariant 0 <= i <= t.Ranges()
      invariant RecordsWritten(out.bytes, t, i) && out.patchLocs == RangeLocs(t.Ranges(), i)
    {
      var _ :- WriteRecord(out, t, offsetToFirstRangeOffset, i);
      i := i + 1;
    }
    return Ok(());
  }

  /** The trap of one key. */
  method WriteTrap(out: CompiledKeyMap, key: Key) returns (r: Result<()>)
    modifies out
    ensures r.Ok? ==>
              && out.bytes == old(out.bytes) + TrapBytes(key)
              && out.patchLocs == old(out.patchLocs) +
                   (if key.TextKey? then [PatchLocation(|old(out.bytes)|, StringLabel(key.stringIdx))] else [])
              && |out.bytes| <= MAX_OFFSET + (if key.CharKey? then 1 else 2)
    ensures r.TooBig? ==> |old(out.bytes)| + TrapSize(key) > MAX_OFFSET + 1
  {
    match key {
      case CharKey(_, plain, shift, alt, shiftAlt) =>
        var _ :- out.Write8(plain);
        var _ :- out.Write8(shift);
        var _ :- out.Write8(alt);
        var _ :- out.Write8(shiftAlt);
      case TextKey(_, stringIdx) =>
        var offset :- out.Write16(0);
        out.AddPatchLocation(offset, StringLabel(stringIdx));
    }
    return Ok(());
  }

  /** The first key of range `i`; one past the last key for the end of the ranges. */
  ghost function RangeStart(t: Tables, i: nat): nat
    requires i <= t.Ranges()
  {
    if i < t.Ranges() then t.ranges[i].lower else |t.keys|
  }

  lemma RangeBounds(t: Tables, i: nat)
    requires t.Valid() && i < t.Ranges()
    ensures RangeStart(t, 0) == 0
    ensures t.ranges[i].lower <= t.ranges[i].upper < |t.keys|
    ensures RangeStart(t, i + 1) == t.ranges[i].upper + 1
  {
  }

  /** Everything up to the traps of `k` keys, with the pointers of `r` ranges. */
  ghost predicate TrapStage(out: CompiledKeyMap, t: Tables, r: nat, k: nat)
    requires t.Valid()
    reads out
  {
    && k <= |t.keys|
    && TrapsWritten(out.bytes, t, r, k)
    && out.patchLocs == Locs(t.Ranges(), t.Ranges(), t.keys, k)
  }

  /** The back-patch of the record of range `i`. */
  method StartRange(out: CompiledKeyMap, t: Tables, i: nat)
    requires t.Valid() && i < t.Ranges() && TrapStage(out, t, i, t.ranges[i].lower)
    modifies out`bytes
    ensures TrapStage(out, t, i + 1, t.ranges[i].lower) && |out.bytes| == |old(out.bytes)|
  {
    LocsMembers(t.Ranges(), t.Ranges(), t.keys, t.ranges[i].lower);
    ghost var before := out.bytes;
    out.PatchLabeled16(RangeLabel(i), |out.bytes|);
    NextRange(before, out.bytes, t, i, t.ranges[i].lower);
  }

  method NextKey(out: CompiledKeyMap, t: Tables, r: nat, k: nat) returns (result: Result<()>)
    requires t.Valid() && k < |t.keys| && TrapStage(out, t, r, k)
    modifies out
    ensures result.Ok? ==> TrapStage(out, t, r, k + 1)
    ensures result.Ok? ==> |out.bytes| <= MAX_OFFSET + (if t.keys[k].CharKey? then 1 else 2)
    ensures result.TooBig? ==> KeyOffset(t.Ranges(), t.keys, |t.keys|) > MAX_OFFSET + 1
  {
    NextTrap(out.bytes, t, r, k);
    KeyOffsetMonotone(t.Ranges(), t.keys, k, |t.keys|);
    LocsGrow(t, k);
    result := WriteTrap(out, t.keys[k]);
  }

  /** The traps of the keys `lower` to `upper`. */
  method WriteKeys(out: CompiledKeyMap, t: Tables, r: nat, lower: nat, upper: nat) returns (result: Result<()>)
    requires t.Valid() && lower <= upper < |t.keys| && TrapStage(out, t, r, lower)
    modifies out
    ensures result.Ok? ==> TrapStage(out, t, r, upper + 1)
    ensures result.Ok? && t.strings == [] ==> |out.bytes| <= MAX_OFFSET + 1
    ensures result.TooBig? ==> KeyOffset(t.Ranges(), t.keys, |t.keys|) > MAX_OFFSET + 1
  {
    NoStringsNoTextKey(t);
    var k := lower;
    while k <= upper
      invariant lower <= k <= upper + 1
      invariant TrapStage(out, t, r, k)
      invariant k > lower && t.strings == [] ==> |out.bytes| <= MAX_OFFSET + 1
    {
      var _ :- NextKey(out, t, r, k);
      k := k + 1;
    }
    return Ok(());
  }

  lemma NoStringsNoTextKey(t: Tables)
    requires t.Valid()
    ensures t.strings == [] ==> forall k: nat | k < |t.keys| :: t.keys[k].CharKey?
  {
  }

  /** The trap table of one range. */
  method WriteRangeTraps(out: CompiledKeyMap, t: Tables, i: nat) returns (r: Result<()>)
    requires t.Valid() && i < t.Ranges() && TrapStage(out, t, i, RangeStart(t, i))
    modifies out
    ensures r.Ok? ==> TrapStage(out, t, i + 1, RangeStart(t, i + 1))
    ensures r.Ok? && t.strings == [] ==> |out.bytes| <= MAX_OFFSET + 1
    ensures r.TooBig? ==> KeyOffset(t.Ranges(), t.keys, |t.keys|) > MAX_OFFSET + 1
  {
    RangeBounds(t, i);
    StartRange(out, t, i);
    r := WriteKeys(out, t, i + 1, t.ranges[i].lower, t.ranges[i].upper);
  }

  method WriteTraps(out: CompiledKeyMap, t: Tables) returns (r: Result<()>)
    requires t.Valid() && t.Ranges() > 0 && RecordsWritten(out.bytes, t, t.Ranges())
    requires out.patchLocs == RangeLocs(t.Ranges(), t.Ranges())
    modifies out
    ensures r.Ok? ==> TrapStage(out, t, t.Ranges(), |t.keys|)
    ensures r.Ok? && t.strings == [] ==> |out.bytes| <= MAX_OFFSET + 1
    ensures r.TooBig? ==> LastWrite(t.Ranges(), t.keys, t.strings) > MAX_OFFSET
  {
    hide RunsUpTo, ValidTables, TrapsWritten, RecordsWritten;
    RecordsBeforeLastWrite(t);
    FirstTrap(out.bytes, t);
    RangeBounds(t, 0);
    var i := 0;
    while i < t.Ranges()
      invariant 0 <= i <= t.Ranges() && TrapStage(out, t, i, RangeStart(t, i))
      invariant i > 0 && t.strings == [] ==> |out.bytes| <= MAX_OFFSET + 1
    {
      var _ :- WriteRangeTraps(out, t, i);
      i := i + 1;
    }
    return Ok(());
  }

  lemma LocsGrow(t: Tables, k: nat)
    requires t.Valid() && k < |t.keys|
    ensures Locs(t.Ranges(), t.Ranges(), t.keys, k + 1) ==
            Locs(t.Ranges(), t.Ranges(), t.keys, k) +
            (if t.keys[k].TextKey?
             then [PatchLocation(KeyOffset(t.Ranges(), t.keys, k), StringLabel(t.keys[k].stringIdx))] else [])
  {
  }

  method WriteStrings(out: CompiledKeyMap, t: Tables) returns (r: Result<()>)
    requires t.Valid() && t.Ranges() > 0 && TrapStage(out, t, t.Ranges(), |t.keys|)
    requires t.strings == [] ==> |out.bytes| <= MAX_OFFSET + 1
    modifies out`bytes
    ensures r.Ok? ==> StringsWritten(out.bytes, t, |t.strings|)
    ensures r.Ok? <==> LastWrite(t.Ranges(), t.keys, t.strings) <= MAX_OFFSET
  {
    hide RunsUpTo, ValidTables, PatchedTo, TrapsWritten, RecordDone, TrapAt, StringAt;
    FirstString(out.bytes, t);
    LocsMembers(t.Ranges(), t.Ranges(), t.keys, |t.keys|);
    var j := 0;
    while j < |t.strings|
      invariant 0 <= j <= |t.strings| && StringsWritten(out.bytes, t, j)
      invariant j > 0 ==> StringOffset(t.Ranges(), t.keys, t.strings, j - 1) <= MAX_OFFSET
    {
      ghost var before := out.bytes;
      var offsetToString := |out.bytes|;
      StringOffsetMonotone(t.Ranges(), t.keys, t.strings, j, |t.strings| - 1);
      var _ :- out.WriteString(t.strings[j]);
      ghost var written := out.bytes;
      StringOffsetMonotone(t.Ranges(), t.keys, t.strings, 0, j);
      out.PatchLabeled16(StringLabel(j), offsetToString);
      NextString(before, written, out.bytes, t, j);
      j := j + 1;
    }
    return Ok(());
  }

  /** Compiles the tables.  The image is complete if compilation succeeds, and it does
      exactly if the last piece starts at an offset that 16 bits can hold. */
  method CompileType0(out: CompiledKeyMap, t: Tables) returns (r: Result<()>)
    requires t.Valid() && out.bytes == [] && out.patchLocs == []
    modifies out
    ensures r.Ok? <==> LastWrite(t.Ranges(), t.keys, t.strings) <= MAX_OFFSET
    ensures r.Ok? ==> Image(out.bytes, t.keys, t.ranges, t.strings)
  {
    var keyMapSizeOffset := WriteHeader(out, t);
    if t.Ranges() > 0 {
      var offsetToFirstRangeOffset := |out.bytes|;
      var _ :- WriteSlots(out, t);
      var _ :- WriteRecords(out, t, offsetToFirstRangeOffset);
      var _ :- WriteTraps(out, t);
      var _ :- WriteStrings(out, t);
    }
    Finished(out.bytes, t);
    out.Patch16(keyMapSizeOffset, |out.bytes|);
    return Ok(());
  }
}
