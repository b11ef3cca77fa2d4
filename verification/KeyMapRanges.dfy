/** What the ranges of a sorted key table say about codes and offsets: the facts that let
    the readers of an image index the traps of a range by key code. */
module KeyMapRanges {
  import opened Bytes
  import opened KeyMapFormat
  import opened KeyMapStages
  import opened KeyMapCompile

  function TrapSizeOf(t: KeyType): nat {
    if t.FourBytes? then 4 else 2
  }

  /** Inside a range trap offsets advance in step with the key index.  The key code rises by
      at most one from a key to the next. */
  lemma {:induction false} RunSteps(t: Tables, i: nat, d: nat)
    requires t.Valid() && SortedByCode(t.keys) && i < t.Ranges()
    requires t.ranges[i].lower + d <= t.ranges[i].upper
    ensures t.ranges[i].lower + d < |t.keys|
    ensures var lower := t.ranges[i].lower; var k := lower + d;
            && TypeOf(t.keys[k]) == t.ranges[i].keyType
            && t.keys[lower].code <= t.keys[k].code <= t.keys[lower].code + d
            && KeyOffset(t.Ranges(), t.keys, k)
               == KeyOffset(t.Ranges(), t.keys, lower) + d * TrapSizeOf(t.ranges[i].keyType)
  {
    assert Run(t.keys, t.ranges[i], |t.keys|);
    if d > 0 {
      RunSteps(t, i, d - 1);
      assert Joined(t.keys[t.ranges[i].lower + d - 1], t.keys[t.ranges[i].lower + d]);
    }
  }

  /** Every code between the bounds of a range belongs to a key of it, the first of which
      is `k`; `k` lies no lower than the distance of the code from the range's first. */
  lemma {:induction false} FirstInRange(t: Tables, i: nat, code: int, d: nat) returns (k: nat)
    requires t.Valid() && SortedByCode(t.keys) && i < t.Ranges()
    requires t.ranges[i].lower + d <= t.ranges[i].upper < |t.keys|
    requires t.keys[t.ranges[i].lower].code <= code <= t.keys[t.ranges[i].lower + d].code
    ensures t.ranges[i].lower <= k <= t.ranges[i].lower + d && t.keys[k].code == code
    ensures code - t.keys[t.ranges[i].lower].code <= k - t.ranges[i].lower
    ensures k == t.ranges[i].lower || t.keys[k - 1].code < code
    decreases d
  {
    RunSteps(t, i, d);
    k := t.ranges[i].lower + d;
    if d > 0 {
      RunSteps(t, i, d - 1);
      assert Run(t.keys, t.ranges[i], |t.keys|);
      assert Joined(t.keys[k - 1], t.keys[k]);
      if code <= t.keys[k - 1].code {
        k := FirstInRange(t, i, code, d - 1);
      }
    }
  }

  /** The codes of a range's keys are those between its bounds, and the distance of such a
      code from the first is the index of a key of the range. */
  lemma KeyInRange(t: Tables, i: nat, code: int)
    requires t.Valid() && SortedByCode(t.keys) && i < t.Ranges()
    ensures t.ranges[i].lower <= t.ranges[i].upper < |t.keys|
    ensures t.keys[t.ranges[i].lower].code <= t.keys[t.ranges[i].upper].code
            <= t.keys[t.ranges[i].lower].code + (t.ranges[i].upper - t.ranges[i].lower)
    ensures (exists k :: t.ranges[i].lower <= k <= t.ranges[i].upper && t.keys[k].code == code)
            <==> t.keys[t.ranges[i].lower].code <= code <= t.keys[t.ranges[i].upper].code
  {
    hide RunsUpTo, ValidTables, KeyOffset;
    RangeBounds(t, i);
    var lower, upper := t.ranges[i].lower, t.ranges[i].upper;
    RunSteps(t, i, upper - lower);
    if t.keys[lower].code <= code <= t.keys[upper].code {
      var k := FirstInRange(t, i, code, upper - lower);
      assert t.keys[k].code == code;
    }
  }

  /** Without repeated codes the code advances in step with the key index, too. */
  lemma {:induction false} StrictSteps(t: Tables, i: nat, d: nat)
    requires t.Valid() && StrictlySorted(t.keys) && i < t.Ranges()
    requires t.ranges[i].lower + d <= t.ranges[i].upper < |t.keys|
    ensures t.keys[t.ranges[i].lower + d].code == t.keys[t.ranges[i].lower].code + d
    decreases d
  {
    if d > 0 {
      StrictSteps(t, i, d - 1);
      assert Run(t.keys, t.ranges[i], |t.keys|);
      assert Joined(t.keys[t.ranges[i].lower + d - 1], t.keys[t.ranges[i].lower + d]);
    }
  }

  lemma OffsetsFit(t: Tables)
    requires t.Valid() && t.Ranges() > 0
    requires LastWrite(t.Ranges(), t.keys, t.strings) <= MAX_OFFSET
    ensures t.Ranges() <= MAX_OFFSET
    ensures forall r: nat | r < t.Ranges() :: RecordOffset(t.Ranges(), r) <= MAX_OFFSET
    ensures forall k: nat | k < |t.keys| :: KeyOffset(t.Ranges(), t.keys, k) <= MAX_OFFSET
    ensures forall j: nat | j < |t.strings| :: StringOffset(t.Ranges(), t.keys, t.strings, j) <= MAX_OFFSET
  {
    RecordsBeforeLastWrite(t);
    forall k: nat | k < |t.keys| ensures KeyOffset(t.Ranges(), t.keys, k) <= MAX_OFFSET {
      KeyOffsetMonotone(t.Ranges(), t.keys, k, |t.keys|);
    }
    forall j: nat | j < |t.strings|
      ensures StringOffset(t.Ranges(), t.keys, t.strings, j) <= MAX_OFFSET
    {
      StringOffsetMonotone(t.Ranges(), t.keys, t.strings, j, |t.strings| - 1);
    }
  }

  // ---- Reading an image ---------------------------------------------------------

  /** A successfully compiled image. */
  ghost predicate Compiled(image: seq<byte>, t: Tables) {
    && t.Valid() && SortedByCode(t.keys)
    && LastWrite(t.Ranges(), t.keys, t.strings) <= MAX_OFFSET
    && Image(image, t.keys, t.ranges, t.strings)
  }

  /** The record of range `i` as the interpreter reads it. */
  lemma ReadRecord(image: seq<byte>, t: Tables, i: nat)
    requires Compiled(image, t) && i < t.Ranges()
    ensures t.ranges[i].lower <= t.ranges[i].upper < |t.keys|
    ensures 6 + 2 * i + 2 <= |image|
    ensures var o := Read16(image, 6 + 2 * i);
            && o + 8 <= |image|
            && Read16(image, o) == TypeCode(t.ranges[i].keyType)
            && Read16(image, o + 2) == t.keys[t.ranges[i].lower].code
            && Read16(image, o + 4) == t.keys[t.ranges[i].upper].code
            && Read16(image, o + 6) == KeyOffset(t.Ranges(), t.keys, t.ranges[i].lower)
  {
    RangeBounds(t, i);
    OffsetsFit(t);
    assert SlotAt(image, t.Ranges(), i);
    assert RecordAt(image, t.keys, t.ranges[i], t.Ranges(), i);
    assert TrapPointerAt(image, t.keys, t.ranges[i], t.Ranges(), i);
  }

  /** The trap at offset `o` holds binding `b`. */
  ghost predicate Trap(image: seq<byte>, o: nat, b: Binding) {
    match b
    case Chars(plain, shift, alt, shiftAlt) =>
      o + 4 <= |image| && image[o..o + 4] == [plain, shift, alt, shiftAlt]
    case Text(text) =>
      && NulFree(text) && o + 2 <= |image|
      && var p := Read16(image, o);
         p + |text| + 1 <= |image| && image[p..p + |text|] == text && image[p + |text|] == 0
  }

  lemma TrapReads(image: seq<byte>, n: nat, keys: seq<Key>, strings: seq<seq<byte>>, k: nat)
    requires k < |keys| && TrapAt(image, n, keys, strings, k, |strings|)
    requires keys[k].TextKey? ==>
               && keys[k].stringIdx < |strings|
               && NulFree(strings[keys[k].stringIdx])
               && StringOffset(n, keys, strings, keys[k].stringIdx) <= MAX_OFFSET
               && StringAt(image, n, keys, strings, keys[k].stringIdx)
    ensures Trap(image, KeyOffset(n, keys, k), Meaning(keys[k], strings).binding)
  {
  }

  lemma TrapOfKey(image: seq<byte>, t: Tables, k: nat)
    requires Compiled(image, t) && k < |t.keys| && t.Ranges() > 0
    ensures t.keys[k].TextKey? ==> t.keys[k].stringIdx < |t.strings|
    ensures Trap(image, KeyOffset(t.Ranges(), t.keys, k), Meaning(t.keys[k], t.strings).binding)
  {
    OffsetsFit(t);
    assert TrapAt(image, t.Ranges(), t.keys, t.strings, k, |t.strings|);
    if t.keys[k].TextKey? {
      assert StringAt(image, t.Ranges(), t.keys, t.strings, t.keys[k].stringIdx);
      assert ValidText(t.strings[t.keys[k].stringIdx]);
    }
    TrapReads(image, t.Ranges(), t.keys, t.strings, k);
  }

  /** The interpreter computes the trap of a key code from its distance to the range's
      first: that is the trap of the key as many places behind the first. */
  lemma TrapOfCode(image: seq<byte>, t: Tables, i: nat, code: int) returns (k: nat)
    requires Compiled(image, t) && i < t.Ranges()
    requires t.ranges[i].lower <= t.ranges[i].upper < |t.keys|
    requires t.keys[t.ranges[i].lower].code <= code <= t.keys[t.ranges[i].upper].code
    ensures k == t.ranges[i].lower + (code - t.keys[t.ranges[i].lower].code) <= t.ranges[i].upper
    ensures TypeOf(t.keys[k]) == t.ranges[i].keyType
    ensures t.keys[k].TextKey? ==> t.keys[k].stringIdx < |t.strings|
    ensures Trap(image, KeyOffset(t.Ranges(), t.keys, t.ranges[i].lower)
                        + (code - t.keys[t.ranges[i].lower].code) * TrapSizeOf(t.ranges[i].keyType),
                 Meaning(t.keys[k], t.strings).binding)
  {
    var d := code - t.keys[t.ranges[i].lower].code;
    KeyInRange(t, i, code);
    RunSteps(t, i, d);
    k := t.ranges[i].lower + d;
    TrapOfKey(image, t, k);
  }
}
