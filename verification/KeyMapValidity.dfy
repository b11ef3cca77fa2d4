/** KeyMap_IsValid (Kernel/Sources/console/KeyMap.c:15-39): what it checks of any image whose
    pointers stay inside it, and that every compiled image passes. */
module KeyMapValidity {
  import opened Bytes
  import opened KeyMapFormat
  import opened KeyMapStages
  import opened KeyMapRanges

  /** String_Length, for a string that may run to the end of the image. */
  function StringLength(image: seq<byte>, p: nat): (n: nat)
    requires p <= |image|
    ensures p + n <= |image| && NulFree(image[p..p + n])
    ensures p + n < |image| ==> image[p + n] == 0
    decreases |image| - p
  {
    if p == |image| || image[p] == 0 then 0
    else
      var n := StringLength(image, p + 1);
      assert image[p..p + n + 1] == [image[p]] + image[p + 1..p + 1 + n];
      n + 1
  }

  lemma {:induction false} StringLengthUnique(image: seq<byte>, p: nat, n: nat)
    requires p + n < |image| && image[p + n] == 0 && NulFree(image[p..p + n])
    ensures StringLength(image, p) == n
    decreases n
  {
    if n > 0 {
      assert image[p..p + n][0] == image[p];
      assert image[p + 1..p + n] == image[p..p + n][1..];
      StringLengthUnique(image, p + 1, n - 1);
    }
  }

  /** The number of keys of a range record, less one, in 16 bits. */
  function KeyCodeCount(image: seq<byte>, range: nat): nat
    requires range + 8 <= |image|
  {
    (Read16(image, range + 4) - Read16(image, range + 2)) % 0x1_0000
  }

  /** Trap `k` points to a string that ends inside the image. */
  ghost predicate StringInside(image: seq<byte>, traps: nat, k: nat) {
    && traps + 2 * k + 2 <= |image|
    && var p := Read16(image, traps + 2 * k);
       p <= |image| && p + StringLength(image, p) < |image|
  }

  ghost predicate ShortString(image: seq<byte>, traps: nat, k: nat)
    requires StringInside(image, traps, k)
  {
    StringLength(image, Read16(image, traps + 2 * k)) <= MAX_BYTE_SEQUENCE_LENGTH
  }

  ghost predicate StringsInside(image: seq<byte>, traps: nat, last: nat) {
    forall k: nat | k <= last :: StringInside(image, traps, k)
  }

  ghost predicate ShortStrings(image: seq<byte>, traps: nat, last: nat)
    requires StringsInside(image, traps, last)
  {
    forall k: nat | k <= last :: ShortString(image, traps, k)
  }

  /** All that the check reads of range `r` lies inside the image, and the 16-bit loop
      counter does not wrap around. */
  ghost predicate RangeInside(image: seq<byte>, r: nat) {
    && 6 + 2 * r + 2 <= |image|
    && var o := Read16(image, 6 + 2 * r);
       && o + 8 <= |image|
       && (Read16(image, o) == 3 ==>
             && KeyCodeCount(image, o) < 0xffff
             && StringsInside(image, Read16(image, o + 6), KeyCodeCount(image, o)))
  }

  ghost predicate ShortRange(image: seq<byte>, r: nat)
    requires RangeInside(image, r)
  {
    var o := Read16(image, 6 + 2 * r);
    Read16(image, o) == 3 ==> ShortStrings(image, Read16(image, o + 6), KeyCodeCount(image, o))
  }

  ghost predicate Inside(image: seq<byte>) {
    6 <= |image| && forall r: nat | r < Read16(image, 4) :: RangeInside(image, r)
  }

  /** Every string that a key of the image maps to has at most 16 bytes. */
  ghost predicate AllShort(image: seq<byte>)
    requires Inside(image)
  {
    forall r: nat | r < Read16(image, 4) :: ShortRange(image, r)
  }

  /** The case of string keys: false as soon as one string is too long. */
  method StringsAreShort(image: seq<byte>, range: nat, ghost r: nat) returns (ok: bool)
    requires RangeInside(image, r) && range == Read16(image, 6 + 2 * r) && Read16(image, range) == 3
    ensures ok <==> ShortRange(image, r)
  {
    var keyCodeCount, traps := KeyCodeCount(image, range), Read16(image, range + 6);
    var k := 0;
    while k <= keyCodeCount
      invariant 0 <= k <= keyCodeCount + 1 <= 0xffff
      invariant forall j: nat | j < k :: ShortString(image, traps, j)
    {
      assert StringInside(image, traps, k);
      if StringLength(image, Read16(image, traps + 2 * k)) > MAX_BYTE_SEQUENCE_LENGTH {
        assert !ShortString(image, traps, k);
        return false;
      }
      k := k + 1;
    }
    return true;
  }

  /** KeyMap_IsValid. */
  method IsValid(image: seq<byte>) returns (ok: bool)
    requires Inside(image)
    ensures ok <==> AllShort(image)
  {
    var r := 0;
    while r < Read16(image, 4)
      invariant 0 <= r <= Read16(image, 4)
      invariant forall i: nat | i < r :: ShortRange(image, i)
    {
      assert RangeInside(image, r);
      var range := Read16(image, 6 + 2 * r);
      if Read16(image, range) == 3 {
        var short := StringsAreShort(image, range, r);
        if !short { return false; }
      }
      r := r + 1;
    }
    return true;
  }

  // ---- Compiled images ----------------------------------------------------------

  lemma TrapIsShort(image: seq<byte>, traps: nat, k: nat, text: seq<byte>)
    requires Trap(image, traps + 2 * k, Text(text)) && |text| <= MAX_BYTE_SEQUENCE_LENGTH
    ensures StringInside(image, traps, k) && ShortString(image, traps, k)
  {
    StringLengthUnique(image, Read16(image, traps + 2 * k), |text|);
  }

  lemma StringTrapsFit(t: Tables, i: nat, k: nat)
    requires t.Valid() && SortedByCode(t.keys) && LastWrite(t.Ranges(), t.keys, t.strings) <= MAX_OFFSET
    requires i < t.Ranges() && t.ranges[i].keyType == StringKey && t.ranges[i].lower + k <= t.ranges[i].upper
    ensures t.ranges[i].lower + k < |t.keys| && t.keys[t.ranges[i].lower + k].TextKey?
    ensures KeyOffset(t.Ranges(), t.keys, t.ranges[i].lower) + 2 * k
            == KeyOffset(t.Ranges(), t.keys, t.ranges[i].lower + k) <= MAX_OFFSET
  {
    RunSteps(t, i, k);
    OffsetsFit(t);
  }

  lemma StoredString(image: seq<byte>, t: Tables, k: nat) returns (text: seq<byte>)
    requires Compiled(image, t) && t.Ranges() > 0 && k < |t.keys| && t.keys[k].TextKey?
    ensures |text| <= MAX_BYTE_SEQUENCE_LENGTH && Trap(image, KeyOffset(t.Ranges(), t.keys, k), Text(text))
  {
    TrapOfKey(image, t, k);
    text := t.strings[t.keys[k].stringIdx];
    assert ValidText(text);
  }

  lemma CompiledString(image: seq<byte>, t: Tables, i: nat, k: nat)
    requires Compiled(image, t) && i < t.Ranges() && t.ranges[i].keyType == StringKey
    requires t.ranges[i].lower + k <= t.ranges[i].upper
    ensures t.ranges[i].lower < |t.keys|
    ensures var traps := KeyOffset(t.Ranges(), t.keys, t.ranges[i].lower);
            traps + 2 * k <= MAX_OFFSET && StringInside(image, traps, k) && ShortString(image, traps, k)
  {
    StringTrapsFit(t, i, k);
    var text := StoredString(image, t, t.ranges[i].lower + k);
    TrapIsShort(image, KeyOffset(t.Ranges(), t.keys, t.ranges[i].lower), k, text);
  }

  lemma CompiledStrings(image: seq<byte>, t: Tables, i: nat, last: nat)
    requires Compiled(image, t) && i < t.Ranges() && t.ranges[i].keyType == StringKey
    requires t.ranges[i].lower + last <= t.ranges[i].upper < |t.keys|
    ensures var traps := KeyOffset(t.Ranges(), t.keys, t.ranges[i].lower);
            last < MAX_OFFSET && StringsInside(image, traps, last) && ShortStrings(image, traps, last)
  {
    var traps := KeyOffset(t.Ranges(), t.keys, t.ranges[i].lower);
    CompiledString(image, t, i, last);
    forall k: nat | k <= last ensures StringInside(image, traps, k) && ShortString(image, traps, k) {
      CompiledString(image, t, i, k);
    }
  }

  lemma CompiledRange(image: seq<byte>, t: Tables, i: nat)
    requires Compiled(image, t) && i < t.Ranges()
    ensures RangeInside(image, i) && ShortRange(image, i)
  {
    ReadRecord(image, t, i);
    KeyInRange(t, i, 0);
    var last := t.keys[t.ranges[i].upper].code - t.keys[t.ranges[i].lower].code;
    if t.ranges[i].keyType == StringKey { CompiledStrings(image, t, i, last); }
  }

  /** Every image that compilation produces can be checked, and passes. */
  lemma CompiledIsValid(image: seq<byte>, t: Tables)
    requires Compiled(image, t)
    ensures Inside(image) && AllShort(image)
  {
    if t.Ranges() > 0 { OffsetsFit(t); }
    forall i: nat | i < t.Ranges() ensures RangeInside(image, i) && ShortRange(image, i) {
      CompiledRange(image, t, i);
    }
  }
}
