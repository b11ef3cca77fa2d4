/** The key map image: the key tables it is compiled from, where every piece of it lies,
    and what a finished image contains (Tools/keymap.c, Kernel/Sources/console/KeyMap.h). */
module KeyMapFormat {
  import opened Bytes

  const MAX_BYTE_SEQUENCE_LENGTH := 16
  const MAX_OFFSET := 65535

  datatype KeyType = FourBytes | StringKey

  /** The type codes of the file format. */
  function TypeCode(t: KeyType): int {
    match t
    case FourBytes => 0
    case StringKey => 3
  }

  /** What a `key(...)` statement binds a key code to. */
  datatype Binding =
    | Chars(plain: byte, shift: byte, alt: byte, shiftAlt: byte)
    | Text(text: seq<byte>)

  datatype KeyStatement = KeyStatement(code: int, binding: Binding)

  /** An entry of the compiler's key table; string keys refer to the string table. */
  datatype Key =
    | CharKey(code: int, plain: byte, shift: byte, alt: byte, shiftAlt: byte)
    | TextKey(code: int, stringIdx: nat)

  datatype KeyRange = KeyRange(keyType: KeyType, lower: nat, upper: nat)

  function TypeOf(k: Key): KeyType {
    if k.CharKey? then FourBytes else StringKey
  }

  function TrapSize(k: Key): nat {
    if k.CharKey? then 4 else 2
  }

  predicate NulFree(text: seq<byte>) {
    forall i | 0 <= i < |text| :: text[i] != 0
  }

  predicate ValidText(text: seq<byte>) {
    |text| <= MAX_BYTE_SEQUENCE_LENGTH && NulFree(text)
  }

  predicate ValidStatement(k: KeyStatement) {
    && 0 <= k.code <= MAX_OFFSET
    && (k.binding.Text? ==> ValidText(k.binding.text))
  }

  ghost predicate DistinctCodes(src: seq<KeyStatement>) {
    forall i, j | 0 <= i < j < |src| :: src[i].code != src[j].code
  }

  /** The statement a key table entry stands for. */
  function Meaning(k: Key, strings: seq<seq<byte>>): KeyStatement
    requires k.TextKey? ==> k.stringIdx < |strings|
  {
    match k
    case CharKey(code, a, b, c, d) => KeyStatement(code, Chars(a, b, c, d))
    case TextKey(code, i) => KeyStatement(code, Text(strings[i]))
  }

  ghost predicate ValidTables(keys: seq<Key>, strings: seq<seq<byte>>) {
    && (forall k | 0 <= k < |keys| ::
          && 0 <= keys[k].code <= MAX_OFFSET
          && (keys[k].TextKey? ==> keys[k].stringIdx < |strings|))
    && (forall j | 0 <= j < |strings| :: ValidText(strings[j]))
    && (keys == [] ==> strings == [])
  }

  ghost predicate SortedByCode(keys: seq<Key>) {
    forall i, j | 0 <= i < j < |keys| :: keys[i].code <= keys[j].code
  }

  /** Sorted, and no code is repeated. */
  ghost predicate StrictlySorted(keys: seq<Key>) {
    forall i, j | 0 <= i < j < |keys| :: keys[i].code < keys[j].code
  }

  /** Keys `i` and `i + 1` belong to the same range: same type, consecutive codes. */
  predicate Joined(a: Key, b: Key) {
    b.code - a.code <= 1 && TypeOf(a) == TypeOf(b)
  }

  /** The keys of `g` have its type and consecutive codes. */
  ghost predicate Run(keys: seq<Key>, g: KeyRange, m: nat) {
    && g.lower <= g.upper < m <= |keys|
    && (forall k | g.lower <= k <= g.upper :: TypeOf(keys[k]) == g.keyType)
    && (forall k | g.lower < k <= g.upper :: Joined(keys[k - 1], keys[k]))
  }

  /** `h` starts where `g` ends, with a key that does not belong to `g`. */
  ghost predicate Border(keys: seq<Key>, g: KeyRange, h: KeyRange) {
    && h.lower == g.upper + 1 && h.lower < |keys|
    && !Joined(keys[g.upper], keys[h.lower])
  }

  /** `ranges` are the maximal runs of the first `m` keys. */
  ghost predicate RunsUpTo(keys: seq<Key>, ranges: seq<KeyRange>, m: nat) {
    && m <= |keys|
    && (m == 0 <==> ranges == [])
    && (ranges != [] ==> ranges[0].lower == 0 && ranges[|ranges| - 1].upper == m - 1)
    && (forall r | 0 <= r < |ranges| :: Run(keys, ranges[r], m))
    && (forall r | 0 <= r < |ranges| - 1 :: Border(keys, ranges[r], ranges[r + 1]))
  }

  /** `ranges` are the maximal runs of consecutive codes of one type, in key order. */
  ghost predicate MaximalRuns(keys: seq<Key>, ranges: seq<KeyRange>) {
    RunsUpTo(keys, ranges, |keys|)
  }

  // ---- Layout -------------------------------------------------------------------

  function RecordOffset(nRanges: nat, r: nat): nat {
    6 + 2 * nRanges + 8 * r
  }

  /** Offset of the trap of key `k`; the traps follow the range records in key order. */
  function KeyOffset(nRanges: nat, keys: seq<Key>, k: nat): (n: nat)
    requires k <= |keys|
  {
    if k == 0 then 6 + 10 * nRanges else KeyOffset(nRanges, keys, k - 1) + TrapSize(keys[k - 1])
  }

  /** Offset of string `j`; the NUL terminated strings follow the traps. */
  function StringOffset(nRanges: nat, keys: seq<Key>, strings: seq<seq<byte>>, j: nat): (n: nat)
    requires j <= |strings|
  {
    if j == 0 then KeyOffset(nRanges, keys, |keys|)
    else StringOffset(nRanges, keys, strings, j - 1) + |strings[j - 1]| + 1
  }

  function ImageSize(nRanges: nat, keys: seq<Key>, strings: seq<seq<byte>>): nat {
    StringOffset(nRanges, keys, strings, |strings|)
  }

  /** Where the last piece of the image is written. */
  function LastWrite(nRanges: nat, keys: seq<Key>, strings: seq<seq<byte>>): int {
    if nRanges == 0 then 4
    else if strings == [] then KeyOffset(nRanges, keys, |keys|) - 1
    else StringOffset(nRanges, keys, strings, |strings| - 1)
  }

  function Read16(bytes: seq<byte>, offset: nat): (w: int)
    requires offset + 2 <= |bytes|
    ensures 0 <= w <= MAX_OFFSET
  {
    var high: int := bytes[offset];
    var low: int := bytes[offset + 1];
    high * 256 + low
  }

  /** A value as the format stores it: the low 16 bits. */
  function Low16(w: int): (r: int)
    ensures 0 <= r <= MAX_OFFSET
    ensures 0 <= w <= MAX_OFFSET ==> r == w
  {
    w % (MAX_OFFSET + 1)
  }

  lemma KeyOffsetMonotone(nRanges: nat, keys: seq<Key>, i: nat, k: nat)
    requires i <= k <= |keys|
    ensures KeyOffset(nRanges, keys, i) + 2 * (k - i) <= KeyOffset(nRanges, keys, k)
    ensures i < k ==> KeyOffset(nRanges, keys, i) + TrapSize(keys[i]) <= KeyOffset(nRanges, keys, k)
    decreases k - i
  {
    if i < k { KeyOffsetMonotone(nRanges, keys, i, k - 1); }
  }

  lemma StringOffsetMonotone(nRanges: nat, keys: seq<Key>, strings: seq<seq<byte>>, i: nat, j: nat)
    requires i <= j <= |strings|
    ensures StringOffset(nRanges, keys, strings, i) + (j - i) <= StringOffset(nRanges, keys, strings, j)
    ensures i < j ==> StringOffset(nRanges, keys, strings, i) + |strings[i]| + 1
                      <= StringOffset(nRanges, keys, strings, j)
    decreases j - i
  {
    if i < j { StringOffsetMonotone(nRanges, keys, strings, i, j - 1); }
  }

  // ---- Contents -----------------------------------------------------------------

  ghost predicate SlotAt(bytes: seq<byte>, nRanges: nat, r: nat) {
    6 + 2 * r + 2 <= |bytes| && Read16(bytes, 6 + 2 * r) == Low16(RecordOffset(nRanges, r))
  }

  ghost predicate RecordAt(bytes: seq<byte>, keys: seq<Key>, range: KeyRange, nRanges: nat, r: nat)
    requires range.lower < |keys| && range.upper < |keys|
  {
    var o := RecordOffset(nRanges, r);
    && o + 8 <= |bytes|
    && Read16(bytes, o) == TypeCode(range.keyType)
    && Read16(bytes, o + 2) == keys[range.lower].code
    && Read16(bytes, o + 4) == keys[range.upper].code
  }

  ghost predicate TrapPointerAt(bytes: seq<byte>, keys: seq<Key>, range: KeyRange, nRanges: nat, r: nat)
    requires range.lower < |keys|
  {
    var o := RecordOffset(nRanges, r) + 6;
    o + 2 <= |bytes| && Read16(bytes, o) == Low16(KeyOffset(nRanges, keys, range.lower))
  }

  /** The trap of key `k`; pointers to strings that are not placed yet are left open. */
  ghost predicate TrapAt(bytes: seq<byte>, nRanges: nat, keys: seq<Key>, strings: seq<seq<byte>>,
                         k: nat, placed: nat)
    requires k < |keys| && placed <= |strings|
  {
    var o := KeyOffset(nRanges, keys, k);
    && o + TrapSize(keys[k]) <= |bytes|
    && match keys[k]
       case CharKey(_, a, b, c, d) =>
         bytes[o] == a && bytes[o + 1] == b && bytes[o + 2] == c && bytes[o + 3] == d
       case TextKey(_, i) =>
         i < placed ==> Read16(bytes, o) == Low16(StringOffset(nRanges, keys, strings, i))
  }

  ghost predicate StringAt(bytes: seq<byte>, nRanges: nat, keys: seq<Key>, strings: seq<seq<byte>>, j: nat)
    requires j < |strings|
  {
    var o := StringOffset(nRanges, keys, strings, j);
    && o + |strings[j]| + 1 <= |bytes|
    && bytes[o..o + |strings[j]|] == strings[j]
    && bytes[o + |strings[j]|] == 0
  }

  /** The complete image of the given tables. */
  ghost predicate Image(bytes: seq<byte>, keys: seq<Key>, ranges: seq<KeyRange>, strings: seq<seq<byte>>)
    requires MaximalRuns(keys, ranges)
  {
    var n := |ranges|;
    && |bytes| == ImageSize(n, keys, strings)
    && |bytes| >= 6
    && Read16(bytes, 0) == 0
    && Read16(bytes, 2) == Low16(|bytes|)
    && Read16(bytes, 4) == Low16(n)
    && (forall r: nat | r < n :: SlotAt(bytes, n, r))
    && (forall r: nat {:trigger RecordAt(bytes, keys, ranges[r], n, r)} | r < n ::
          RecordAt(bytes, keys, ranges[r], n, r))
    && (forall r: nat {:trigger TrapPointerAt(bytes, keys, ranges[r], n, r)} | r < n ::
          TrapPointerAt(bytes, keys, ranges[r], n, r))
    && (forall k: nat {:trigger TrapAt(bytes, n, keys, strings, k, |strings|)} | k < |keys| ::
          TrapAt(bytes, n, keys, strings, k, |strings|))
    && (forall j: nat {:trigger StringAt(bytes, n, keys, strings, j)} | j < |strings| ::
          StringAt(bytes, n, keys, strings, j))
  }
}
