/** What the image under construction contains after each part has been written, and how
    one more record, trap or string leads from one stage to the next. */
module KeyMapStages {
  import opened Bytes
  import opened KeyMapFormat
  import opened KeyMapCompiler

  datatype Tables = Tables(keys: seq<Key>, ranges: seq<KeyRange>, strings: seq<seq<byte>>) {
    ghost predicate Valid() {
      ValidTables(keys, strings) && MaximalRuns(keys, ranges)
    }

    function Ranges(): nat { |ranges| }
  }

  /** Bytes `from` to `to` are the same in both sequences. */
  ghost predicate Agree(b: seq<byte>, c: seq<byte>, from: nat, to: nat) {
    && to <= |b| && to <= |c|
    && forall p | from <= p < to :: b[p] == c[p]
  }

  ghost predicate HeaderAt(b: seq<byte>, n: nat) {
    |b| >= 6 && Read16(b, 0) == 0 && Read16(b, 4) == Low16(n)
  }

  ghost predicate RecordDone(b: seq<byte>, t: Tables, r: nat)
    requires t.Valid() && r < t.Ranges()
  {
    SlotAt(b, t.Ranges(), r) && RecordAt(b, t.keys, t.ranges[r], t.Ranges(), r)
  }

  /** `i` slots of the range table and `i` range records are in place. */
  ghost predicate RecordsWritten(b: seq<byte>, t: Tables, i: nat)
    requires t.Valid()
  {
    var n := t.Ranges();
    && i <= n && |b| == RecordOffset(n, i) && HeaderAt(b, n)
    && (forall r: nat | r < i :: RecordDone(b, t, r))
  }

  /** All records, the trap pointers of `r` ranges and the traps of `k` keys are in place. */
  ghost predicate TrapsWritten(b: seq<byte>, t: Tables, r: nat, k: nat)
    requires t.Valid()
  {
    var n := t.Ranges();
    && r <= n && k <= |t.keys| && |b| == KeyOffset(n, t.keys, k) && HeaderAt(b, n)
    && (forall q: nat | q < n :: RecordDone(b, t, q))
    && (forall q: nat {:trigger TrapPointerAt(b, t.keys, t.ranges[q], n, q)} | q < r ::
          TrapPointerAt(b, t.keys, t.ranges[q], n, q))
    && (forall q: nat {:trigger TrapAt(b, n, t.keys, t.strings, q, 0)} | q < k ::
          TrapAt(b, n, t.keys, t.strings, q, 0))
  }

  /** All traps are in place, `j` strings too, and every pointer to one of them. */
  ghost predicate StringsWritten(b: seq<byte>, t: Tables, j: nat)
    requires t.Valid()
  {
    var n := t.Ranges();
    && j <= |t.strings| && |b| == StringOffset(n, t.keys, t.strings, j) && HeaderAt(b, n)
    && (forall q: nat | q < n :: RecordDone(b, t, q))
    && (forall q: nat {:trigger TrapPointerAt(b, t.keys, t.ranges[q], n, q)} | q < n ::
          TrapPointerAt(b, t.keys, t.ranges[q], n, q))
    && (forall q: nat {:trigger TrapAt(b, n, t.keys, t.strings, q, j)} | q < |t.keys| ::
          TrapAt(b, n, t.keys, t.strings, q, j))
    && (forall q: nat | q < j :: StringAt(b, n, t.keys, t.strings, q))
  }

  // ---- Frames -------------------------------------------------------------------

  lemma RecordsKept(b: seq<byte>, c: seq<byte>, t: Tables, q: nat)
    requires t.Valid() && q < t.Ranges()
    requires RecordDone(b, t, q)
    requires Agree(b, c, 6 + 2 * q, 6 + 2 * q + 2)
    requires Agree(b, c, RecordOffset(t.Ranges(), q), RecordOffset(t.Ranges(), q) + 6)
    requires RecordOffset(t.Ranges(), q) + 8 <= |c|
    ensures RecordDone(c, t, q)
  {
  }

  lemma TrapKept(b: seq<byte>, c: seq<byte>, t: Tables, q: nat, placed: nat)
    requires t.Valid() && q < |t.keys| && placed <= |t.strings|
    requires TrapAt(b, t.Ranges(), t.keys, t.strings, q, placed)
    requires var o := KeyOffset(t.Ranges(), t.keys, q); Agree(b, c, o, o + TrapSize(t.keys[q]))
    ensures TrapAt(c, t.Ranges(), t.keys, t.strings, q, placed)
  {
  }

  lemma StringKept(b: seq<byte>, c: seq<byte>, t: Tables, q: nat)
    requires t.Valid() && q < |t.strings| && StringAt(b, t.Ranges(), t.keys, t.strings, q)
    requires var o := StringOffset(t.Ranges(), t.keys, t.strings, q); Agree(b, c, o, o + |t.strings[q]| + 1)
    ensures StringAt(c, t.Ranges(), t.keys, t.strings, q)
  {
    var o := StringOffset(t.Ranges(), t.keys, t.strings, q);
    assert b[o..o + |t.strings[q]|] == c[o..o + |t.strings[q]|];
  }

  /** Appending bytes keeps the records. */
  lemma RecordsGrow(b: seq<byte>, c: seq<byte>, t: Tables, i: nat)
    requires t.Valid() && i <= t.Ranges() && b <= c
    requires forall q: nat | q < i :: RecordDone(b, t, q)
    ensures forall q: nat | q < i :: RecordDone(c, t, q)
  {
    forall q: nat | q < i
      ensures RecordDone(c, t, q)
    {
      RecordsKept(b, c, t, q);
    }
  }

  // ---- One more record ----------------------------------------------------------

  function Pair(w: int): seq<byte> { [High(w), Low(w)] }

  lemma RecordReads(b: seq<byte>, x: int, y: int, z: int) returns (c: seq<byte>)
    ensures c == b + Pair(x) + Pair(y) + Pair(z) + Pair(0)
    ensures |c| == |b| + 8 && b <= c
    ensures Read16(c, |b|) == Low16(x) && Read16(c, |b| + 2) == Low16(y) && Read16(c, |b| + 4) == Low16(z)
  {
    HighLow(x);
    HighLow(y);
    HighLow(z);
    c := b + Pair(x) + Pair(y) + Pair(z) + Pair(0);
  }

  lemma NextRecord(b: seq<byte>, c: seq<byte>, t: Tables, i: nat)
    requires t.Valid() && i < t.Ranges() && RecordsWritten(b, t, i)
    requires var g := t.ranges[i];
             c == b + Pair(TypeCode(g.keyType)) + Pair(t.keys[g.lower].code) + Pair(t.keys[g.upper].code) + Pair(0)
    ensures 6 + 2 * i + 2 <= |c| && RecordsWritten(Patched16(c, 6 + 2 * i, |b|), t, i + 1)
  {
    var g := t.ranges[i];
    var c' := RecordReads(b, TypeCode(g.keyType), t.keys[g.lower].code, t.keys[g.upper].code);
    NewRecord(b, c, Patched16(c, 6 + 2 * i, |b|), t, i);
  }

  lemma NewRecordDone(c: seq<byte>, d: seq<byte>, t: Tables, i: nat, o: nat)
    requires t.Valid() && i < t.Ranges() && RecordAt(c, t.keys, t.ranges[i], t.Ranges(), i)
    requires o == RecordOffset(t.Ranges(), i) && 6 + 2 * i + 2 <= |c| && d == Patched16(c, 6 + 2 * i, o)
    ensures RecordDone(d, t, i)
  {
    hide RunsUpTo, ValidTables;
    assert Agree(c, d, 6 + 2 * i + 2, |c|);
  }

  lemma NewRecord(b: seq<byte>, c: seq<byte>, d: seq<byte>, t: Tables, i: nat)
    requires t.Valid() && i < t.Ranges() && RecordsWritten(b, t, i) && b <= c && |c| == |b| + 8
    requires RecordAt(c, t.keys, t.ranges[i], t.Ranges(), i)
    requires d == Patched16(c, 6 + 2 * i, |b|)
    ensures RecordsWritten(d, t, i + 1)
  {
    hide RunsUpTo, ValidTables, RecordAt;
    assert Agree(c, d, 0, 6 + 2 * i) && Agree(c, d, 6 + 2 * i + 2, |c|);
    NewRecordDone(c, d, t, i, |b|);
    forall r: nat | r < i
      ensures RecordDone(d, t, r)
    {
      assert RecordDone(b, t, r);
      RecordsKept(b, d, t, r);
    }
  }

  // ---- One more trap ------------------------------------------------------------

  lemma FirstTrap(b: seq<byte>, t: Tables)
    requires t.Valid() && RecordsWritten(b, t, t.Ranges())
    ensures TrapsWritten(b, t, 0, 0)
  {
  }

  /** Patching the trap pointer of range `r` changes that pointer and nothing else. */
  lemma RangePatchFrame(b: seq<byte>, c: seq<byte>, t: Tables, r: nat, k: nat, w: int)
    requires t.Valid() && r < t.Ranges() && k <= |t.keys|
    requires PatchedTo(b, c, Locs(t.Ranges(), t.Ranges(), t.keys, k), RangeLabel(r), w)
    ensures |c| == |b|
    ensures var o := RecordOffset(t.Ranges(), r) + 6;
            && o + 2 <= |c| && Read16(c, o) == Low16(w)
            && Agree(b, c, 0, o) && Agree(b, c, o + 2, |b|)
  {
    hide RunsUpTo, ValidTables;
    var n := t.Ranges();
    var locs := Locs(n, n, t.keys, k);
    var o := RecordOffset(n, r) + 6;
    RangeLocsMembers(n, n);
    assert PatchLocation(o, RangeLabel(r)) in locs;
    forall loc | loc in locs && loc.target == RangeLabel(r) ensures loc.offset == o {
      if loc !in RangeLocs(n, n) { var _ := StringLocOwner(n, t.keys, k, loc); }
    }
  }

  lemma NextRange(b: seq<byte>, c: seq<byte>, t: Tables, r: nat, k: nat)
    requires t.Valid() && r < t.Ranges() && TrapsWritten(b, t, r, k) && k == t.ranges[r].lower
    requires PatchedTo(b, c, Locs(t.Ranges(), t.Ranges(), t.keys, k), RangeLabel(r), |b|)
    ensures TrapsWritten(c, t, r + 1, k)
  {
    hide ValidTables, PatchedTo, Locs, RecordDone;
    var n := t.Ranges();
    RangePatchFrame(b, c, t, r, k, |b|);
    KeyOffsetMonotone(n, t.keys, 0, k);
    RangePatchKeeps(b, c, t, r, k, |b|);
    assert TrapPointerAt(c, t.keys, t.ranges[r], n, r);
  }

  lemma RangePatchKeeps(b: seq<byte>, c: seq<byte>, t: Tables, r: nat, k: nat, w: int)
    requires t.Valid() && r < t.Ranges() && TrapsWritten(b, t, r, k)
    requires |c| == |b| && |b| >= 6 + 10 * t.Ranges()
    requires var o := RecordOffset(t.Ranges(), r) + 6;
             Agree(b, c, 0, o) && Agree(b, c, o + 2, |b|)
    ensures HeaderAt(c, t.Ranges())
    ensures forall q: nat | q < t.Ranges() :: RecordDone(c, t, q)
    ensures forall q: nat {:trigger TrapPointerAt(c, t.keys, t.ranges[q], t.Ranges(), q)} | q < r ::
          TrapPointerAt(c, t.keys, t.ranges[q], t.Ranges(), q)
    ensures forall q: nat {:trigger TrapAt(c, t.Ranges(), t.keys, t.strings, q, 0)} | q < k ::
          TrapAt(c, t.Ranges(), t.keys, t.strings, q, 0)
  {
    hide ValidTables, RecordAt, SlotAt;
    var n := t.Ranges();
    forall q: nat | q < n ensures RecordDone(c, t, q) {
      RecordsKept(b, c, t, q);
    }
    forall q: nat | q < r ensures TrapPointerAt(c, t.keys, t.ranges[q], n, q) {
      assert TrapPointerAt(b, t.keys, t.ranges[q], n, q);
    }
    forall q: nat | q < k ensures TrapAt(c, n, t.keys, t.strings, q, 0) {
      KeyOffsetMonotone(n, t.keys, 0, q);
      KeyOffsetMonotone(n, t.keys, q, k);
      TrapKept(b, c, t, q, 0);
    }
  }

  function TrapBytes(k: Key): (b: seq<byte>)
    ensures |b| == TrapSize(k)
  {
    match k
    case CharKey(_, a, b, c, d) => [a, b, c, d]
    case TextKey(_, _) => Pair(0)
  }

  lemma NextTrap(b: seq<byte>, t: Tables, r: nat, k: nat)
    requires t.Valid() && k < |t.keys| && TrapsWritten(b, t, r, k)
    ensures TrapsWritten(b + TrapBytes(t.keys[k]), t, r, k + 1)
  {
    var n := t.Ranges();
    var c := b + TrapBytes(t.keys[k]);
    RecordsGrow(b, c, t, n);
    forall q: nat | q < r ensures TrapPointerAt(c, t.keys, t.ranges[q], n, q) {
      assert TrapPointerAt(b, t.keys, t.ranges[q], n, q);
    }
    forall q: nat | q < k + 1 ensures TrapAt(c, n, t.keys, t.strings, q, 0) {
      if q < k { TrapKept(b, c, t, q, 0); }
    }
  }

  // ---- One more string ----------------------------------------------------------

  lemma FirstString(b: seq<byte>, t: Tables)
    requires t.Valid() && TrapsWritten(b, t, t.Ranges(), |t.keys|)
    ensures StringsWritten(b, t, 0)
  {
  }

  lemma StringGrow(b: seq<byte>, c: seq<byte>, t: Tables, j: nat)
    requires t.Valid() && j < |t.strings| && StringsWritten(b, t, j)
    requires c == b + t.strings[j] + [0]
    ensures |c| == StringOffset(t.Ranges(), t.keys, t.strings, j + 1)
    ensures forall q: nat | q < j + 1 :: StringAt(c, t.Ranges(), t.keys, t.strings, q)
  {
    forall q: nat | q < j + 1 ensures StringAt(c, t.Ranges(), t.keys, t.strings, q) {
      if q < j {
        StringKept(b, c, t, q);
      } else {
        assert c[|b|..|b| + |t.strings[j]|] == t.strings[j];
      }
    }
  }

  /** A trap that is no pointer to string `j` keeps its bytes when those are patched. */
  lemma OtherTrapUnpatched(b: seq<byte>, c: seq<byte>, t: Tables, j: nat, q: nat, w: int)
    requires t.Valid() && q < |t.keys|
    requires !(t.keys[q].TextKey? && t.keys[q].stringIdx == j)
    requires KeyOffset(t.Ranges(), t.keys, q) + TrapSize(t.keys[q]) <= |b|
    requires PatchedTo(b, c, Locs(t.Ranges(), t.Ranges(), t.keys, |t.keys|), StringLabel(j), w)
    ensures var o := KeyOffset(t.Ranges(), t.keys, q); Agree(b, c, o, o + TrapSize(t.keys[q]))
  {
    var n, m := t.Ranges(), |t.keys|;
    var locs := Locs(n, n, t.keys, m);
    var o := KeyOffset(n, t.keys, q);
    forall loc | loc in locs && loc.target == StringLabel(j)
      ensures loc.offset + 2 <= o || o + TrapSize(t.keys[q]) <= loc.offset
    {
      PointerApart(t, j, q, loc);
    }
  }

  lemma PointerApart(t: Tables, j: nat, q: nat, loc: PatchLocation)
    requires t.Valid() && q < |t.keys| && loc.target == StringLabel(j)
    requires loc in Locs(t.Ranges(), t.Ranges(), t.keys, |t.keys|)
    requires !(t.keys[q].TextKey? && t.keys[q].stringIdx == j)
    ensures var o := KeyOffset(t.Ranges(), t.keys, q);
            loc.offset + 2 <= o || o + TrapSize(t.keys[q]) <= loc.offset
  {
    var n, m := t.Ranges(), |t.keys|;
    RangeLocsMembers(n, n);
    var i := StringLocOwner(n, t.keys, m, loc);
    if i < q { KeyOffsetMonotone(n, t.keys, i, q); } else { KeyOffsetMonotone(n, t.keys, q, i); }
  }

  /** Patching the pointers to string `j` sets exactly the traps of the keys that use it. */
  lemma PatchedTrap(b: seq<byte>, c: seq<byte>, t: Tables, j: nat, q: nat)
    requires t.Valid() && j < |t.strings| && q < |t.keys|
    requires TrapAt(b, t.Ranges(), t.keys, t.strings, q, j)
    requires PatchedTo(b, c, Locs(t.Ranges(), t.Ranges(), t.keys, |t.keys|), StringLabel(j),
                       StringOffset(t.Ranges(), t.keys, t.strings, j))
    ensures TrapAt(c, t.Ranges(), t.keys, t.strings, q, j + 1)
  {
    var n, m := t.Ranges(), |t.keys|;
    var o := KeyOffset(n, t.keys, q);
    if t.keys[q].TextKey? && t.keys[q].stringIdx == j {
      StringLocListed(n, t.keys, m, q);
      assert PatchLocation(o, StringLabel(j)) in Locs(n, n, t.keys, m);
    } else {
      OtherTrapUnpatched(b, c, t, j, q, StringOffset(n, t.keys, t.strings, j));
      TrapKept(b, c, t, q, j);
    }
  }

  lemma NextString(b: seq<byte>, c: seq<byte>, d: seq<byte>, t: Tables, j: nat)
    requires t.Valid() && j < |t.strings| && StringsWritten(b, t, j)
    requires c == b + t.strings[j] + [0]
    requires PatchedTo(c, d, Locs(t.Ranges(), t.Ranges(), t.keys, |t.keys|), StringLabel(j), |b|)
    ensures StringsWritten(d, t, j + 1)
  {
    var n, m := t.Ranges(), |t.keys|;
    StringGrow(b, c, t, j);
    KeyOffsetMonotone(n, t.keys, 0, m);
    StringOffsetMonotone(n, t.keys, t.strings, 0, j);
    StringPatchFrame(c, d, t, j, |b|);
    NextStringRecords(b, d, t, j);
    NextStringTraps(b, c, d, t, j, j + 1);
    NextStringStrings(c, d, t, j + 1);
  }

  lemma NextStringRecords(b: seq<byte>, d: seq<byte>, t: Tables, j: nat)
    requires t.Valid() && StringsWritten(b, t, j)
    requires |b| >= 6 + 10 * t.Ranges() && Agree(b, d, 0, 6 + 10 * t.Ranges())
    ensures HeaderAt(d, t.Ranges())
    ensures forall q: nat | q < t.Ranges() :: RecordDone(d, t, q)
    ensures forall q: nat {:trigger TrapPointerAt(d, t.keys, t.ranges[q], t.Ranges(), q)} | q < t.Ranges() ::
          TrapPointerAt(d, t.keys, t.ranges[q], t.Ranges(), q)
  {
    var n := t.Ranges();
    forall q: nat | q < n
      ensures RecordDone(d, t, q)
      ensures TrapPointerAt(d, t.keys, t.ranges[q], n, q)
    {
      assert RecordDone(b, t, q);
      assert TrapPointerAt(b, t.keys, t.ranges[q], n, q);
      RecordsKept(b, d, t, q);
    }
  }

  lemma NextStringTraps(b: seq<byte>, c: seq<byte>, d: seq<byte>, t: Tables, j: nat, j1: nat)
    requires t.Valid() && j < |t.strings| && j1 == j + 1 && StringsWritten(b, t, j) && b <= c
    requires |b| == StringOffset(t.Ranges(), t.keys, t.strings, j)
    requires PatchedTo(c, d, Locs(t.Ranges(), t.Ranges(), t.keys, |t.keys|), StringLabel(j), |b|)
    ensures forall q: nat {:trigger TrapAt(d, t.Ranges(), t.keys, t.strings, q, j1)} | q < |t.keys| ::
          TrapAt(d, t.Ranges(), t.keys, t.strings, q, j1)
  {
    forall q: nat | q < |t.keys| ensures TrapAt(d, t.Ranges(), t.keys, t.strings, q, j1) {
      assert TrapAt(b, t.Ranges(), t.keys, t.strings, q, j);
      TrapKept(b, c, t, q, j);
      PatchedTrap(c, d, t, j, q);
    }
  }

  lemma NextStringStrings(c: seq<byte>, d: seq<byte>, t: Tables, j: nat)
    requires t.Valid() && j <= |t.strings|
    requires forall q: nat | q < j :: StringAt(c, t.Ranges(), t.keys, t.strings, q)
    requires |c| == |d| && Agree(c, d, KeyOffset(t.Ranges(), t.keys, |t.keys|), |c|)
    ensures forall q: nat | q < j :: StringAt(d, t.Ranges(), t.keys, t.strings, q)
  {
    forall q: nat | q < j ensures StringAt(d, t.Ranges(), t.keys, t.strings, q) {
      StringOffsetMonotone(t.Ranges(), t.keys, t.strings, 0, q);
      StringKept(c, d, t, q);
    }
  }

  /** Patching string pointers touches neither the records nor the strings. */
  lemma StringPatchFrame(b: seq<byte>, c: seq<byte>, t: Tables, j: nat, w: int)
    requires t.Valid() && |b| >= KeyOffset(t.Ranges(), t.keys, |t.keys|)
    requires PatchedTo(b, c, Locs(t.Ranges(), t.Ranges(), t.keys, |t.keys|), StringLabel(j), w)
    ensures |b| == |c|
    ensures Agree(b, c, 0, 6 + 10 * t.Ranges())
    ensures Agree(b, c, KeyOffset(t.Ranges(), t.keys, |t.keys|), |b|)
  {
    var n, m := t.Ranges(), |t.keys|;
    var locs := Locs(n, n, t.keys, m);
    KeyOffsetMonotone(n, t.keys, 0, m);
    forall loc | loc in locs && loc.target == StringLabel(j)
      ensures 6 + 10 * n <= loc.offset && loc.offset + 2 <= KeyOffset(n, t.keys, m)
    {
      RangeLocsMembers(n, n);
      var _ := StringLocOwner(n, t.keys, m, loc);
    }
  }

  lemma FinishedRecords(b: seq<byte>, c: seq<byte>, t: Tables)
    requires t.Valid() && StringsWritten(b, t, |t.strings|)
    requires |b| == |c| && |b| >= 6 + 10 * t.Ranges() && Agree(b, c, 4, |b|)
    ensures forall q: nat | q < t.Ranges() :: RecordDone(c, t, q)
    ensures forall q: nat {:trigger TrapPointerAt(c, t.keys, t.ranges[q], t.Ranges(), q)} | q < t.Ranges() ::
              TrapPointerAt(c, t.keys, t.ranges[q], t.Ranges(), q)
  {
    forall q: nat | q < t.Ranges()
      ensures RecordDone(c, t, q) && TrapPointerAt(c, t.keys, t.ranges[q], t.Ranges(), q)
    {
      assert TrapPointerAt(b, t.keys, t.ranges[q], t.Ranges(), q);
      RecordsKept(b, c, t, q);
    }
  }

  lemma FinishedTraps(b: seq<byte>, c: seq<byte>, t: Tables, placed: nat)
    requires t.Valid() && placed == |t.strings| && StringsWritten(b, t, placed)
    requires |b| == |c| && Agree(b, c, 4, |b|)
    ensures forall q: nat {:trigger TrapAt(c, t.Ranges(), t.keys, t.strings, q, placed)} | q < |t.keys| ::
              TrapAt(c, t.Ranges(), t.keys, t.strings, q, placed)
    ensures forall q: nat | q < placed :: StringAt(c, t.Ranges(), t.keys, t.strings, q)
  {
    var n := t.Ranges();
    KeyOffsetMonotone(n, t.keys, 0, |t.keys|);
    forall q: nat | q < |t.keys| ensures TrapAt(c, n, t.keys, t.strings, q, placed) {
      KeyOffsetMonotone(n, t.keys, 0, q);
      TrapKept(b, c, t, q, placed);
    }
    forall q: nat | q < placed ensures StringAt(c, n, t.keys, t.strings, q) {
      StringOffsetMonotone(n, t.keys, t.strings, 0, q);
      StringKept(b, c, t, q);
    }
  }

  /** The finished strings make a complete image once the size is patched in. */
  lemma Finished(b: seq<byte>, t: Tables)
    requires t.Valid() && StringsWritten(b, t, |t.strings|)
    ensures Image(Patched16(b, 2, |b|), t.keys, t.ranges, t.strings)
  {
    var c := Patched16(b, 2, |b|);
    KeyOffsetMonotone(t.Ranges(), t.keys, 0, |t.keys|);
    StringOffsetMonotone(t.Ranges(), t.keys, t.strings, 0, |t.strings|);
    FinishedRecords(b, c, t);
    FinishedTraps(b, c, t, |t.strings|);
    forall q: nat | q < t.Ranges()
      ensures SlotAt(c, t.Ranges(), q) && RecordAt(c, t.keys, t.ranges[q], t.Ranges(), q)
    {
      assert RecordDone(c, t, q);
    }
  }
}
