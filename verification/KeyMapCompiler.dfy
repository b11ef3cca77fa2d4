/** The two-pass compiler of key tables: bytes are appended, pointers to parts that are
    not placed yet are written as zero and patched later (Tools/keymap.c:690-849). */
module KeyMapCompiler {
  import opened Bytes
  import opened KeyMapFormat

  datatype Label = RangeLabel(r: nat) | StringLabel(j: nat)

  datatype PatchLocation = PatchLocation(offset: nat, target: Label)

  datatype Result<+T> = Ok(value: T) | TooBig {
    predicate IsFailure() { TooBig? }
    function PropagateFailure<U>(): Result<U>
      requires TooBig?
    {
      TooBig
    }
    function Extract(): T
      requires Ok?
    {
      value
    }
  }

  function High(w: int): byte { (w / 256) % 256 }

  function Low(w: int): byte { w % 256 }

  function Patched16(bytes: seq<byte>, offset: nat, w: int): (r: seq<byte>)
    requires offset + 2 <= |bytes|
    ensures |r| == |bytes|
    ensures Read16(r, offset) == Low16(w)
    ensures forall p | 0 <= p < |bytes| && (p < offset || offset + 2 <= p) :: r[p] == bytes[p]
  {
    HighLow(w);
    bytes[offset := High(w)][offset + 1 := Low(w)]
  }

  lemma HighLow(w: int)
    ensures var h: int := High(w); var l: int := Low(w); h * 256 + l == Low16(w)
  {
    var q := w / 256;
    assert w == 256 * q + w % 256 && q == 256 * (q / 256) + q % 256;
    assert w == 65536 * (q / 256) + (256 * (q % 256) + w % 256);
  }

  /** What patching every location of a target with `w` does. */
  ghost predicate PatchedTo(before: seq<byte>, after: seq<byte>, locs: seq<PatchLocation>, target: Label, w: int) {
    && |after| == |before|
    && (forall loc | loc in locs && loc.target == target ::
          loc.offset + 2 <= |after| && Read16(after, loc.offset) == Low16(w))
    && (forall p | 0 <= p < |before| && (forall loc | loc in locs && loc.target == target ::
                                          p < loc.offset || loc.offset + 2 <= p) ::
          after[p] == before[p])
  }

  ghost predicate Separated(locs: seq<PatchLocation>) {
    forall i, j | 0 <= i < j < |locs| :: locs[i].offset + 2 <= locs[j].offset
  }

  ghost predicate InBounds(locs: seq<PatchLocation>, size: nat) {
    forall loc | loc in locs :: loc.offset + 2 <= size
  }

  // ---- Patch locations ----------------------------------------------------------

  /** The trap pointers of the first `r` range records. */
  function RangeLocs(n: nat, r: nat): (locs: seq<PatchLocation>)
    ensures |locs| == r
    ensures forall i: nat | i < r :: locs[i] == PatchLocation(RecordOffset(n, i) + 6, RangeLabel(i))
  {
    if r == 0 then []
    else RangeLocs(n, r - 1) + [PatchLocation(RecordOffset(n, r - 1) + 6, RangeLabel(r - 1))]
  }

  /** The string pointers among the traps of the first `k` keys. */
  function StringLocs(n: nat, keys: seq<Key>, k: nat): seq<PatchLocation>
    requires k <= |keys|
  {
    if k == 0 then []
    else if keys[k - 1].TextKey? then
      StringLocs(n, keys, k - 1) + [PatchLocation(KeyOffset(n, keys, k - 1), StringLabel(keys[k - 1].stringIdx))]
    else StringLocs(n, keys, k - 1)
  }

  function Locs(n: nat, r: nat, keys: seq<Key>, k: nat): seq<PatchLocation>
    requires k <= |keys|
  {
    RangeLocs(n, r) + StringLocs(n, keys, k)
  }

  lemma RangeLocsMembers(n: nat, r: nat)
    ensures forall loc | loc in RangeLocs(n, r) ::
              loc.target.RangeLabel? && loc.target.r < r && loc.offset == RecordOffset(n, loc.target.r) + 6
    ensures forall q: nat | q < r :: PatchLocation(RecordOffset(n, q) + 6, RangeLabel(q)) in RangeLocs(n, r)
    ensures Separated(RangeLocs(n, r))
  {
    var locs := RangeLocs(n, r);
    forall q: nat | q < r ensures PatchLocation(RecordOffset(n, q) + 6, RangeLabel(q)) in locs {
      assert locs[q] in locs;
    }
  }

  /** Which key a string pointer belongs to. */
  ghost predicate PointerOf(n: nat, keys: seq<Key>, i: nat, loc: PatchLocation)
    requires i < |keys|
  {
    && keys[i].TextKey? && loc == PatchLocation(KeyOffset(n, keys, i), StringLabel(keys[i].stringIdx))
  }

  lemma StringLocOwner(n: nat, keys: seq<Key>, k: nat, loc: PatchLocation) returns (i: nat)
    requires k <= |keys| && loc in StringLocs(n, keys, k)
    ensures i < k && PointerOf(n, keys, i, loc)
    ensures 6 + 10 * n <= loc.offset && loc.offset + 2 <= KeyOffset(n, keys, k)
  {
    if keys[k - 1].TextKey? && loc == PatchLocation(KeyOffset(n, keys, k - 1), StringLabel(keys[k - 1].stringIdx)) {
      i := k - 1;
      KeyOffsetMonotone(n, keys, 0, k - 1);
    } else {
      i := StringLocOwner(n, keys, k - 1, loc);
    }
  }

  lemma StringLocListed(n: nat, keys: seq<Key>, k: nat, i: nat)
    requires i < k <= |keys| && keys[i].TextKey?
    ensures PatchLocation(KeyOffset(n, keys, i), StringLabel(keys[i].stringIdx)) in StringLocs(n, keys, k)
  {
    if i < k - 1 { StringLocListed(n, keys, k - 1, i); }
  }

  lemma StringLocsSeparated(n: nat, keys: seq<Key>, k: nat)
    requires k <= |keys|
    ensures Separated(StringLocs(n, keys, k))
  {
    if k > 0 {
      StringLocsSeparated(n, keys, k - 1);
      var locs := StringLocs(n, keys, k - 1);
      forall m | 0 <= m < |locs| ensures locs[m].offset + 2 <= KeyOffset(n, keys, k - 1) {
        assert locs[m] in locs;
        var _ := StringLocOwner(n, keys, k - 1, locs[m]);
      }
    }
  }

  lemma LocsMembers(n: nat, r: nat, keys: seq<Key>, k: nat)
    requires r <= n && k <= |keys|
    ensures Separated(Locs(n, r, keys, k))
    ensures InBounds(Locs(n, r, keys, k), KeyOffset(n, keys, k))
  {
    RangeLocsMembers(n, r);
    StringLocsSeparated(n, keys, k);
    KeyOffsetMonotone(n, keys, 0, k);
    var first, second := RangeLocs(n, r), StringLocs(n, keys, k);
    forall m | 0 <= m < |second|
      ensures 6 + 10 * n <= second[m].offset && second[m].offset + 2 <= KeyOffset(n, keys, k)
    {
      assert second[m] in second;
      var _ := StringLocOwner(n, keys, k, second[m]);
    }
    forall m | 0 <= m < |first| ensures first[m].offset + 2 <= 6 + 10 * n {
      assert first[m] in first;
    }
    Concatenated(first, second, 6 + 10 * n);
  }

  lemma Concatenated(first: seq<PatchLocation>, second: seq<PatchLocation>, border: nat)
    requires Separated(first) && Separated(second)
    requires forall m | 0 <= m < |first| :: first[m].offset + 2 <= border
    requires forall m | 0 <= m < |second| :: border <= second[m].offset
    ensures Separated(first + second)
  {
  }

  // ---- The output ---------------------------------------------------------------

  class CompiledKeyMap {
    var bytes: seq<byte>
    var patchLocs: seq<PatchLocation>

    constructor ()
      ensures bytes == [] && patchLocs == []
    {
      bytes, patchLocs := [], [];
    }

    method AddPatchLocation(offset: nat, target: Label)
      modifies this`patchLocs
      ensures patchLocs == old(patchLocs) + [PatchLocation(offset, target)]
    {
      patchLocs := patchLocs + [PatchLocation(offset, target)];
    }

    method Patch16(offset: nat, w: int)
      requires offset + 2 <= |bytes|
      modifies this`bytes
      ensures bytes == Patched16(old(bytes), offset, w)
    {
      bytes := bytes[offset := High(w)];
      bytes := bytes[offset + 1 := Low(w)];
    }

    /** Patches every location that waits for `target`. */
    method PatchLabeled16(target: Label, w: int)
      requires Separated(patchLocs) && InBounds(patchLocs, |bytes|)
      modifies this`bytes
      ensures PatchedTo(old(bytes), bytes, patchLocs, target, w)
    {
      var i := 0;
      ghost var before := bytes;
      while i < |patchLocs|
        invariant 0 <= i <= |patchLocs| && |bytes| == |before|
        invariant PatchedTo(before, bytes, patchLocs[..i], target, w)
      {
        var cur := patchLocs[i];
        assert cur in patchLocs;
        ghost var prev := bytes;
        if cur.target == target {
          Patch16(cur.offset, w);
          PatchNext(before, prev, bytes, patchLocs, i, target, w);
        } else {
          PatchSkip(before, bytes, patchLocs, i, target, w);
        }
        i := i + 1;
      }
      assert patchLocs[..i] == patchLocs;
    }

    /** Appends two bytes, most significant first; refused once the image has grown past
        the offsets a 16-bit pointer can hold. */
    method Write16(w: int) returns (r: Result<nat>)
      modifies this`bytes
      ensures r.Ok? <==> |old(bytes)| <= MAX_OFFSET
      ensures r.Ok? ==> bytes == old(bytes) + [High(w), Low(w)] && r.value == |old(bytes)|
      ensures r.TooBig? ==> bytes == old(bytes)
    {
      if |bytes| > MAX_OFFSET { return TooBig; }
      bytes := bytes + [0, 0];
      Patch16(|bytes| - 2, w);
      return Ok(|bytes| - 2);
    }

    method Write8(b: byte) returns (r: Result<()>)
      modifies this`bytes
      ensures r.Ok? <==> |old(bytes)| <= MAX_OFFSET
      ensures bytes == if r.Ok? then old(bytes) + [b] else old(bytes)
    {
      if |bytes| > MAX_OFFSET { return TooBig; }
      bytes := bytes + [b];
      return Ok(());
    }

    method WriteString(text: seq<byte>) returns (r: Result<()>)
      modifies this`bytes
      ensures r.Ok? <==> |old(bytes)| <= MAX_OFFSET
      ensures bytes == if r.Ok? then old(bytes) + text + [0] else old(bytes)
    {
      if |bytes| > MAX_OFFSET { return TooBig; }
      var i := 0;
      ghost var before := bytes;
      while i < |text|
        invariant 0 <= i <= |text| && bytes == before + text[..i]
      {
        bytes := bytes + [text[i]];
        i := i + 1;
      }
      assert text[..i] == text;
      bytes := bytes + [0];
      return Ok(());
    }
  }

  lemma TakeMembers(locs: seq<PatchLocation>, i: nat)
    requires i < |locs|
    ensures forall loc :: loc in locs[..i + 1] <==> loc in locs[..i] || loc == locs[i]
  {
    assert locs[..i + 1] == locs[..i] + [locs[i]];
  }

  lemma PatchKeepsBefore(prev: seq<byte>, at: nat, w: int, o: nat)
    requires at + 2 <= |prev| && o + 2 <= at
    ensures Read16(Patched16(prev, at, w), o) == Read16(prev, o)
  {
  }

  lemma PatchNext(before: seq<byte>, prev: seq<byte>, now: seq<byte>, locs: seq<PatchLocation>, i: nat,
                  target: Label, w: int)
    requires i < |locs| && Separated(locs) && InBounds(locs, |prev|) && locs[i].target == target
    requires PatchedTo(before, prev, locs[..i], target, w)
    requires locs[i].offset + 2 <= |prev| && now == Patched16(prev, locs[i].offset, w)
    ensures PatchedTo(before, now, locs[..i + 1], target, w)
  {
    hide Patched16, Read16, Low16;
    var cur := locs[i];
    TakeMembers(locs, i);
    forall loc | loc in locs[..i + 1] && loc.target == target
      ensures loc.offset + 2 <= |now| && Read16(now, loc.offset) == Low16(w)
    {
      if loc != cur {
        var m :| 0 <= m < i && locs[m] == loc;
        PatchKeepsBefore(prev, cur.offset, w, loc.offset);
      }
    }
  }

  lemma PatchSkip(before: seq<byte>, now: seq<byte>, locs: seq<PatchLocation>, i: nat, target: Label, w: int)
    requires i < |locs| && locs[i].target != target
    requires PatchedTo(before, now, locs[..i], target, w)
    ensures PatchedTo(before, now, locs[..i + 1], target, w)
  {
    TakeMembers(locs, i);
  }
}
