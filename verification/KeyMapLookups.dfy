/** Which key tables the kernel looks up as their source says: exactly those whose keys lie
    in step with their codes, and whose repeated codes are sorted as they were written
    (Tools/keymap.c:616-661, 792-796, Kernel/Sources/console/KeyMap.c:43-122). */
module KeyMapLookups {
  import opened Bytes
  import opened Sequences
  import opened KeyMapFormat
  import opened KeyMapStages
  import opened KeyMapCompile
  import opened KeyMapTables
  import opened KeyMapRanges
  import opened KeyMapKernel

  // ---- The condition ------------------------------------------------------------

  /** Key `k` of range `i` sits as far behind the range's first key as its code. */
  ghost predicate InStep(t: Tables, i: nat, k: nat)
    requires t.Valid() && i < t.Ranges() && t.ranges[i].lower <= k < |t.keys|
  {
    t.keys[k].code - t.keys[t.ranges[i].lower].code == k - t.ranges[i].lower
  }

  /** Key `k` repeats the code of the key before it, and no larger code follows in the range. */
  ghost predicate IdleRepeat(t: Tables, i: nat, k: nat)
    requires t.Valid() && i < t.Ranges() && t.ranges[i].lower <= k <= t.ranges[i].upper < |t.keys|
  {
    k > t.ranges[i].lower && t.keys[k - 1].code == t.keys[k].code == t.keys[t.ranges[i].upper].code
  }

  ghost predicate PlacedRange(t: Tables, i: nat)
    requires t.Valid() && i < t.Ranges()
  {
    && t.ranges[i].upper < |t.keys|
    && forall k: nat | t.ranges[i].lower <= k <= t.ranges[i].upper :: InStep(t, i, k) || IdleRepeat(t, i, k)
  }

  ghost predicate WellPlaced(t: Tables)
    requires t.Valid()
  {
    forall i: nat | i < t.Ranges() :: PlacedRange(t, i)
  }

  /** Key `k` is the first of its code. */
  predicate FirstOfCode(keys: seq<Key>, k: nat)
    requires k < |keys|
  {
    k == 0 || keys[k - 1].code < keys[k].code
  }

  /** Of the keys with one code the sort has put the one first that was written first. */
  ghost predicate FirstsKept(t: Tables, src: seq<KeyStatement>)
    requires t.Valid()
  {
    forall k: nat | k < |t.keys| && FirstOfCode(t.keys, k) ::
      Find(src, t.keys[k].code) == Some(Meaning(t.keys[k], t.strings))
  }

  // ---- Ranges and codes ---------------------------------------------------------

  /** The range of key `k`. */
  lemma {:induction false} RangeOfKey(t: Tables, k: nat, n: nat) returns (i: nat)
    requires t.Valid() && 0 < n <= t.Ranges() && k < RangeStart(t, n)
    ensures i < n && t.ranges[i].lower <= k <= t.ranges[i].upper < |t.keys|
    decreases n
  {
    RangeBounds(t, n - 1);
    if k >= t.ranges[n - 1].lower {
      i := n - 1;
    } else {
      i := RangeOfKey(t, k, n - 1);
    }
  }

  /** As long as all keys before range `i` have smaller codes, the search goes on to `i`. */
  lemma {:induction false} SearchGoesOn(t: Tables, i: nat, code: int)
    requires t.Valid() && SortedByCode(t.keys) && i < t.Ranges()
    requires t.ranges[i].lower == 0 || t.keys[t.ranges[i].lower - 1].code < code
    ensures Reached(t, 0, code) == Reached(t, i, code)
    decreases i
  {
    if i > 0 {
      RangeBounds(t, i - 1);
      SearchGoesOn(t, i - 1, code);
    }
  }

  /** The range that encloses a code decides what is reached. */
  lemma ReachedInRange(t: Tables, i: nat, code: int)
    requires t.Valid() && SortedByCode(t.keys) && i < t.Ranges()
    requires t.ranges[i].lower <= t.ranges[i].upper < |t.keys|
    requires t.keys[t.ranges[i].lower].code <= code <= t.keys[t.ranges[i].upper].code
    ensures var j := t.ranges[i].lower + (code - t.keys[t.ranges[i].lower].code);
            j <= t.ranges[i].upper && Reached(t, i, code) == Some(Meaning(t.keys[j], t.strings))
  {
    KeyInRange(t, i, code);
  }

  lemma BeforeFirst(keys: seq<Key>, lower: nat, k: nat)
    requires SortedByCode(keys) && lower <= k < |keys| && FirstOfCode(keys, k)
    ensures lower == 0 || keys[lower - 1].code < keys[k].code
  {
  }

  /** The search for the code of a key that is the first of its code ends in its range. */
  lemma FirstReaches(t: Tables, i: nat, k: nat) returns (j: nat)
    requires t.Valid() && SortedByCode(t.keys) && i < t.Ranges()
    requires t.ranges[i].lower <= k <= t.ranges[i].upper < |t.keys| && FirstOfCode(t.keys, k)
    ensures t.ranges[i].lower <= j <= k && j - t.ranges[i].lower == t.keys[k].code - t.keys[t.ranges[i].lower].code
    ensures Reached(t, 0, t.keys[k].code) == Some(Meaning(t.keys[j], t.strings))
  {
    hide RunsUpTo;
    var code, lower := t.keys[k].code, t.ranges[i].lower;
    assert Reached(t, 0, code) == Reached(t, i, code) by {
      BeforeFirst(t.keys, lower, k);
      SearchGoesOn(t, i, code);
    }
    assert t.keys[lower].code <= code <= t.keys[lower].code + (k - lower) by { RunSteps(t, i, k - lower); }
    ReachedInRange(t, i, code);
    j := lower + (code - t.keys[lower].code);
  }

  /** The interpreter reaches nothing for a code that no key has. */
  lemma {:induction false} NothingReached(t: Tables, i: nat, code: int)
    requires t.Valid() && SortedByCode(t.keys) && i <= t.Ranges()
    requires forall k: nat | k < |t.keys| :: t.keys[k].code != code
    ensures Reached(t, i, code) == None
    decreases t.Ranges() - i
  {
    if i < t.Ranges() {
      KeyInRange(t, i, code);
      NothingReached(t, i + 1, code);
    }
  }

  /** The first key with the code of key `k`. */
  lemma {:induction false} FirstWithCode(keys: seq<Key>, k: nat) returns (f: nat)
    requires SortedByCode(keys) && k < |keys|
    ensures f <= k && keys[f].code == keys[k].code && FirstOfCode(keys, f)
    decreases k
  {
    f := k;
    if k > 0 && keys[k - 1].code == keys[k].code { f := FirstWithCode(keys, k - 1); }
  }

  // ---- The condition is sufficient ----------------------------------------------

  lemma FoundHasKey(t: Tables, src: seq<KeyStatement>, code: int) returns (k: nat)
    requires TablesOf(t, src) && Find(src, code).Some?
    ensures k < |t.keys| && t.keys[k].code == code
  {
    var st := Find(src, code).value;
    TableMembers(t, src);
    var i :| 0 <= i < |t.keys| && Meaning(t.keys[i], t.strings) == st;
    k := i;
  }

  lemma FirstIsFound(t: Tables, src: seq<KeyStatement>, f: nat)
    requires TablesOf(t, src) && WellPlaced(t) && FirstsKept(t, src)
    requires f < |t.keys| && FirstOfCode(t.keys, f)
    ensures Reached(t, 0, t.keys[f].code) == Find(src, t.keys[f].code)
  {
    var i := RangeOfKey(t, f, t.Ranges());
    var j := FirstReaches(t, i, f);
    assert j == f by {
      assert PlacedRange(t, i);
      assert InStep(t, i, f) || IdleRepeat(t, i, f);
    }
  }

  lemma PlacedIsFound(t: Tables, src: seq<KeyStatement>, code: int)
    requires TablesOf(t, src) && WellPlaced(t) && FirstsKept(t, src)
    ensures Reached(t, 0, code) == Find(src, code)
  {
    if k: nat :| k < |t.keys| && t.keys[k].code == code {
      var f := FirstWithCode(t.keys, k);
      FirstIsFound(t, src, f);
    } else {
      NothingReached(t, 0, code);
      if Find(src, code).Some? { var k := FoundHasKey(t, src, code); }
    }
  }

  // ---- The condition is necessary -----------------------------------------------

  /** Every lookup reaches the first statement for its code. */
  ghost predicate LooksUp(t: Tables, src: seq<KeyStatement>)
    requires t.Valid() && SortedByCode(t.keys)
  {
    forall code :: Reached(t, 0, code) == Find(src, code)
  }

  lemma FirstIsInStep(t: Tables, src: seq<KeyStatement>, i: nat, k: nat)
    requires t.Valid() && SortedByCode(t.keys) && i < t.Ranges() && LooksUp(t, src)
    requires t.ranges[i].lower <= k <= t.ranges[i].upper < |t.keys| && FirstOfCode(t.keys, k)
    ensures InStep(t, i, k)
    ensures Find(src, t.keys[k].code) == Some(Meaning(t.keys[k], t.strings))
  {
    var j := FirstReaches(t, i, k);
    assert Find(src, t.keys[k].code) == Some(Meaning(t.keys[j], t.strings));
    assert Meaning(t.keys[j], t.strings).code == t.keys[j].code;
    assert j == k;
  }

  /** A key is in step if it is the first of its code in its range: either no key before the
      range has the code, or it is the first of the range. */
  lemma FirstInItsRange(t: Tables, src: seq<KeyStatement>, i: nat, k: nat)
    requires t.Valid() && SortedByCode(t.keys) && i < t.Ranges() && LooksUp(t, src)
    requires t.ranges[i].lower <= k <= t.ranges[i].upper < |t.keys|
    requires k == t.ranges[i].lower || t.keys[k - 1].code < t.keys[k].code
    ensures InStep(t, i, k)
  {
    if k > t.ranges[i].lower { FirstIsInStep(t, src, i, k); }
  }

  /** A larger code in the range of a repetition would be out of step. */
  lemma RepeatIsIdle(t: Tables, src: seq<KeyStatement>, i: nat, f: nat, k: nat)
    requires t.Valid() && SortedByCode(t.keys) && i < t.Ranges() && LooksUp(t, src)
    requires t.ranges[i].lower <= f < k <= t.ranges[i].upper < |t.keys| && InStep(t, i, f)
    requires t.keys[f].code == t.keys[k].code
    ensures t.keys[k].code == t.keys[t.ranges[i].upper].code
  {
    var lower, upper := t.ranges[i].lower, t.ranges[i].upper;
    if t.keys[k].code < t.keys[upper].code {
      var g := FirstInRange(t, i, t.keys[k].code + 1, upper - lower);
      FirstInItsRange(t, src, i, g);
    }
  }

  lemma KeyIsPlaced(t: Tables, src: seq<KeyStatement>, i: nat, k: nat)
    requires t.Valid() && SortedByCode(t.keys) && i < t.Ranges() && LooksUp(t, src)
    requires t.ranges[i].lower <= k <= t.ranges[i].upper < |t.keys|
    ensures InStep(t, i, k) || IdleRepeat(t, i, k)
  {
    var f := FirstInRange(t, i, t.keys[k].code, k - t.ranges[i].lower);
    FirstInItsRange(t, src, i, f);
    if f < k {
      RepeatIsIdle(t, src, i, f, k);
      SameBetween(t.keys, f, k);
    }
  }

  lemma SameBetween(keys: seq<Key>, f: nat, k: nat)
    requires SortedByCode(keys) && f < k < |keys| && keys[f].code == keys[k].code
    ensures keys[k - 1].code == keys[k].code
  {
    if f < k - 1 { assert keys[f].code <= keys[k - 1].code <= keys[k].code; }
  }

  /** The interpreter reaches, for every key code, the first statement the source has for it,
      exactly if all keys are in step with their codes up to idle repetitions at the end of
      a range, and the sort keeps the first of the keys with the same code in front. */
  lemma LooksUpExactly(t: Tables, src: seq<KeyStatement>)
    requires TablesOf(t, src)
    ensures LooksUp(t, src) <==> WellPlaced(t) && FirstsKept(t, src)
  {
    if WellPlaced(t) && FirstsKept(t, src) {
      forall code ensures Reached(t, 0, code) == Find(src, code) { PlacedIsFound(t, src, code); }
    }
    if LooksUp(t, src) {
      forall i: nat | i < t.Ranges() ensures PlacedRange(t, i) { RangeIsPlaced(t, src, i); }
      forall k: nat | k < |t.keys| && FirstOfCode(t.keys, k)
        ensures Find(src, t.keys[k].code) == Some(Meaning(t.keys[k], t.strings))
      {
        var i := RangeOfKey(t, k, t.Ranges());
        FirstIsInStep(t, src, i, k);
      }
    }
  }

  lemma RangeIsPlaced(t: Tables, src: seq<KeyStatement>, i: nat)
    requires t.Valid() && SortedByCode(t.keys) && i < t.Ranges() && LooksUp(t, src)
    ensures PlacedRange(t, i)
  {
    RangeBounds(t, i);
    forall k: nat | t.ranges[i].lower <= k <= t.ranges[i].upper ensures InStep(t, i, k) || IdleRepeat(t, i, k) {
      KeyIsPlaced(t, src, i, k);
    }
  }

  // ---- Distinct codes -----------------------------------------------------------

  lemma {:induction false} OnlyStatement(src: seq<KeyStatement>, st: KeyStatement)
    requires DistinctCodes(src) && st in src
    ensures Find(src, st.code) == Some(st)
  {
    if src[0] != st {
      assert st in src[1..];
      var i :| 1 <= i < |src| && src[i] == st;
      assert src[0].code != src[i].code;
      OnlyStatement(src[1..], st);
    }
  }

  lemma StrictIsPlaced(t: Tables)
    requires t.Valid() && StrictlySorted(t.keys)
    ensures WellPlaced(t)
  {
    forall i: nat | i < t.Ranges() ensures PlacedRange(t, i) {
      RangeBounds(t, i);
      forall k: nat | t.ranges[i].lower <= k <= t.ranges[i].upper ensures InStep(t, i, k) {
        StrictSteps(t, i, k - t.ranges[i].lower);
      }
    }
  }

  /** With distinct key codes a lookup in the tables is a lookup in the source. */
  lemma DistinctLooksUp(t: Tables, src: seq<KeyStatement>)
    requires TablesOf(t, src) && DistinctCodes(src)
    ensures LooksUp(t, src)
  {
    TableMembers(t, src);
    DistinctSortStrictly(t, src);
    StrictIsPlaced(t);
    forall k: nat | k < |t.keys| && FirstOfCode(t.keys, k)
      ensures Find(src, t.keys[k].code) == Some(Meaning(t.keys[k], t.strings))
    {
      OnlyStatement(src, Meaning(t.keys[k], t.strings));
    }
    LooksUpExactly(t, src);
  }

  /** KeyMap_Map on an image that was compiled from a source with distinct key codes. */
  method MapSource(image: seq<byte>, code: int, m: Modifiers, maxOut: int, ghost t: Tables,
                   ghost src: seq<KeyStatement>)
      returns (out: seq<byte>)
    requires Compiled(image, t) && TablesOf(t, src)
    ensures WellPlaced(t) && FirstsKept(t, src) ==> out == DirectLookup(src, code, m, maxOut)
    ensures DistinctCodes(src) ==> out == DirectLookup(src, code, m, maxOut)
  {
    out := Map(image, code, m, maxOut, t);
    LooksUpExactly(t, src);
    if DistinctCodes(src) { DistinctLooksUp(t, src); }
  }
}
