/** When the differences between a compiled key table and its source can be noticed, and a
    table where they can (Kernel/Sources/console/KeyMap.c:43-122). */
module KeyMapAnswers {
  import opened Bytes
  import opened Sequences
  import opened KeyMapFormat
  import opened KeyMapStages
  import opened KeyMapTables
  import opened KeyMapRanges
  import opened KeyMapKernel
  import opened KeyMapLookups

  // ---- Equal answers ------------------------------------------------------------

  /** The character in one of the four slots of a binding, or the one it falls back to. */
  function Slot(b: Binding, i: nat): byte
    requires b.Chars? && i < 4
  {
    var c := [b.plain, b.shift, b.alt, b.shiftAlt][i];
    if c == 0 then b.plain else c
  }

  /** All slots produce the same control character, with and without the control key. */
  predicate OneControl(b: Binding, c: byte)
    requires b.Chars?
  {
    c as int < 32 && Slot(b, 0) == c && Slot(b, 1) == c && Slot(b, 2) == c && Slot(b, 3) == c
  }

  /** Two bindings that no key press can tell apart. */
  predicate SameAnswers(a: Option<KeyStatement>, b: Option<KeyStatement>) {
    match (a, b)
    case (None, None) => true
    case (None, Some(y)) => y.binding == Text([])
    case (Some(x), None) => x.binding == Text([])
    case (Some(x), Some(y)) =>
      match (x.binding, y.binding)
      case (Text(v), Text(w)) => v == w
      case (Text(v), Chars(_, _, _, _)) => |v| == 1 && OneControl(y.binding, v[0])
      case (Chars(_, _, _, _), Text(w)) => |w| == 1 && OneControl(x.binding, w[0])
      case (Chars(_, _, _, _), Chars(_, _, _, _)) =>
        && Slot(x.binding, 0) == Slot(y.binding, 0) && Slot(x.binding, 1) == Slot(y.binding, 1)
        && Slot(x.binding, 2) == Slot(y.binding, 2) && Slot(x.binding, 3) == Slot(y.binding, 3)
  }

  ghost predicate AlwaysEqual(a: Option<KeyStatement>, b: Option<KeyStatement>, code: int) {
    forall m, maxOut :: Respond(a, code, m, maxOut) == Respond(b, code, m, maxOut)
  }

  function SlotIndex(code: int, m: Modifiers): (i: nat)
    ensures i < 4
  {
    (if Shifted(code, m) then 1 else 0) + (if m.option then 2 else 0)
  }

  lemma CharForSlot(b: Binding, code: int, m: Modifiers)
    requires b.Chars?
    ensures CharFor(b, code, m) as int == if m.control then Slot(b, SlotIndex(code, m)) as int % 32
                                         else Slot(b, SlotIndex(code, m)) as int
  {
  }

  lemma SameAnswersAreEqual(a: Option<KeyStatement>, b: Option<KeyStatement>, code: int, m: Modifiers, maxOut: int)
    requires SameAnswers(a, b)
    ensures Respond(a, code, m, maxOut) == Respond(b, code, m, maxOut)
  {
    if a.Some? && a.value.binding.Chars? { CharForSlot(a.value.binding, code, m); }
    if b.Some? && b.value.binding.Chars? { CharForSlot(b.value.binding, code, m); }
  }

  /** The modifiers that select a slot, with or without the control key. */
  function Selecting(i: nat, control: bool): Modifiers
    requires i < 4
  {
    Modifiers(i == 1 || i == 3, i >= 2, control, false)
  }

  lemma SelectedSlot(st: KeyStatement, code: int, i: nat, control: bool)
    requires i < 4 && st.binding.Chars?
    ensures Respond(Some(st), code, Selecting(i, control), 1)
            == [CharFor(st.binding, code, Selecting(i, control))]
    ensures SlotIndex(code, Selecting(i, control)) == i
  {
  }

  lemma EqualCharsAreSame(x: KeyStatement, y: KeyStatement, code: int, i: nat)
    requires x.binding.Chars? && y.binding.Chars? && AlwaysEqual(Some(x), Some(y), code) && i < 4
    ensures Slot(x.binding, i) == Slot(y.binding, i)
  {
    var m := Selecting(i, false);
    SelectedSlot(x, code, i, false);
    SelectedSlot(y, code, i, false);
    CharForSlot(x.binding, code, m);
    CharForSlot(y.binding, code, m);
    assert Respond(Some(x), code, m, 1) == Respond(Some(y), code, m, 1);
    assert Respond(Some(x), code, m, 1)[0] == Respond(Some(y), code, m, 1)[0];
  }

  /** A string that answers like a slot is its character, with and without control. */
  lemma EqualTextSlot(x: KeyStatement, y: KeyStatement, code: int, i: nat)
    requires x.binding.Text? && y.binding.Chars? && AlwaysEqual(Some(x), Some(y), code) && i < 4
    ensures |x.binding.text| == 1
    ensures Slot(y.binding, i) == x.binding.text[0] && x.binding.text[0] as int < 32
  {
    var text := x.binding.text;
    var plain, control := Selecting(i, false), Selecting(i, true);
    assert Respond(Some(x), code, plain, |text| + 1) == Respond(Some(y), code, plain, |text| + 1);
    assert Respond(Some(x), code, plain, |text| + 1) == text;
    assert Respond(Some(y), code, plain, |text| + 1) == [CharFor(y.binding, code, plain)];
    assert text[0] == CharFor(y.binding, code, plain);
    assert Respond(Some(x), code, control, 1) == Respond(Some(y), code, control, 1);
    assert Respond(Some(x), code, control, 1) == text;
    assert Respond(Some(y), code, control, 1) == [CharFor(y.binding, code, control)];
    assert text[0] == CharFor(y.binding, code, control);
    SelectedSlot(y, code, i, false);
    SelectedSlot(y, code, i, true);
    CharForSlot(y.binding, code, plain);
    CharForSlot(y.binding, code, control);
  }

  lemma EqualTextIsControl(x: KeyStatement, y: KeyStatement, code: int)
    requires x.binding.Text? && y.binding.Chars? && AlwaysEqual(Some(x), Some(y), code)
    ensures |x.binding.text| == 1 && OneControl(y.binding, x.binding.text[0])
  {
    EqualTextSlot(x, y, code, 0);
    EqualTextSlot(x, y, code, 1);
    EqualTextSlot(x, y, code, 2);
    EqualTextSlot(x, y, code, 3);
  }

  lemma AlwaysEqualSymmetric(a: Option<KeyStatement>, b: Option<KeyStatement>, code: int)
    requires AlwaysEqual(a, b, code)
    ensures AlwaysEqual(b, a, code)
  {
    forall m, maxOut ensures Respond(b, code, m, maxOut) == Respond(a, code, m, maxOut) {
      assert Respond(a, code, m, maxOut) == Respond(b, code, m, maxOut);
    }
  }

  lemma EqualAnswersAreSame(a: Option<KeyStatement>, b: Option<KeyStatement>, code: int)
    requires AlwaysEqual(a, b, code)
    ensures SameAnswers(a, b)
  {
    var m := Selecting(0, false);
    match (a, b) {
      case (None, None) =>
      case (None, Some(y)) => assert Respond(a, code, m, 1) == Respond(b, code, m, 1);
      case (Some(x), None) => assert Respond(a, code, m, 1) == Respond(b, code, m, 1);
      case (Some(x), Some(y)) =>
        match (x.binding, y.binding) {
          case (Text(v), Text(w)) =>
            var n := |v| + |w| + 1;
            assert Respond(a, code, m, n) == Respond(b, code, m, n);
          case (Text(v), Chars(_, _, _, _)) => EqualTextIsControl(x, y, code);
          case (Chars(_, _, _, _), Text(w)) =>
            AlwaysEqualSymmetric(a, b, code);
            EqualTextIsControl(y, x, code);
          case (Chars(_, _, _, _), Chars(_, _, _, _)) =>
            EqualCharsAreSame(x, y, code, 0);
            EqualCharsAreSame(x, y, code, 1);
            EqualCharsAreSame(x, y, code, 2);
            EqualCharsAreSame(x, y, code, 3);
        }
    }
  }

  ghost predicate AnswersAgree(t: Tables, src: seq<KeyStatement>)
    requires t.Valid() && SortedByCode(t.keys)
  {
    forall code, m, maxOut :: Respond(Reached(t, 0, code), code, m, maxOut) == DirectLookup(src, code, m, maxOut)
  }

  /** No key press shows a difference between the compiled table and the source exactly if,
      for the code of each key, what the interpreter reaches and what the source says are
      bindings that cannot be told apart; misplaced keys do no harm if they are bound to
      the same as what is found in their place. */
  lemma AnswersAgreeExactly(t: Tables, src: seq<KeyStatement>)
    requires TablesOf(t, src)
    ensures AnswersAgree(t, src) <==>
            forall k: nat | k < |t.keys| ::
              SameAnswers(Reached(t, 0, t.keys[k].code), Find(src, t.keys[k].code))
  {
    if AnswersAgree(t, src) {
      forall k: nat | k < |t.keys|
        ensures SameAnswers(Reached(t, 0, t.keys[k].code), Find(src, t.keys[k].code))
      {
        var code := t.keys[k].code;
        forall m, maxOut
          ensures Respond(Reached(t, 0, code), code, m, maxOut) == Respond(Find(src, code), code, m, maxOut)
        {
          assert Respond(Reached(t, 0, code), code, m, maxOut) == DirectLookup(src, code, m, maxOut);
        }
        EqualAnswersAreSame(Reached(t, 0, code), Find(src, code), code);
      }
    }
    if forall k: nat | k < |t.keys| :: SameAnswers(Reached(t, 0, t.keys[k].code), Find(src, t.keys[k].code)) {
      forall code, m, maxOut
        ensures Respond(Reached(t, 0, code), code, m, maxOut) == DirectLookup(src, code, m, maxOut)
      {
        SameForCode(t, src, code);
        SameAnswersAreEqual(Reached(t, 0, code), Find(src, code), code, m, maxOut);
      }
    }
  }

  lemma SameForCode(t: Tables, src: seq<KeyStatement>, code: int)
    requires TablesOf(t, src)
    requires forall k: nat | k < |t.keys| ::
               SameAnswers(Reached(t, 0, t.keys[k].code), Find(src, t.keys[k].code))
    ensures SameAnswers(Reached(t, 0, code), Find(src, code))
  {
    if k: nat :| k < |t.keys| && t.keys[k].code == code {
      assert SameAnswers(Reached(t, 0, t.keys[k].code), Find(src, t.keys[k].code));
    } else {
      NothingReached(t, 0, code);
      if Find(src, code).Some? { var k := FoundHasKey(t, src, code); }
    }
  }

  // ---- A table that is looked up wrongly ----------------------------------------

  const THREE_KEYS := [CharKey(4, 97, 0, 0, 0), CharKey(4, 97, 0, 0, 0), CharKey(5, 98, 0, 0, 0)]

  const REPEATED_KEY := Tables(THREE_KEYS, [KeyRange(FourBytes, 0, 2)], [])

  const REPEATED_SOURCE := [KeyStatement(4, Chars(97, 0, 0, 0)), KeyStatement(4, Chars(97, 0, 0, 0)),
                            KeyStatement(5, Chars(98, 0, 0, 0))]

  lemma RepeatedRange()
    ensures REPEATED_KEY.Valid() && SortedByCode(THREE_KEYS)
  {
    assert Run(THREE_KEYS, KeyRange(FourBytes, 0, 2), 3);
    assert MaximalRuns(THREE_KEYS, [KeyRange(FourBytes, 0, 2)]);
  }

  lemma RepeatedTables()
    ensures TablesOf(REPEATED_KEY, REPEATED_SOURCE)
  {
    RepeatedRange();
    hide RunsUpTo, Statements;
    StatementsAt(THREE_KEYS, []);
    assert Statements(THREE_KEYS, []) == REPEATED_SOURCE;
  }

  /** The tables are small enough to be compiled. */
  lemma RepeatedFits()
    ensures KeyOffset(1, THREE_KEYS, 1) == 20 && LastWrite(1, THREE_KEYS, []) == 27
  {
    assert KeyOffset(1, THREE_KEYS, 1) == 20;
    assert KeyOffset(1, THREE_KEYS, 2) == 24;
  }

  lemma SecondTrap(image: seq<byte>)
    requires Compiled(image, REPEATED_KEY)
    ensures |image| > 20 && image[16 + (5 - 4) * 4] == 97
  {
    RepeatedFits();
    hide RunsUpTo, KeyOffset;
    assert TrapAt(image, 1, THREE_KEYS, [], 1, 0);
  }

  lemma OutOfStep()
    ensures REPEATED_KEY.Valid() && !WellPlaced(REPEATED_KEY)
  {
    RepeatedRange();
    hide RunsUpTo;
    assert !InStep(REPEATED_KEY, 0, 2) && !IdleRepeat(REPEATED_KEY, 0, 2);
    assert !PlacedRange(REPEATED_KEY, 0);
  }

  lemma KeyFiveReaches()
    ensures REPEATED_KEY.Valid() && SortedByCode(THREE_KEYS)
    ensures Reached(REPEATED_KEY, 0, 5) == Some(REPEATED_SOURCE[1])
    ensures Find(REPEATED_SOURCE, 5) == Some(REPEATED_SOURCE[2])
  {
    RepeatedRange();
    hide RunsUpTo;
    ReachedInRange(REPEATED_KEY, 0, 5);
    assert Find(REPEATED_SOURCE[1..], 5) == Find(REPEATED_SOURCE[2..], 5);
  }

  /** Key 4 is listed twice with the same binding.  All three keys form one range with the
      bounds 4 and 5, so that key 5 answers with the second trap, which is key 4's. */
  lemma RepetitionShiftsTraps(image: seq<byte>, m: Modifiers)
    requires m == Modifiers(false, false, false, false)
    ensures TablesOf(REPEATED_KEY, REPEATED_SOURCE) && !WellPlaced(REPEATED_KEY)
    ensures LastWrite(1, THREE_KEYS, []) <= MAX_OFFSET
    ensures Compiled(image, REPEATED_KEY) ==> |image| > 20 && image[16 + (5 - 4) * 4] == 97
    ensures Respond(Reached(REPEATED_KEY, 0, 5), 5, m, 16) == [97]
    ensures DirectLookup(REPEATED_SOURCE, 5, m, 16) == [98]
  {
    hide RunsUpTo, ValidTables, WellPlaced, Reached, Find, Compiled, LastWrite;
    RepeatedTables();
    RepeatedFits();
    OutOfStep();
    if Compiled(image, REPEATED_KEY) { SecondTrap(image); }
    KeyFiveReaches();
  }
}
