/** From the key statements of a source file to the sorted key table, the string table
    and the key ranges (Tools/keymap.c:504-572, 616-661). */
module KeyMapTables {
  import opened Bytes
  import opened Sequences
  import opened KeyMapFormat
  import opened KeyMapStages

  /** Entry `i` of the key table stands for statement `i`; no string is listed twice. */
  ghost predicate Represents(keys: seq<Key>, strings: seq<seq<byte>>, src: seq<KeyStatement>) {
    && ValidTables(keys, strings)
    && Distinct(strings)
    && |keys| == |src|
    && forall i | 0 <= i < |src| :: Meaning(keys[i], strings) == src[i]
  }

  ghost predicate Indexed(keys: seq<Key>, strings: seq<seq<byte>>) {
    forall k | 0 <= k < |keys| :: keys[k].TextKey? ==> keys[k].stringIdx < |strings|
  }

  /** The statements that the entries of a key table stand for. */
  function Statements(keys: seq<Key>, strings: seq<seq<byte>>): seq<KeyStatement>
    requires Indexed(keys, strings)
  {
    if keys == [] then [] else [Meaning(keys[0], strings)] + Statements(keys[1..], strings)
  }

  /** Tables ready to be compiled whose entries stand for exactly the statements of `src`,
      each as often as it was written. */
  ghost predicate TablesOf(t: Tables, src: seq<KeyStatement>) {
    t.Valid() && SortedByCode(t.keys) && multiset(Statements(t.keys, t.strings)) == multiset(src)
  }

  lemma {:induction false} StatementsAt(keys: seq<Key>, strings: seq<seq<byte>>)
    requires Indexed(keys, strings)
    ensures |Statements(keys, strings)| == |keys|
    ensures forall k | 0 <= k < |keys| :: Statements(keys, strings)[k] == Meaning(keys[k], strings)
  {
    if keys != [] {
      StatementsAt(keys[1..], strings);
      forall k | 0 <= k < |keys| ensures Statements(keys, strings)[k] == Meaning(keys[k], strings) {
        if k > 0 { assert keys[k] == keys[1..][k - 1]; }
      }
    }
  }

  /** Every entry stands for a statement of the source, and every statement has an entry. */
  lemma TableMembers(t: Tables, src: seq<KeyStatement>)
    requires TablesOf(t, src)
    ensures |t.keys| == |src|
    ensures forall k | 0 <= k < |t.keys| :: Meaning(t.keys[k], t.strings) in src
    ensures forall st | st in src :: exists k :: 0 <= k < |t.keys| && Meaning(t.keys[k], t.strings) == st
  {
    var sts := Statements(t.keys, t.strings);
    StatementsAt(t.keys, t.strings);
    assert |multiset(sts)| == |multiset(src)|;
    forall k | 0 <= k < |t.keys| ensures Meaning(t.keys[k], t.strings) in src {
      assert sts[k] in multiset(src);
    }
    forall st | st in src ensures exists k :: 0 <= k < |t.keys| && Meaning(t.keys[k], t.strings) == st {
      assert st in multiset(sts);
      var k :| 0 <= k < |sts| && sts[k] == st;
    }
  }

  // ---- Sorting ------------------------------------------------------------------

  function InsertKey(keys: seq<Key>, k: Key): seq<Key> {
    if keys == [] || k.code <= keys[0].code then [k] + keys
    else [keys[0]] + InsertKey(keys[1..], k)
  }

  function SortKeys(keys: seq<Key>): seq<Key> {
    if keys == [] then [] else InsertKey(SortKeys(keys[1..]), keys[0])
  }

  lemma InsertKeyMembers(keys: seq<Key>, k: Key)
    ensures multiset(InsertKey(keys, k)) == multiset(keys) + multiset{k}
    ensures forall x :: x in InsertKey(keys, k) <==> x in keys || x == k
  {
    if keys == [] || k.code <= keys[0].code {
    } else {
      InsertKeyMembers(keys[1..], k);
      assert keys == [keys[0]] + keys[1..];
      assert forall x :: x in keys <==> x == keys[0] || x in keys[1..];
    }
  }

  lemma InsertKeySorts(keys: seq<Key>, k: Key)
    requires SortedByCode(keys)
    ensures SortedByCode(InsertKey(keys, k))
  {
    if keys == [] || k.code <= keys[0].code {
    } else {
      InsertKeySorts(keys[1..], k);
      InsertKeyMembers(keys[1..], k);
      var rest := InsertKey(keys[1..], k);
      forall j | 0 <= j < |rest| ensures keys[0].code <= rest[j].code {
        assert rest[j] in rest;
      }
    }
  }

  lemma SortKeysSorts(keys: seq<Key>)
    ensures SortedByCode(SortKeys(keys))
    ensures multiset(SortKeys(keys)) == multiset(keys)
  {
    if keys != [] {
      SortKeysSorts(keys[1..]);
      InsertKeySorts(SortKeys(keys[1..]), keys[0]);
      InsertKeyMembers(SortKeys(keys[1..]), keys[0]);
      assert keys == [keys[0]] + keys[1..];
    }
  }

  /** qsort with keyCodeSorter: keys with the same code may end up in any order, so nothing
      more is promised about the result. */
  method SortByCode(keys: seq<Key>) returns (sorted: seq<Key>)
    ensures SortedByCode(sorted) && multiset(sorted) == multiset(keys)
  {
    SortKeysSorts(keys);
    sorted := SortKeys(keys);
  }

  lemma RemoveOne<T>(s: seq<T>, i: nat)
    requires i < |s|
    ensures multiset(s[..i] + s[i + 1..]) + multiset{s[i]} == multiset(s)
    ensures multiset(s[..i] + s[i + 1..]) == multiset(s) - multiset{s[i]}
  {
    assert s == s[..i] + [s[i]] + s[i + 1..];
  }

  lemma StatementsWithout(keys: seq<Key>, strings: seq<seq<byte>>, i: nat)
    requires Indexed(keys, strings) && i < |keys|
    ensures multiset(Statements(keys[..i] + keys[i + 1..], strings)) + multiset{Meaning(keys[i], strings)}
            == multiset(Statements(keys, strings))
  {
    var rest, sts := keys[..i] + keys[i + 1..], Statements(keys, strings);
    StatementsAt(keys, strings);
    StatementsAt(rest, strings);
    assert Statements(rest, strings) == sts[..i] + sts[i + 1..];
    RemoveOne(sts, i);
  }

  lemma RestPermutes<T>(s: seq<T>, r: seq<T>, i: nat)
    requires s != [] && multiset(r) == multiset(s) && i < |r| && r[i] == s[0]
    ensures multiset(r[..i] + r[i + 1..]) == multiset(s[1..])
  {
    RemoveOne(r, i);
    RemoveFirst(s);
  }

  lemma RemoveFirst<T>(s: seq<T>)
    requires s != []
    ensures multiset(s[1..]) == multiset(s) - multiset{s[0]}
  {
    assert s == [s[0]] + s[1..];
  }

  lemma FindsFirst<T>(s: seq<T>, r: seq<T>) returns (i: nat)
    requires s != [] && multiset(r) == multiset(s)
    ensures i < |r| && r[i] == s[0]
  {
    assert s[0] in multiset(r);
    i :| 0 <= i < |r| && r[i] == s[0];
  }

  /** Sorting the keys sorts what they stand for: no statement is lost or doubled. */
  lemma {:induction false} StatementsPermute(keys: seq<Key>, sorted: seq<Key>, strings: seq<seq<byte>>)
    requires Indexed(keys, strings) && Indexed(sorted, strings) && multiset(sorted) == multiset(keys)
    ensures multiset(Statements(sorted, strings)) == multiset(Statements(keys, strings))
    decreases |keys|
  {
    if keys == [] {
      assert |multiset(sorted)| == 0;
    } else {
      var i := FindsFirst(keys, sorted);
      RestPermutes(keys, sorted, i);
      StatementsPermute(keys[1..], sorted[..i] + sorted[i + 1..], strings);
      StatementsWithout(sorted, strings, i);
      StatementsWithout(keys, strings, 0);
      assert keys[..0] + keys[1..] == keys[1..];
    }
  }

  lemma {:induction false} DistinctOnce(src: seq<KeyStatement>, st: KeyStatement)
    requires DistinctCodes(src)
    ensures multiset(src)[st] <= 1
  {
    if src != [] {
      DistinctOnce(src[1..], st);
      assert src == [src[0]] + src[1..];
      if src[0] == st {
        assert st !in src[1..];
      }
    }
  }

  lemma TwiceInMultiset<T>(s: seq<T>, i: nat, j: nat)
    requires i < j < |s| && s[i] == s[j]
    ensures multiset(s)[s[i]] >= 2
  {
    assert s == s[..i] + [s[i]] + s[i + 1..j] + [s[j]] + s[j + 1..];
  }

  /** The tables of a source with distinct codes are in strictly ascending order, whatever
      the order of keys with the same code is. */
  lemma DistinctSortStrictly(t: Tables, src: seq<KeyStatement>)
    requires TablesOf(t, src) && DistinctCodes(src)
    ensures StrictlySorted(t.keys)
  {
    var sts := Statements(t.keys, t.strings);
    StatementsAt(t.keys, t.strings);
    TableMembers(t, src);
    forall i, j | 0 <= i < j < |t.keys| ensures t.keys[i].code < t.keys[j].code {
      if t.keys[i].code == t.keys[j].code {
        OneStatement(src, sts[i], sts[j]);
        TwiceInMultiset(sts, i, j);
        DistinctOnce(src, sts[i]);
        assert false;
      }
    }
  }

  lemma OneStatement(src: seq<KeyStatement>, a: KeyStatement, b: KeyStatement)
    requires DistinctCodes(src) && a in src && b in src && a.code == b.code
    ensures a == b
  {
    var p :| 0 <= p < |src| && src[p] == a;
    var q :| 0 <= q < |src| && src[q] == b;
    assert p == q;
  }

  // ---- Ranges -------------------------------------------------------------------

  /** The ranges found so far with the last one ending at key `m - 1`. */
  function Closed(ranges: seq<KeyRange>, m: nat): (r: seq<KeyRange>) {
    if ranges == [] || m == 0 then ranges
    else ranges[|ranges| - 1 := ranges[|ranges| - 1].(upper := m - 1)]
  }

  lemma LongerRun(keys: seq<Key>, g: KeyRange, m: nat)
    requires 0 < m < |keys| && Run(keys, g, m) && Joined(keys[m - 1], keys[m])
    ensures Run(keys, g, m + 1)
    ensures g.upper == m - 1 ==> Run(keys, g.(upper := m), m + 1)
  {
  }

  lemma ExtendRun(keys: seq<Key>, ranges: seq<KeyRange>, m: nat)
    requires 0 < m < |keys| && RunsUpTo(keys, ranges, m) && Joined(keys[m - 1], keys[m])
    ensures RunsUpTo(keys, Closed(ranges, m + 1), m + 1)
  {
    hide Run;
    var c := Closed(ranges, m + 1);
    forall r | 0 <= r < |c| ensures Run(keys, c[r], m + 1) {
      LongerRun(keys, ranges[r], m);
    }
    forall r | 0 <= r < |c| - 1 ensures Border(keys, c[r], c[r + 1]) {
      assert Border(keys, ranges[r], ranges[r + 1]);
    }
  }

  lemma StartRun(keys: seq<Key>, ranges: seq<KeyRange>, m: nat)
    requires m < |keys| && RunsUpTo(keys, ranges, m)
    requires m == 0 || !Joined(keys[m - 1], keys[m])
    ensures RunsUpTo(keys, ranges + [KeyRange(TypeOf(keys[m]), m, m)], m + 1)
  {
    var c := ranges + [KeyRange(TypeOf(keys[m]), m, m)];
    forall r | 0 <= r < |c| ensures Run(keys, c[r], m + 1) {
      if r < |ranges| { assert Run(keys, ranges[r], m); }
    }
    forall r | 0 <= r < |c| - 1 ensures Border(keys, c[r], c[r + 1]) {
      if r < |ranges| - 1 { assert Border(keys, ranges[r], ranges[r + 1]); }
    }
  }

  // ---- The tables ---------------------------------------------------------------

  class KeyMap {
    var keys: seq<Key>
    var ranges: seq<KeyRange>
    var strings: seq<seq<byte>>

    constructor ()
      ensures keys == [] && ranges == [] && strings == []
    {
      keys, ranges, strings := [], [], [];
    }

    /** Index of `text` in the string table, which gets it as a new entry if needed. */
    method AddAndUniqueString(text: seq<byte>) returns (idx: nat)
      modifies this`strings
      ensures idx < |strings| && strings[idx] == text
      ensures text in old(strings) ==> strings == old(strings)
      ensures text !in old(strings) ==> strings == old(strings) + [text]
    {
      var i := 0;
      while i < |strings|
        invariant 0 <= i <= |strings|
        invariant forall k | 0 <= k < i :: strings[k] != text
      {
        if strings[i] == text { return i; }
        i := i + 1;
      }
      strings := strings + [text];
      return |strings| - 1;
    }

    method AddKey(st: KeyStatement, ghost src: seq<KeyStatement>)
      requires ValidStatement(st) && Represents(keys, strings, src)
      modifies this`keys, this`strings
      ensures Represents(keys, strings, src + [st])
    {
      ghost var before := keys;
      match st.binding {
        case Text(text) =>
          ghost var earlier := strings;
          var idx := AddAndUniqueString(text);
          keys := keys + [TextKey(st.code, idx)];
          assert forall j | 0 <= j < |earlier| :: strings[j] == earlier[j];
        case Chars(plain, shift, alt, shiftAlt) =>
          keys := keys + [CharKey(st.code, plain, shift, alt, shiftAlt)];
      }
      assert forall i | 0 <= i < |before| :: keys[i] == before[i];
    }

    /** Sorts the key table and splits it into ranges. */
    method CalculateKeyRanges()
      requires ranges == []
      modifies this`keys, this`ranges
      ensures SortedByCode(keys) && multiset(keys) == multiset(old(keys)) && MaximalRuns(keys, ranges)
    {
      keys := SortByCode(keys);
      FindRanges();
    }

    /** The loop over the sorted keys. */
    method FindRanges()
      requires ranges == []
      modifies this`ranges
      ensures MaximalRuns(keys, ranges)
    {
      hide Run, Border;
      var i := 0;
      while i < |keys|
        invariant 0 <= i <= |keys| && RunsUpTo(keys, Closed(ranges, i), i)
      {
        NextKey(i);
        i := i + 1;
      }
      if |ranges| > 0 {
        ranges := ranges[|ranges| - 1 := ranges[|ranges| - 1].(upper := |keys| - 1)];
      }
    }

    /** One round of the range finder: key `i` opens a range or joins the last one. */
    method NextKey(i: nat)
      requires i < |keys| && RunsUpTo(keys, Closed(ranges, i), i)
      modifies this`ranges
      ensures RunsUpTo(keys, Closed(ranges, i + 1), i + 1)
    {
      hide Run, Border;
      ghost var closed := Closed(ranges, i);
      if i == 0 || keys[i].code - keys[i - 1].code > 1 || TypeOf(keys[i]) != TypeOf(keys[i - 1]) {
        StartRun(keys, closed, i);
        if |ranges| > 0 {
          ranges := ranges[|ranges| - 1 := ranges[|ranges| - 1].(upper := i - 1)];
        }
        ranges := ranges + [KeyRange(TypeOf(keys[i]), i, i)];
        assert Closed(ranges, i + 1) == ranges;
      } else {
        ExtendRun(keys, closed, i);
        assert Closed(closed, i + 1) == Closed(ranges, i + 1);
      }
    }

    /** Reads all statements of a source file and prepares the tables for compilation. */
    method Build(src: seq<KeyStatement>)
      requires keys == [] && ranges == [] && strings == []
      requires forall st | st in src :: ValidStatement(st)
      modifies this
      ensures TablesOf(Tables(keys, ranges, strings), src)
      ensures DistinctCodes(src) ==> StrictlySorted(keys)
    {
      var i := 0;
      while i < |src|
        invariant 0 <= i <= |src| && ranges == [] && Represents(keys, strings, src[..i])
      {
        assert src[i] in src;
        AddKey(src[i], src[..i]);
        assert src[..i] + [src[i]] == src[..i + 1];
        i := i + 1;
      }
      assert src[..i] == src;
      ghost var unsorted := keys;
      CalculateKeyRanges();
      SortedTables(unsorted, keys, ranges, strings, src);
    }
  }

  lemma SortedTables(unsorted: seq<Key>, keys: seq<Key>, ranges: seq<KeyRange>, strings: seq<seq<byte>>,
                     src: seq<KeyStatement>)
    requires Represents(unsorted, strings, src)
    requires SortedByCode(keys) && multiset(keys) == multiset(unsorted) && MaximalRuns(keys, ranges)
    ensures TablesOf(Tables(keys, ranges, strings), src)
    ensures DistinctCodes(src) ==> StrictlySorted(keys)
  {
    assert ValidTables(keys, strings) by { SameKeysValid(unsorted, keys, strings); }
    StatementsAt(unsorted, strings);
    assert Statements(unsorted, strings) == src;
    StatementsPermute(unsorted, keys, strings);
    if DistinctCodes(src) { DistinctSortStrictly(Tables(keys, ranges, strings), src); }
  }

  lemma SameKeysValid(unsorted: seq<Key>, keys: seq<Key>, strings: seq<seq<byte>>)
    requires ValidTables(unsorted, strings) && multiset(keys) == multiset(unsorted)
    ensures ValidTables(keys, strings)
  {
    assert |multiset(keys)| == |multiset(unsorted)|;
    forall k | 0 <= k < |keys| ensures keys[k] in unsorted {
      assert keys[k] in multiset(unsorted);
    }
  }
}
