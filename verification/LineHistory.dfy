/** The input history of the shell's line reader (Commands/shell/LineReader.c:147-221): an
    array that is shifted in place, and the most-recently-used order it maintains. */
module LineHistory {
  import opened Sequences

  // ---- Most recent use ----------------------------------------------------------

  /** The lines in the order of their last use, each of them once. */
  function ByLastUse(lines: seq<string>): seq<string> {
    if lines == [] then []
    else if lines[0] in lines[1..] then ByLastUse(lines[1..])
    else [lines[0]] + ByLastUse(lines[1..])
  }

  /** The last `n` elements, or all if there are fewer. */
  function Newest<T>(s: seq<T>, n: nat): (r: seq<T>)
    ensures |r| == if |s| <= n then |s| else n
  {
    if |s| <= n then s else s[|s| - n..]
  }

  /** isspace in the C locale. */
  predicate IsSpace(c: char) {
    c == ' ' || '\t' <= c <= '\r'
  }

  predicate Useful(line: string) {
    exists i | 0 <= i < |line| :: !IsSpace(line[i])
  }

  function UsefulLines(lines: seq<string>): seq<string> {
    if lines == [] then []
    else UsefulLines(lines[..|lines| - 1])
         + (if Useful(lines[|lines| - 1]) then [lines[|lines| - 1]] else [])
  }

  lemma {:induction false} ByLastUseMembers(lines: seq<string>)
    ensures Distinct(ByLastUse(lines))
    ensures forall x :: x in ByLastUse(lines) <==> x in lines
  {
    if lines != [] {
      ByLastUseMembers(lines[1..]);
      assert lines == [lines[0]] + lines[1..];
      assert forall x :: x in lines <==> x == lines[0] || x in lines[1..];
      var rest := ByLastUse(lines[1..]);
      if lines[0] !in lines[1..] {
        forall i, j | 0 <= i < j < |ByLastUse(lines)| ensures ByLastUse(lines)[i] != ByLastUse(lines)[j] {
          assert ByLastUse(lines)[j] == rest[j - 1] && rest[j - 1] in rest;
        }
      }
    }
  }

  lemma WithoutAbsent<T>(s: seq<T>, x: T)
    requires x !in s
    ensures Without(s, x) == s
  {
  }

  lemma Associates<T>(a: seq<T>, b: seq<T>, c: seq<T>)
    ensures (a + b) + c == a + (b + c)
  {
  }

  /** A line that occurs, with what comes before and after it. */
  lemma Around<T>(s: seq<T>, x: T) returns (a: seq<T>, b: seq<T>)
    requires x in s
    ensures s == a + [x] + b && x !in a && Without(s, x) == a + b
  {
    var i := IndexOf(s, x);
    a, b := s[..i], s[i + 1..];
    assert s == a + [x] + b;
    WithoutMiddle(a, x, b);
  }

  /** Removing commutes with what stands before the first occurrence. */
  lemma WithoutAfter<T>(front: seq<T>, s: seq<T>, x: T)
    requires x !in front && x in s
    ensures Without(front + s, x) == front + Without(s, x)
  {
    var a, b := Around(s, x);
    assert front + s == (front + a) + [x] + b by {
      Associates(front, a, [x]);
      Associates(front, a + [x], b);
    }
    WithoutMiddle(front + a, x, b);
    Associates(front, a, b);
  }

  lemma WithoutFirst<T>(first: T, rest: seq<T>, x: T)
    ensures Without([first] + rest, x) == if first == x then rest else [first] + Without(rest, x)
  {
    if first == x {
      assert [first] + rest == [] + [x] + rest;
      WithoutMiddle([], x, rest);
      assert [] + rest == rest;
    } else if x in rest {
      WithoutAfter([first], rest, x);
    } else {
      WithoutAbsent([first] + rest, x);
      WithoutAbsent(rest, x);
    }
  }

  /** Using a line once more moves it to the end. */
  lemma {:induction false} UseMovesToEnd(lines: seq<string>, x: string)
    ensures ByLastUse(lines + [x]) == Without(ByLastUse(lines), x) + [x]
  {
    if lines == [] {
      assert lines + [x] == [x];
    } else {
      var rest := lines[1..];
      UseMovesToEnd(rest, x);
      assert (lines + [x])[1..] == rest + [x];
      assert lines[0] in rest + [x] <==> lines[0] in rest || lines[0] == x;
      ByLastUseMembers(rest);
      if lines[0] !in rest {
        WithoutFirst(lines[0], ByLastUse(rest), x);
        if lines[0] == x {
          WithoutAbsent(ByLastUse(rest), x);
        } else {
          assert [lines[0]] + (Without(ByLastUse(rest), x) + [x]) == ([lines[0]] + Without(ByLastUse(rest), x)) + [x];
        }
      }
    }
  }

  // ---- One push -----------------------------------------------------------------

  /** The history after a line has been pushed; `memory` says whether it could be copied. */
  function Pushed(history: seq<string>, capacity: nat, line: string, memory: bool): (r: seq<string>)
    requires |history| <= capacity
    ensures |r| <= capacity
  {
    if capacity == 0 || !Useful(line) then history
    else
      var others := Without(history, line);
      var kept := if |others| == capacity then others[1..] else others;
      if memory then kept + [line] else kept
  }

  /** The blank characters are those with the codes 9 to 13 and 32. */
  lemma BlanksAre(c: char)
    ensures IsSpace(c) <==> 9 <= c as int <= 13 || c as int == 32
  {
  }

  /** A line that cannot be copied is taken out of the history if it is there; if it is not and
      the history is full, the oldest line is lost all the same.  Blank lines change nothing. */
  lemma FailedPush(history: seq<string>, capacity: nat, line: string)
    requires 1 <= capacity && |history| <= capacity && Distinct(history)
    ensures var r := Pushed(history, capacity, line, false);
            && (!Useful(line) ==> r == history)
            && (Useful(line) ==>
                  && Distinct(r)
                  && forall x :: x in r <==>
                       x in history && x != line
                       && !(line !in history && |history| == capacity && x == history[0]))
  {
    WithoutMembers(history, line);
    if line !in history {
      WithoutAbsent(history, line);
      if |history| == capacity {
        assert history == [history[0]] + history[1..];
        forall x ensures x in history[1..] <==> x in history && x != history[0] {
        }
      }
    }
  }

  lemma NewestOfConcat<T>(a: seq<T>, b: seq<T>, n: nat)
    requires |b| == n
    ensures Newest(a + b, n) == b
  {
  }

  lemma NotBefore<T>(older: seq<T>, h: seq<T>, x: T)
    requires x in h && Distinct(older + h)
    ensures x !in older
  {
    var l :| 0 <= l < |h| && h[l] == x;
    forall k | 0 <= k < |older| ensures older[k] != x {
      assert (older + h)[k] == older[k] && (older + h)[|older| + l] == x;
    }
  }

  lemma NewestWithoutOutside<T>(older: seq<T>, h: seq<T>, x: T)
    requires x !in h
    ensures exists a: seq<T> :: Without(older + h, x) == a + h
  {
    if x in older {
      var a, b := Around(older, x);
      assert older + h == a + [x] + (b + h) by { Associates(a + [x], b, h); }
      WithoutMiddle(a, x, b + h);
      Associates(a, b, h);
    } else {
      WithoutAbsent(older + h, x);
    }
  }

  lemma NewestWithoutIn<T>(older: seq<T>, h: seq<T>, n: nat, x: T)
    requires n >= 1 && x in h && Distinct(older + h) && |h| == (if |older + h| <= n then |older + h| else n)
    ensures |Without(h, x)| < n && Without(h, x) == Newest(Without(older + h, x), n - 1)
  {
    NotBefore(older, h, x);
    WithoutAfter(older, h, x);
    var a, b := Around(h, x);
    if |older| > 0 {
      NewestOfConcat(older, Without(h, x), n - 1);
    } else {
      assert older + Without(h, x) == Without(h, x);
    }
  }

  lemma NewestWithoutOut<T>(older: seq<T>, h: seq<T>, n: nat, x: T)
    requires n >= 1 && x !in h && |h| == n
    ensures h[1..] == Newest(Without(older + h, x), n - 1)
  {
    NewestWithoutOutside(older, h, x);
    var a: seq<T> :| Without(older + h, x) == a + h;
    assert h == [h[0]] + h[1..];
    Associates(a, [h[0]], h[1..]);
    NewestOfConcat(a + [h[0]], h[1..], n - 1);
  }

  /** Removing a line and keeping the newest of the others commute as far as it matters. */
  lemma NewestWithout<T>(s: seq<T>, n: nat, x: T)
    requires n >= 1 && Distinct(s)
    ensures var others := Without(Newest(s, n), x);
            (if |others| == n then others[1..] else others) == Newest(Without(s, x), n - 1)
  {
    var h := Newest(s, n);
    var older := s[..|s| - |h|];
    assert s == older + h;
    if x in h {
      NewestWithoutIn(older, h, n, x);
    } else {
      WithoutAbsent(h, x);
      if |h| == n { NewestWithoutOut(older, h, n, x); } else { WithoutAbsent(s, x); }
    }
  }

  /** The history after pushing lines one by one, all of which could be copied. */
  function After(capacity: nat, lines: seq<string>): (r: seq<string>)
    ensures |r| <= capacity
  {
    if lines == [] then []
    else Pushed(After(capacity, lines[..|lines| - 1]), capacity, lines[|lines| - 1], true)
  }

  /** The history is always the newest lines by last use, as many as there is room for;
      blank lines do not count. */
  lemma {:induction false} HistoryIsMostRecentlyUsed(capacity: nat, lines: seq<string>)
    ensures After(capacity, lines) == Newest(ByLastUse(UsefulLines(lines)), capacity)
  {
    if lines != [] {
      var n := |lines| - 1;
      var x, before := lines[n], UsefulLines(lines[..n]);
      HistoryIsMostRecentlyUsed(capacity, lines[..n]);
      if capacity >= 1 && Useful(x) {
        UseMovesToEnd(before, x);
        ByLastUseMembers(before);
        NewestWithout(ByLastUse(before), capacity, x);
        NewestPlusOne(Without(ByLastUse(before), x), capacity, x);
      } else {
        assert before + [] == before;
      }
    }
  }

  lemma NewestPlusOne<T>(s: seq<T>, n: nat, x: T)
    requires n >= 1
    ensures Newest(s + [x], n) == Newest(s, n - 1) + [x]
  {
  }

  // ---- The line reader ----------------------------------------------------------

  class LineReader {
    const history: array<string>
    var historyCount: nat
    var historyIndex: int

    ghost predicate Valid()
      reads this, history
    {
      historyCount <= history.Length && Distinct(history[..historyCount])
    }

    ghost function History(): seq<string>
      reads this, history
      requires historyCount <= history.Length
    {
      history[..historyCount]
    }

    constructor (historyCapacity: nat)
      ensures Valid() && fresh(history) && history.Length == historyCapacity && History() == []
      ensures historyIndex == 0
    {
      history := new string[historyCapacity](_ => "");
      historyCount, historyIndex := 0, 0;
    }

    /** Moves the entries from `from` on one place down. */
    method Shift(from: nat)
      requires 1 <= from <= historyCount <= history.Length
      modifies history
      ensures history[..historyCount - 1] == old(history[..from - 1]) + old(history[from..historyCount])
    {
      ghost var before := history[..];
      var j := from;
      while j < historyCount
        invariant from <= j <= historyCount
        invariant forall k | 0 <= k < from - 1 :: history[k] == before[k]
        invariant forall k | from - 1 <= k < j - 1 :: history[k] == before[k + 1]
        invariant forall k | j <= k < history.Length :: history[k] == before[k]
      {
        history[j - 1] := history[j];
        j := j + 1;
      }
    }

    /** Removes the entries that match a line.  After a removal the loop goes on with the
        entry after the one that has moved up; no match is missed, since entries are
        distinct. */
    method RemoveFromHistory(line: string) returns (removed: bool)
      requires Valid()
      modifies this`historyCount, this`historyIndex, history
      ensures Valid() && History() == Without(old(History()), line)
      ensures removed <==> line in old(History())
      ensures historyIndex == if line in old(History()) && IndexOf(old(History()), line) <= old(historyIndex)
                              then old(historyIndex) - 1 else old(historyIndex)
    {
      ghost var before := History();
      WithoutMembers(before, line);
      removed := false;
      var i := 0;
      while i < historyCount
        invariant 0 <= i && historyCount <= history.Length
        invariant !removed ==> i <= |before| && History() == before && line !in before[..i]
        invariant !removed ==> historyIndex == old(historyIndex)
        invariant removed ==> line in before && History() == Without(before, line)
        invariant removed ==> historyIndex == if IndexOf(before, line) <= old(historyIndex)
                                              then old(historyIndex) - 1 else old(historyIndex)
      {
        if history[i] == line {
          RemovedOnce(before, history[..historyCount], line, i, removed);
          Shift(i + 1);
          historyCount := historyCount - 1;
          if i <= historyIndex {
            historyIndex := historyIndex - 1;
          }
          removed := true;
        }
        i := i + 1;
      }
    }

    /** Adds a new line; it replaces the oldest entry if the history is full. */
    method AddEntry(line: string, memory: bool)
      requires Valid() && history.Length >= 1 && line !in History()
      modifies this`historyCount, history
      ensures Valid()
      ensures var others := old(History());
              var kept := if |others| == history.Length then others[1..] else others;
              History() == if memory then kept + [line] else kept
    {
      if historyCount == history.Length {
        Shift(1);
        historyCount := historyCount - 1;
        assert History() == old(History())[1..];
      }
      ghost var kept := History();
      if memory {
        history[historyCount] := line;
        historyCount := historyCount + 1;
        assert History() == kept + [line];
      }
    }

    method PushHistory(line: string, memory: bool)
      requires Valid()
      modifies this, history
      ensures Valid() && History() == Pushed(old(History()), history.Length, line, memory)
      ensures historyIndex == if history.Length > 0 && Useful(line) && line in old(History())
                              then historyCount - 1 else old(historyIndex)
    {
      if history.Length == 0 { return; }
      var isUseful := false;
      var i := 0;
      while i < |line|
        invariant 0 <= i <= |line| && !isUseful && forall k | 0 <= k < i :: IsSpace(line[k])
      {
        if !IsSpace(line[i]) {
          isUseful := true;
          break;
        }
        i := i + 1;
      }
      if !isUseful { return; }
      WithoutMembers(History(), line);
      var didPullUp := RemoveFromHistory(line);
      AddEntry(line, memory);
      if didPullUp {
        historyIndex := historyCount - 1;
      }
    }
  }

  /** While nothing has been removed the match is the first one, and after a removal there
      is none. */
  lemma RemovedOnce(before: seq<string>, now: seq<string>, line: string, i: nat, removed: bool)
    requires Distinct(before) && i < |now| && now[i] == line
    requires if removed then now == Without(before, line) else now == before && line !in before[..i]
    ensures !removed && IndexOf(before, line) == i && Without(before, line) == before[..i] + before[i + 1..]
  {
    WithoutMembers(before, line);
    assert now[i] in now;
    if !removed {
      assert forall k | 0 <= k < i :: before[k] == before[..i][k];
    }
  }
}
