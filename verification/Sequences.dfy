/** Sequence helpers shared by the models.  A kernel `List` or `SList` is a `seq` of
    node identities; `Without` is what unlinking one node does to it. */
module Sequences {

  datatype Option<+T> = None | Some(value: T)

  ghost predicate Distinct<T>(s: seq<T>) {
    forall i, j | 0 <= i < j < |s| :: s[i] != s[j]
  }

  /** Position of the first occurrence of `x`, or `|s|` when there is none. */
  function IndexOf<T(==)>(s: seq<T>, x: T): (i: nat)
    ensures i <= |s|
    ensures i < |s| ==> s[i] == x
    ensures forall j | 0 <= j < i :: s[j] != x
  {
    if s == [] then 0
    else if s[0] == x then 0
    else
      var r := IndexOf(s[1..], x);
      assert forall j | 1 <= j < r + 1 :: s[j] == s[1..][j - 1];
      r + 1
  }

  /** Unlinks `x`.  A node that is not on the list leaves the list unchanged. */
  function Without<T(==)>(s: seq<T>, x: T): (r: seq<T>) {
    var i := IndexOf(s, x);
    if i < |s| then s[..i] + s[i + 1..] else s
  }

  function InsertAt<T>(s: seq<T>, i: nat, x: T): (r: seq<T>)
    requires i <= |s|
  {
    s[..i] + [x] + s[i..]
  }

  function Head<T>(s: seq<T>): Option<T> {
    if s == [] then None else Some(s[0])
  }

  lemma WithoutMembers<T>(s: seq<T>, x: T)
    requires Distinct(s)
    ensures Distinct(Without(s, x))
    ensures x !in Without(s, x)
    ensures forall y :: y in Without(s, x) <==> y in s && y != x
    ensures x in s ==> |Without(s, x)| == |s| - 1
  {
    var i := IndexOf(s, x);
    var r := Without(s, x);
    if i < |s| {
      forall y ensures y in r <==> y in s && y != x {
        if y in s && y != x {
          var k :| 0 <= k < |s| && s[k] == y;
          assert r[if k < i then k else k - 1] == y;
        }
      }
    }
  }

  lemma WithoutMiddle<T>(a: seq<T>, x: T, b: seq<T>)
    requires x !in a
    ensures Without(a + [x] + b, x) == a + b
  {
    var s := a + [x] + b;
    assert s[|a|] == x;
    assert forall i | 0 <= i < |a| :: s[i] == a[i] && a[i] in a;
    assert IndexOf(s, x) == |a|;
  }

  /** The survivors keep their relative order: position `i` of the result is position
      `i` or `i + 1` of the original, so earlier stays earlier. */
  lemma WithoutAt<T>(s: seq<T>, x: T, i: nat)
    requires i < |Without(s, x)|
    ensures var k := if i < IndexOf(s, x) then i else i + 1;
            k < |s| && Without(s, x)[i] == s[k]
  {
    var at := IndexOf(s, x);
    if at < |s| { assert Without(s, x) == s[..at] + s[at + 1..]; }
  }

  lemma InsertAtMembers<T>(s: seq<T>, i: nat, x: T)
    requires i <= |s|
    ensures forall y :: y in InsertAt(s, i, x) <==> y in s || y == x
    ensures Distinct(s) && x !in s ==> Distinct(InsertAt(s, i, x))
    ensures InsertAt(s, i, x)[i] == x
  {
    var r := InsertAt(s, i, x);
    forall y | y in s ensures y in r {
      var k :| 0 <= k < |s| && s[k] == y;
      assert r[if k < i then k else k + 1] == y;
    }
  }

  /** `r` is `s` with `x` put in at position `i`, said element by element. */
  ghost predicate IsInsertion<T>(s: seq<T>, i: nat, x: T, r: seq<T>) {
    && i <= |s| && |r| == |s| + 1
    && (forall k | 0 <= k < i :: r[k] == s[k])
    && r[i] == x
    && (forall k | i < k < |r| :: r[k] == s[k - 1])
  }

  lemma InsertAtInserts<T>(s: seq<T>, i: nat, x: T)
    requires i <= |s|
    ensures IsInsertion(s, i, x, InsertAt(s, i, x))
  {
  }
}
