/** Sorting by an integer rank, and the binary search over a sorted sequence. */
module Sorting {

  ghost predicate SortedBy<T>(s: seq<T>, rank: T -> int) {
    forall i, j | 0 <= i < j < |s| :: rank(s[i]) <= rank(s[j])
  }

  function Inserted<T>(s: seq<T>, x: T, rank: T -> int): seq<T> {
    if s == [] then [x]
    else if rank(x) <= rank(s[0]) then [x] + s
    else [s[0]] + Inserted(s[1..], x, rank)
  }

  function Sort<T>(s: seq<T>, rank: T -> int): seq<T> {
    if s == [] then [] else Inserted(Sort(s[1..], rank), s[0], rank)
  }

  lemma {:induction false} InsertedHolds<T>(s: seq<T>, x: T, rank: T -> int)
    ensures multiset(Inserted(s, x, rank)) == multiset(s) + multiset{x}
  {
    if s != [] {
      assert s == [s[0]] + s[1..];
      InsertedHolds(s[1..], x, rank);
    }
  }

  lemma {:induction false} InsertedSorts<T>(s: seq<T>, x: T, rank: T -> int)
    requires SortedBy(s, rank)
    ensures SortedBy(Inserted(s, x, rank), rank)
  {
    if s != [] && rank(x) > rank(s[0]) {
      InsertedSorts(s[1..], x, rank);
      InsertedHolds(s[1..], x, rank);
      var t := Inserted(s[1..], x, rank);
      forall j | 0 <= j < |t| ensures rank(s[0]) <= rank(t[j]) {
        var y := t[j];
        assert y in multiset(t);
        assert y == x || y in s[1..];
        if y != x {
          var i :| 0 <= i < |s| - 1 && s[1..][i] == y;
          assert s[i + 1] == y;
        }
      }
    }
  }

  /** The result is sorted and holds exactly the elements of s. */
  lemma {:induction false} SortSorts<T>(s: seq<T>, rank: T -> int)
    ensures SortedBy(Sort(s, rank), rank)
    ensures multiset(Sort(s, rank)) == multiset(s)
  {
    if s != [] {
      SortSorts(s[1..], rank);
      InsertedSorts(Sort(s[1..], rank), s[0], rank);
      InsertedHolds(Sort(s[1..], rank), s[0], rank);
      assert s == [s[0]] + s[1..];
    }
  }

  lemma SameMember<T>(s: seq<T>, t: seq<T>, x: T)
    requires multiset(s) == multiset(t)
    ensures x in s <==> x in t
  {
    assert x in s <==> x in multiset(s);
  }

  lemma SameMembers<T>(s: seq<T>, t: seq<T>)
    requires multiset(s) == multiset(t)
    ensures |s| == |t|
    ensures forall x :: x in s <==> x in t
  {
    assert |multiset(s)| == |multiset(t)|;
    forall x ensures x in s <==> x in t { SameMember(s, t, x); }
  }
}
