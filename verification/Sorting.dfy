/** Sorting distinct numbers. */
module Sorting {
  predicate Increasing(ts: seq<int>) {
    forall i, j :: 0 <= i < j < |ts| ==> ts[i] < ts[j]
  }

  function Insert(x: int, s: seq<int>): seq<int> {
    if s == [] || x <= s[0] then [x] + s else [s[0]] + Insert(x, s[1..])
  }

  function Sorted(s: seq<int>): seq<int> {
    if s == [] then [] else Insert(s[0], Sorted(s[1..]))
  }

  lemma IncreasingCons(x: int, s: seq<int>)
    requires Increasing(s) && forall y :: y in s ==> x < y
    ensures Increasing([x] + s)
  {
    var r := [x] + s;
    forall i, j | 0 <= i < j < |r| ensures r[i] < r[j] {
      assert r[j] == s[j-1] && s[j-1] in s;
      assert i > 0 ==> r[i] == s[i-1];
    }
  }

  lemma {:induction false} InsertKeeps(x: int, s: seq<int>)
    requires Increasing(s) && x !in s
    ensures Increasing(Insert(x, s)) && multiset(Insert(x, s)) == multiset(s) + multiset{x}
    ensures forall y :: y in Insert(x, s) <==> y == x || y in s
  {
    if s == [] || x <= s[0] {
      assert forall y :: y in s ==> x < y;
      IncreasingCons(x, s);
    } else {
      var rest := s[1..];
      assert s == [s[0]] + rest;
      InsertKeeps(x, rest);
      IncreasingCons(s[0], Insert(x, rest));
    }
  }

  predicate Distinct(s: seq<int>) { forall i, j :: 0 <= i < j < |s| ==> s[i] != s[j] }

  lemma {:induction false} SortedIncreases(s: seq<int>)
    requires Distinct(s)
    ensures Increasing(Sorted(s)) && multiset(Sorted(s)) == multiset(s)
  {
    if s != [] {
      assert s == [s[0]] + s[1..];
      SortedIncreases(s[1..]);
      assert s[0] !in Sorted(s[1..]) by {
        assert s[0] in Sorted(s[1..]) <==> s[0] in multiset(s[1..]);
      }
      InsertKeeps(s[0], Sorted(s[1..]));
    }
  }
}
