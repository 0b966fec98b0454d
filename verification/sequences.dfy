/**
 * The library sequence operations the core calls: PHP's `array_unique`,
 * PHP's `sort` on strings and JavaScript's numeric `sort((a, b) => a - b)`.
 * Each sort is modelled by insertion sort; any correct sort gives the same
 * result, because the sorted permutation of a sequence is unique for a total
 * order.
 */
module Sequences {
  import opened Text

  predicate Distinct<T(==)>(s: seq<T>) {
    forall i, j :: 0 <= i < j < |s| ==> s[i] != s[j]
  }

  /** `array_unique`: keeps the first occurrence of every element, in order. */
  function Unique(s: seq<string>): (u: seq<string>)
    ensures Distinct(u)
    ensures forall x :: x in u <==> x in s
    decreases |s|
  {
    if |s| == 0 then []
    else
      var prefix := Unique(s[..|s| - 1]);
      if s[|s| - 1] in prefix then prefix else prefix + [s[|s| - 1]]
  }

  /** The position of the first occurrence of `x` in `s`. */
  function FirstIndex(s: seq<string>, x: string): (i: nat)
    requires x in s
    ensures i < |s| && s[i] == x
    ensures forall k :: 0 <= k < i ==> s[k] != x
    decreases |s|
  {
    if s[0] == x then 0 else 1 + FirstIndex(s[1..], x)
  }

  /**
   * `Unique` keeps the input's order: its elements appear in the order of
   * their first occurrences in the input.
   */
  lemma {:induction false} UniqueFirstOccurrenceOrder(s: seq<string>)
    ensures forall i, j :: 0 <= i < j < |Unique(s)| ==>
      FirstIndex(s, Unique(s)[i]) < FirstIndex(s, Unique(s)[j])
    decreases |s|
  {
    if |s| > 0 {
      var n := |s|;
      var p := s[..n - 1];
      var up := Unique(p);
      UniqueFirstOccurrenceOrder(p);
      forall y | y in p
        ensures FirstIndex(s, y) == FirstIndex(p, y)
      {
        var a, b := FirstIndex(s, y), FirstIndex(p, y);
        assert s[b] == y;
      }
      var u := Unique(s);
      forall i, j | 0 <= i < j < |u|
        ensures FirstIndex(s, u[i]) < FirstIndex(s, u[j])
      {
        if s[n - 1] in up {
          assert u == up;
        } else {
          assert u == up + [s[n - 1]];
          assert s[n - 1] !in p;
          if j < |up| {
            assert u[i] == up[i] && u[j] == up[j];
          } else {
            assert u[i] == up[i] && u[i] in p;
            assert FirstIndex(s, u[j]) == n - 1;
          }
        }
      }
    }
  }

  lemma TakeOneMore<T>(s: seq<T>, i: nat)
    requires i < |s|
    ensures s[..i + 1] == s[..i] + [s[i]]
  {
  }

  // ----- strings, in PHP's byte-wise order -----

  predicate SortedStrings(s: seq<string>) {
    forall i, j :: 0 <= i < j < |s| ==> LexLessEq(s[i], s[j])
  }

  /** Sorted with no repetition: every element is strictly below every later one. */
  predicate StrictlySortedStrings(s: seq<string>) {
    forall i, j :: 0 <= i < j < |s| ==> LexLess(s[i], s[j])
  }

  function InsertString(x: string, s: seq<string>): (r: seq<string>)
    requires SortedStrings(s)
    ensures SortedStrings(r)
    ensures multiset(r) == multiset(s) + multiset{x}
    decreases |s|
  {
    if |s| == 0 then [x]
    else if LexLessEq(x, s[0]) then
      InsertLemma(x, s);
      [x] + s
    else
      var tail := InsertString(x, s[1..]);
      HeadBelowInserted(x, s, tail);
      assert s == [s[0]] + s[1..];
      [s[0]] + tail
  }

  lemma InsertLemma(x: string, s: seq<string>)
    requires |s| > 0 && SortedStrings(s) && LexLessEq(x, s[0])
    ensures SortedStrings([x] + s)
  {
    forall j | 0 < j < |s| + 1
      ensures LexLessEq(([x] + s)[0], ([x] + s)[j])
    {
      if j > 1 {
        LexLessEqTransitive(x, s[0], s[j - 1]);
      }
    }
  }

  lemma HeadBelowInserted(x: string, s: seq<string>, tail: seq<string>)
    requires |s| > 0 && SortedStrings(s) && !LexLessEq(x, s[0])
    requires SortedStrings(tail) && multiset(tail) == multiset(s[1..]) + multiset{x}
    ensures SortedStrings([s[0]] + tail)
  {
    forall j | 0 <= j < |tail|
      ensures LexLessEq(s[0], tail[j])
    {
      assert tail[j] in multiset(tail);
      if tail[j] == x {
        LexLessTotal(x, s[0]);
      } else {
        assert tail[j] in multiset(s[1..]);
        var k :| 0 <= k < |s[1..]| && s[1..][k] == tail[j];
        assert s[k + 1] == tail[j];
      }
    }
  }

  /** PHP's `sort` on a list of strings. */
  function SortStrings(s: seq<string>): (r: seq<string>)
    ensures SortedStrings(r)
    ensures multiset(r) == multiset(s)
    decreases |s|
  {
    if |s| == 0 then []
    else
      assert s == [s[0]] + s[1..];
      InsertString(s[0], SortStrings(s[1..]))
  }

  /** Sorting a list without repetitions gives a strictly sorted list of the same elements. */
  lemma SortDistinctStrings(s: seq<string>)
    requires Distinct(s)
    ensures StrictlySortedStrings(SortStrings(s))
    ensures forall x :: x in SortStrings(s) <==> x in s
  {
    var r := SortStrings(s);
    forall x
      ensures x in r <==> x in s
    {
      assert x in r <==> x in multiset(r);
      assert x in s <==> x in multiset(s);
    }
    forall x
      ensures multiset(r)[x] <= 1
    {
      DistinctMultiplicity(s, x);
    }
    SortedOnceIsStrict(r);
  }

  lemma SortedOnceIsStrict(r: seq<string>)
    requires SortedStrings(r)
    requires forall x :: multiset(r)[x] <= 1
    ensures StrictlySortedStrings(r)
  {
    forall i, j | 0 <= i < j < |r|
      ensures LexLess(r[i], r[j])
    {
      if r[i] == r[j] {
        TwiceInMultiset(r, i, j);
        assert false;
      }
    }
  }

  lemma TwiceInMultiset(r: seq<string>, i: nat, j: nat)
    requires i < j < |r| && r[i] == r[j]
    ensures multiset(r)[r[i]] >= 2
  {
    assert r == r[..i] + [r[i]] + r[i + 1..j] + [r[j]] + r[j + 1..];
  }

  lemma {:induction false} DistinctMultiplicity<T>(s: seq<T>, x: T)
    requires Distinct(s)
    ensures multiset(s)[x] <= 1
    decreases |s|
  {
    if |s| > 0 {
      assert s == [s[0]] + s[1..];
      DistinctMultiplicity(s[1..], x);
      if s[0] == x {
        assert x !in s[1..];
      }
    }
  }

  // ----- reals, in numeric order -----

  predicate SortedReals(s: seq<real>) {
    forall i, j :: 0 <= i < j < |s| ==> s[i] <= s[j]
  }

  function InsertReal(x: real, s: seq<real>): (r: seq<real>)
    requires SortedReals(s)
    ensures SortedReals(r)
    ensures |r| == |s| + 1
    ensures multiset(r) == multiset(s) + multiset{x}
    decreases |s|
  {
    if |s| == 0 then [x]
    else if x <= s[0] then [x] + s
    else
      var tail := InsertReal(x, s[1..]);
      assert s == [s[0]] + s[1..];
      HeadBelowInsertedReal(x, s, tail);
      [s[0]] + tail
  }

  lemma HeadBelowInsertedReal(x: real, s: seq<real>, tail: seq<real>)
    requires |s| > 0 && SortedReals(s) && s[0] < x
    requires SortedReals(tail) && multiset(tail) == multiset(s[1..]) + multiset{x}
    ensures SortedReals([s[0]] + tail)
  {
    forall j | 0 <= j < |tail|
      ensures s[0] <= tail[j]
    {
      assert tail[j] in multiset(tail);
      if tail[j] != x {
        assert tail[j] in multiset(s[1..]);
        var k :| 0 <= k < |s[1..]| && s[1..][k] == tail[j];
        assert s[k + 1] == tail[j];
      }
    }
  }

  /** JavaScript's `values.sort((a, b) => a - b)`. */
  function SortReals(s: seq<real>): (r: seq<real>)
    ensures SortedReals(r)
    ensures |r| == |s|
    ensures multiset(r) == multiset(s)
    decreases |s|
  {
    if |s| == 0 then []
    else
      assert s == [s[0]] + s[1..];
      InsertReal(s[0], SortReals(s[1..]))
  }
}
