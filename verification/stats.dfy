/**
 * Min-max normalisation of a record of indicator values (resources/js/utils/stats.ts).
 * A record is an insertion-ordered dictionary whose values are numbers or null
 * (None stands for null, undefined and every non-number).
 */
module Stats {
  import opened Wrappers
  import opened Dicts

  /** `Object.values(record).filter(v => typeof v === 'number')`. */
  function Numbers(vs: seq<Option<real>>): (r: seq<real>)
    ensures forall x :: x in r <==> Some(x) in vs
    decreases |vs|
  {
    if |vs| == 0 then []
    else
      assert vs == [vs[0]] + vs[1..];
      (if vs[0].Some? then [vs[0].value] else []) + Numbers(vs[1..])
  }

  /** Each number occurs in the filtered list as often as it occurs among the values. */
  lemma {:induction false} NumbersCount(vs: seq<Option<real>>, x: real)
    ensures multiset(Numbers(vs))[x] == multiset(vs)[Some(x)]
    decreases |vs|
  {
    if |vs| > 0 {
      NumbersCount(vs[1..], x);
      assert vs == [vs[0]] + vs[1..];
    }
  }

  /** The numbers of a record, in key order. */
  function RecordNumbers(record: Dict<Option<real>>): (r: seq<real>)
    ensures forall k :: k in record.entries && record.entries[k].Some? ==> record.entries[k].value in r
  {
    var vs := Values(record);
    assert forall k :: k in record.entries ==> record.entries[k] == vs[IndexOf(record.keys, k)];
    Numbers(vs)
  }

  /** Every number of the list is the value of some key. */
  lemma RecordNumberHasKey(record: Dict<Option<real>>, x: real)
    requires x in RecordNumbers(record)
    ensures exists k :: k in record.entries && record.entries[k] == Some(x)
  {
    var vs := Values(record);
    assert Some(x) in vs;
    var i :| 0 <= i < |vs| && vs[i] == Some(x);
    assert record.keys[i] in record.entries;
  }

  function IndexOf(s: seq<string>, k: string): (i: nat)
    requires k in s
    ensures i < |s| && s[i] == k
  {
    if s[0] == k then 0 else 1 + IndexOf(s[1..], k)
  }

  /** `Math.min(...values)` of a non-empty list. */
  function Min(s: seq<real>): (m: real)
    requires |s| > 0
    ensures m in s
    ensures forall x :: x in s ==> m <= x
  {
    if |s| == 1 then s[0]
    else
      var rest := Min(s[1..]);
      assert s == [s[0]] + s[1..];
      if s[0] <= rest then s[0] else rest
  }

  /** `Math.max(...values)` of a non-empty list. */
  function Max(s: seq<real>): (m: real)
    requires |s| > 0
    ensures m in s
    ensures forall x :: x in s ==> x <= m
  {
    if |s| == 1 then s[0]
    else
      var rest := Max(s[1..]);
      assert s == [s[0]] + s[1..];
      if s[0] >= rest then s[0] else rest
  }

  /** One value scaled between `lo` and `hi`: null stays null, a constant range gives 0.5. */
  function Scale(v: Option<real>, lo: real, hi: real): Option<real> {
    if v.None? then None
    else if hi == lo then Some(0.5)
    else Some((v.value - lo) / (hi - lo))
  }

  lemma ScaleInUnit(v: real, lo: real, hi: real)
    requires lo <= v <= hi
    ensures 0.0 <= Scale(Some(v), lo, hi).value <= 1.0
  {
    if hi != lo {
      var d := hi - lo;
      var q := (v - lo) / d;
      assert q * d == v - lo;
      if q > 1.0 {
        MulStrict(1.0, q, d);
        assert false;
      }
      if q < 0.0 {
        MulStrict(q, 0.0, d);
        assert false;
      }
    }
  }

  /**
   * `normalize`: every key keeps its place; a non-number maps to null, a
   * number to a value in [0, 1].
   */
  function Normalize(record: Dict<Option<real>>): (r: Dict<Option<real>>)
    ensures r.keys == record.keys
    ensures forall k :: k in r.entries ==> (r.entries[k].Some? <==> record.entries[k].Some?)
  {
    var values := RecordNumbers(record);
    if |values| == 0 then
      RawDict(record.keys, map k | k in record.entries :: None)
    else
      var lo := Min(values);
      var hi := Max(values);
      RawDict(record.keys, map k | k in record.entries :: Scale(record.entries[k], lo, hi))
  }

  /** Every number is normalised into [0, 1]. */
  lemma NormalizeInUnit(record: Dict<Option<real>>)
    ensures var r := Normalize(record);
      forall k :: k in r.entries && r.entries[k].Some? ==> 0.0 <= r.entries[k].value <= 1.0
  {
    var values := RecordNumbers(record);
    forall k | k in record.entries && record.entries[k].Some?
      ensures 0.0 <= Normalize(record).entries[k].value <= 1.0
    {
      NormalizeAt(record, k);
      assert record.entries[k].value in values;
      ScaleInUnit(record.entries[k].value, Min(values), Max(values));
    }
  }

  /** The value a key gets: scaled between the minimum and maximum number, or null when there is no number. */
  lemma NormalizeAt(record: Dict<Option<real>>, k: string)
    requires k in record.entries
    ensures |RecordNumbers(record)| == 0 ==> Normalize(record).entries[k] == None
    ensures |RecordNumbers(record)| > 0 ==>
      Normalize(record).entries[k] == Scale(record.entries[k], Min(RecordNumbers(record)), Max(RecordNumbers(record)))
  {
  }

  lemma MulMonotone(x: real, y: real, b: real)
    requires x <= y && b > 0.0
    ensures x * b <= y * b
  {
  }

  lemma MulStrict(x: real, y: real, b: real)
    requires x < y && b > 0.0
    ensures x * b < y * b
  {
  }

  lemma DivMonotone(a1: real, a2: real, b: real)
    requires a1 <= a2 && b > 0.0
    ensures a1 / b <= a2 / b
  {
    var q1, q2 := a1 / b, a2 / b;
    assert q1 * b == a1 && q2 * b == a2;
    if q1 > q2 {
      MulMonotone(q2, q1, b);
    }
  }

  lemma ScaleMonotone(v1: real, v2: real, lo: real, hi: real)
    requires lo <= v1 <= v2 <= hi
    ensures Scale(Some(v1), lo, hi).value <= Scale(Some(v2), lo, hi).value
  {
    if lo != hi {
      DivMonotone(v1 - lo, v2 - lo, hi - lo);
    }
  }

  lemma ScaleEnds(lo: real, hi: real)
    requires lo < hi
    ensures Scale(Some(lo), lo, hi) == Some(0.0) && Scale(Some(hi), lo, hi) == Some(1.0)
  {
    var d := hi - lo;
    assert (lo - lo) / d == 0.0;
    assert (hi - lo) / d == 1.0 by {
      assert 1.0 * d == hi - lo;
    }
  }

  /** When all numbers are equal (one number included), every number maps to 0.5. */
  lemma NormalizeConstant(record: Dict<Option<real>>, c: real)
    requires forall k :: k in record.entries && record.entries[k].Some? ==> record.entries[k].value == c
    ensures forall k :: k in record.entries && record.entries[k].Some? ==> Normalize(record).entries[k] == Some(0.5)
  {
    var values := RecordNumbers(record);
    forall k | k in record.entries && record.entries[k].Some?
      ensures Normalize(record).entries[k] == Some(0.5)
    {
      NormalizeAt(record, k);
      assert record.entries[k].value in values;
      assert Min(values) == c == Max(values);
    }
  }

  /**
   * When the numbers are not all equal, the least number maps to 0 and the
   * greatest to 1.
   */
  lemma NormalizeSpread(record: Dict<Option<real>>, k1: string, k2: string)
    requires k1 in record.entries && k2 in record.entries
    requires record.entries[k1].Some? && record.entries[k2].Some?
    requires record.entries[k1].value != record.entries[k2].value
    ensures var values := RecordNumbers(record);
      |values| > 0 && Min(values) < Max(values) &&
      (exists k :: k in record.entries && record.entries[k] == Some(Min(values)) && Normalize(record).entries[k] == Some(0.0)) &&
      (exists k :: k in record.entries && record.entries[k] == Some(Max(values)) && Normalize(record).entries[k] == Some(1.0))
  {
    var values := RecordNumbers(record);
    assert record.entries[k1].value in values && record.entries[k2].value in values;
    var lo, hi := Min(values), Max(values);
    RecordNumberHasKey(record, lo);
    RecordNumberHasKey(record, hi);
    var kLo :| kLo in record.entries && record.entries[kLo] == Some(lo);
    var kHi :| kHi in record.entries && record.entries[kHi] == Some(hi);
    NormalizeAt(record, kLo);
    NormalizeAt(record, kHi);
    ScaleEnds(lo, hi);
  }

  /** Normalisation keeps the order of the numbers. */
  lemma NormalizeMonotone(record: Dict<Option<real>>, k1: string, k2: string)
    requires k1 in record.entries && k2 in record.entries
    requires record.entries[k1].Some? && record.entries[k2].Some?
    requires record.entries[k1].value <= record.entries[k2].value
    ensures Normalize(record).entries[k1].Some? && Normalize(record).entries[k2].Some?
    ensures Normalize(record).entries[k1].value <= Normalize(record).entries[k2].value
  {
    var values := RecordNumbers(record);
    var v1, v2 := record.entries[k1].value, record.entries[k2].value;
    assert v1 in values && v2 in values;
    NormalizeAt(record, k1);
    NormalizeAt(record, k2);
    var lo, hi := Min(values), Max(values);
    var n1, n2 := Normalize(record).entries[k1], Normalize(record).entries[k2];
    ScaleMonotone(v1, v2, lo, hi);
  }
}
