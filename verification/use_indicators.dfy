/**
 * The older normalisation and legend helpers
 * (resources/js/composables/useIndicators.ts). `normalize` computes the same
 * record as the newer one. The legend always uses the fixed reds, labels its
 * last band "no data available" instead of "no data", and is empty without
 * numbers; the colour lookup then fails.
 */
module UseIndicators {
  import opened Wrappers
  import opened Sequences
  import opened Dicts
  import Stats
  import opened Scales

  /**
   * `normalize`, filling the result key by key. Without numbers `Math.min`
   * and `Math.max` give plus and minus infinity, which are never equal; then
   * no value is a number, so only the null branch is taken.
   */
  method Normalize(values: Dict<Option<real>>) returns (result: Dict<Option<real>>)
    ensures result == Stats.Normalize(values)
  {
    var valid := Stats.RecordNumbers(values);
    var bounds: Option<(real, real)> := if |valid| == 0 then None else Some((Stats.Min(valid), Stats.Max(valid)));
    result := FillNormalized(values, bounds);
    NormalizeKeyByKey(values, bounds, result);
  }

  /** The `for…of` loop of `normalize`: every key in order gets its normalised value. */
  method FillNormalized(values: Dict<Option<real>>, bounds: Option<(real, real)>) returns (result: Dict<Option<real>>)
    requires bounds.None? ==> forall k :: k in values.entries ==> values.entries[k].None?
    ensures result.keys == values.keys
    ensures forall k :: k in result.entries ==> k in values.entries && result.entries[k] == Normalized(values, bounds, k)
  {
    result := Empty();
    var i := 0;
    while i < |values.keys|
      invariant i <= |values.keys|
      invariant result.keys == values.keys[..i]
      invariant forall k :: k in result.entries ==> k in values.entries && result.entries[k] == Normalized(values, bounds, k)
    {
      var key := values.keys[i];
      var x := NormalizeEntry(values.entries[key], bounds);
      NormalizeStep(values, bounds, result, i, x);
      result := Put(result, key, x);
      i := i + 1;
    }
    assert values.keys[..i] == values.keys;
  }

  /** What the loop stores for a key: null for a non-number, the number scaled between the bounds otherwise. */
  ghost function Normalized(values: Dict<Option<real>>, bounds: Option<(real, real)>, key: string): Option<real>
    requires key in values.entries
  {
    if values.entries[key].None? || bounds.None? then None
    else Stats.Scale(values.entries[key], bounds.value.0, bounds.value.1)
  }

  /** Storing the next key's value keeps the loop's invariant one key further on. */
  lemma NormalizeStep(values: Dict<Option<real>>, bounds: Option<(real, real)>, result: Dict<Option<real>>, i: nat, x: Option<real>)
    requires i < |values.keys|
    requires result.keys == values.keys[..i]
    requires forall k :: k in result.entries ==> k in values.entries && result.entries[k] == Normalized(values, bounds, k)
    requires x == Normalized(values, bounds, values.keys[i])
    ensures var next := Put(result, values.keys[i], x);
      next.keys == values.keys[..i + 1] &&
      forall k :: k in next.entries ==> k in values.entries && next.entries[k] == Normalized(values, bounds, k)
  {
    var key := values.keys[i];
    assert key !in values.keys[..i] by {
      assert forall j :: 0 <= j < i ==> values.keys[j] != values.keys[i];
    }
    TakeOneMore(values.keys, i);
  }

  /** Filling every key as the loop does gives the newer `normalize`'s record. */
  lemma NormalizeKeyByKey(values: Dict<Option<real>>, bounds: Option<(real, real)>, result: Dict<Option<real>>)
    requires var valid := Stats.RecordNumbers(values);
      bounds == if |valid| == 0 then None else Some((Stats.Min(valid), Stats.Max(valid)))
    requires result.keys == values.keys
    requires forall k :: k in result.entries ==> k in values.entries && result.entries[k] == Normalized(values, bounds, k)
    ensures result == Stats.Normalize(values)
  {
    var expected := Stats.Normalize(values);
    forall k | k in result.entries
      ensures result.entries[k] == expected.entries[k]
    {
      Stats.NormalizeAt(values, k);
    }
    assert result.entries == expected.entries;
  }

  /** The body of the `normalize` loop for one value, given the bounds of the numbers (none when there is no number). */
  method NormalizeEntry(value: Option<real>, bounds: Option<(real, real)>) returns (x: Option<real>)
    requires value.Some? ==> bounds.Some?
    ensures value.None? ==> x == None
    ensures value.Some? ==> x == Stats.Scale(value, bounds.value.0, bounds.value.1)
  {
    if value.None? {
      x := None;
    } else {
      var (lo, hi) := bounds.value;
      if hi == lo {
        x := Some(0.5);
      } else {
        x := Some((value.value - lo) / (hi - lo));
      }
    }
  }

  /** The fixed red palette of the older legend. */
  const LegendPalette: seq<string> := ["#800026", "#BD0026", "#E31A1C", "#FC4E2A", "#FD8D3C"]

  /**
   * `generateColorRanges`: no bands without numbers; otherwise the five
   * percentile bands of the newer legend in the fixed reds, and a
   * "no data available" band.
   */
  function GenerateColorRanges(values: Dict<Option<real>>): (bands: seq<Band>)
    ensures |Stats.RecordNumbers(values)| == 0 <==> bands == []
    ensures |Stats.RecordNumbers(values)| > 0 ==>
      |bands| == 6 &&
      bands[..5] == BuildColorRanges(values, ActualPalette)[..5] &&
      bands[5] == Band(NoDataColor, "no data available", NoData)
  {
    var all := SortReals(Stats.RecordNumbers(values));
    if |all| == 0 then []
    else QuantileBands(all, LegendPalette)[..5] + [Band(NoDataColor, "no data available", NoData)]
  }

  /** The older legend's thresholds do not increase down the list either. */
  lemma GeneratedThresholdsNonIncreasing(values: Dict<Option<real>>)
    requires |Stats.RecordNumbers(values)| > 0
    ensures var bands := GenerateColorRanges(values);
      forall i, j :: 0 <= i < j < 5 ==> AtMost(bands[j].threshold, bands[i].threshold)
  {
    QuantileBandsNonIncreasing(SortReals(Stats.RecordNumbers(values)), LegendPalette);
  }

  /**
   * `getColor`: "#ddd" for a null score; otherwise the colour of the first
   * band the score meets, or else the last band's colour. With no bands and
   * a number the last band does not exist and the lookup throws: `None`.
   */
  method GetColor(score: Option<real>, ranges: seq<Band>) returns (color: Option<string>)
    ensures score.None? ==> color == Some(NoDataColor)
    ensures score.Some? && FirstMatch(ranges, score.value) < |ranges| ==>
      color == Some(ranges[FirstMatch(ranges, score.value)].color)
    ensures score.Some? && FirstMatch(ranges, score.value) == |ranges| ==>
      color == (if |ranges| == 0 then None else Some(ranges[|ranges| - 1].color))
  {
    if score.None? {
      return Some(NoDataColor);
    }
    var x := score.value;
    var i := 0;
    while i < |ranges|
      invariant i <= |ranges|
      invariant forall j :: 0 <= j < i ==> !Meets(ranges[j], x)
    {
      var range := ranges[i];
      if range.threshold.NoData? {
        i := i + 1;
        continue;
      }
      if range.threshold.NegInf? || x >= range.threshold.v {
        FirstMatchIs(ranges, x, i);
        return Some(range.color);
      }
      i := i + 1;
    }
    FirstMatchIs(ranges, x, i);
    if |ranges| == 0 {
      return None;
    }
    color := Some(ranges[|ranges| - 1].color);
  }

  /** On the older legend of at least one number every score gets one of the five reds, and the lookup never fails. */
  lemma GeneratedColorFromPalette(values: Dict<Option<real>>, x: real)
    requires |Stats.RecordNumbers(values)| > 0
    ensures var bands := GenerateColorRanges(values);
      FirstMatch(bands, x) < 5 && bands[FirstMatch(bands, x)].color == LegendPalette[FirstMatch(bands, x)]
  {
    var bands := GenerateColorRanges(values);
    assert bands[4].threshold == NegInf;
    FirstMatchIsAtMost(bands, x, 4);
  }
}
