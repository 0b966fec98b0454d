/**
 * Colour scales of the map legend (resources/js/palettes/scales.ts): the six
 * palettes, the choice between them, the quantile bands of a set of scores and
 * the first-match colour lookup.
 */
module Scales {
  import opened Wrappers
  import opened Sequences
  import opened Dicts
  import opened Stats

  /** Standard reds for observed years. */
  const ActualPalette: seq<string> := ["#800026", "#BD0026", "#E31A1C", "#FC4E2A", "#FD8D3C"]
  /** Standard blues for forecast years. */
  const PredictedPalette: seq<string> := ["#08306B", "#08519C", "#2171B5", "#4292C6", "#6BAED6"]
  /** Colour-blind family A: Viridis for forecast years ... */
  const ViridisPalette: seq<string> := ["#440154", "#3b528b", "#21918c", "#5ec962", "#fde725"]
  /** ... and Inferno for observed years. */
  const InfernoPalette: seq<string> := ["#000004", "#2c115f", "#721f81", "#f1605d", "#fcffa4"]
  /** Colour-blind family B: Cividis for forecast years ... */
  const CividisPalette: seq<string> := ["#00204c", "#2c4f73", "#576d83", "#a1a77d", "#fdea45"]
  /** ... and Plasma for observed years. */
  const PlasmaPalette: seq<string> := ["#0d0887", "#6a00a8", "#b12a90", "#e16462", "#f0f921"]

  /** The palettes that mark forecast years. */
  predicate IsPredictedPalette(p: seq<string>) {
    p == PredictedPalette || p == ViridisPalette || p == CividisPalette
  }

  /** The three families: standard, colour-blind A and colour-blind B. */
  predicate InStandardFamily(p: seq<string>) {
    p == ActualPalette || p == PredictedPalette
  }

  predicate InFamilyA(p: seq<string>) {
    p == InfernoPalette || p == ViridisPalette
  }

  predicate InFamilyB(p: seq<string>) {
    p == PlasmaPalette || p == CividisPalette
  }

  /**
   * `pickPalette`: a forecast palette exactly for years after the last
   * observed one; the standard family unless colour-blind mode is on, and
   * then family B exactly when the alternative is asked for.
   */
  function PickPalette(year: int, cbMode: bool, useAltCB: bool, lastActualYear: int): (p: seq<string>)
    ensures |p| == 5
    ensures IsPredictedPalette(p) <==> year > lastActualYear
    ensures InStandardFamily(p) <==> !cbMode
    ensures InFamilyB(p) <==> cbMode && useAltCB
    ensures InFamilyA(p) <==> cbMode && !useAltCB
  {
    var isPred := year > lastActualYear;
    if !cbMode then (if isPred then PredictedPalette else ActualPalette)
    else if useAltCB then (if isPred then CividisPalette else PlasmaPalette)
    else if isPred then ViridisPalette else InfernoPalette
  }

  /** Within every family the observed and the forecast palette share no colour. */
  lemma FamiliesDiffer()
    ensures forall i, j :: 0 <= i < 5 && 0 <= j < 5 ==> ActualPalette[i] != PredictedPalette[j]
    ensures forall i, j :: 0 <= i < 5 && 0 <= j < 5 ==> InfernoPalette[i] != ViridisPalette[j]
    ensures forall i, j :: 0 <= i < 5 && 0 <= j < 5 ==> PlasmaPalette[i] != CividisPalette[j]
  {
  }

  /** A band threshold: a number, minus infinity, or null for the "no data" band. */
  datatype Threshold = NegInf | At(v: real) | NoData

  datatype Band = Band(color: string, caption: string, threshold: Threshold)

  const NoDataColor := "#ddd"

  /** `all[Math.floor(p * all.length)]` for p = k / 10. */
  function Quantile(sorted: seq<real>, k: nat): (q: real)
    requires |sorted| > 0 && k < 10
    ensures q in sorted
  {
    QuantileIndexBelow(|sorted|, k);
    sorted[(k * |sorted|) / 10]
  }

  lemma QuantileIndexBelow(n: nat, k: nat)
    requires n > 0 && k < 10
    ensures (k * n) / 10 < n
  {
    assert k * n <= 9 * n;
  }

  /** The five percentile bands of a sorted, non-empty list of numbers, and the "no data" band. */
  function QuantileBands(all: seq<real>, palette: seq<string>): (bands: seq<Band>)
    requires |all| > 0 && |palette| >= 5
    ensures |bands| == 6
  {
    [ Band(palette[0], "Top 20%", At(Quantile(all, 8))),
      Band(palette[1], "60–80%", At(Quantile(all, 6))),
      Band(palette[2], "40–60%", At(Quantile(all, 4))),
      Band(palette[3], "20–40%", At(Quantile(all, 2))),
      Band(palette[4], "Bottom 20%", NegInf),
      Band(NoDataColor, "no data", NoData) ]
  }

  /**
   * `buildColorRanges`: a single "no data" band without numbers; otherwise
   * five bands at the 80th, 60th, 40th and 20th percentile and minus
   * infinity, coloured from the palette, and the "no data" band.
   */
  function BuildColorRanges(values: Dict<Option<real>>, palette: seq<string>): (bands: seq<Band>)
    requires |palette| >= 5
    ensures |RecordNumbers(values)| == 0 ==> bands == [Band(NoDataColor, "no data", NoData)]
    ensures |RecordNumbers(values)| > 0 ==> |bands| == 6
  {
    var all := SortReals(RecordNumbers(values));
    if |all| == 0 then [Band(NoDataColor, "no data", NoData)]
    else QuantileBands(all, palette)
  }

  /** `score >= threshold`, with a null threshold never met. */
  predicate Meets(b: Band, score: real) {
    match b.threshold
    case NoData => false
    case NegInf => true
    case At(t) => score >= t
  }

  /** `t1 <= t2` between thresholds that are not null. */
  predicate AtMost(t1: Threshold, t2: Threshold) {
    t1.NegInf? || (t1.At? && t2.At? && t1.v <= t2.v)
  }

  /** The index of the first band whose threshold the score meets, or the length when there is none. */
  function FirstMatch(ranges: seq<Band>, score: real): (i: nat)
    ensures i <= |ranges|
    ensures i < |ranges| ==> Meets(ranges[i], score)
    ensures forall j :: 0 <= j < i ==> !Meets(ranges[j], score)
    decreases |ranges|
  {
    if |ranges| == 0 then 0
    else if Meets(ranges[0], score) then 0
    else 1 + FirstMatch(ranges[1..], score)
  }

  /**
   * `colorFor`: "#ddd" for a null score; otherwise the colour of the first
   * band whose threshold the score meets, or else the last band's colour, or
   * "#ddd" when there are no bands.
   */
  method ColorFor(ranges: seq<Band>, score: Option<real>) returns (color: string)
    ensures score.None? ==> color == NoDataColor
    ensures score.Some? && FirstMatch(ranges, score.value) < |ranges| ==>
      color == ranges[FirstMatch(ranges, score.value)].color
    ensures score.Some? && FirstMatch(ranges, score.value) == |ranges| ==>
      color == (if |ranges| == 0 then NoDataColor else ranges[|ranges| - 1].color)
  {
    if score.None? {
      return NoDataColor;
    }
    var x := score.value;
    var i := 0;
    while i < |ranges|
      invariant i <= |ranges|
      invariant forall j :: 0 <= j < i ==> !Meets(ranges[j], x)
    {
      var r := ranges[i];
      if r.threshold.NoData? {
        i := i + 1;
        continue;
      }
      if r.threshold.NegInf? || x >= r.threshold.v {
        FirstMatchIs(ranges, x, i);
        return r.color;
      }
      i := i + 1;
    }
    FirstMatchIs(ranges, x, i);
    color := if |ranges| == 0 then NoDataColor else ranges[|ranges| - 1].color;
  }

  /** The first match is the one index before which no band is met and at which one is (or the end). */
  lemma FirstMatchIs(ranges: seq<Band>, score: real, i: nat)
    requires i <= |ranges|
    requires forall j :: 0 <= j < i ==> !Meets(ranges[j], score)
    requires i < |ranges| ==> Meets(ranges[i], score)
    ensures FirstMatch(ranges, score) == i
  {
  }

  // ---------------------------------------------------------------------------
  // Properties

  lemma QuantileIndexMonotone(n: nat, k1: nat, k2: nat)
    requires n > 0 && k1 <= k2 < 10
    ensures (k1 * n) / 10 <= (k2 * n) / 10
  {
    assert k1 * n <= k2 * n;
  }

  /** A higher percentile never gives a lower threshold. */
  lemma {:induction false} QuantileMonotone(sorted: seq<real>, k1: nat, k2: nat)
    requires |sorted| > 0 && SortedReals(sorted) && k1 <= k2 < 10
    ensures Quantile(sorted, k1) <= Quantile(sorted, k2)
  {
    QuantileIndexMonotone(|sorted|, k1, k2);
    QuantileIndexBelow(|sorted|, k2);
    var i1, i2 := (k1 * |sorted|) / 10, (k2 * |sorted|) / 10;
    if i1 < i2 {
      assert sorted[i1] <= sorted[i2];
    }
  }

  /** The thresholds do not increase down the list: q80 >= q60 >= q40 >= q20 > minus infinity. */
  lemma ThresholdsNonIncreasing(values: Dict<Option<real>>, palette: seq<string>)
    requires |palette| >= 5 && |RecordNumbers(values)| > 0
    ensures var bands := BuildColorRanges(values, palette);
      forall i, j :: 0 <= i < j < 5 ==> AtMost(bands[j].threshold, bands[i].threshold)
  {
    QuantileBandsNonIncreasing(SortReals(RecordNumbers(values)), palette);
  }

  lemma QuantileBandsNonIncreasing(all: seq<real>, palette: seq<string>)
    requires |all| > 0 && SortedReals(all) && |palette| >= 5
    ensures var bands := QuantileBands(all, palette);
      forall i, j :: 0 <= i < j < 5 ==> AtMost(bands[j].threshold, bands[i].threshold)
  {
    QuantileMonotone(all, 6, 8);
    QuantileMonotone(all, 4, 6);
    QuantileMonotone(all, 2, 4);
  }

  /** Every numeric threshold is one of the input values. */
  lemma ThresholdsAreValues(values: Dict<Option<real>>, palette: seq<string>, i: nat)
    requires |palette| >= 5 && |RecordNumbers(values)| > 0 && i < 4
    ensures var bands := BuildColorRanges(values, palette);
      bands[i].threshold.At? &&
      exists k :: k in values.entries && values.entries[k] == Some(bands[i].threshold.v)
  {
    var nums := RecordNumbers(values);
    var all := SortReals(nums);
    QuantileBandsValues(all, palette, i);
    var t := QuantileBands(all, palette)[i].threshold.v;
    assert t in multiset(all);
    assert t in nums by {
      assert t in multiset(nums);
    }
    RecordNumberHasKey(values, t);
  }

  lemma QuantileBandsValues(all: seq<real>, palette: seq<string>, i: nat)
    requires |all| > 0 && |palette| >= 5 && i < 4
    ensures QuantileBands(all, palette)[i].threshold.At?
    ensures QuantileBands(all, palette)[i].threshold.v in all
  {
    QuantileBandsThresholds(all, palette);
  }

  /** The bands' colours and labels: the palette's first five colours, then the grey "no data" band. */
  lemma BandsLayout(values: Dict<Option<real>>, palette: seq<string>)
    requires |palette| >= 5 && |RecordNumbers(values)| > 0
    ensures var bands := BuildColorRanges(values, palette);
      (forall i :: 0 <= i < 5 ==> bands[i].color == palette[i] && bands[i].threshold != NoData) &&
      bands[5] == Band(NoDataColor, "no data", NoData) &&
      [bands[0].caption, bands[1].caption, bands[2].caption, bands[3].caption, bands[4].caption] ==
        ["Top 20%", "60–80%", "40–60%", "20–40%", "Bottom 20%"]
  {
    QuantileBandsLayout(SortReals(RecordNumbers(values)), palette);
  }

  lemma QuantileBandsLayout(all: seq<real>, palette: seq<string>)
    requires |all| > 0 && |palette| >= 5
    ensures var bands := QuantileBands(all, palette);
      (forall i :: 0 <= i < 5 ==> bands[i].color == palette[i] && bands[i].threshold != NoData) &&
      bands[5] == Band(NoDataColor, "no data", NoData) &&
      [bands[0].caption, bands[1].caption, bands[2].caption, bands[3].caption, bands[4].caption] ==
        ["Top 20%", "60–80%", "40–60%", "20–40%", "Bottom 20%"]
  {
  }

  /**
   * The thresholds are the 80th, 60th, 40th and 20th percentile elements of
   * the numbers in ascending order, then minus infinity.
   */
  lemma BandsThresholds(values: Dict<Option<real>>, palette: seq<string>)
    requires |palette| >= 5 && |RecordNumbers(values)| > 0
    ensures var all := SortReals(RecordNumbers(values));
      var bands := BuildColorRanges(values, palette);
      SortedReals(all) && multiset(all) == multiset(RecordNumbers(values)) &&
      bands[0].threshold == At(Quantile(all, 8)) &&
      bands[1].threshold == At(Quantile(all, 6)) &&
      bands[2].threshold == At(Quantile(all, 4)) &&
      bands[3].threshold == At(Quantile(all, 2)) &&
      bands[4].threshold == NegInf
  {
    QuantileBandsThresholds(SortReals(RecordNumbers(values)), palette);
  }

  lemma QuantileBandsThresholds(all: seq<real>, palette: seq<string>)
    requires |all| > 0 && |palette| >= 5
    ensures var bands := QuantileBands(all, palette);
      bands[0].threshold == At(Quantile(all, 8)) &&
      bands[1].threshold == At(Quantile(all, 6)) &&
      bands[2].threshold == At(Quantile(all, 4)) &&
      bands[3].threshold == At(Quantile(all, 2)) &&
      bands[4].threshold == NegInf
  {
  }

  /** Meeting a threshold is kept by a higher score, so a higher score never lands in a later band. */
  lemma {:induction false} FirstMatchMonotone(ranges: seq<Band>, x: real, y: real)
    requires x <= y
    ensures FirstMatch(ranges, y) <= FirstMatch(ranges, x)
    decreases |ranges|
  {
    if |ranges| > 0 && !Meets(ranges[0], y) {
      FirstMatchMonotone(ranges[1..], x, y);
    }
  }

  /** With the bands of at least one number, every score lands in one of the five palette bands. */
  lemma ColorFromPalette(values: Dict<Option<real>>, palette: seq<string>, x: real)
    requires |palette| >= 5 && |RecordNumbers(values)| > 0
    ensures var bands := BuildColorRanges(values, palette);
      FirstMatch(bands, x) < 5 && bands[FirstMatch(bands, x)].color == palette[FirstMatch(bands, x)]
  {
    QuantileBandsColor(SortReals(RecordNumbers(values)), palette, x);
  }

  lemma QuantileBandsColor(all: seq<real>, palette: seq<string>, x: real)
    requires |all| > 0 && |palette| >= 5
    ensures var bands := QuantileBands(all, palette);
      FirstMatch(bands, x) < 5 && bands[FirstMatch(bands, x)].color == palette[FirstMatch(bands, x)]
  {
    FirstMatchIsAtMost(QuantileBands(all, palette), x, 4);
  }

  lemma FirstMatchIsAtMost(ranges: seq<Band>, score: real, i: nat)
    requires i < |ranges| && Meets(ranges[i], score)
    ensures FirstMatch(ranges, score) <= i
  {
  }
}
