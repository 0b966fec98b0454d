/**
 * The map-data endpoint of MapDataController::forYear: for a requested year
 * and list of metrics it builds one row per country code, from the store's
 * "actual" scores for years up to the last actual year, and from the
 * predictions snapshot merged with the known countries for later years.
 *
 * The store query and the snapshot read are inputs: `countries` is what the
 * country/score query returns, `predictions` is the decoded snapshot, with
 * None for every fail-soft outcome (no file, unreadable file, bad gzip, bad
 * JSON, JSON that is not an array).
 */
module MapData {
  import opened Wrappers
  import opened Text
  import opened Sequences
  import opened Dicts

  /** The last year served from the store; later years are predictions. */
  const LastActualYear: int := 2022
  const DefaultYear: int := 2022
  const DefaultMetrics: string := "gmi_score"

  /** A country with the first of its score records for the requested year, if any. */
  datatype Country = Country(isoCode: string, name: Option<string>, score: Option<map<string, Option<real>>>)

  /**
   * One record of the predictions snapshot. A missing `iso3` is "", a
   * missing or non-string `metric` is None, missing numbers and strings are None.
   */
  datatype Prediction = Prediction(
    iso3: string, year: int, metric: Option<string>,
    value: Option<real>, loCi: Option<real>, hiCi: Option<real>,
    forecastMethod: Option<string>, version: Option<string>)

  datatype Source = Actual | Predicted

  /** The `method` and `version` keys that only rows seeded from a prediction carry. */
  datatype Provenance = Provenance(forecastMethod: Option<string>, version: Option<string>)

  /**
   * One output row. `values` holds the metric keys, `loCi` and `hiCi` the
   * `<metric>_lo_ci` and `<metric>_hi_ci` keys; a key absent from a map is a
   * key absent from the JSON object.
   */
  datatype Row = Row(
    iso3: string, name: Option<string>, year: int, source: Source,
    provenance: Option<Provenance>,
    values: map<string, Option<real>>,
    loCi: map<string, Option<real>>,
    hiCi: map<string, Option<real>>)

  // ---------------------------------------------------------------------------
  // Request parameters

  /** The `year` parameter; a request without one asks for the last actual year. */
  function RequestedYear(param: Option<int>): (year: int)
    ensures param.None? ==> year == LastActualYear
    ensures param.Some? ==> year == param.value
  {
    param.GetOr(DefaultYear)
  }

  /** PHP's `array_values(array_filter(...))` on strings: drops "" and "0". */
  function DropFalsy(parts: seq<string>): (r: seq<string>)
    ensures forall x :: x in r <==> x in parts && !Falsy(x)
    decreases |parts|
  {
    if |parts| == 0 then []
    else (if Falsy(parts[0]) then [] else [parts[0]]) + DropFalsy(parts[1..])
  }

  /** The metrics list: the comma-separated pieces of the parameter that PHP considers true. */
  function ParseMetrics(param: Option<string>): (metrics: seq<string>)
    ensures forall m :: m in metrics ==> !Falsy(m) && ',' !in m
    ensures forall m :: m in metrics <==> m in Explode(',', param.GetOr(DefaultMetrics)) && !Falsy(m)
  {
    DropFalsy(Explode(',', param.GetOr(DefaultMetrics)))
  }

  // ---------------------------------------------------------------------------
  // Specification of the three phases

  /** `$score?->$m`: the score's value for the metric, null without a score or attribute. */
  function ScoreValue(score: Option<map<string, Option<real>>>, m: string): Option<real> {
    if score.Some? && m in score.value then score.value[m] else None
  }

  function ActualRow(c: Country, year: int, metrics: seq<string>): Row {
    Row(Upper(c.isoCode), c.name, year, Actual, None,
        map m | m in metrics :: ScoreValue(c.score, m), map[], map[])
  }

  /** The actual index: the countries' rows keyed by upper-cased ISO code, a later country replacing an earlier one. */
  function ActualIndex(countries: seq<Country>, year: int, metrics: seq<string>): Dict<Row>
    decreases |countries|
  {
    if |countries| == 0 then Empty()
    else
      var last := countries[|countries| - 1];
      Put(ActualIndex(countries[..|countries| - 1], year, metrics), Upper(last.isoCode), ActualRow(last, year, metrics))
  }

  /** A prediction is used when its year and metric were requested and its upper-cased ISO code is true in PHP. */
  predicate Used(p: Prediction, year: int, metrics: seq<string>) {
    p.year == year && p.metric.Some? && p.metric.value in metrics && !Falsy(Upper(p.iso3))
  }

  /** The row the first used record of an ISO code creates. */
  function SeedRow(p: Prediction, actual: Dict<Row>, year: int): Row {
    var iso := Upper(p.iso3);
    Row(iso, if iso in actual.entries then actual.entries[iso].name else None, year, Predicted,
        Some(Provenance(p.forecastMethod, p.version)), map[], map[], map[])
  }

  /** A record's value and interval bounds written into a row. */
  function WithRecord(row: Row, p: Prediction): Row
    requires p.metric.Some?
  {
    var m := p.metric.value;
    row.(values := row.values[m := p.value], loCi := row.loCi[m := p.loCi], hiCi := row.hiCi[m := p.hiCi])
  }

  /** The predicted index built from the records in order. */
  function PredictedIndex(ps: seq<Prediction>, actual: Dict<Row>, year: int, metrics: seq<string>): Dict<Row>
    decreases |ps|
  {
    if |ps| == 0 then Empty()
    else
      var prev := PredictedIndex(ps[..|ps| - 1], actual, year, metrics);
      var p := ps[|ps| - 1];
      if !Used(p, year, metrics) then prev
      else
        var iso := Upper(p.iso3);
        var row := if iso in prev.entries then prev.entries[iso] else SeedRow(p, actual, year);
        Put(prev, iso, WithRecord(row, p))
  }

  function BareRow(iso: string, year: int): Row {
    Row(iso, None, year, Predicted, None, map[], map[], map[])
  }

  /** The row of an ISO code without predictions: its actual row or a bare one, tagged predicted, every metric present. */
  function Skeleton(iso: string, actual: Dict<Row>, year: int, metrics: seq<string>): Row {
    var base := if iso in actual.entries then actual.entries[iso] else BareRow(iso, year);
    var keys := base.values.Keys + (set m | m in metrics);
    base.(source := Predicted,
          values := map m | m in keys :: if m in base.values then base.values[m] else None)
  }

  /** The merged ISO codes: `sort(array_unique(array_merge(keys, keys)))`. */
  function AllIsos(actual: Dict<Row>, pred: Dict<Row>): seq<string> {
    SortStrings(Unique(actual.keys + pred.keys))
  }

  function MergedRow(iso: string, actual: Dict<Row>, pred: Dict<Row>, year: int, metrics: seq<string>): Row {
    if iso in pred.entries then pred.entries[iso] else Skeleton(iso, actual, year, metrics)
  }

  function MergedRows(isos: seq<string>, actual: Dict<Row>, pred: Dict<Row>, year: int, metrics: seq<string>): seq<Row> {
    seq(|isos|, i requires 0 <= i < |isos| => MergedRow(isos[i], actual, pred, year, metrics))
  }

  /** The rows the endpoint returns for a year and a metrics list. */
  function MapRows(year: int, metrics: seq<string>, countries: seq<Country>, predictions: Option<seq<Prediction>>): seq<Row> {
    var actual := ActualIndex(countries, year, metrics);
    if year <= LastActualYear then Values(actual)
    else
      var pred := if predictions.Some? then PredictedIndex(predictions.value, actual, year, metrics) else Empty();
      MergedRows(AllIsos(actual, pred), actual, pred, year, metrics)
  }

  function IsosOf(rows: seq<Row>): seq<string> {
    seq(|rows|, i requires 0 <= i < |rows| => rows[i].iso3)
  }

  // ---------------------------------------------------------------------------
  // The endpoint

  method ForYear(yearParam: Option<int>, metricsParam: Option<string>,
                 countries: seq<Country>, predictions: Option<seq<Prediction>>)
    returns (rows: seq<Row>)
    ensures rows == MapRows(RequestedYear(yearParam), ParseMetrics(metricsParam), countries, predictions)
    ensures RequestedYear(yearParam) <= LastActualYear ==>
      forall r :: r in rows ==> r.source == Actual && r.year == RequestedYear(yearParam)
    ensures RequestedYear(yearParam) > LastActualYear ==>
      (forall r :: r in rows ==> r.source == Predicted && r.year == RequestedYear(yearParam)) &&
      StrictlySortedStrings(IsosOf(rows))
  {
    var year := RequestedYear(yearParam);
    var metrics := ParseMetrics(metricsParam);
    var actual := BuildActualIndex(countries, year, metrics);
    if year <= LastActualYear {
      rows := Values(actual);
      ActualIndexRows(countries, year, metrics);
      return;
    }
    var pred: Dict<Row> := Empty();
    if predictions.Some? {
      pred := BuildPredictedIndex(predictions.value, actual, year, metrics);
    }
    rows := Merge(actual, pred, year, metrics);
    MergeShape(countries, predictions, year, metrics);
  }

  /** Phase 1: one row per country, keyed by upper-cased ISO code. */
  method BuildActualIndex(countries: seq<Country>, year: int, metrics: seq<string>) returns (actual: Dict<Row>)
    ensures actual == ActualIndex(countries, year, metrics)
  {
    actual := Empty();
    var i := 0;
    while i < |countries|
      invariant i <= |countries|
      invariant actual == ActualIndex(countries[..i], year, metrics)
    {
      var row := BuildActualRow(countries[i], year, metrics);
      assert countries[..i + 1][..i] == countries[..i];
      actual := Put(actual, Upper(countries[i].isoCode), row);
      i := i + 1;
    }
    assert countries[..i] == countries;
  }

  /** The body of the countries loop: the country's row with every requested metric read from its score. */
  method BuildActualRow(c: Country, year: int, metrics: seq<string>) returns (row: Row)
    ensures row == ActualRow(c, year, metrics)
  {
    row := Row(Upper(c.isoCode), c.name, year, Actual, None, map[], map[], map[]);
    var j := 0;
    while j < |metrics|
      invariant j <= |metrics|
      invariant row == ActualRow(c, year, metrics[..j])
    {
      assert metrics[..j + 1] == metrics[..j] + [metrics[j]];
      row := row.(values := row.values[metrics[j] := ScoreValue(c.score, metrics[j])]);
      j := j + 1;
    }
    assert metrics[..j] == metrics;
  }

  /** Phase 2: the used records grouped into one row per ISO code. */
  method BuildPredictedIndex(ps: seq<Prediction>, actual: Dict<Row>, year: int, metrics: seq<string>) returns (pred: Dict<Row>)
    ensures pred == PredictedIndex(ps, actual, year, metrics)
  {
    pred := Empty();
    var k := 0;
    while k < |ps|
      invariant k <= |ps|
      invariant pred == PredictedIndex(ps[..k], actual, year, metrics)
    {
      PredictedIndexSnoc(ps, k, actual, year, metrics);
      pred := AddRecord(pred, ps[k], actual, year, metrics);
      k := k + 1;
    }
    assert ps[..k] == ps;
  }

  /**
   * The body of the records loop: an unused record is skipped; a used one
   * creates its code's row if needed and writes its value and bounds into it.
   */
  method AddRecord(pred: Dict<Row>, p: Prediction, actual: Dict<Row>, year: int, metrics: seq<string>) returns (next: Dict<Row>)
    ensures !Used(p, year, metrics) ==> next == pred
    ensures Used(p, year, metrics) ==>
      var iso := Upper(p.iso3);
      next == Put(pred, iso, WithRecord(if iso in pred.entries then pred.entries[iso] else SeedRow(p, actual, year), p))
  {
    next := pred;
    if p.year != year {
      return;
    }
    var metric := p.metric;
    if !(metric.Some? && metric.value in metrics) {
      return;
    }
    var iso := Upper(p.iso3);
    if Falsy(iso) {
      return;
    }
    if iso !in next.entries {
      next := Put(next, iso, SeedRow(p, actual, year));
    }
    var row := next.entries[iso];
    next := Put(next, iso, row.(values := row.values[metric.value := p.value],
                                loCi := row.loCi[metric.value := p.loCi],
                                hiCi := row.hiCi[metric.value := p.hiCi]));
  }

  /** The index of one more record is the previous index with that record added. */
  lemma PredictedIndexSnoc(ps: seq<Prediction>, k: nat, actual: Dict<Row>, year: int, metrics: seq<string>)
    requires k < |ps|
    ensures var prev := PredictedIndex(ps[..k], actual, year, metrics);
      var p := ps[k];
      var iso := Upper(p.iso3);
      PredictedIndex(ps[..k + 1], actual, year, metrics) ==
        if !Used(p, year, metrics) then prev
        else Put(prev, iso, WithRecord(if iso in prev.entries then prev.entries[iso] else SeedRow(p, actual, year), p))
  {
    assert ps[..k + 1][..k] == ps[..k];
  }

  /** Phase 3: one row per code of the sorted union, the predicted row or a skeleton. */
  method Merge(actual: Dict<Row>, pred: Dict<Row>, year: int, metrics: seq<string>) returns (out: seq<Row>)
    ensures out == MergedRows(AllIsos(actual, pred), actual, pred, year, metrics)
  {
    var allIsos := AllIsos(actual, pred);
    out := [];
    var n := 0;
    while n < |allIsos|
      invariant n <= |allIsos|
      invariant out == MergedRows(allIsos[..n], actual, pred, year, metrics)
    {
      var row := MergeOne(allIsos[n], actual, pred, year, metrics);
      MergedRowsSnoc(allIsos, n, actual, pred, year, metrics);
      out := out + [row];
      n := n + 1;
    }
    assert allIsos[..n] == allIsos;
  }

  /** Merging one more code appends its row. */
  lemma MergedRowsSnoc(isos: seq<string>, n: nat, actual: Dict<Row>, pred: Dict<Row>, year: int, metrics: seq<string>)
    requires n < |isos|
    ensures MergedRows(isos[..n + 1], actual, pred, year, metrics) ==
      MergedRows(isos[..n], actual, pred, year, metrics) + [MergedRow(isos[n], actual, pred, year, metrics)]
  {
  }

  /** One step of the merge loop: the predicted row of the code, or else its skeleton. */
  method MergeOne(iso: string, actual: Dict<Row>, pred: Dict<Row>, year: int, metrics: seq<string>) returns (row: Row)
    ensures row == MergedRow(iso, actual, pred, year, metrics)
  {
    if iso in pred.entries {
      row := pred.entries[iso];
    } else {
      row := FillSkeleton(iso, actual, year, metrics);
    }
  }

  /** The body of the merge loop for a code without a predicted row. */
  method FillSkeleton(iso: string, actual: Dict<Row>, year: int, metrics: seq<string>) returns (row: Row)
    ensures row == Skeleton(iso, actual, year, metrics)
  {
    row := if iso in actual.entries then actual.entries[iso] else BareRow(iso, year);
    row := row.(source := Predicted);
    var j := 0;
    while j < |metrics|
      invariant j <= |metrics|
      invariant row == Skeleton(iso, actual, year, metrics[..j])
    {
      assert metrics[..j + 1] == metrics[..j] + [metrics[j]];
      var m := metrics[j];
      row := row.(values := row.values[m := if m in row.values then row.values[m] else None]);
      j := j + 1;
    }
    assert metrics[..j] == metrics;
  }

  // ---------------------------------------------------------------------------
  // Properties

  function IsoCodes(countries: seq<Country>): set<string> {
    set c | c in countries :: Upper(c.isoCode)
  }

  /** Every row of the actual index is an actual row of the requested year, under its own ISO code, with exactly the requested metrics. */
  lemma {:induction false} ActualIndexRows(countries: seq<Country>, year: int, metrics: seq<string>)
    ensures ActualIndex(countries, year, metrics).entries.Keys == IsoCodes(countries)
    ensures forall iso :: iso in ActualIndex(countries, year, metrics).entries ==>
      var r := ActualIndex(countries, year, metrics).entries[iso];
      r.iso3 == iso && r.source == Actual && r.year == year && r.provenance == None &&
      r.values.Keys == (set m | m in metrics) && r.loCi == map[] && r.hiCi == map[]
    decreases |countries|
  {
    if |countries| > 0 {
      var init := countries[..|countries| - 1];
      ActualIndexRows(init, year, metrics);
      IsoCodesSnoc(countries);
    }
  }

  /** One more country adds its upper-cased code. */
  lemma IsoCodesSnoc(countries: seq<Country>)
    requires |countries| > 0
    ensures IsoCodes(countries) == IsoCodes(countries[..|countries| - 1]) + {Upper(countries[|countries| - 1].isoCode)}
  {
    assert countries == countries[..|countries| - 1] + [countries[|countries| - 1]];
  }

  /** The row for an ISO code is built from the last country with that code; the name and metric values come from it. */
  lemma {:induction false} ActualIndexLastWins(countries: seq<Country>, year: int, metrics: seq<string>, i: nat)
    requires i < |countries|
    requires forall j :: i < j < |countries| ==> Upper(countries[j].isoCode) != Upper(countries[i].isoCode)
    ensures Upper(countries[i].isoCode) in ActualIndex(countries, year, metrics).entries
    ensures ActualIndex(countries, year, metrics).entries[Upper(countries[i].isoCode)] == ActualRow(countries[i], year, metrics)
    decreases |countries|
  {
    if i < |countries| - 1 {
      var init := countries[..|countries| - 1];
      ActualIndexLastWins(init, year, metrics, i);
    }
  }

  /** Up to the last actual year the endpoint returns exactly the actual index's rows, all tagged actual, whatever the predictions. */
  lemma ActualYears(year: int, metrics: seq<string>, countries: seq<Country>, p1: Option<seq<Prediction>>, p2: Option<seq<Prediction>>)
    requires year <= LastActualYear
    ensures MapRows(year, metrics, countries, p1) == Values(ActualIndex(countries, year, metrics))
    ensures MapRows(year, metrics, countries, p1) == MapRows(year, metrics, countries, p2)
    ensures |MapRows(year, metrics, countries, p1)| == |IsoCodes(countries)|
    ensures forall r :: r in MapRows(year, metrics, countries, p1) ==> r.source == Actual && r.year == year
  {
    var actual := ActualIndex(countries, year, metrics);
    ActualIndexRows(countries, year, metrics);
    DistinctKeysCount(actual);
  }

  lemma DistinctKeysCount<V>(d: Dict<V>)
    ensures |d.keys| == |d.entries.Keys|
  {
    DistinctCardinality(d.keys);
    assert (set k | k in d.keys) == d.entries.Keys;
  }

  lemma {:induction false} DistinctCardinality(s: seq<string>)
    requires Distinct(s)
    ensures |set k | k in s| == |s|
    decreases |s|
  {
    if |s| > 0 {
      var init := s[..|s| - 1];
      DistinctCardinality(init);
      assert (set k | k in s) == (set k | k in init) + {s[|s| - 1]};
      assert s[|s| - 1] !in init;
    }
  }

  // ----- the predicted index

  function UsedIsos(ps: seq<Prediction>, year: int, metrics: seq<string>): set<string> {
    set p | p in ps && Used(p, year, metrics) :: Upper(p.iso3)
  }

  /** The metrics of the used records for one ISO code. */
  function UsedMetrics(ps: seq<Prediction>, iso: string, year: int, metrics: seq<string>): set<string> {
    set p | p in ps && Used(p, year, metrics) && Upper(p.iso3) == iso :: p.metric.value
  }

  /** The fields every row of the predicted index has, whatever records built it. */
  ghost predicate PredictedRowShape(r: Row, iso: string, actual: Dict<Row>, year: int, metrics: seq<string>) {
    && r.iso3 == iso && r.source == Predicted && r.year == year && r.provenance.Some?
    && r.name == (if iso in actual.entries then actual.entries[iso].name else None)
    && r.loCi.Keys == r.values.Keys && r.hiCi.Keys == r.values.Keys
    && r.values.Keys <= set m | m in metrics
  }

  /** The predicted index has a row exactly for the ISO codes of used records. */
  lemma {:induction false} PredictedIndexKeys(ps: seq<Prediction>, actual: Dict<Row>, year: int, metrics: seq<string>)
    ensures PredictedIndex(ps, actual, year, metrics).entries.Keys == UsedIsos(ps, year, metrics)
    decreases |ps|
  {
    if |ps| > 0 {
      var init := ps[..|ps| - 1];
      var p := ps[|ps| - 1];
      PredictedIndexKeys(init, actual, year, metrics);
      assert ps == init + [p];
      assert UsedIsos(ps, year, metrics) == UsedIsos(init, year, metrics) + (if Used(p, year, metrics) then {Upper(p.iso3)} else {});
    }
  }

  /**
   * Each row of the predicted index is a predicted row of the year under its
   * own code, named after the actual index, with method and version, and with
   * value and interval keys for requested metrics only.
   */
  lemma {:induction false} PredictedIndexShape(ps: seq<Prediction>, actual: Dict<Row>, year: int, metrics: seq<string>)
    ensures forall iso :: iso in PredictedIndex(ps, actual, year, metrics).entries ==>
      PredictedRowShape(PredictedIndex(ps, actual, year, metrics).entries[iso], iso, actual, year, metrics)
    decreases |ps|
  {
    if |ps| > 0 {
      PredictedIndexShape(ps[..|ps| - 1], actual, year, metrics);
    }
  }

  /** The metric keys of a predicted row are the metrics of the used records for its code. */
  lemma {:induction false} PredictedIndexMetrics(ps: seq<Prediction>, actual: Dict<Row>, year: int, metrics: seq<string>, iso: string)
    requires iso in PredictedIndex(ps, actual, year, metrics).entries
    ensures PredictedIndex(ps, actual, year, metrics).entries[iso].values.Keys == UsedMetrics(ps, iso, year, metrics)
    decreases |ps|
  {
    var init := ps[..|ps| - 1];
    var p := ps[|ps| - 1];
    var prev := PredictedIndex(init, actual, year, metrics);
    UsedMetricsSnoc(ps, iso, year, metrics);
    if iso in prev.entries {
      PredictedIndexMetrics(init, actual, year, metrics, iso);
    } else {
      PredictedIndexKeys(init, actual, year, metrics);
      assert UsedMetrics(init, iso, year, metrics) == {};
    }
  }

  /** One more record adds its metric to its own code's metrics when it is used. */
  lemma UsedMetricsSnoc(ps: seq<Prediction>, iso: string, year: int, metrics: seq<string>)
    requires |ps| > 0
    ensures var p := ps[|ps| - 1];
      UsedMetrics(ps, iso, year, metrics) ==
        UsedMetrics(ps[..|ps| - 1], iso, year, metrics) +
        (if Used(p, year, metrics) && Upper(p.iso3) == iso then {p.metric.value} else {})
  {
    assert ps == ps[..|ps| - 1] + [ps[|ps| - 1]];
  }

  /** Records that are not used leave the predicted index unchanged. */
  function UsedOnly(ps: seq<Prediction>, year: int, metrics: seq<string>): (r: seq<Prediction>)
    ensures forall p :: p in r <==> p in ps && Used(p, year, metrics)
    decreases |ps|
  {
    if |ps| == 0 then []
    else
      var init := UsedOnly(ps[..|ps| - 1], year, metrics);
      var p := ps[|ps| - 1];
      assert ps == ps[..|ps| - 1] + [p];
      if Used(p, year, metrics) then init + [p] else init
  }

  lemma {:induction false} OnlyUsedRecordsMatter(ps: seq<Prediction>, actual: Dict<Row>, year: int, metrics: seq<string>)
    ensures PredictedIndex(ps, actual, year, metrics) == PredictedIndex(UsedOnly(ps, year, metrics), actual, year, metrics)
    decreases |ps|
  {
    if |ps| > 0 {
      var init := ps[..|ps| - 1];
      var p := ps[|ps| - 1];
      OnlyUsedRecordsMatter(init, actual, year, metrics);
      var u := UsedOnly(init, year, metrics);
      if Used(p, year, metrics) {
        assert (u + [p])[..|u + [p]| - 1] == u;
      }
    }
  }

  /** The first used record of an ISO code decides the row's method and version; later records never change them. */
  lemma {:induction false} SeedFromFirstUsed(ps: seq<Prediction>, actual: Dict<Row>, year: int, metrics: seq<string>, i: nat)
    requires i < |ps| && Used(ps[i], year, metrics)
    requires forall j :: 0 <= j < i && Used(ps[j], year, metrics) ==> Upper(ps[j].iso3) != Upper(ps[i].iso3)
    ensures Upper(ps[i].iso3) in PredictedIndex(ps, actual, year, metrics).entries
    ensures PredictedIndex(ps, actual, year, metrics).entries[Upper(ps[i].iso3)].provenance
            == Some(Provenance(ps[i].forecastMethod, ps[i].version))
    decreases |ps|
  {
    var iso := Upper(ps[i].iso3);
    if i == |ps| - 1 {
      var init := ps[..|ps| - 1];
      PredictedIndexKeys(init, actual, year, metrics);
    } else {
      SeedFromFirstUsed(ps[..|ps| - 1], actual, year, metrics, i);
    }
  }

  /** A metric's value and interval bounds come from the last used record for that ISO code and metric. */
  lemma {:induction false} MetricFromLastUsed(ps: seq<Prediction>, actual: Dict<Row>, year: int, metrics: seq<string>, i: nat)
    requires i < |ps| && Used(ps[i], year, metrics)
    requires forall j :: i < j < |ps| && Used(ps[j], year, metrics) && Upper(ps[j].iso3) == Upper(ps[i].iso3)
               ==> ps[j].metric != ps[i].metric
    ensures Upper(ps[i].iso3) in PredictedIndex(ps, actual, year, metrics).entries
    ensures var r := PredictedIndex(ps, actual, year, metrics).entries[Upper(ps[i].iso3)];
      var m := ps[i].metric.value;
      m in r.values && m in r.loCi && m in r.hiCi &&
      r.values[m] == ps[i].value && r.loCi[m] == ps[i].loCi && r.hiCi[m] == ps[i].hiCi
    decreases |ps|
  {
    if i < |ps| - 1 {
      MetricFromLastUsed(ps[..|ps| - 1], actual, year, metrics, i);
    }
  }

  // ----- the merge

  lemma UniqueOfDistinct(s: seq<string>)
    requires Distinct(s)
    ensures Unique(s) == s
    decreases |s|
  {
    if |s| > 0 {
      UniqueOfDistinct(s[..|s| - 1]);
    }
  }

  /** The skeleton of an ISO code is tagged predicted and has every requested metric, null where the actual row has none. */
  lemma SkeletonShape(iso: string, actual: Dict<Row>, year: int, metrics: seq<string>)
    ensures var r := Skeleton(iso, actual, year, metrics);
      && r.source == Predicted
      && r.name == (if iso in actual.entries then actual.entries[iso].name else None)
      && (forall m :: m in metrics ==> m in r.values)
      && (forall m :: m in metrics ==>
            r.values[m] == (if iso in actual.entries && m in actual.entries[iso].values then actual.entries[iso].values[m] else None))
  {
  }

  /** The merged codes are strictly sorted and are exactly the codes of both indexes. */
  lemma AllIsosSortedUnion(actual: Dict<Row>, pred: Dict<Row>)
    ensures StrictlySortedStrings(AllIsos(actual, pred))
    ensures forall iso :: iso in AllIsos(actual, pred) <==> iso in actual.entries || iso in pred.entries
  {
    SortDistinctStrings(Unique(actual.keys + pred.keys));
  }

  /** Every row stands under its own code in both indexes, so the merged rows carry the merged codes. */
  lemma MergedRowsIsos(isos: seq<string>, actual: Dict<Row>, pred: Dict<Row>, year: int, metrics: seq<string>)
    requires forall iso :: iso in actual.entries ==> actual.entries[iso].iso3 == iso
    requires forall iso :: iso in pred.entries ==> pred.entries[iso].iso3 == iso
    ensures IsosOf(MergedRows(isos, actual, pred, year, metrics)) == isos
  {
  }

  /** The row shapes the merge needs from both indexes: every row under its own code, of the requested year. */
  ghost predicate Keyed(d: Dict<Row>, year: int) {
    forall iso :: iso in d.entries ==> d.entries[iso].iso3 == iso && d.entries[iso].year == year
  }

  /** Merging two keyed indexes, whose predicted rows are tagged predicted, gives the sorted union of the codes. */
  lemma MergedRowsShape(actual: Dict<Row>, pred: Dict<Row>, year: int, metrics: seq<string>)
    requires Keyed(actual, year) && Keyed(pred, year)
    requires forall iso :: iso in pred.entries ==> pred.entries[iso].source == Predicted
    ensures var rows := MergedRows(AllIsos(actual, pred), actual, pred, year, metrics);
      && StrictlySortedStrings(IsosOf(rows))
      && (forall iso :: iso in IsosOf(rows) <==> iso in actual.entries || iso in pred.entries)
      && (forall i :: 0 <= i < |rows| ==>
            rows[i] == (if rows[i].iso3 in pred.entries then pred.entries[rows[i].iso3]
                        else Skeleton(rows[i].iso3, actual, year, metrics)))
      && (forall r :: r in rows ==> r.source == Predicted && r.year == year)
  {
    var isos := AllIsos(actual, pred);
    AllIsosSortedUnion(actual, pred);
    MergedRowsIsos(isos, actual, pred, year, metrics);
    MergedRowsTagged(isos, actual, pred, year, metrics);
  }

  /** Each merged row is the predicted row of its code or else its skeleton, a predicted row of the year. */
  lemma MergedRowsTagged(isos: seq<string>, actual: Dict<Row>, pred: Dict<Row>, year: int, metrics: seq<string>)
    requires Keyed(actual, year) && Keyed(pred, year)
    requires forall iso :: iso in pred.entries ==> pred.entries[iso].source == Predicted
    ensures var rows := MergedRows(isos, actual, pred, year, metrics);
      && (forall i :: 0 <= i < |rows| ==>
            rows[i] == (if rows[i].iso3 in pred.entries then pred.entries[rows[i].iso3]
                        else Skeleton(rows[i].iso3, actual, year, metrics)))
      && (forall r :: r in rows ==> r.source == Predicted && r.year == year)
  {
    MergedRowsIsos(isos, actual, pred, year, metrics);
  }

  /** The actual index and the predicted index are keyed; the predicted rows are tagged predicted. */
  lemma IndexesKeyed(countries: seq<Country>, predictions: Option<seq<Prediction>>, year: int, metrics: seq<string>)
    ensures var actual := ActualIndex(countries, year, metrics);
      var pred := if predictions.Some? then PredictedIndex(predictions.value, actual, year, metrics) else Empty();
      Keyed(actual, year) && Keyed(pred, year) &&
      forall iso :: iso in pred.entries ==> pred.entries[iso].source == Predicted
  {
    var actual := ActualIndex(countries, year, metrics);
    ActualIndexRows(countries, year, metrics);
    if predictions.Some? {
      PredictedIndexShape(predictions.value, actual, year, metrics);
    }
  }

  /**
   * After the last actual year the rows are tagged predicted, their ISO codes
   * are strictly sorted (one row per code) and are exactly the codes of the
   * actual and the predicted index; a code with a predicted row gets it
   * unchanged, any other code its skeleton.
   */
  lemma MergeShape(countries: seq<Country>, predictions: Option<seq<Prediction>>, year: int, metrics: seq<string>)
    requires year > LastActualYear
    ensures var actual := ActualIndex(countries, year, metrics);
      var pred := if predictions.Some? then PredictedIndex(predictions.value, actual, year, metrics) else Empty();
      var rows := MapRows(year, metrics, countries, predictions);
      && StrictlySortedStrings(IsosOf(rows))
      && (forall iso :: iso in IsosOf(rows) <==> iso in actual.entries || iso in pred.entries)
      && (forall i :: 0 <= i < |rows| ==>
            rows[i] == (if rows[i].iso3 in pred.entries then pred.entries[rows[i].iso3]
                        else Skeleton(rows[i].iso3, actual, year, metrics)))
      && (forall r :: r in rows ==> r.source == Predicted && r.year == year)
  {
    var actual := ActualIndex(countries, year, metrics);
    var pred := if predictions.Some? then PredictedIndex(predictions.value, actual, year, metrics) else Empty();
    IndexesKeyed(countries, predictions, year, metrics);
    MergedRowsShape(actual, pred, year, metrics);
    assert MapRows(year, metrics, countries, predictions) == MergedRows(AllIsos(actual, pred), actual, pred, year, metrics);
  }

  /** Without predictions the rows are the actual ISO codes in sorted order, each as its skeleton. */
  lemma NoPredictionsGiveSkeletons(countries: seq<Country>, year: int, metrics: seq<string>)
    requires year > LastActualYear
    ensures var actual := ActualIndex(countries, year, metrics);
      var rows := MapRows(year, metrics, countries, None);
      var isos := SortStrings(actual.keys);
      && |rows| == |isos|
      && forall i :: 0 <= i < |rows| ==> rows[i] == Skeleton(isos[i], actual, year, metrics)
  {
    var actual := ActualIndex(countries, year, metrics);
    assert actual.keys + [] == actual.keys;
    UniqueOfDistinct(actual.keys);
  }
}
