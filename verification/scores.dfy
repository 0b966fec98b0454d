/**
 * The composite score of the map (resources/js/utils/scores.ts): a matrix of
 * normalised indicator values per ISO code, and the sum of a country's
 * normalised values over the selected indicators.
 */
module Scores {
  import opened Wrappers
  import opened Text
  import opened Sequences
  import opened Dicts
  import opened Stats

  /** A field of a map row as the front end receives it; `Absent` stands for undefined. */
  datatype Field = Num(n: real) | Str(s: string) | Absent

  /** A row of the map-data endpoint: its ISO code (possibly missing) and every other key. */
  datatype MapRow = MapRow(iso3: Option<string>, fields: map<string, Field>)

  /** `r.iso3?.toUpperCase()`, kept only when it is a non-empty string. */
  function RowIso(r: MapRow): (iso: Option<string>)
    ensures iso.Some? <==> r.iso3.Some? && r.iso3.value != ""
    ensures iso.Some? ==> iso.value == Upper(r.iso3.value)
  {
    if r.iso3.None? then None
    else
      var u := Upper(r.iso3.value);
      if u == "" then None else Some(u)
  }

  /** `typeof r[ind] === 'number' ? r[ind] : null`. */
  function NumberOf(r: MapRow, ind: string): Option<real> {
    if ind in r.fields && r.fields[ind].Num? then Some(r.fields[ind].n) else None
  }

  /** The ISO codes of the rows that have one. */
  function RowIsos(rows: seq<MapRow>): set<string> {
    set i | 0 <= i < |rows| && RowIso(rows[i]).Some? :: RowIso(rows[i]).value
  }

  /** `perIso`: one indicator's value per ISO code, a later row replacing an earlier one. */
  function PerIso(rows: seq<MapRow>, ind: string): Dict<Option<real>>
    decreases |rows|
  {
    if |rows| == 0 then Empty()
    else
      var prev := PerIso(rows[..|rows| - 1], ind);
      var r := rows[|rows| - 1];
      if RowIso(r).None? then prev else Put(prev, RowIso(r).value, NumberOf(r, ind))
  }

  /** The indicator matrix: every indicator's normalised per-ISO values, in the order the indicators are listed. */
  function Matrix(rows: seq<MapRow>, indicators: seq<string>): Dict<Dict<Option<real>>>
    decreases |indicators|
  {
    if |indicators| == 0 then Empty()
    else
      var ind := indicators[|indicators| - 1];
      Put(Matrix(rows, indicators[..|indicators| - 1]), ind, Normalize(PerIso(rows, ind)))
  }

  /** `buildIndicatorMatrix`. */
  method BuildIndicatorMatrix(rows: seq<MapRow>, indicators: seq<string>) returns (matrix: Dict<Dict<Option<real>>>)
    ensures matrix == Matrix(rows, indicators)
  {
    matrix := Empty();
    var i := 0;
    while i < |indicators|
      invariant i <= |indicators|
      invariant matrix == Matrix(rows, indicators[..i])
    {
      var ind := indicators[i];
      var perIso: Dict<Option<real>> := Empty();
      var j := 0;
      while j < |rows|
        invariant j <= |rows|
        invariant perIso == PerIso(rows[..j], ind)
      {
        var r := rows[j];
        assert rows[..j + 1][..j] == rows[..j];
        j := j + 1;
        if r.iso3.None? {
          continue;
        }
        var iso := Upper(r.iso3.value);
        if iso == "" {
          continue;
        }
        var val := if ind in r.fields && r.fields[ind].Num? then Some(r.fields[ind].n) else None;
        perIso := Put(perIso, iso, val);
      }
      assert rows[..j] == rows;
      assert indicators[..i + 1][..i] == indicators[..i];
      matrix := Put(matrix, ind, Normalize(perIso));
      i := i + 1;
    }
    assert indicators[..i] == indicators;
  }

  /** A matrix entry as `matrix[ind]?.[iso]`, with a missing or null entry counted as 0. */
  function Entry(matrix: Dict<Dict<Option<real>>>, ind: string, iso: string): real {
    if ind in matrix.entries && iso in matrix.entries[ind].entries && matrix.entries[ind].entries[iso].Some?
    then matrix.entries[ind].entries[iso].value
    else 0.0
  }

  /** The sum of an ISO code's entries over the indicators, in list order. */
  function Composite(indicators: seq<string>, matrix: Dict<Dict<Option<real>>>, iso: string): real
    decreases |indicators|
  {
    if |indicators| == 0 then 0.0
    else Composite(indicators[..|indicators| - 1], matrix, iso) + Entry(matrix, indicators[|indicators| - 1], iso)
  }

  /** A country's score: null without indicators, the composite otherwise. */
  function Score(indicators: seq<string>, matrix: Dict<Dict<Option<real>>>, iso: string): Option<real> {
    if |indicators| == 0 then None else Some(Composite(indicators, matrix, iso))
  }

  /** The scores of the rows' ISO codes, in the order the codes first appear. */
  function CountryScores(rows: seq<MapRow>, indicators: seq<string>, matrix: Dict<Dict<Option<real>>>): Dict<Option<real>>
    decreases |rows|
  {
    if |rows| == 0 then Empty()
    else
      var prev := CountryScores(rows[..|rows| - 1], indicators, matrix);
      var r := rows[|rows| - 1];
      if RowIso(r).None? then prev else Put(prev, RowIso(r).value, Score(indicators, matrix, RowIso(r).value))
  }

  /** `buildCountryScores`. */
  method BuildCountryScores(rows: seq<MapRow>, indicators: seq<string>, matrix: Dict<Dict<Option<real>>>)
    returns (result: Dict<Option<real>>)
    ensures result == CountryScores(rows, indicators, matrix)
  {
    result := Empty();
    var j := 0;
    while j < |rows|
      invariant j <= |rows|
      invariant result == CountryScores(rows[..j], indicators, matrix)
    {
      var r := rows[j];
      assert rows[..j + 1][..j] == rows[..j];
      j := j + 1;
      if r.iso3.None? {
        continue;
      }
      var iso := Upper(r.iso3.value);
      if iso == "" {
        continue;
      }
      if |indicators| == 0 {
        result := Put(result, iso, None);
        continue;
      }
      var sum := SumEntries(indicators, matrix, iso);
      result := Put(result, iso, Some(sum));
    }
    assert rows[..j] == rows;
  }

  /** The inner loop of `buildCountryScores`: `sum += v` for every non-null entry. */
  method SumEntries(indicators: seq<string>, matrix: Dict<Dict<Option<real>>>, iso: string) returns (sum: real)
    ensures sum == Composite(indicators, matrix, iso)
  {
    sum := 0.0;
    var i := 0;
    while i < |indicators|
      invariant i <= |indicators|
      invariant sum == Composite(indicators[..i], matrix, iso)
    {
      var ind := indicators[i];
      assert indicators[..i + 1][..i] == indicators[..i];
      if ind in matrix.entries && iso in matrix.entries[ind].entries {
        var v := matrix.entries[ind].entries[iso];
        if v.Some? {
          sum := sum + v.value;
        }
      }
      i := i + 1;
    }
    assert indicators[..i] == indicators;
  }

  // ---------------------------------------------------------------------------
  // Properties

  /** The per-ISO record of an indicator has exactly the rows' ISO codes as keys. */
  lemma {:induction false} PerIsoKeys(rows: seq<MapRow>, ind: string)
    ensures PerIso(rows, ind).entries.Keys == RowIsos(rows)
    decreases |rows|
  {
    if |rows| > 0 {
      PerIsoKeys(rows[..|rows| - 1], ind);
      RowIsosSnoc(rows);
    }
  }

  /** One more row adds its ISO code, if it has one. */
  lemma RowIsosSnoc(rows: seq<MapRow>)
    requires |rows| > 0
    ensures var last := RowIso(rows[|rows| - 1]);
      RowIsos(rows) == RowIsos(rows[..|rows| - 1]) + (if last.Some? then {last.value} else {})
  {
    var init := rows[..|rows| - 1];
    assert forall i :: 0 <= i < |init| ==> init[i] == rows[i];
    if RowIso(rows[|rows| - 1]).Some? {
      assert RowIsos(rows) == RowIsos(init) + {RowIso(rows[|rows| - 1]).value};
    } else {
      assert RowIsos(rows) == RowIsos(init);
    }
  }

  /** For a repeated ISO code the last row with it wins; a non-number value enters as null. */
  lemma {:induction false} PerIsoLastWins(rows: seq<MapRow>, ind: string, i: nat)
    requires i < |rows| && RowIso(rows[i]).Some?
    requires forall j :: i < j < |rows| ==> RowIso(rows[j]) != RowIso(rows[i])
    ensures RowIso(rows[i]).value in PerIso(rows, ind).entries
    ensures PerIso(rows, ind).entries[RowIso(rows[i]).value] == NumberOf(rows[i], ind)
    decreases |rows|
  {
    if i < |rows| - 1 {
      PerIsoLastWins(rows[..|rows| - 1], ind, i);
    }
  }

  /** The matrix's keys are the indicators without repetitions, in first-occurrence order, each mapped to its normalised record. */
  lemma {:induction false} MatrixShape(rows: seq<MapRow>, indicators: seq<string>)
    ensures Matrix(rows, indicators).keys == Unique(indicators)
    ensures forall ind :: ind in Matrix(rows, indicators).entries ==>
      Matrix(rows, indicators).entries[ind] == Normalize(PerIso(rows, ind))
    decreases |indicators|
  {
    if |indicators| > 0 {
      MatrixShape(rows, indicators[..|indicators| - 1]);
    }
  }

  /** Every matrix entry is null or lies in [0, 1], and each indicator's record has the rows' ISO codes as keys. */
  lemma MatrixEntries(rows: seq<MapRow>, indicators: seq<string>)
    ensures var matrix := Matrix(rows, indicators);
      forall ind :: ind in matrix.entries ==> matrix.entries[ind].entries.Keys == RowIsos(rows)
    ensures var matrix := Matrix(rows, indicators);
      forall ind, iso :: ind in matrix.entries && iso in matrix.entries[ind].entries && matrix.entries[ind].entries[iso].Some? ==>
        0.0 <= matrix.entries[ind].entries[iso].value <= 1.0
  {
    var matrix := Matrix(rows, indicators);
    MatrixShape(rows, indicators);
    forall ind | ind in matrix.entries
      ensures matrix.entries[ind].entries.Keys == RowIsos(rows)
      ensures forall iso :: iso in matrix.entries[ind].entries && matrix.entries[ind].entries[iso].Some? ==>
        0.0 <= matrix.entries[ind].entries[iso].value <= 1.0
    {
      PerIsoKeys(rows, ind);
      NormalizeInUnit(PerIso(rows, ind));
    }
  }

  /** The scores have exactly the rows' ISO codes as keys, each with the score of its code. */
  lemma {:induction false} CountryScoresShape(rows: seq<MapRow>, indicators: seq<string>, matrix: Dict<Dict<Option<real>>>)
    ensures CountryScores(rows, indicators, matrix).entries.Keys == RowIsos(rows)
    ensures forall iso :: iso in CountryScores(rows, indicators, matrix).entries ==>
      CountryScores(rows, indicators, matrix).entries[iso] == Score(indicators, matrix, iso)
    decreases |rows|
  {
    if |rows| > 0 {
      CountryScoresShape(rows[..|rows| - 1], indicators, matrix);
      RowIsosSnoc(rows);
    }
  }

  /** A score is null exactly when no indicator is selected. */
  lemma NullScoreIffNoIndicators(rows: seq<MapRow>, indicators: seq<string>, matrix: Dict<Dict<Option<real>>>, iso: string)
    requires iso in CountryScores(rows, indicators, matrix).entries
    ensures CountryScores(rows, indicators, matrix).entries[iso].None? <==> |indicators| == 0
  {
    CountryScoresShape(rows, indicators, matrix);
  }

  /** Matrix entries within [0, 1] keep the composite within [0, |indicators|]. */
  lemma {:induction false} CompositeBounds(indicators: seq<string>, matrix: Dict<Dict<Option<real>>>, iso: string)
    requires forall ind :: ind in matrix.entries && iso in matrix.entries[ind].entries && matrix.entries[ind].entries[iso].Some? ==>
      0.0 <= matrix.entries[ind].entries[iso].value <= 1.0
    ensures 0.0 <= Composite(indicators, matrix, iso) <= |indicators| as real
    decreases |indicators|
  {
    if |indicators| > 0 {
      CompositeBounds(indicators[..|indicators| - 1], matrix, iso);
    }
  }

  /** Scored against the matrix of the same rows, every country gets a number in [0, |indicators|] once an indicator is selected. */
  lemma ScoresBounded(rows: seq<MapRow>, indicators: seq<string>, iso: string)
    requires |indicators| > 0
    requires iso in CountryScores(rows, indicators, Matrix(rows, indicators)).entries
    ensures var s := CountryScores(rows, indicators, Matrix(rows, indicators)).entries[iso];
      s.Some? && 0.0 <= s.value <= |indicators| as real
  {
    var matrix := Matrix(rows, indicators);
    CountryScoresShape(rows, indicators, matrix);
    MatrixEntries(rows, indicators);
    CompositeBounds(indicators, matrix, iso);
  }
}
