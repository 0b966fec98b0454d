/**
 * The text of a country's map popup (resources/js/map/popup.ts): the
 * optional confidence-interval line of a forecast and the assembled HTML.
 * `toFixed(2)` is the parameter `fmt`.
 */
module Popup {
  import opened Wrappers
  import opened Text
  import opened Scores
  import opened MapData

  /** `${metric}_lo_ci` or `${metric}_hi_ci` read from a row: a number, or nothing. */
  function CiBound(row: map<string, Field>, key: string): Option<real> {
    if key in row && row[key].Num? then Some(row[key].n) else None
  }

  /** The interval line itself. */
  function CiLine(metric: string, lo: real, hi: real, fmt: real -> string): string {
    "<br>CI (" + metric + "): " + fmt(lo) + " \U{2026} " + fmt(hi)
  }

  /**
   * `buildCiText`: empty up to the last observed year, unless exactly one
   * non-empty indicator is selected and a row is given, and unless both
   * interval bounds of that indicator are numbers; otherwise the interval line.
   */
  function BuildCiText(year: int, indicators: seq<string>, row: Option<map<string, Field>>, lastActualYear: int,
                       fmt: real -> string): (text: string)
    ensures year <= lastActualYear ==> text == ""
    ensures |indicators| != 1 || row.None? ==> text == ""
    ensures text != "" <==>
      year > lastActualYear && |indicators| == 1 && indicators[0] != "" && row.Some? &&
      CiBound(row.value, indicators[0] + "_lo_ci").Some? && CiBound(row.value, indicators[0] + "_hi_ci").Some?
    ensures text != "" ==>
      text == CiLine(indicators[0], CiBound(row.value, indicators[0] + "_lo_ci").value,
                     CiBound(row.value, indicators[0] + "_hi_ci").value, fmt)
  {
    if year <= lastActualYear then ""
    else
      var metric := if |indicators| == 1 then Some(indicators[0]) else None;
      if metric.None? || metric.value == "" || row.None? then ""
      else
        var lo := CiBound(row.value, metric.value + "_lo_ci");
        var hi := CiBound(row.value, metric.value + "_hi_ci");
        if lo.Some? && hi.Some? then CiLine(metric.value, lo.value, hi.value, fmt) else ""
  }

  function SourceName(source: Source): string {
    match source
    case Actual => "actual"
    case Predicted => "predicted"
  }

  /** The score as the popup shows it: formatted, or "no data" for null. */
  function ScoreText(score: Option<real>, fmt: real -> string): string {
    if score.Some? then fmt(score.value) else "no data"
  }

  /** The head of the popup up to the score. */
  function PopupHead(countryName: string, year: int): string {
    "<strong>" + countryName + "</strong>" + "<br>Score (" + IntToString(year) + "): "
  }

  /** The tail of the popup after the score. */
  function PopupTail(source: Source, ciText: string): string {
    "<br>Source: " + SourceName(source) + ciText
  }

  /**
   * `buildPopupHtml`: the name in bold and the year's score, then the source,
   * with the interval text appended as it is.
   */
  function BuildPopupHtml(countryName: string, year: int, score: Option<real>, source: Source, ciText: string,
                          fmt: real -> string): (html: string)
    ensures |html| == |PopupHead(countryName, year)| + |ScoreText(score, fmt)| + |PopupTail(source, ciText)|
    ensures html[..|PopupHead(countryName, year)|] == PopupHead(countryName, year)
    ensures html[|html| - |PopupTail(source, ciText)|..] == PopupTail(source, ciText)
    ensures html[|html| - |ciText|..] == ciText
    ensures html[|PopupHead(countryName, year)|..|html| - |PopupTail(source, ciText)|] == ScoreText(score, fmt)
  {
    var scoreText := if score.Some? then fmt(score.value) else "no data";
    var head := PopupHead(countryName, year);
    var tail := PopupTail(source, ciText);
    var html := head + scoreText + tail;
    assert html[..|head|] == head;
    assert html[|html| - |tail|..] == tail;
    assert html[|head|..|html| - |tail|] == scoreText;
    html
  }

  /** As long as the number is not formatted as "no data", the popup says "no data" exactly for a null score. */
  lemma NoDataIffNull(score: Option<real>, fmt: real -> string)
    requires score.Some? ==> fmt(score.value) != "no data"
    ensures ScoreText(score, fmt) == "no data" <==> score.None?
  {
  }

  /** The interval line only ever appears for a forecast year with exactly one indicator. */
  lemma CiOnlyForSingleForecast(year: int, indicators: seq<string>, row: Option<map<string, Field>>, lastActualYear: int,
                                fmt: real -> string)
    requires BuildCiText(year, indicators, row, lastActualYear, fmt) != ""
    ensures year > lastActualYear && |indicators| == 1
    ensures BuildCiText(year, indicators, row, lastActualYear, fmt)[..8] == "<br>CI ("
  {
  }
}
