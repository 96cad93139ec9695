/** The level the advice page (js/views.js, lines 1384-1398) shows next to
    the weekly wellbeing score: as the page is written, and as its
    decision table evidently means it. `None` means the page shows no
    summary (no entries, or none valid) and falls back to the daily tip. */
module Advice {
  import opened JsValues
  import opened Wellbeing

  /** As written: `interpret(score, entries)` passes the summary object,
      which has no `length`, where the entries belong, and the entry list,
      which is not a number, where the score belongs; the level is always
      "Brak danych". */
  function AdviceAsWritten(entries: seq<Sample>): (r: Option<Level>)
    ensures r.Some? <==> Score7Days(entries).Some?
    ensures r.Some? ==> r.value == NoData
  {
    var score := if entries != [] then Score7Days(entries) else None;
    if score.None? then None
    else Some(Interpret(None, NonNumber))
  }

  /** With the arguments in their declared order but the average left on
      its 0-1 scale: the score thresholds 4 and 7.5 of the decision table
      can then never be reached from below, so the level is never "Super"
      and, when stress and energy do not decide, always "Trudniejszy czas". */
  function AdviceUnscaled(entries: seq<Sample>): (r: Option<Level>)
    ensures r.Some? <==> Score7Days(entries).Some?
    ensures r.Some? ==> r.value in {Overload, LowResources, HardTime}
  {
    match Score7Days(entries)
    case None => None
    case Some(s) =>
      UnscaledLevel(entries, s.avg);
      Some(Interpret(Some(entries), Finite(s.avg)))
  }

  /** A score below 4 leaves only the first three rows of the decision
      table. */
  lemma UnscaledLevel(entries: seq<Sample>, x: real)
    requires x < 4.0
    ensures entries != [] ==> Interpret(Some(entries), Finite(x)) in {Overload, LowResources, HardTime}
  {
  }

  /** Corrected: the entries first and the average on the 0-10 scale the
      thresholds are written for. Whenever a summary is shown, a real
      level is. */
  function AdviceCorrected(entries: seq<Sample>): (r: Option<Level>)
    ensures r.Some? <==> Score7Days(entries).Some?
    ensures r.Some? ==> r.value != NoData
    ensures r == Some(Great) ==> Score7Days(entries).value.avg >= 0.75
    ensures r == Some(HardTime) ==> Score7Days(entries).value.avg < 0.4
  {
    match Score7Days(entries)
    case None => None
    case Some(s) => Some(Interpret(Some(entries), Finite(10.0 * s.avg)))
  }

  /** One perfect day: mood 10, energy 10, stress 1. */
  function PerfectDay(): Sample {
    Sample(Num(IntNum(10)), Nullish, Num(IntNum(10)), Nullish, Num(IntNum(1)), Nullish)
  }

  lemma PerfectDayValues()
    ensures PerfectDay().IsValid()
    ensures PerfectDay().Mood().n.Value() == 10.0
    ensures PerfectDay().Energy().n.Value() == 10.0
    ensures PerfectDay().Stress().n.Value() == 1.0
  {
  }

  /** The days that score best: mood and energy 10 or more, stress 1 or
      less. */
  predicate IsBestDay(e: Sample) {
    && e.IsValid()
    && e.Mood().n.Value() >= 10.0 && e.Energy().n.Value() >= 10.0
    && e.Stress().n.Value() <= 1.0
  }

  /** A week of one best day scores 1 on every count. */
  lemma BestDaySummary(e: Sample)
    requires IsBestDay(e)
    ensures Score7Days([e]) == Some(Summary(1.0, 1.0, 1.0, 1, [1.0]))
  {
    var es := [e];
    BestDay(e.Mood().n.Value(), e.Energy().n.Value(), e.Stress().n.Value());
    assert ValidOnly(es) == es;
    assert DayScores(es) == [1.0];
    SummaryOfOne(1.0);
  }

  /** One day's score is its own average, minimum and maximum. */
  lemma SummaryOfOne(x: real)
    requires 0.0 <= x <= 1.0
    ensures Summarize([x]) == Summary(x, x, x, 1, [x])
  {
    assert Sum([x]) == x + Sum([]);
  }

  /** Its average stress is at most 1 and its average energy at least 10. */
  lemma BestDayAverages(e: Sample)
    requires IsBestDay(e)
    ensures Below(Average([e], StressOf), 5.0)
    ensures !AtLeast(Average([e], StressOf), 7.0)
    ensures !AtMost(Average([e], EnergyOf), 4.0)
  {
    var es := [e];
    assert es[1..] == [];
    assert MetricSum(es, StressOf) == Some(e.Stress().n.Value());
    assert MetricSum(es, EnergyOf) == Some(e.Energy().n.Value());
  }

  /** On a week of one best day the page as written says "Brak danych",
      the unscaled call says "Trudniejszy czas", and the corrected call says
      "Super". */
  lemma BestDayLevels(e: Sample)
    requires IsBestDay(e)
    ensures AdviceAsWritten([e]) == Some(NoData)
    ensures AdviceUnscaled([e]) == Some(HardTime)
    ensures AdviceCorrected([e]) == Some(Great)
  {
    BestDaySummary(e);
    BestDayAverages(e);
  }

  /** The perfect day is such a day. */
  lemma PerfectDayLevels()
    ensures AdviceAsWritten([PerfectDay()]) == Some(NoData)
    ensures AdviceUnscaled([PerfectDay()]) == Some(HardTime)
    ensures AdviceCorrected([PerfectDay()]) == Some(Great)
  {
    PerfectDayValues();
    BestDayLevels(PerfectDay());
  }
}
