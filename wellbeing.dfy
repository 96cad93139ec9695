/** Wellbeing scoring and its interpretation (js/views.js, lines 13-118):
    the per-day score from mood, energy and stress on the 1-10 scale, the
    summary over the newest seven entries, and the decision table that
    names the user's situation. JavaScript's double arithmetic is modelled
    by exact real arithmetic. */
module Wellbeing {
  import opened JsValues

  // ---------------------------------------------------------------------
  // Per-day score

  /** `normPos(v)` with its default range 1..10: the position of `v` in
      the range, clamped to [0, 1]. */
  function NormPos(v: real): (r: real)
    ensures 0.0 <= r <= 1.0
    ensures v <= 1.0 ==> r == 0.0
    ensures v >= 10.0 ==> r == 1.0
    ensures 1.0 <= v <= 10.0 ==> r == (v - 1.0) / 9.0
  {
    var x := (v - 1.0) / 9.0;
    var lower := if x < 0.0 then 0.0 else x;
    if lower > 1.0 then 1.0 else lower
  }

  /** `normNeg(v)`: the complement of `normPos`, so high values score low. */
  function NormNeg(v: real): (r: real)
    ensures 0.0 <= r <= 1.0 && r + NormPos(v) == 1.0
  {
    1.0 - NormPos(v)
  }

  lemma NormPosMonotone(v: real, w: real)
    requires v <= w
    ensures NormPos(v) <= NormPos(w)
  {
  }

  /** The weighted combination before penalties and clamping. */
  function Weighted(mood: real, energy: real, stress: real): (r: real)
    ensures 0.0 <= r <= 1.0
  {
    0.35 * NormPos(mood) + 0.35 * NormPos(energy) + 0.30 * NormNeg(stress)
  }

  /** `wellbeingScore({ mood, energy, stress })`: the weighted score,
      lowered by 0.15 at stress 8 or more, by a further 0.25 at stress 9 or
      more and by 0.1 at energy 3 or less, then clamped to [0, 1]. */
  function WellbeingScore(mood: real, energy: real, stress: real): (r: real)
    ensures 0.0 <= r <= 1.0
  {
    var score := Weighted(mood, energy, stress);
    var score := if stress >= 8.0 then score - 0.15 else score;
    var score := if stress >= 9.0 then score - 0.25 else score;
    var score := if energy <= 3.0 then score - 0.1 else score;
    var upper := if score > 1.0 then 1.0 else score;
    if upper < 0.0 then 0.0 else upper
  }

  /** The total penalty the score receives. */
  function Penalty(energy: real, stress: real): (p: real)
    ensures 0.0 <= p <= 0.5
  {
    (if stress >= 8.0 then 0.15 else 0.0)
    + (if stress >= 9.0 then 0.25 else 0.0)
    + (if energy <= 3.0 then 0.1 else 0.0)
  }

  function Clamp01(x: real): (r: real)
    ensures 0.0 <= r <= 1.0
    ensures 0.0 <= x <= 1.0 ==> r == x
  {
    if x < 0.0 then 0.0 else if x > 1.0 then 1.0 else x
  }

  /** The penalties add up: at stress 9 or more the score loses 0.40 in
      all, not 0.25. */
  lemma PenaltiesAccumulate(mood: real, energy: real, stress: real)
    ensures WellbeingScore(mood, energy, stress) == Clamp01(Weighted(mood, energy, stress) - Penalty(energy, stress))
    ensures stress >= 9.0 && energy > 3.0 ==> Penalty(energy, stress) == 0.40
    ensures stress >= 9.0 && energy <= 3.0 ==> Penalty(energy, stress) == 0.50
  {
  }

  /** At stress 9 or more the score is at most one third, whatever the mood
      and energy. */
  lemma HighStressCap(mood: real, energy: real, stress: real)
    requires stress >= 9.0
    ensures WellbeingScore(mood, energy, stress) <= 1.0 / 3.0
  {
    PenaltiesAccumulate(mood, energy, stress);
    assert NormNeg(stress) <= 1.0 / 9.0;
    assert Weighted(mood, energy, stress) <= 0.7 + 0.30 / 9.0;
  }

  /** The best day (mood and energy 10 or more, stress 1 or less) scores
      exactly 1. */
  lemma BestDay(mood: real, energy: real, stress: real)
    requires mood >= 10.0 && energy >= 10.0 && stress <= 1.0
    ensures WellbeingScore(mood, energy, stress) == 1.0
  {
    assert NormPos(mood) == 1.0 && NormNeg(stress) == 1.0;
    assert Weighted(mood, energy, stress) == 1.0;
    assert Penalty(energy, stress) == 0.0;
    PenaltiesAccumulate(mood, energy, stress);
  }

  /** The worst day (mood and energy 1 or less, stress 10 or more) scores
      exactly 0. */
  lemma WorstDay(mood: real, energy: real, stress: real)
    requires mood <= 1.0 && energy <= 1.0 && stress >= 10.0
    ensures WellbeingScore(mood, energy, stress) == 0.0
  {
    assert NormPos(mood) == 0.0 && NormNeg(stress) == 0.0;
    assert Weighted(mood, energy, stress) == 0.0;
    PenaltiesAccumulate(mood, energy, stress);
  }

  /** A better mood or more energy never lowers the score, and more stress
      never raises it. */
  lemma ScoreMonotone(m1: real, e1: real, s1: real, m2: real, e2: real, s2: real)
    requires m1 <= m2 && e1 <= e2 && s1 >= s2
    ensures WellbeingScore(m1, e1, s1) <= WellbeingScore(m2, e2, s2)
  {
    PenaltiesAccumulate(m1, e1, s1);
    PenaltiesAccumulate(m2, e2, s2);
    NormPosMonotone(m1, m2);
    NormPosMonotone(e1, e2);
    NormPosMonotone(s2, s1);
    assert Penalty(e2, s2) <= Penalty(e1, s1);
  }

  // ---------------------------------------------------------------------
  // Entries

  /** The scoring fields of a journal row. The code reads the Polish column
      name first and the English one when that is `null` or `undefined`. */
  datatype Sample = Sample(
    nastroj: Field, mood: Field,
    energia: Field, energy: Field,
    stres: Field, stress: Field)
  {
    function Mood(): Field { nastroj.OrElse(mood) }
    function Energy(): Field { energia.OrElse(energy) }
    function Stress(): Field { stres.OrElse(stress) }

    /** All three values are finite numbers. */
    predicate IsValid() {
      Mood().IsFinite() && Energy().IsFinite() && Stress().IsFinite()
    }

    function DayScore(): (r: real)
      requires IsValid()
      ensures 0.0 <= r <= 1.0
    {
      WellbeingScore(Mood().n.Value(), Energy().n.Value(), Stress().n.Value())
    }
  }

  /** `entries.slice(0, 7)`: the newest seven rows, the list being sorted
      newest first. */
  function FirstSeven(entries: seq<Sample>): (r: seq<Sample>)
    ensures |r| <= 7 && |r| <= |entries| && r == entries[..|r|]
    ensures |entries| <= 7 ==> r == entries
  {
    if |entries| <= 7 then entries else entries[..7]
  }

  /** The valid entries, in their order. */
  function ValidOnly(xs: seq<Sample>): (r: seq<Sample>)
    ensures |r| <= |xs|
    ensures forall i :: 0 <= i < |r| ==> r[i].IsValid()
    ensures forall e :: e in r ==> e in xs
    ensures forall e :: e in xs && e.IsValid() ==> e in r
    ensures r == [] <==> forall i :: 0 <= i < |xs| ==> !xs[i].IsValid()
  {
    if xs == [] then []
    else
      var rest := ValidOnly(xs[1..]);
      assert forall e :: e in xs ==> e == xs[0] || e in xs[1..];
      if xs[0].IsValid() then [xs[0]] + rest else rest
  }

  /** The day scores of valid entries. */
  function DayScores(xs: seq<Sample>): (r: seq<real>)
    requires forall i :: 0 <= i < |xs| ==> xs[i].IsValid()
    ensures |r| == |xs|
    ensures forall i :: 0 <= i < |r| ==> r[i] == xs[i].DayScore() && 0.0 <= r[i] <= 1.0
  {
    seq(|xs|, i requires 0 <= i < |xs| => xs[i].DayScore())
  }

  function Sum(xs: seq<real>): real {
    if xs == [] then 0.0 else xs[0] + Sum(xs[1..])
  }

  /** `Math.min(...xs)` of a non-empty list. */
  function Min(xs: seq<real>): (m: real)
    requires xs != []
    ensures m in xs && forall i :: 0 <= i < |xs| ==> m <= xs[i]
  {
    if |xs| == 1 then xs[0]
    else
      var m := Min(xs[1..]);
      if xs[0] <= m then xs[0] else m
  }

  /** `Math.max(...xs)` of a non-empty list. */
  function Max(xs: seq<real>): (m: real)
    requires xs != []
    ensures m in xs && forall i :: 0 <= i < |xs| ==> xs[i] <= m
  {
    if |xs| == 1 then xs[0]
    else
      var m := Max(xs[1..]);
      if xs[0] >= m then xs[0] else m
  }

  /** A sum lies between the count times any lower and upper bound. */
  lemma {:induction false} SumBounds(xs: seq<real>, lo: real, hi: real)
    requires forall i :: 0 <= i < |xs| ==> lo <= xs[i] <= hi
    ensures Times(|xs|, lo) <= Sum(xs) <= Times(|xs|, hi)
  {
    if xs != [] {
      SumBounds(xs[1..], lo, hi);
    }
  }

  /** What `score7Days` returns when there is something to summarise. */
  datatype Summary = Summary(avg: real, min: real, max: real, days: nat, daily: seq<real>)

  /** `n * x` for a count `n`. */
  function Times(n: nat, x: real): real {
    n as real * x
  }

  lemma AverageBetween(total: real, n: nat, lo: real, hi: real)
    requires n > 0 && Times(n, lo) <= total <= Times(n, hi)
    ensures lo <= total / n as real <= hi
  {
    var r := n as real;
    var avg := total / r;
    assert total == r * avg;
  }

  /** The average of a non-empty list lies between its minimum and its
      maximum. */
  lemma AverageInRange(daily: seq<real>)
    requires daily != []
    ensures Min(daily) <= Sum(daily) / (|daily| as real) <= Max(daily)
  {
    var n := |daily|;
    var lo := Min(daily);
    var hi := Max(daily);
    SumBounds(daily, lo, hi);
    AverageBetween(Sum(daily), n, lo, hi);
  }

  /** The summary of a non-empty list of day scores. */
  function Summarize(daily: seq<real>): (s: Summary)
    requires daily != [] && forall i :: 0 <= i < |daily| ==> 0.0 <= daily[i] <= 1.0
    ensures s.daily == daily && s.days == |daily|
    ensures 0.0 <= s.min <= s.avg <= s.max <= 1.0
    ensures s.min in daily && s.max in daily
    ensures forall i :: 0 <= i < |daily| ==> s.min <= daily[i] <= s.max
  {
    AverageInRange(daily);
    Summary(Sum(daily) / (|daily| as real), Min(daily), Max(daily), |daily|, daily)
  }

  /** `score7Days(entries)`: the day scores of the valid entries among the
      newest seven, with their average, minimum and maximum; `None` (the
      source's `null`) when there is no such entry. */
  function Score7Days(entries: seq<Sample>): (r: Option<Summary>)
    ensures r.None? <==> forall i :: 0 <= i < |FirstSeven(entries)| ==> !FirstSeven(entries)[i].IsValid()
    ensures r.Some? ==>
      var s := r.value;
      && 1 <= s.days <= 7 && s.days == |s.daily| == |ValidOnly(FirstSeven(entries))|
      && s.daily == DayScores(ValidOnly(FirstSeven(entries)))
      && 0.0 <= s.min <= s.avg <= s.max <= 1.0
      && s.min in s.daily && s.max in s.daily
      && forall i :: 0 <= i < |s.daily| ==> s.min <= s.daily[i] <= s.max
  {
    var last := FirstSeven(entries);
    if last == [] then None
    else
      var valid := ValidOnly(last);
      if valid == [] then None
      else Some(Summarize(DayScores(valid)))
  }

  /** Only the newest seven entries count: older ones never change the
      summary. */
  lemma Score7DaysIgnoresOlder(entries: seq<Sample>, older: seq<Sample>)
    requires |entries| >= 7
    ensures Score7Days(entries + older) == Score7Days(entries)
  {
    assert FirstSeven(entries + older) == FirstSeven(entries);
  }

  // ---------------------------------------------------------------------
  // Interpretation

  /** What `interpret` returns: a level and its message. */
  datatype Level = NoData | Overload | LowResources | HardTime | Great | SoSo {
    function Label(): string {
      match this
      case NoData => "Brak danych"
      case Overload => "Przeciążenie"
      case LowResources => "Niskie zasoby"
      case HardTime => "Trudniejszy czas"
      case Great => "Super"
      case SoSo => "Średnio"
    }
    function Message(): string {
      match this
      case NoData => "Brak wystarczających danych do analizy."
      case Overload => "Stres jest wysoki i to on najbardziej obniża Twój dobrostan. Priorytet: obniżenie napięcia."
      case LowResources => "Problemem nie jest motywacja, tylko brak energii. Skup się na odpoczynku."
      case HardTime => "Ostatnio masz trudniejszy czas. Pamiętaj, że możesz poprosić o wsparcie."
      case Great => "Masz stabilny, dobry okres. Warto tylko pilnować regeneracji."
      case SoSo => "Jest w miarę OK, ale widać obszar do drobnych korekt."
    }
  }

  /** The second argument of `interpret`: anything that is not a number, a
      finite number, or NaN (which is a number but fails every comparison). */
  datatype ScoreArg = NonNumber | Finite(x: real) | NaN

  /** `x ?? 0` as a term of a sum: `None` stands for NaN, which makes the sum
      NaN. */
  function OrZero(f: Field): Option<real> {
    match f
    case Nullish => Some(0.0)
    case Num(n) => Some(n.Value())
    case NonFinite => None
  }

  datatype Metric = MoodOf | EnergyOf | StressOf

  function MetricValue(e: Sample, m: Metric): Field {
    match m
    case MoodOf => e.Mood()
    case EnergyOf => e.Energy()
    case StressOf => e.Stress()
  }

  /** The sum of one metric over the entries, missing values counting as 0;
      `None` when some value is NaN. */
  function MetricSum(entries: seq<Sample>, m: Metric): (r: Option<real>)
    ensures r.None? <==> exists i :: 0 <= i < |entries| && MetricValue(entries[i], m).NonFinite?
  {
    if entries == [] then Some(0.0)
    else
      match (OrZero(MetricValue(entries[0], m)), MetricSum(entries[1..], m))
      case (Some(a), Some(b)) => Some(a + b)
      case _ => None
  }

  /** The average of one metric: `reduce(...) / entries.length`. */
  function Average(entries: seq<Sample>, m: Metric): (r: Option<real>)
    requires entries != []
    ensures r.None? <==> MetricSum(entries, m).None?
    ensures r.Some? ==> r.value * |entries| as real == MetricSum(entries, m).value
  {
    match MetricSum(entries, m)
    case None => None
    case Some(s) => Some(s / |entries| as real)
  }

  /** `x >= b`, `x <= b`, `x < b` where NaN compares false. */
  predicate AtLeast(x: Option<real>, b: real) { x.Some? && x.value >= b }
  predicate AtMost(x: Option<real>, b: real) { x.Some? && x.value <= b }
  predicate Below(x: Option<real>, b: real) { x.Some? && x.value < b }

  predicate ScoreAtLeast(s: ScoreArg, b: real) { s.Finite? && s.x >= b }
  predicate ScoreBelow(s: ScoreArg, b: real) { s.Finite? && s.x < b }

  /** `interpret` has something to judge: a non-empty list and a number. */
  predicate HasData(entries: Option<seq<Sample>>, scoreAvg: ScoreArg) {
    entries.Some? && entries.value != [] && !scoreAvg.NonNumber?
  }

  /** `interpret(entries, scoreAvg)`: the first row of the decision table
      that applies. `entries` is `None` for an argument without a length
      (`null`, `undefined` or an object that is not an array). Each level
      is returned exactly when its own row applies and no earlier row
      does. */
  function Interpret(entries: Option<seq<Sample>>, scoreAvg: ScoreArg): (r: Level)
    ensures r == NoData <==> !HasData(entries, scoreAvg)
    ensures r == Overload <==>
      HasData(entries, scoreAvg) && AtLeast(Average(entries.value, StressOf), 7.0)
    ensures r == LowResources <==>
      && HasData(entries, scoreAvg)
      && !AtLeast(Average(entries.value, StressOf), 7.0)
      && AtMost(Average(entries.value, EnergyOf), 4.0)
    ensures r == HardTime <==>
      && HasData(entries, scoreAvg)
      && !AtLeast(Average(entries.value, StressOf), 7.0)
      && !AtMost(Average(entries.value, EnergyOf), 4.0)
      && ScoreBelow(scoreAvg, 4.0)
    ensures r == Great <==>
      && HasData(entries, scoreAvg)
      && !AtLeast(Average(entries.value, StressOf), 7.0)
      && !AtMost(Average(entries.value, EnergyOf), 4.0)
      && !ScoreBelow(scoreAvg, 4.0)
      && ScoreAtLeast(scoreAvg, 7.5) && Below(Average(entries.value, StressOf), 5.0)
    ensures r == SoSo <==>
      && HasData(entries, scoreAvg)
      && !AtLeast(Average(entries.value, StressOf), 7.0)
      && !AtMost(Average(entries.value, EnergyOf), 4.0)
      && !ScoreBelow(scoreAvg, 4.0)
      && !(ScoreAtLeast(scoreAvg, 7.5) && Below(Average(entries.value, StressOf), 5.0))
  {
    if entries.None? || entries.value == [] || scoreAvg.NonNumber? then NoData
    else
      var es := entries.value;
      var avgStress := Average(es, StressOf);
      var avgEnergy := Average(es, EnergyOf);
      if AtLeast(avgStress, 7.0) then Overload
      else if AtMost(avgEnergy, 4.0) then LowResources
      else if ScoreBelow(scoreAvg, 4.0) then HardTime
      else if ScoreAtLeast(scoreAvg, 7.5) && Below(avgStress, 5.0) then Great
      else SoSo
  }

  /** A high average stress decides on its own, whatever the score. */
  lemma OverloadWhateverScore(entries: seq<Sample>, s1: ScoreArg, s2: ScoreArg)
    requires entries != [] && !s1.NonNumber? && !s2.NonNumber?
    requires AtLeast(Average(entries, StressOf), 7.0)
    ensures Interpret(Some(entries), s1) == Interpret(Some(entries), s2) == Overload
  {
  }

  /** A field that is `null` or `undefined` counts as 0 in the averages. */
  lemma {:induction false} MissingCountsAsZero(entries: seq<Sample>, m: Metric)
    ensures MetricSum(entries, m) == MetricSum(ReplaceMissing(entries, m), m)
  {
    if entries != [] {
      MissingCountsAsZero(entries[1..], m);
      assert ReplaceMissing(entries, m)[1..] == ReplaceMissing(entries[1..], m);
    }
  }

  /** The entries with every missing value of metric `m` written as 0. */
  function ReplaceMissing(entries: seq<Sample>, m: Metric): (r: seq<Sample>)
    ensures |r| == |entries|
    ensures forall i :: 0 <= i < |r| ==> !MetricValue(r[i], m).Nullish?
  {
    seq(|entries|, i requires 0 <= i < |entries| => ZeroIfMissing(entries[i], m))
  }

  function ZeroIfMissing(e: Sample, m: Metric): (r: Sample)
    ensures !MetricValue(r, m).Nullish?
    ensures MetricValue(e, m).Nullish? ==> MetricValue(r, m) == Num(IntNum(0))
    ensures !MetricValue(e, m).Nullish? ==> MetricValue(r, m) == MetricValue(e, m)
  {
    var zero := Num(IntNum(0));
    match m
    case MoodOf => if e.Mood().Nullish? then e.(nastroj := zero) else e
    case EnergyOf => if e.Energy().Nullish? then e.(energia := zero) else e
    case StressOf => if e.Stress().Nullish? then e.(stres := zero) else e
  }
}
