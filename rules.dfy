/** The baseline-deviation rules and the progress tracker: `detect_concern`,
    `has_made_progress` and `summarize_changes`. The anomaly model's per-record
    scores are an input; every other quantity is a mean over the whole series
    or over its trailing window. */
module Rules {
  import opened Stats
  import opened Series

  /** Size of the trailing window the deviation rules look at. */
  const RecentWindow: nat := 3

  /** Which of `detect_concern`'s five independent penalties fire. */
  datatype Penalties = Penalties(sleep: bool, heartRate: bool, stress: bool, activity: bool, mood: bool)

  /** The five penalty conditions: the last-3 average against the patient's
      whole-series mean (sleep, heart rate, mood), a fixed bound (stress) or
      the series' 25th percentile (activity). */
  function Triggers(s: seq<Record>): Penalties
    requires |s| > 0
  {
    var recent := Tail(s, RecentWindow);
    Penalties(
      sleep := ColumnMean(recent, SleepHours) < 0.7 * ColumnMean(s, SleepHours),
      heartRate := ColumnMean(recent, HeartRate) > 1.15 * ColumnMean(s, HeartRate),
      stress := ColumnMean(recent, StressLevel) > 7.0,
      activity := ColumnMean(recent, ActivityLevel) < Quantile25(Column(s, ActivityLevel)),
      mood := ColumnMean(recent, MoodScore) < 0.7 * ColumnMean(s, MoodScore))
  }

  /** Total subtracted from the anomaly score: 0.30 sleep, 0.25 heart rate,
      0.30 stress, 0.15 activity and 0.10 mood, for those that fire. */
  function PenaltyTotal(p: Penalties): (t: real)
    ensures 0.0 <= t <= 1.10
    ensures t == 0.0 <==> !p.sleep && !p.heartRate && !p.stress && !p.activity && !p.mood
  {
    (if p.sleep then 0.30 else 0.0)
    + (if p.heartRate then 0.25 else 0.0)
    + (if p.stress then 0.30 else 0.0)
    + (if p.activity then 0.15 else 0.0)
    + (if p.mood then 0.10 else 0.0)
  }

  /** The penalised risk score `detect_concern` returns for this series and
      these anomaly scores: never above the mean anomaly score, at most 1.10
      below it, and equal to it exactly when no penalty fires. */
  function ConcernScore(s: seq<Record>, scores: seq<real>): (r: real)
    requires |s| > 0 && |scores| > 0
    ensures Mean(scores) - 1.10 <= r <= Mean(scores)
    ensures r == Mean(scores) <==> Triggers(s) == Penalties(false, false, false, false, false)
  {
    Mean(scores) - PenaltyTotal(Triggers(s))
  }

  /** `detect_concern`: start from the mean anomaly score and subtract each
      penalty whose condition holds, in the source's order. `scores` holds the
      anomaly model's decision value for each record. */
  method DetectConcern(s: seq<Record>, scores: seq<real>) returns (riskScore: real)
    requires |s| > 0 && |scores| == |s|
    ensures riskScore == Mean(scores) - PenaltyTotal(Triggers(s))
    ensures Mean(scores) - 1.10 <= riskScore <= Mean(scores)
  {
    riskScore := Mean(scores);

    var baselineSleep := ColumnMean(s, SleepHours);
    var baselineMood := ColumnMean(s, MoodScore);
    var baselineHr := ColumnMean(s, HeartRate);

    var recent := Tail(s, RecentWindow);
    var recentSleep := ColumnMean(recent, SleepHours);
    var recentMood := ColumnMean(recent, MoodScore);
    var recentHr := ColumnMean(recent, HeartRate);
    var recentStress := ColumnMean(recent, StressLevel);
    var recentActivity := ColumnMean(recent, ActivityLevel);

    if recentSleep < 0.7 * baselineSleep {
      riskScore := riskScore - 0.30;
    }
    if recentHr > 1.15 * baselineHr {
      riskScore := riskScore - 0.25;
    }
    if recentStress > 7.0 {
      riskScore := riskScore - 0.30;
    }
    if recentActivity < Quantile25(Column(s, ActivityLevel)) {
      riskScore := riskScore - 0.15;
    }
    if recentMood < 0.7 * baselineMood {
      riskScore := riskScore - 0.10;
    }
  }

  /** Every penalty that fires under `p` fires under `q` too. */
  predicate FiresAtLeast(q: Penalties, p: Penalties)
  {
    (p.sleep ==> q.sleep) && (p.heartRate ==> q.heartRate) && (p.stress ==> q.stress)
    && (p.activity ==> q.activity) && (p.mood ==> q.mood)
  }

  /** Penalties stack monotonically: with the same raw score, firing more
      conditions never raises the result, and firing a further one lowers it. */
  lemma PenaltyStacking(raw: real, p: Penalties, q: Penalties)
    requires FiresAtLeast(q, p)
    ensures raw - PenaltyTotal(q) <= raw - PenaltyTotal(p)
    ensures p != q ==> raw - PenaltyTotal(q) < raw - PenaltyTotal(p)
  {
  }

  /** The six flags of `summarize_changes`. */
  datatype Summary = Summary(
    sleepDrop: bool,
    lowActivity: bool,
    lowMood: bool,
    highHr: bool,
    highStress: bool,
    missedTherapy: bool)

  /** `summarize_changes`: fixed clinical bounds on the trailing window, and the
      series' own 25th percentile for activity. The stress and activity flags
      are the same conditions as `detect_concern`'s stress and activity
      penalties: same window, same bound. */
  function Summarize(s: seq<Record>): (sm: Summary)
    requires |s| > 0
    ensures sm.highStress == Triggers(s).stress
    ensures sm.lowActivity == Triggers(s).activity
  {
    SummaryOf(Tail(s, RecentWindow), Quantile25(Column(s, ActivityLevel)))
  }

  /** The six flags for a trailing window `recent` and the series' activity
      25th percentile. */
  function SummaryOf(recent: seq<Record>, activityQuartile: real): Summary
    requires |recent| > 0
  {
    Summary(
      sleepDrop := ColumnMean(recent, SleepHours) < 4.0,
      lowActivity := ColumnMean(recent, ActivityLevel) < activityQuartile,
      lowMood := ColumnMean(recent, MoodScore) < 2.0,
      highHr := ColumnMean(recent, HeartRate) > 100.0,
      highStress := ColumnMean(recent, StressLevel) > 7.0,
      missedTherapy := Sum(Column(recent, TherapyAttended)) < 2.0)
  }

  /** The summary reads the last `min(3, |s|)` records, and the whole series
      only for the activity percentile. */
  lemma SummarizeWindow(s: seq<Record>)
    requires |s| > 0
    ensures var k := if |s| < 3 then |s| else 3;
            Summarize(s) == SummaryOf(s[|s| - k..], Quantile25(Column(s, ActivityLevel)))
  {
  }

  /** Each mean bound of the summary is a bound on the window's sum. */
  lemma SummaryOfSums(w: seq<Record>, q: real)
    requires |w| > 0
    ensures var k := |w| as real;
            var sm := SummaryOf(w, q);
            && (sm.sleepDrop <==> Sum(Column(w, SleepHours)) < 4.0 * k)
            && (sm.lowActivity <==> Sum(Column(w, ActivityLevel)) < q * k)
            && (sm.lowMood <==> Sum(Column(w, MoodScore)) < 2.0 * k)
            && (sm.highHr <==> Sum(Column(w, HeartRate)) > 100.0 * k)
            && (sm.highStress <==> Sum(Column(w, StressLevel)) > 7.0 * k)
            && (sm.missedTherapy <==> Sum(Column(w, TherapyAttended)) < 2.0)
  {
    MeanCompare(Column(w, SleepHours), 4.0);
    MeanCompare(Column(w, ActivityLevel), q);
    MeanCompare(Column(w, MoodScore), 2.0);
    MeanCompare(Column(w, HeartRate), 100.0);
    MeanCompare(Column(w, StressLevel), 7.0);
  }

  /** With three or more records the hard flags are bounds on the last three
      records themselves. */
  lemma SummarizeLastThree(s: seq<Record>)
    requires |s| >= 3
    ensures var n := |s|;
            var sm := Summarize(s);
            && (sm.highHr <==> s[n - 3].heartRate + s[n - 2].heartRate + s[n - 1].heartRate > 300.0)
            && (sm.highStress <==> s[n - 3].stressLevel + s[n - 2].stressLevel + s[n - 1].stressLevel > 21.0)
            && (sm.missedTherapy <==> s[n - 3].therapyAttended + s[n - 2].therapyAttended + s[n - 1].therapyAttended < 2.0)
  {
    var w := s[|s| - 3..];
    SummarizeWindow(s);
    SummaryOfSums(w, Quantile25(Column(s, ActivityLevel)));
    SumOfThree(Column(w, HeartRate));
    SumOfThree(Column(w, StressLevel));
    SumOfThree(Column(w, TherapyAttended));
  }

  /** The therapy bound is not scaled to the window: with a single record,
      therapy counts as missed even when that session was attended. */
  lemma SingleRecordMissesTherapy(s: seq<Record>)
    requires |s| == 1 && s[0].therapyAttended <= 1.0
    ensures Summarize(s).missedTherapy
  {
    assert Tail(s, RecentWindow) == s;
    SummaryOfSums(s, Quantile25(Column(s, ActivityLevel)));
    assert Column(s, TherapyAttended) == [s[0].therapyAttended];
  }

  /** Records needed before progress can be judged. */
  const ProgressWindow: nat := 8

  /** `has_made_progress`: mean mood of the last four records strictly above
      that of the four before them; a series too short to compare never shows
      progress. */
  function HasProgress(s: seq<Record>): (p: bool)
    ensures p ==> |s| >= ProgressWindow
  {
    if |s| < ProgressWindow then false
    else ColumnMean(Tail(s, 4), MoodScore) > ColumnMean(s[|s| - 8..|s| - 4], MoodScore)
  }

  /** Progress in terms of the eight last moods: fewer than eight records is
      never progress, and a tie is not progress. */
  lemma ProgressLastEight(s: seq<Record>)
    ensures HasProgress(s) <==>
      |s| >= 8 &&
      var n := |s|;
      s[n - 4].moodScore + s[n - 3].moodScore + s[n - 2].moodScore + s[n - 1].moodScore
      > s[n - 8].moodScore + s[n - 7].moodScore + s[n - 6].moodScore + s[n - 5].moodScore
  {
    if |s| >= 8 {
      var n := |s|;
      var recent := Column(s[n - 4..], MoodScore);
      var previous := Column(s[n - 8..n - 4], MoodScore);
      MeanCompareSameLength(recent, previous);
      SumOfFour(recent);
      SumOfFour(previous);
    }
  }
}
