/** Two worked series: ten days at steady, healthy readings, and seven such
    days followed by three days of raised heart rate and stress with no
    therapy. The anomaly scores stay an input, so each outcome is stated as a
    condition on their mean. */
module Scenarios {
  import opened Stats
  import opened Series
  import opened Rules
  import opened Insight

  /** `r` has the same six readings as `day` (id and date may differ). */
  predicate SameReadings(r: Record, day: Record)
  {
    r.sleepHours == day.sleepHours && r.activityLevel == day.activityLevel
    && r.moodScore == day.moodScore && r.therapyAttended == day.therapyAttended
    && r.heartRate == day.heartRate && r.stressLevel == day.stressLevel
  }

  /** Every record of `s` carries the readings of `day`. */
  predicate AllLike(s: seq<Record>, day: Record)
  {
    forall i :: 0 <= i < |s| ==> SameReadings(s[i], day)
  }

  /** A steady day: 7 hours of sleep, activity 5, mood 3.5, therapy attended,
      heart rate 70, stress 3. */
  const SteadyDay: Record := Record(0, 0, 7.0, 5.0, 3.5, 1.0, 70.0, 3.0)

  /** The baseline day of the escalation series: as steady, with mood 3.0. */
  const BaselineDay: Record := Record(0, 0, 7.0, 5.0, 3.0, 1.0, 70.0, 3.0)

  /** A spiking day: heart rate 130, stress 9, therapy missed. */
  const SpikeDay: Record := Record(0, 0, 7.0, 5.0, 3.0, 0.0, 130.0, 9.0)

  /** Each column of a series of like days is constant. */
  lemma LikeColumns(s: seq<Record>, day: Record, f: Feature)
    requires AllLike(s, day)
    ensures Sum(Column(s, f)) == (|s| as real) * Value(day, f)
    ensures |s| > 0 ==> ColumnMean(s, f) == Value(day, f)
  {
    var c := Column(s, f);
    forall i | 0 <= i < |c| ensures c[i] == Value(day, f) {
      assert SameReadings(s[i], day);
    }
    SumConstant(c, Value(day, f));
    if |s| > 0 {
      MeanConstant(c, Value(day, f));
    }
  }

  /** A column of a split series is the two columns joined. */
  lemma ColumnSplit(s: seq<Record>, k: nat, f: Feature)
    requires k <= |s|
    ensures Column(s, f) == Column(s[..k], f) + Column(s[k..], f)
  {
  }

  /** The column means of a non-empty series of like days are that day's readings. */
  lemma LikeMeans(s: seq<Record>, day: Record)
    requires |s| > 0 && AllLike(s, day)
    ensures ColumnMean(s, SleepHours) == day.sleepHours
    ensures ColumnMean(s, ActivityLevel) == day.activityLevel
    ensures ColumnMean(s, MoodScore) == day.moodScore
    ensures ColumnMean(s, HeartRate) == day.heartRate
    ensures ColumnMean(s, StressLevel) == day.stressLevel
    ensures Sum(Column(s, TherapyAttended)) == (|s| as real) * day.therapyAttended
  {
    LikeColumns(s, day, SleepHours);
    LikeColumns(s, day, ActivityLevel);
    LikeColumns(s, day, MoodScore);
    LikeColumns(s, day, HeartRate);
    LikeColumns(s, day, StressLevel);
    LikeColumns(s, day, TherapyAttended);
  }

  /** The trailing window of a series of like days is a series of like days. */
  lemma LikeTail(s: seq<Record>, day: Record, k: nat)
    requires AllLike(s, day)
    ensures AllLike(Tail(s, k), day)
  {
    var t := Tail(s, k);
    forall i | 0 <= i < |t| ensures SameReadings(t[i], day) {
      assert t[i] == s[|s| - |t| + i];
    }
  }

  /** The activity column of like days is constant, and so is its percentile. */
  lemma LikeQuartile(s: seq<Record>, day: Record)
    requires |s| > 0 && AllLike(s, day)
    ensures Quantile25(Column(s, ActivityLevel)) == day.activityLevel
  {
    var c := Column(s, ActivityLevel);
    forall i | 0 <= i < |c| ensures c[i] == day.activityLevel {
      assert SameReadings(s[i], day);
    }
    QuantileConstant(c, day.activityLevel);
  }

  /** A series whose mood never changes never shows progress. */
  lemma FlatMoodNoProgress(s: seq<Record>, mood: real)
    requires forall i :: 0 <= i < |s| ==> s[i].moodScore == mood
    ensures !HasProgress(s)
  {
    ProgressLastEight(s);
    if |s| >= 8 {
      var n := |s|;
      assert s[n - 1].moodScore == mood && s[n - 2].moodScore == mood;
      assert s[n - 3].moodScore == mood && s[n - 4].moodScore == mood;
      assert s[n - 5].moodScore == mood && s[n - 6].moodScore == mood;
      assert s[n - 7].moodScore == mood && s[n - 8].moodScore == mood;
    }
  }

  /** A steady series of at least two records: no penalty fires, no flag is
      raised, there is no progress, and the insight is Stable exactly when the mean anomaly score
      is at or above the threshold, and Medium with no reasons otherwise. */
  lemma SteadyScenario(s: seq<Record>, scores: seq<real>)
    requires |s| >= 2 && |scores| == |s|
    requires AllLike(s, SteadyDay)
    ensures Triggers(s) == Penalties(false, false, false, false, false)
    ensures ConcernScore(s, scores) == Mean(scores)
    ensures Summarize(s) == Summary(false, false, false, false, false, false)
    ensures !HasProgress(s)
    ensures ReasonText(Summarize(s)) == NoChanges
    ensures InsightText(ConcernScore(s, scores), HasProgress(s), Summarize(s))
         == if Mean(scores) >= RiskThreshold then StableMessage else Message(Medium, NoChanges)
  {
    SteadyFlags(s);
    NoChangesExactly(Summarize(s));
    forall i | 0 <= i < |s| ensures s[i].moodScore == 3.5 {
      assert SameReadings(s[i], SteadyDay);
    }
    FlatMoodNoProgress(s, 3.5);
  }

  /** On a steady series neither a penalty nor a summary flag fires. */
  lemma SteadyFlags(s: seq<Record>)
    requires |s| >= 2 && AllLike(s, SteadyDay)
    ensures Triggers(s) == Penalties(false, false, false, false, false)
    ensures Summarize(s) == Summary(false, false, false, false, false, false)
  {
    var recent := Tail(s, RecentWindow);
    LikeTail(s, SteadyDay, RecentWindow);
    LikeMeans(recent, SteadyDay);
    LikeQuartile(s, SteadyDay);
    assert Summarize(s) == Summary(false, false, false, false, false, false);
    LikeMeans(s, SteadyDay);
  }

  /** The escalation series: the heart-rate and stress penalties fire (0.55 in
      all), the three hard flags are raised and nothing else, mood is flat so
      there is no progress, and the insight is High, naming the three flags,
      exactly when the mean anomaly score is below 0.35. */
  lemma EscalationScenario(s: seq<Record>, scores: seq<real>)
    requires |s| == 10 && |scores| == 10
    requires AllLike(s[..7], BaselineDay) && AllLike(s[7..], SpikeDay)
    ensures Triggers(s) == Penalties(false, true, true, false, false)
    ensures ConcernScore(s, scores) == Mean(scores) - 0.55
    ensures Summarize(s) == Summary(false, false, false, true, true, true)
    ensures HardEscalationCount(Summarize(s)) == 3
    ensures !HasProgress(s)
    ensures Classify(ConcernScore(s, scores), HasProgress(s), Summarize(s)) == High <==> Mean(scores) < 0.35
    ensures Mean(scores) < 0.35 ==>
              InsightText(ConcernScore(s, scores), HasProgress(s), Summarize(s))
              == HighHead + HardFlagsText + HighTail
  {
    EscalationFlags(s);
    forall i | 0 <= i < |s| ensures s[i].moodScore == 3.0 {
      if i < 7 {
        assert SameReadings(s[..7][i], BaselineDay);
      } else {
        assert SameReadings(s[7..][i - 7], SpikeDay);
      }
    }
    FlatMoodNoProgress(s, 3.0);
    ReasonsOfHardFlags();
  }

  /** On the escalation series exactly the heart-rate and stress penalties
      fire, and exactly the three hard flags are raised. */
  lemma EscalationFlags(s: seq<Record>)
    requires |s| == 10
    requires AllLike(s[..7], BaselineDay) && AllLike(s[7..], SpikeDay)
    ensures Triggers(s) == Penalties(false, true, true, false, false)
    ensures Summarize(s) == Summary(false, false, false, true, true, true)
  {
    var recent := s[7..];
    assert Tail(s, RecentWindow) == recent;
    LikeMeans(recent, SpikeDay);
    EscalationBaseline(s);
  }

  /** The whole-series means of the escalation series: heart rate 88, and
      sleep, mood and the activity percentile unchanged from the baseline day. */
  lemma EscalationBaseline(s: seq<Record>)
    requires |s| == 10
    requires AllLike(s[..7], BaselineDay) && AllLike(s[7..], SpikeDay)
    ensures ColumnMean(s, HeartRate) == 88.0
    ensures ColumnMean(s, SleepHours) == 7.0
    ensures ColumnMean(s, MoodScore) == 3.0
    ensures Quantile25(Column(s, ActivityLevel)) == 5.0
  {
    EscalationHeartRate(s);
    var head, recent := s[..7], s[7..];
    forall i | 0 <= i < 10
      ensures s[i].sleepHours == 7.0 && s[i].activityLevel == 5.0 && s[i].moodScore == 3.0
    {
      if i < 7 {
        assert SameReadings(head[i], BaselineDay);
      } else {
        assert SameReadings(recent[i - 7], SpikeDay);
      }
    }
    ConstantColumn(s, SleepHours, 7.0);
    ConstantColumn(s, MoodScore, 3.0);
    ConstantColumn(s, ActivityLevel, 5.0);
    QuantileConstant(Column(s, ActivityLevel), 5.0);
  }

  /** Seven days at 70 and three at 130 average 88. */
  lemma EscalationHeartRate(s: seq<Record>)
    requires |s| == 10
    requires AllLike(s[..7], BaselineDay) && AllLike(s[7..], SpikeDay)
    ensures ColumnMean(s, HeartRate) == 88.0
  {
    SplitSum(s, 7, HeartRate);
    LikeColumns(s[..7], BaselineDay, HeartRate);
    LikeColumns(s[7..], SpikeDay, HeartRate);
  }

  /** A feature that reads `c` on every record has mean `c`. */
  lemma ConstantColumn(s: seq<Record>, f: Feature, c: real)
    requires |s| > 0
    requires forall i :: 0 <= i < |s| ==> Value(s[i], f) == c
    ensures forall i :: 0 <= i < |s| ==> Column(s, f)[i] == c
    ensures ColumnMean(s, f) == c
  {
    MeanConstant(Column(s, f), c);
  }

  /** The sum of a column over a split series is the sum of the two parts. */
  lemma SplitSum(s: seq<Record>, k: nat, f: Feature)
    requires k <= |s|
    ensures Sum(Column(s, f)) == Sum(Column(s[..k], f)) + Sum(Column(s[k..], f))
  {
    ColumnSplit(s, k, f);
    SumAppend(Column(s[..k], f), Column(s[k..], f));
  }

  /** The explanation naming the three hard flags. */
  const HardFlagsText: string :=
    Phrase(HighHr) + ReasonSeparator + Phrase(HighStress) + ReasonSeparator + Phrase(MissedTherapy)

  /** The explanation when exactly the three hard flags are raised. */
  lemma ReasonsOfHardFlags()
    ensures ReasonText(Summary(false, false, false, true, true, true)) == HardFlagsText
  {
    var sm := Summary(false, false, false, true, true, true);
    assert ReasonsUpTo(sm, 3) == [];
    assert ReasonsUpTo(sm, 4) == [Phrase(HighHr)];
    assert ReasonsUpTo(sm, 5) == [Phrase(HighHr), Phrase(HighStress)];
    assert Reasons(sm) == [Phrase(HighHr), Phrase(HighStress), Phrase(MissedTherapy)];
  }
}
