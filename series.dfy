/** One patient-day of measurements and the column/window views the rules read:
    `df["col"]`, `df.iloc[-k:]` / `df.tail(k)` and the date order the loader
    establishes. */
module Series {
  import opened Stats

  type PatientId = int

  /** One row of the feature table. `date` is a day number; every measurement is
      a real, since the loader fills missing cells with a column mean. */
  datatype Record = Record(
    patientId: PatientId,
    date: int,
    sleepHours: real,
    activityLevel: real,
    moodScore: real,
    therapyAttended: real,
    heartRate: real,
    stressLevel: real)

  /** The six feature columns, in the order the anomaly model is fitted on. */
  datatype Feature = SleepHours | ActivityLevel | MoodScore | TherapyAttended | HeartRate | StressLevel

  function Value(r: Record, f: Feature): real
  {
    match f
    case SleepHours => r.sleepHours
    case ActivityLevel => r.activityLevel
    case MoodScore => r.moodScore
    case TherapyAttended => r.therapyAttended
    case HeartRate => r.heartRate
    case StressLevel => r.stressLevel
  }

  /** `df[f]`: the column of feature `f`, row by row. */
  function Column(s: seq<Record>, f: Feature): (c: seq<real>)
    ensures |c| == |s|
    ensures forall i :: 0 <= i < |s| ==> c[i] == Value(s[i], f)
  {
    seq(|s|, i requires 0 <= i < |s| => Value(s[i], f))
  }

  /** `df[f].mean()`. */
  function ColumnMean(s: seq<Record>, f: Feature): real
    requires |s| > 0
  {
    Mean(Column(s, f))
  }

  /** `df.iloc[-k:]`: the last `k` rows, or all of them when there are fewer. */
  function Tail(s: seq<Record>, k: nat): (t: seq<Record>)
    ensures |t| == if |s| < k then |s| else k
    ensures t == s[|s| - |t|..]
  {
    if |s| < k then s else s[|s| - k..]
  }

  /** Rows in ascending date order (equal dates are not excluded: nothing
      deduplicates them). */
  predicate DateOrdered(s: seq<Record>)
  {
    forall i, j :: 0 <= i < j < |s| ==> s[i].date <= s[j].date
  }
}
