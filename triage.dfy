/** `analyze_all_patients` and the high-risk triage view: every patient with
    enough records is assessed, in order of first appearance in the table, and
    the High-risk assessments are listed in ascending order of risk score. */
module Triage {
  import opened Stats
  import opened Series
  import opened Rules
  import opened Insight

  /** Fewest records a patient needs to be assessed. */
  const MinRecords: nat := 5

  /** One row of the results table. */
  datatype Assessment = Assessment(patientId: PatientId, riskScore: real, progress: bool, insight: string)

  /** `df["patient_id"]`. */
  function PatientIds(table: seq<Record>): (ids: seq<PatientId>)
    ensures |ids| == |table|
    ensures forall i :: 0 <= i < |table| ==> ids[i] == table[i].patientId
  {
    seq(|table|, i requires 0 <= i < |table| => table[i].patientId)
  }

  /** Position of the first occurrence of `x` in `s`, or `|s|` when there is none. */
  function FirstIndex(s: seq<PatientId>, x: PatientId): (k: nat)
    ensures k <= |s|
    ensures k < |s| <==> x in s
    ensures k < |s| ==> s[k] == x
    ensures x !in s[..k]
  {
    if s == [] then 0
    else if s[0] == x then 0
    else
      assert s[1..][..FirstIndex(s[1..], x)] == s[1..1 + FirstIndex(s[1..], x)];
      1 + FirstIndex(s[1..], x)
  }

  /** An element of a prefix is first found within that prefix. */
  lemma {:induction false} FirstIndexPrefix(s: seq<PatientId>, n: nat, x: PatientId)
    requires n <= |s| && x in s[..n]
    ensures FirstIndex(s, x) == FirstIndex(s[..n], x)
  {
    if s[0] != x {
      assert s[..n][1..] == s[1..][..n - 1];
      FirstIndexPrefix(s[1..], n - 1, x);
    }
  }

  /** Every element of `u` occurs in `s`, and `u` lists them by increasing
      position of their first occurrence there. */
  predicate InFirstAppearanceOrder(u: seq<PatientId>, s: seq<PatientId>)
  {
    (forall i :: 0 <= i < |u| ==> u[i] in s)
    && (forall i, j :: 0 <= i < j < |u| ==> FirstIndex(s, u[i]) < FirstIndex(s, u[j]))
  }

  predicate NoDuplicates(s: seq<PatientId>)
  {
    forall i, j :: 0 <= i < j < |s| ==> s[i] != s[j]
  }

  /** `Series.unique()`: each value once, in order of first appearance. */
  function Unique(s: seq<PatientId>): (u: seq<PatientId>)
    ensures forall x :: x in u <==> x in s
    ensures NoDuplicates(u)
  {
    if s == [] then []
    else
      var init := s[..|s| - 1];
      var seen := Unique(init);
      if s[|s| - 1] in seen then seen else seen + [s[|s| - 1]]
  }

  /** The order of `unique()` is the order of first appearance. */
  lemma {:induction false} UniqueOrder(s: seq<PatientId>)
    ensures InFirstAppearanceOrder(Unique(s), s)
  {
    if s != [] {
      var n := |s|;
      var init, last := s[..n - 1], s[n - 1];
      UniqueOrder(init);
      var seen := Unique(init);
      OrderExtend(seen, init, s);
      if last !in seen {
        FirstIndexOfNew(s);
        OrderSnoc(seen, last, s);
      }
    }
  }

  /** A last element that is new is first found at the end. */
  lemma FirstIndexOfNew(s: seq<PatientId>)
    requires s != [] && s[|s| - 1] !in s[..|s| - 1]
    ensures FirstIndex(s, s[|s| - 1]) == |s| - 1
  {
  }

  /** First appearances within a prefix are first appearances in the whole. */
  lemma OrderExtend(u: seq<PatientId>, init: seq<PatientId>, s: seq<PatientId>)
    requires |init| <= |s| && init == s[..|init|]
    requires InFirstAppearanceOrder(u, init)
    ensures InFirstAppearanceOrder(u, s)
    ensures forall k :: 0 <= k < |u| ==> FirstIndex(s, u[k]) < |init|
  {
    forall k | 0 <= k < |u| ensures u[k] in s && FirstIndex(s, u[k]) == FirstIndex(init, u[k]) {
      FirstIndexPrefix(s, |init|, u[k]);
    }
  }

  /** A prefix of an ordered sequence is ordered. */
  lemma OrderPrefix(u: seq<PatientId>, m: nat, s: seq<PatientId>)
    requires m <= |u| && InFirstAppearanceOrder(u, s)
    ensures InFirstAppearanceOrder(u[..m], s)
  {
  }

  /** Every earlier element of an ordered sequence is first found before its last. */
  lemma OrderBeforeLast(u: seq<PatientId>, s: seq<PatientId>, x: PatientId)
    requires |u| > 0 && InFirstAppearanceOrder(u, s) && x in u[..|u| - 1]
    ensures FirstIndex(s, x) < FirstIndex(s, u[|u| - 1])
  {
    var j :| 0 <= j < |u| - 1 && u[..|u| - 1][j] == x;
    assert u[j] == x;
  }

  /** Appending an element first found after all others keeps the order. */
  lemma OrderSnoc(u: seq<PatientId>, x: PatientId, s: seq<PatientId>)
    requires InFirstAppearanceOrder(u, s) && x in s
    requires forall k :: 0 <= k < |u| ==> FirstIndex(s, u[k]) < FirstIndex(s, x)
    ensures InFirstAppearanceOrder(u + [x], s)
  {
  }

  /** The rows of `table` that belong to patient `id`, in table order. */
  function PatientSeries(table: seq<Record>, id: PatientId): seq<Record>
  {
    if table == [] then []
    else
      var last := table[|table| - 1];
      PatientSeries(table[..|table| - 1], id) + (if last.patientId == id then [last] else [])
  }

  /** `df[df["patient_id"] == id]` holds exactly the rows of patient `id`, one
      entry per row of the table that belongs to the patient. */
  lemma {:induction false} PatientSeriesRows(table: seq<Record>, id: PatientId)
    ensures forall r :: r in PatientSeries(table, id) <==> r in table && r.patientId == id
    ensures |PatientSeries(table, id)| <= |table|
    ensures |PatientSeries(table, id)| == |set i | 0 <= i < |table| && table[i].patientId == id|
  {
    PatientSeriesCount(table, id);
    if table != [] {
      var init := table[..|table| - 1];
      PatientSeriesRows(init, id);
      assert table == init + [table[|table| - 1]];
    }
  }

  lemma {:induction false} PatientSeriesCount(table: seq<Record>, id: PatientId)
    ensures |PatientSeries(table, id)| == |set i | 0 <= i < |table| && table[i].patientId == id|
  {
    if table != [] {
      var n := |table|;
      var init, last := table[..n - 1], table[n - 1];
      PatientSeriesCount(init, id);
      var rows := set i | 0 <= i < n && table[i].patientId == id;
      var before := set i | 0 <= i < n - 1 && init[i].patientId == id;
      if last.patientId == id {
        assert PatientSeries(table, id) == PatientSeries(init, id) + [last];
        assert rows == before + {n - 1};
        assert n - 1 !in before;
      } else {
        assert PatientSeries(table, id) == PatientSeries(init, id);
        assert rows == before;
      }
    }
  }

  /** Selecting a patient's rows from two tables joined end to end selects
      them from each, keeping table order. */
  lemma {:induction false} PatientSeriesAppend(a: seq<Record>, b: seq<Record>, id: PatientId)
    ensures PatientSeries(a + b, id) == PatientSeries(a, id) + PatientSeries(b, id)
  {
    if b == [] {
      assert a + b == a;
    } else {
      var init, last := b[..|b| - 1], b[|b| - 1];
      assert (a + b)[..|a + b| - 1] == a + init;
      assert (a + b)[|a + b| - 1] == last;
      PatientSeriesAppend(a, init, id);
    }
  }

  /** A date-ordered table gives every patient a date-ordered series. */
  lemma {:induction false} PatientSeriesDateOrdered(table: seq<Record>, id: PatientId)
    requires DateOrdered(table)
    ensures DateOrdered(PatientSeries(table, id))
  {
    if table != [] {
      var n := |table|;
      var init, last := table[..n - 1], table[n - 1];
      assert DateOrdered(init);
      PatientSeriesDateOrdered(init, id);
      if last.patientId == id {
        var front := PatientSeries(init, id);
        PatientSeriesRows(init, id);
        forall k | 0 <= k < |front| ensures front[k].date <= last.date {
          assert front[k] in init;
          var j :| 0 <= j < |init| && init[j] == front[k];
          assert table[j] == init[j];
        }
        DateOrderedSnoc(front, last);
      }
    }
  }

  lemma DateOrderedSnoc(s: seq<Record>, r: Record)
    requires DateOrdered(s)
    requires forall k :: 0 <= k < |s| ==> s[k].date <= r.date
    ensures DateOrdered(s + [r])
  {
  }

  /** The ids of `ids` that have at least `MinRecords` rows, in the same order. */
  function KeepQualifying(table: seq<Record>, ids: seq<PatientId>): (q: seq<PatientId>)
    ensures |q| <= |ids|
    ensures forall k :: 0 <= k < |q| ==> q[k] in ids
  {
    if ids == [] then []
    else
      var last := ids[|ids| - 1];
      KeepQualifying(table, ids[..|ids| - 1])
        + (if |PatientSeries(table, last)| >= MinRecords then [last] else [])
  }

  /** An id is kept exactly when it is a candidate with at least five records. */
  lemma {:induction false} KeepQualifyingMembers(table: seq<Record>, ids: seq<PatientId>)
    ensures forall x :: x in KeepQualifying(table, ids) <==> x in ids && |PatientSeries(table, x)| >= MinRecords
  {
    if ids != [] {
      var init := ids[..|ids| - 1];
      KeepQualifyingMembers(table, init);
      assert ids == init + [ids[|ids| - 1]];
    }
  }

  /** Dropping ids keeps the rest in first-appearance order. */
  lemma {:induction false} KeepQualifyingOrder(table: seq<Record>, ids: seq<PatientId>, s: seq<PatientId>)
    requires InFirstAppearanceOrder(ids, s)
    ensures InFirstAppearanceOrder(KeepQualifying(table, ids), s)
  {
    if ids != [] {
      var n := |ids|;
      var init, last := ids[..n - 1], ids[n - 1];
      OrderPrefix(ids, n - 1, s);
      KeepQualifyingOrder(table, init, s);
      if |PatientSeries(table, last)| >= MinRecords {
        var front := KeepQualifying(table, init);
        forall k | 0 <= k < |front| ensures FirstIndex(s, front[k]) < FirstIndex(s, last) {
          OrderBeforeLast(ids, s, front[k]);
        }
        OrderSnoc(front, last, s);
        assert KeepQualifying(table, ids) == front + [last];
      } else {
        assert KeepQualifying(table, ids) == KeepQualifying(table, init);
      }
    }
  }

  /** The ids `analyze_all_patients` reports, in the order it reports them. */
  function Qualifying(table: seq<Record>): seq<PatientId>
  {
    KeepQualifying(table, Unique(PatientIds(table)))
  }

  /** The anomaly model scores each record of the series it is given. */
  ghost predicate ScoresEveryRecord(scorer: seq<Record> -> seq<real>)
  {
    forall s :: |scorer(s)| == |s|
  }

  /** The assessment of one qualifying patient: the penalised score, the
      progress flag and the insight built from them and the summary. */
  function Assess(table: seq<Record>, scorer: seq<Record> -> seq<real>, id: PatientId): Assessment
    requires ScoresEveryRecord(scorer)
    requires |PatientSeries(table, id)| >= MinRecords
  {
    var ps := PatientSeries(table, id);
    AssessmentOf(ps, scorer(ps), id)
  }

  /** The results row for patient `id` with series `ps` and anomaly scores
      `scores`: it is the patient's, its score is the mean anomaly score less at
      most 1.10, its progress flag is the series', and its insight is High-risk
      exactly when the score is below the threshold, a hard flag is raised and
      there is no progress. */
  function AssessmentOf(ps: seq<Record>, scores: seq<real>, id: PatientId): (a: Assessment)
    requires |ps| > 0 && |scores| > 0
    ensures a.patientId == id && a.progress == HasProgress(ps)
    ensures Mean(scores) - 1.10 <= a.riskScore <= Mean(scores)
    ensures StartsWith(a.insight, HighTag) <==>
              a.riskScore < RiskThreshold && HardEscalationCount(Summarize(ps)) >= 1 && !a.progress
  {
    var risk := ConcernScore(ps, scores);
    var progress := HasProgress(ps);
    Assessment(id, risk, progress, InsightText(risk, progress, Summarize(ps)))
  }

  /** An assessment is the patient's, its score is the mean anomaly score less
      at most 1.10, and its insight is High-risk exactly when the score is
      below the threshold, a hard flag is raised and there is no progress. */
  lemma AssessFacts(table: seq<Record>, scorer: seq<Record> -> seq<real>, id: PatientId)
    requires ScoresEveryRecord(scorer)
    requires |PatientSeries(table, id)| >= MinRecords
    ensures var ps := PatientSeries(table, id);
            var a := Assess(table, scorer, id);
            && a.patientId == id
            && Mean(scorer(ps)) - 1.10 <= a.riskScore <= Mean(scorer(ps))
            && a.progress == HasProgress(ps)
            && (StartsWith(a.insight, HighTag) <==>
                a.riskScore < RiskThreshold && HardEscalationCount(Summarize(ps)) >= 1 && !a.progress)
  {
    var ps := PatientSeries(table, id);
    var sm := Summarize(ps);
    var risk := ConcernScore(ps, scorer(ps));
    HighPrefixOnlyHigh(Classify(risk, HasProgress(ps), sm), ReasonText(sm));
  }

  /** The results for the candidate ids `ids`, skipping those with too few records. */
  function AssessAll(table: seq<Record>, scorer: seq<Record> -> seq<real>, ids: seq<PatientId>): seq<Assessment>
    requires ScoresEveryRecord(scorer)
  {
    if ids == [] then []
    else
      var last := ids[|ids| - 1];
      AssessAll(table, scorer, ids[..|ids| - 1])
        + (if |PatientSeries(table, last)| >= MinRecords then [Assess(table, scorer, last)] else [])
  }

  /** What `analyze_all_patients` returns. */
  function AllAssessments(table: seq<Record>, scorer: seq<Record> -> seq<real>): seq<Assessment>
    requires ScoresEveryRecord(scorer)
  {
    AssessAll(table, scorer, Unique(PatientIds(table)))
  }

  /** `analyze_all_patients`: one pass over the distinct ids, skipping those
      with fewer than five records and assessing the rest. */
  method AnalyzeAllPatients(table: seq<Record>, scorer: seq<Record> -> seq<real>)
    returns (results: seq<Assessment>)
    requires ScoresEveryRecord(scorer)
    ensures results == AllAssessments(table, scorer)
  {
    results := [];
    var ids := Unique(PatientIds(table));
    var i := 0;
    while i < |ids|
      invariant i <= |ids|
      invariant results == AssessAll(table, scorer, ids[..i])
    {
      var patientId := ids[i];
      var patientSeries := PatientSeries(table, patientId);
      AssessAllStep(table, scorer, ids, i);
      if |patientSeries| < MinRecords {
        i := i + 1;
        continue;
      }
      var assessment := AssessPatient(patientSeries, scorer(patientSeries), patientId);
      results := results + [assessment];
      i := i + 1;
    }
    assert ids[..|ids|] == ids;
  }

  /** The body of the loop for one patient with enough records: score the
      series, apply the rules and phrase the insight. */
  method AssessPatient(patientSeries: seq<Record>, scores: seq<real>, patientId: PatientId)
    returns (a: Assessment)
    requires |patientSeries| >= MinRecords && |scores| == |patientSeries|
    ensures a == AssessmentOf(patientSeries, scores, patientId)
  {
    var risk := DetectConcern(patientSeries, scores);
    var progress := HasProgress(patientSeries);
    var summary := Summarize(patientSeries);
    var insight := GenerateInsight(risk, progress, summary);
    a := Assessment(patientId, risk, progress, insight);
  }

  /** One more candidate id adds its assessment when it qualifies. */
  lemma AssessAllStep(table: seq<Record>, scorer: seq<Record> -> seq<real>, ids: seq<PatientId>, i: nat)
    requires ScoresEveryRecord(scorer) && i < |ids|
    ensures AssessAll(table, scorer, ids[..i + 1])
         == AssessAll(table, scorer, ids[..i])
            + (if |PatientSeries(table, ids[i])| >= MinRecords then [Assess(table, scorer, ids[i])] else [])
  {
    assert ids[..i + 1][..i] == ids[..i];
  }

  /** The patient ids of a results table, row by row. */
  function AssessedIds(results: seq<Assessment>): seq<PatientId>
  {
    seq(|results|, i requires 0 <= i < |results| => results[i].patientId)
  }

  /** The results for `ids` list its qualifying ids, in order. */
  lemma {:induction false} AssessAllIds(table: seq<Record>, scorer: seq<Record> -> seq<real>, ids: seq<PatientId>)
    requires ScoresEveryRecord(scorer)
    ensures AssessedIds(AssessAll(table, scorer, ids)) == KeepQualifying(table, ids)
  {
    if ids != [] {
      var init, last := ids[..|ids| - 1], ids[|ids| - 1];
      AssessAllIds(table, scorer, init);
      var front := AssessAll(table, scorer, init);
      if |PatientSeries(table, last)| >= MinRecords {
        var a := Assess(table, scorer, last);
        assert a.patientId == last;
        AssessedIdsSnoc(front, a);
      }
    }
  }

  lemma AssessedIdsSnoc(results: seq<Assessment>, a: Assessment)
    ensures AssessedIds(results + [a]) == AssessedIds(results) + [a.patientId]
  {
  }

  /** Every row for `ids` is the assessment of a qualifying patient. */
  lemma {:induction false} AssessAllRows(table: seq<Record>, scorer: seq<Record> -> seq<real>, ids: seq<PatientId>)
    requires ScoresEveryRecord(scorer)
    ensures forall a :: a in AssessAll(table, scorer, ids) ==>
              |PatientSeries(table, a.patientId)| >= MinRecords && a == Assess(table, scorer, a.patientId)
  {
    if ids != [] {
      var init, last := ids[..|ids| - 1], ids[|ids| - 1];
      AssessAllRows(table, scorer, init);
      if |PatientSeries(table, last)| >= MinRecords {
        assert Assess(table, scorer, last).patientId == last;
      }
    }
  }

  /** `analyze_all_patients` reports exactly the patients with at least five
      records, each once, in order of first appearance, each with its own assessment. */
  lemma AllAssessmentsExact(table: seq<Record>, scorer: seq<Record> -> seq<real>)
    requires ScoresEveryRecord(scorer)
    ensures var ids := AssessedIds(AllAssessments(table, scorer));
            && ids == Qualifying(table)
            && (forall id :: id in ids <==> id in PatientIds(table) && |PatientSeries(table, id)| >= MinRecords)
            && InFirstAppearanceOrder(ids, PatientIds(table))
            && NoDuplicates(ids)
    ensures forall a :: a in AllAssessments(table, scorer) ==>
              |PatientSeries(table, a.patientId)| >= MinRecords && a == Assess(table, scorer, a.patientId)
  {
    var all := PatientIds(table);
    AssessAllIds(table, scorer, Unique(all));
    AssessAllRows(table, scorer, Unique(all));
    UniqueOrder(all);
    KeepQualifyingOrder(table, Unique(all), all);
    KeepQualifyingMembers(table, Unique(all));
    var ids := Qualifying(table);
    forall i, j | 0 <= i < j < |ids| ensures ids[i] != ids[j] {
      assert FirstIndex(all, ids[i]) < FirstIndex(all, ids[j]);
    }
  }

  /** A patient's first appearance in the table has a row in the results
      exactly when the patient has at least five records. */
  lemma PatientAssessedIff(table: seq<Record>, scorer: seq<Record> -> seq<real>, i: nat)
    requires ScoresEveryRecord(scorer) && i < |table|
    ensures table[i].patientId in AssessedIds(AllAssessments(table, scorer))
        <==> |PatientSeries(table, table[i].patientId)| >= MinRecords
  {
    AllAssessmentsExact(table, scorer);
    assert PatientIds(table)[i] == table[i].patientId;
  }

  function RiskKey(a: Assessment): real { a.riskScore }

  /** `results_df[results_df["insight"].str.startswith("High risk")]`, in row order. */
  function HighRisk(results: seq<Assessment>): (h: seq<Assessment>)
    ensures forall a :: a in h <==> a in results && StartsWith(a.insight, HighTag)
    ensures |h| <= |results|
  {
    if results == [] then []
    else
      var last := results[|results| - 1];
      HighRisk(results[..|results| - 1]) + (if StartsWith(last.insight, HighTag) then [last] else [])
  }

  /** The boolean mask keeps every High-risk row exactly as often as it occurs
      in the results, and no other row. */
  lemma {:induction false} HighRiskMultiplicity(results: seq<Assessment>)
    ensures forall a :: multiset(HighRisk(results))[a]
                        == if StartsWith(a.insight, HighTag) then multiset(results)[a] else 0
  {
    if results != [] {
      var init, last := results[..|results| - 1], results[|results| - 1];
      HighRiskMultiplicity(init);
      assert results == init + [last];
    }
  }

  /** The filter keeps one row per results row whose insight starts with
      "High risk". */
  lemma {:induction false} HighRiskCount(results: seq<Assessment>)
    ensures |HighRisk(results)| == |HighRows(results)|
  {
    if results != [] {
      var n := |results|;
      var init, last := results[..n - 1], results[n - 1];
      HighRiskCount(init);
      HighRowsSnoc(results);
      if StartsWith(last.insight, HighTag) {
        assert HighRisk(results) == HighRisk(init) + [last];
      } else {
        assert HighRisk(results) == HighRisk(init);
      }
    }
  }

  /** The positions of the results rows whose insight starts with "High risk". */
  function HighRows(results: seq<Assessment>): set<nat>
  {
    set i | 0 <= i < |results| && StartsWith(results[i].insight, HighTag)
  }

  /** One more results row adds its position exactly when it is High-risk. */
  lemma HighRowsSnoc(results: seq<Assessment>)
    requires results != []
    ensures var n := |results|;
            |HighRows(results)|
            == |HighRows(results[..n - 1])| + (if StartsWith(results[n - 1].insight, HighTag) then 1 else 0)
  {
    var n := |results|;
    var init := results[..n - 1];
    var before := HighRows(init);
    assert n - 1 !in before;
    if StartsWith(results[n - 1].insight, HighTag) {
      assert HighRows(results) == before + {n - 1} by {
        forall i | i in HighRows(results) ensures i in before + {n - 1} {
          if i < n - 1 { assert init[i] == results[i]; }
        }
        forall i | i in before ensures i in HighRows(results) {
          assert init[i] == results[i];
        }
      }
    } else {
      assert HighRows(results) == before by {
        forall i | i in HighRows(results) ensures i in before {
          assert i < n - 1;
          assert init[i] == results[i];
        }
        forall i | i in before ensures i in HighRows(results) {
          assert init[i] == results[i];
        }
      }
    }
  }

  /** The triage view lists as many rows as `HighRisk` counts. */
  lemma TriageViewCount(results: seq<Assessment>)
    ensures |TriageView(results)| == |HighRows(results)|
  {
    HighRiskCount(results);
    assert |multiset(TriageView(results))| == |multiset(HighRisk(results))|;
  }

  /** The High-risk rows, most urgent (lowest risk score) first. */
  function TriageView(results: seq<Assessment>): (v: seq<Assessment>)
    ensures SortedBy(v, RiskKey)
    ensures multiset(v) == multiset(HighRisk(results))
  {
    SortBy(HighRisk(results), RiskKey)
  }

  /** A results row appears in `v` exactly when it is in `h`. */
  lemma SameElements(v: seq<Assessment>, h: seq<Assessment>)
    requires multiset(v) == multiset(h)
    ensures forall a :: a in v <==> a in h
  {
    forall a ensures a in v <==> a in h {
      assert a in v <==> a in multiset(v);
      assert a in h <==> a in multiset(h);
    }
  }

  /** The triage view lists exactly the assessed patients that the insight
      rules escalate: score below the threshold, a hard flag, no progress. */
  lemma TriageExact(table: seq<Record>, scorer: seq<Record> -> seq<real>, a: Assessment)
    requires ScoresEveryRecord(scorer)
    ensures var results := AllAssessments(table, scorer);
            a in TriageView(results) <==>
              a in results
              && |PatientSeries(table, a.patientId)| >= MinRecords
              && a.riskScore < RiskThreshold
              && HardEscalationCount(Summarize(PatientSeries(table, a.patientId))) >= 1
              && !a.progress
  {
    var results := AllAssessments(table, scorer);
    AllAssessmentsExact(table, scorer);
    SameElements(TriageView(results), HighRisk(results));
    if a in results {
      AssessFacts(table, scorer, a.patientId);
    }
  }

  /** What the standalone run's triage step yields. With no qualifying patient
      the results frame has no columns, so selecting its `insight` column fails
      with a KeyError; otherwise it yields the High-risk rows, most urgent first. */
  datatype TriageOutcome = MissingInsightColumn | Ranked(rows: seq<Assessment>)

  /** The selection, filter and sort of the standalone run: fails exactly on an
      empty results table, and otherwise ranks the High-risk rows. */
  function RunTriage(results: seq<Assessment>): (o: TriageOutcome)
    ensures o.MissingInsightColumn? <==> results == []
    ensures o.Ranked? ==> SortedBy(o.rows, RiskKey) && multiset(o.rows) == multiset(HighRisk(results))
  {
    if results == [] then MissingInsightColumn else Ranked(TriageView(results))
  }

  /** The run fails exactly when no patient of the table has five records,
      the empty table included. */
  lemma TriageFailsIffNoneQualify(table: seq<Record>, scorer: seq<Record> -> seq<real>)
    requires ScoresEveryRecord(scorer)
    ensures RunTriage(AllAssessments(table, scorer)).MissingInsightColumn? <==>
              forall i :: 0 <= i < |table| ==> |PatientSeries(table, table[i].patientId)| < MinRecords
  {
    var results := AllAssessments(table, scorer);
    AllAssessmentsExact(table, scorer);
    var ids := AssessedIds(results);
    assert |ids| == |results|;
    if results == [] {
      forall i | 0 <= i < |table| ensures |PatientSeries(table, table[i].patientId)| < MinRecords {
        assert PatientIds(table)[i] == table[i].patientId;
        assert table[i].patientId !in ids;
      }
    } else {
      assert ids[0] in ids;
      var i :| 0 <= i < |table| && PatientIds(table)[i] == ids[0];
      assert |PatientSeries(table, table[i].patientId)| >= MinRecords;
    }
  }
}
