# Patient risk engine — a Dafny model

This project models the rule engine of a behavioural-health monitoring
pipeline (`model.py`). The engine reads one patient's daily records: sleep
hours, activity, mood, therapy attendance, heart rate and stress. It produces
three things:

- a **penalised risk score**: the mean anomaly score of the records, minus fixed
  penalties for recent deviations from the patient's own baseline;
- a **progress flag**: whether mood over the last four records beat the four
  records before them;
- a **six-flag change summary** of the last three records.

A first-match-wins classifier turns these into one of three messages: High
risk, Medium risk or Stable. The High and Medium messages list the true flags
in a fixed order, joined by ", ". A batch driver assesses every distinct
patient with at least five records. A triage view lists the High-risk rows in
ascending order of risk score.

Modules, one per part of the program:

- `Stats` (stats.dfy): `sum`, `mean`, `quantile(0.25)` with pandas' linear
  interpolation, and an order-by-key sort.
- `Series` (series.dfy): the record, its feature columns, the trailing window
  `iloc[-k:]`, and date order.
- `Rules` (rules.dfy): `detect_concern`, `has_made_progress` and
  `summarize_changes`.
- `Insight` (insight.dfy): `generate_insight`, plus the tier and its recovery
  from the message prefix.
- `Triage` (triage.dfy): `analyze_all_patients` and the High-risk view.
- `Scenarios` (scenarios.dfy): two complete series worked through the whole
  pipeline.

The three step-by-step parts of the source are methods, each proved equal to a
pure function:

- `Rules.DetectConcern` subtracts its penalties one at a time;
- `Insight.GenerateInsight` appends its reasons one at a time;
- `Triage.AnalyzeAllPatients` loops over the patients and appends their results.

The anomaly model is an input. `scores` is the per-record decision value. In
the batch, `scorer` maps a patient's series to those values, one per record.

## Model

| member | source | states |
|---|---|---|
| Stats.SortBy | model.py:228 | the result is a rearrangement of the input (same multiset) in non-decreasing key order |
| Stats.AtQuarterRankBetween | model.py:95 | on sorted values, interpolating at rank (n-1)/4 gives a value between the smallest and the largest |
| Stats.Quantile25 | model.py:95 | `quantile(0.25)` lies between two values of the series: at least one value is no larger and at least one is no smaller |
| Stats.QuantileConstant | model.py:95 | the 25th percentile of a constant series is that constant |
| Stats.SumAppend | model.py:72 | the sum of two series joined end to end is the sum of their sums |
| Stats.MeanConstant | model.py:75-83 | the mean of a series whose every value is c is c |
| Stats.MeanCompare | model.py:131-132 | a mean is above or below a bound exactly when the sum is above or below the bound times the length |
| Series.Column | model.py:59-68 | a column has one entry per record, and entry i is that feature of record i |
| Series.Tail | model.py:79-83 | the window is the last min(k, \|s\|) records |
| Rules.PenaltyTotal | model.py:86-100 | the total penalty lies between 0 and 1.10, and it is 0 exactly when no condition fires |
| Rules.ConcernScore | model.py:71-102 | the penalised score is never above the mean anomaly score and at most 1.10 below it, and it equals the mean exactly when no penalty fires |
| Rules.DetectConcern | model.py:58-102 | the result is the mean anomaly score minus 0.30/0.25/0.30/0.15/0.10 for each sleep/heart-rate/stress/activity/mood condition that holds; it lies between that mean minus 1.10 and the mean |
| Rules.PenaltyStacking | model.py:86-100 | with the same raw score, firing a superset of conditions never raises the result, and firing a strictly larger set lowers it |
| Rules.Summarize | model.py:123-134 | the stress flag is the same condition as the stress penalty of model.py:92, and the activity flag the same condition as the activity penalty of model.py:95: same window, same bound |
| Rules.SummaryOfSums | model.py:126-134 | each summary flag is exactly a bound on the window's sum: sleep < 4k, activity < q·k, mood < 2k, heart rate > 100k, stress > 7k for a window of k records; therapy sum < 2 |
| Rules.SummarizeLastThree | model.py:131-133 | with three or more records: high heart rate iff the last three rates sum above 300; high stress iff the last three levels sum above 21; missed therapy iff fewer than two of the last three sessions were attended |
| Rules.SingleRecordMissesTherapy | model.py:133 | for a one-record series, therapy counts as missed even if that session was attended |
| Rules.HasProgress | model.py:109-111 | a series of fewer than 8 records never shows progress |
| Rules.ProgressLastEight | model.py:109-116 | progress holds exactly when there are at least 8 records and the last four moods sum strictly above the four before them; fewer than 8 records or a tie is never progress |
| Insight.HardEscalationCount | model.py:142-146 | between 0 and 3, and 0 exactly when none of heart rate, stress or therapy is flagged |
| Insight.Classify | model.py:164-182 | High iff the score is below -0.2, a hard flag is raised and there is no progress; Medium iff the score is below -0.2 and either no hard flag is raised or there is progress; Stable iff the score is at least -0.2 |
| Insight.SoftFlagsNeverEscalate | model.py:140-172 | with no hard flag, whatever sleep, activity and mood say, the tier is never High, and it is Medium when the score is below -0.2 |
| Insight.TrueFlags | model.py:149-160 | a flag is listed exactly when it is in the order and holds |
| Insight.TrueFlagsInOrder | model.py:149-160 | the listed flags keep the fixed order sleep, activity, mood, heart rate, stress, therapy |
| Insight.ReasonsArePhrases | model.py:149-160 | after the first k appends, the reasons list is the phrases of the true flags among the first k |
| Insight.ReasonsAreTrueFlagPhrases | model.py:147-160 | the finished reasons list is exactly the phrases of the true flags, in the fixed order |
| Insight.ReasonsExact | model.py:149-160 | a flag's phrase is among the reasons exactly when the flag holds; there is one reason per true flag, in the fixed order |
| Insight.PhrasesDistinct | model.py:150-160 | different flags have different phrases |
| Insight.SplitJoin | model.py:162 | splitting a ", "-join of comma-free parts gives back the parts |
| Insight.ReasonTextRoundTrip | model.py:162 | when some flag holds, splitting the explanation at ", " gives back exactly the reasons list |
| Insight.NoChangesExactly | model.py:162 | the explanation is "no significant behavioral changes" exactly when no flag holds |
| Insight.MessageTierRoundTrip | model.py:165-182 | the tier can be read back from the message prefix |
| Insight.HighPrefixOnlyHigh | model.py:165-170 | a message starts with "High risk" exactly when its tier is High |
| Insight.MessageReasonRoundTrip | model.py:167-176 | a High or Medium message carries the explanation verbatim between its fixed head and tail, so it can be cut back out |
| Insight.StableOmitsReasons | model.py:178-182 | the Stable message is the same whatever the reasons |
| Insight.InsightText | model.py:137-182 | the returned text starts with "High risk" exactly when the classification is High, and a High or Medium text carries the explanation verbatim |
| Insight.GenerateInsight | model.py:137-182 | the message is the template of the classified tier around the joined reasons, and it starts with "High risk" exactly when the score is below -0.2, a hard flag is raised and there is no progress |
| Triage.PatientIds | model.py:192 | the id column has one entry per row, and entry i is row i's patient |
| Triage.FirstIndex | model.py:192 | the first index of an id is where it first appears: it is below the table's length exactly when the id occurs, it holds the id there, and the id does not occur before it |
| Triage.Unique | model.py:192 | every id of the table appears once, and nothing else does |
| Triage.UniqueOrder | model.py:192 | the distinct ids are in order of first appearance in the table |
| Triage.PatientSeriesRows | model.py:193 | a patient's series holds exactly that patient's rows of the table, and its length is the number of table rows that belong to the patient |
| Triage.PatientSeriesAppend | model.py:193 | selecting a patient's rows from two tables joined end to end selects them from each, in table order |
| Triage.PatientSeriesDateOrdered | model.py:193 | a date-ordered table gives date-ordered patient series |
| Triage.KeepQualifyingMembers | model.py:195-196 | an id survives the length check exactly when it is a candidate with at least 5 records |
| Triage.KeepQualifyingOrder | model.py:192-196 | skipping short series keeps the ids in first-appearance order |
| Triage.AssessFacts | model.py:198-202 | an assessment belongs to its patient; its score lies within 1.10 below the mean anomaly score; its progress flag is the patient's; its insight starts with "High risk" exactly under the High conditions |
| Triage.AssessmentOf | model.py:198-211 | a results row belongs to its patient, carries the series' progress flag, scores within 1.10 below the mean anomaly score, and has an insight starting with "High risk" exactly when the score is below -0.2, a hard flag is raised and there is no progress |
| Triage.AssessPatient | model.py:198-211 | one loop iteration produces the assessment of the patient's series and scores |
| Triage.AnalyzeAllPatients | model.py:189-213 | the loop returns exactly the specified results: one assessment per qualifying id, in order |
| Triage.AssessAllIds | model.py:192-211 | the results list the qualifying candidate ids, in order |
| Triage.AssessAllRows | model.py:192-211 | every result row is the assessment of a patient with at least 5 records |
| Triage.AllAssessmentsExact | model.py:189-213 | the reported ids are exactly the patients with at least 5 records, each once, in first-appearance order, each with its own assessment |
| Triage.PatientAssessedIff | model.py:195-196 | a patient in the table is reported exactly when it has at least 5 records: 4 records are excluded, 5 are included |
| Triage.HighRisk | model.py:226-227 | a row is kept exactly when its insight starts with "High risk" |
| Triage.HighRiskMultiplicity | model.py:226-227 | the mask keeps every High-risk row exactly as many times as it occurs in the results, and no other row |
| Triage.HighRiskCount | model.py:226-227 | the filter keeps one row per results row whose insight starts with "High risk" |
| Triage.TriageViewCount | model.py:226-233 | the view's length, the reported High-risk total, is the number of results rows whose insight starts with "High risk" |
| Triage.TriageView | model.py:226-228 | the view is the High-risk rows rearranged in non-decreasing order of risk score |
| Triage.RunTriage | model.py:224-228 | the standalone triage step fails, because the `insight` column is missing, exactly when the results table is empty; otherwise it yields the High-risk rows in non-decreasing risk order |
| Triage.TriageFailsIffNoneQualify | model.py:189-228 | the triage step fails exactly when no patient of the table has 5 records, an empty table included |
| Triage.TriageExact | model.py:226-228 | a row is in the view exactly when it is a result whose score is below -0.2, whose patient has a hard flag raised, and which shows no progress |
| Scenarios.SteadyScenario | model.py:58-182 | a steady series of two or more records fires no penalty, raises no flag and shows no progress; its insight is Stable when the mean anomaly score is at least -0.2, and otherwise Medium with "no significant behavioral changes" |
| Scenarios.EscalationScenario | model.py:58-182 | seven baseline days then three days with heart rate 130, stress 9 and no therapy: exactly the heart-rate and stress penalties fire (0.55), exactly the three hard flags are raised, there is no progress, and the insight is High, naming heart rate, stress and therapy, exactly when the mean anomaly score is below 0.35 |

## Left out

- The IsolationForest anomaly model (model.py:33-50, 71) is a randomised foreign ensemble. Its per-record decision values are an input: `scores`, or `scorer` in the batch. The only requirement is one value per record.
- `load_data` and `process_data` (model.py:10-26) are CSV reading, column normalisation, date parsing, sorting and filling with means. Sorting the table by date is not modelled. The rules read records by position, so nothing here requires date order; `Triage.PatientSeriesDateOrdered` states that a patient's series inherits the table's order.
- `round(risk, 3)` (model.py:207) is not modelled. Results carry the exact score, so the triage view sorts on the unrounded values. Two scores that round to the same value keep their exact order.
- IEEE floating point is not modelled. All quantities are exact reals, which includes the 0.7 and 1.15 multipliers and the interpolation.
- `therapy_attended` is a real, not a 0/1 integer, because filling missing cells with the column mean can make it fractional.
- The printing at model.py:230-233 is console output and is left out. The KeyError that model.py:227 raises on an empty results table is modelled as `Triage.RunTriage`'s failure outcome, not as an exception.
- app.py, the dashboard, is not part of this model. It calls an older two-argument `generate_insight`.
- generate_data.py, the synthetic data generator, is not part of this model.
- Triage.TriageView: promises sorted order and the same rows, but not any particular order among equal scores, because pandas' default sort is not stable.
- model.py:178-182 returns the Stable message without `reason_text`. So "no significant behavioral changes" appears only in a Medium message, which `Scenarios.SteadyScenario` states.
