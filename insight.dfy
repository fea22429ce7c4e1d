/** The risk classifier, `generate_insight`: a three-tier, first-match-wins
    classification of the penalised score, the progress flag and the change
    summary, and the message text built from the tier and the true flags.
    The source returns only the message; the tier is recovered from its prefix,
    so the tier and that recovery are modelled here explicitly. */
module Insight {
  import opened Rules

  datatype Tier = High | Medium | Stable

  /** A score below this is at least Medium risk. */
  const RiskThreshold: real := -0.2

  /** Number of the three "hard" flags that hold; sleep, activity and mood are
      deliberately not counted. The source adds three numpy booleans, which is
      a logical or, so its value is a boolean rather than a count; the only use,
      the gate `>= 1`, holds under either reading exactly when some hard flag
      holds. */
  function HardEscalationCount(sm: Summary): (n: nat)
    ensures n <= 3
    ensures n == 0 <==> !sm.highHr && !sm.highStress && !sm.missedTherapy
  {
    (if sm.highHr then 1 else 0) + (if sm.highStress then 1 else 0) + (if sm.missedTherapy then 1 else 0)
  }

  /** The tier `generate_insight` picks: exactly one of the three, stated here
      in terms of the flags rather than the count. */
  function Classify(riskScore: real, progress: bool, sm: Summary): (t: Tier)
    ensures t == High <==>
      riskScore < RiskThreshold && (sm.highHr || sm.highStress || sm.missedTherapy) && !progress
    ensures t == Medium <==>
      riskScore < RiskThreshold && ((!sm.highHr && !sm.highStress && !sm.missedTherapy) || progress)
    ensures t == Stable <==> riskScore >= RiskThreshold
  {
    if riskScore < RiskThreshold && HardEscalationCount(sm) >= 1 && !progress then High
    else if riskScore < RiskThreshold then Medium
    else Stable
  }

  /** Low mood, a sleep drop or low activity, alone or together, never make a
      patient High risk; with a low score they make them Medium. */
  lemma SoftFlagsNeverEscalate(riskScore: real, progress: bool, sm: Summary)
    requires !sm.highHr && !sm.highStress && !sm.missedTherapy
    ensures Classify(riskScore, progress, sm) != High
    ensures riskScore < RiskThreshold ==> Classify(riskScore, progress, sm) == Medium
  {
  }

  /** The six summary flags, by name. */
  datatype Flag = SleepDrop | LowActivity | LowMood | HighHr | HighStress | MissedTherapy

  /** The fixed order in which reasons are listed. */
  const FlagOrder: seq<Flag> := [SleepDrop, LowActivity, LowMood, HighHr, HighStress, MissedTherapy]

  function Holds(sm: Summary, f: Flag): bool
  {
    match f
    case SleepDrop => sm.sleepDrop
    case LowActivity => sm.lowActivity
    case LowMood => sm.lowMood
    case HighHr => sm.highHr
    case HighStress => sm.highStress
    case MissedTherapy => sm.missedTherapy
  }

  /** The phrase each true flag contributes to the explanation. */
  function Phrase(f: Flag): string
  {
    match f
    case SleepDrop => "reduced sleep"
    case LowActivity => "low activity levels"
    case LowMood => "persistently low mood"
    case HighHr => "elevated heart rate"
    case HighStress => "high stress levels"
    case MissedTherapy => "missed therapy sessions"
  }

  /** Position of a flag in `FlagOrder`. */
  function Rank(f: Flag): (k: nat)
    ensures k < |FlagOrder| && FlagOrder[k] == f
  {
    match f
    case SleepDrop => 0
    case LowActivity => 1
    case LowMood => 2
    case HighHr => 3
    case HighStress => 4
    case MissedTherapy => 5
  }

  predicate InFlagOrder(fs: seq<Flag>)
  {
    forall i, j :: 0 <= i < j < |fs| ==> Rank(fs[i]) < Rank(fs[j])
  }

  /** The flags of `order` that hold in `sm`, kept in `order`'s order. */
  function TrueFlags(sm: Summary, order: seq<Flag>): (r: seq<Flag>)
    ensures |r| <= |order|
    ensures forall f :: f in r <==> f in order && Holds(sm, f)
  {
    if order == [] then []
    else TrueFlags(sm, order[..|order| - 1]) + FlagPiece(sm, order[|order| - 1])
  }

  function FlagPiece(sm: Summary, f: Flag): seq<Flag>
  {
    if Holds(sm, f) then [f] else []
  }

  /** Filtering keeps the fixed order. */
  lemma {:induction false} TrueFlagsInOrder(sm: Summary, order: seq<Flag>)
    requires InFlagOrder(order)
    ensures InFlagOrder(TrueFlags(sm, order))
  {
    if order != [] {
      var n := |order|;
      var init := order[..n - 1];
      assert InFlagOrder(init);
      TrueFlagsInOrder(sm, init);
      var front := TrueFlags(sm, init);
      forall f | f in front ensures Rank(f) < Rank(order[n - 1]) {
        var j :| 0 <= j < |init| && init[j] == f;
        assert order[j] == f;
      }
    }
  }

  function Phrases(fs: seq<Flag>): (ps: seq<string>)
    ensures |ps| == |fs|
    ensures forall i :: 0 <= i < |fs| ==> ps[i] == Phrase(fs[i])
  {
    seq(|fs|, i requires 0 <= i < |fs| => Phrase(fs[i]))
  }

  /** The `reasons` list `generate_insight` builds. */
  function Reasons(sm: Summary): seq<string>
  {
    ReasonsUpTo(sm, |FlagOrder|)
  }

  /** The reasons after the first `k` appends: each flag of the fixed order
      adds its phrase when it holds. */
  function ReasonsUpTo(sm: Summary, k: nat): seq<string>
    requires k <= |FlagOrder|
  {
    if k == 0 then []
    else ReasonsUpTo(sm, k - 1) + (if Holds(sm, FlagOrder[k - 1]) then [Phrase(FlagOrder[k - 1])] else [])
  }

  /** The appends list the phrases of the true flags among the first `k`. */
  lemma {:induction false} ReasonsArePhrases(sm: Summary, k: nat)
    requires k <= |FlagOrder|
    ensures ReasonsUpTo(sm, k) == Phrases(TrueFlags(sm, FlagOrder[..k]))
  {
    if k == 0 {
      assert FlagOrder[..0] == [];
    } else {
      ReasonsArePhrases(sm, k - 1);
      var init, f := FlagOrder[..k - 1], FlagOrder[k - 1];
      assert FlagOrder[..k] == init + [f];
      PhrasesStep(sm, init, f);
    }
  }

  /** The reasons are the phrases of the true flags, in the fixed order. */
  lemma ReasonsAreTrueFlagPhrases(sm: Summary)
    ensures Reasons(sm) == Phrases(TrueFlags(sm, FlagOrder))
  {
    ReasonsArePhrases(sm, |FlagOrder|);
    assert FlagOrder[..|FlagOrder|] == FlagOrder;
  }

  /** One more flag in the order adds its phrase exactly when it holds. */
  lemma PhrasesStep(sm: Summary, init: seq<Flag>, f: Flag)
    ensures Phrases(TrueFlags(sm, init + [f]))
         == Phrases(TrueFlags(sm, init)) + (if Holds(sm, f) then [Phrase(f)] else [])
  {
    assert (init + [f])[..|init|] == init;
    PhrasesAppend(TrueFlags(sm, init), FlagPiece(sm, f));
  }

  lemma PhrasesAppend(a: seq<Flag>, b: seq<Flag>)
    ensures Phrases(a + b) == Phrases(a) + Phrases(b)
  {
  }

  /** The reasons name exactly the true flags, each once, in the fixed order. */
  lemma ReasonsExact(sm: Summary)
    ensures forall f :: Phrase(f) in Reasons(sm) <==> Holds(sm, f)
    ensures |Reasons(sm)| == |TrueFlags(sm, FlagOrder)|
    ensures InFlagOrder(TrueFlags(sm, FlagOrder))
  {
    ReasonsAreTrueFlagPhrases(sm);
    TrueFlagsInOrder(sm, FlagOrder);
    forall f ensures Phrase(f) in Reasons(sm) <==> Holds(sm, f) {
      PhraseInPhrases(TrueFlags(sm, FlagOrder), f);
    }
  }

  /** A flag's phrase is among the phrases of `fs` exactly when the flag is. */
  lemma PhraseInPhrases(fs: seq<Flag>, f: Flag)
    ensures Phrase(f) in Phrases(fs) <==> f in fs
  {
    if Phrase(f) in Phrases(fs) {
      var i :| 0 <= i < |fs| && Phrases(fs)[i] == Phrase(f);
      PhrasesDistinct(fs[i], f);
    }
    if f in fs {
      var i :| 0 <= i < |fs| && fs[i] == f;
      assert Phrases(fs)[i] == Phrase(f);
    }
  }

  /** Distinct flags have distinct phrases. */
  lemma PhrasesDistinct(f: Flag, g: Flag)
    ensures f != g ==> Phrase(f) != Phrase(g)
  {
    if f != g {
      assert Phrase(f)[0] != Phrase(g)[0] || |Phrase(f)| != |Phrase(g)|;
    }
  }

  /** Python's `sep.join(parts)`. */
  function Join(parts: seq<string>, sep: string): string
  {
    if |parts| == 0 then ""
    else if |parts| == 1 then parts[0]
    else parts[0] + sep + Join(parts[1..], sep)
  }

  const ReasonSeparator: string := ", "
  const NoChanges: string := "no significant behavioral changes"

  /** `reason_text`: the reasons joined by ", ", or the no-change phrase. */
  function ReasonText(sm: Summary): string
  {
    var reasons := Reasons(sm);
    if reasons != [] then Join(reasons, ReasonSeparator) else NoChanges
  }

  /** Index of the first comma of `s`, or `|s|` when there is none. */
  function CommaIndex(s: string): (i: nat)
    ensures i <= |s|
    ensures ',' !in s[..i]
    ensures i < |s| ==> s[i] == ','
  {
    if s == [] then 0
    else if s[0] == ',' then 0
    else
      assert s[..1 + CommaIndex(s[1..])] == [s[0]] + s[1..][..CommaIndex(s[1..])];
      1 + CommaIndex(s[1..])
  }

  /** Splits an explanation back into its reasons at each ", ". */
  function SplitReasons(text: string): seq<string>
    decreases |text|
  {
    var i := CommaIndex(text);
    if i == |text| then [text]
    else [text[..i]] + SplitReasons(if i + 2 <= |text| then text[i + 2..] else [])
  }

  /** A comma-free prefix is skipped by the comma search. */
  lemma {:induction false} CommaIndexAfter(p: string, rest: string)
    requires ',' !in p
    ensures CommaIndex(p + rest) == |p| + CommaIndex(rest)
  {
    if p == [] {
      assert p + rest == rest;
    } else {
      assert (p + rest)[0] == p[0];
      assert (p + rest)[1..] == p[1..] + rest;
      CommaIndexAfter(p[1..], rest);
    }
  }

  /** Splitting undoes joining with ", " when no part contains a comma. */
  lemma {:induction false} SplitJoin(parts: seq<string>)
    requires |parts| > 0
    requires forall k :: 0 <= k < |parts| ==> ',' !in parts[k]
    ensures SplitReasons(Join(parts, ReasonSeparator)) == parts
  {
    var p := parts[0];
    if |parts| == 1 {
      CommaIndexAfter(p, []);
      assert p + [] == p;
    } else {
      var rest := Join(parts[1..], ReasonSeparator);
      var text := p + ReasonSeparator + rest;
      assert text == p + (ReasonSeparator + rest);
      CommaIndexAfter(p, ReasonSeparator + rest);
      assert CommaIndex(text) == |p|;
      assert text[..|p|] == p;
      assert text[|p| + 2..] == rest;
      SplitJoin(parts[1..]);
    }
  }

  lemma PhraseHasNoComma(f: Flag)
    ensures ',' !in Phrase(f)
  {
  }

  /** The explanation is the true flags' phrases and nothing else: when any
      flag holds, splitting it at ", " gives back exactly `Reasons`. */
  lemma ReasonTextRoundTrip(sm: Summary)
    requires Reasons(sm) != []
    ensures SplitReasons(ReasonText(sm)) == Reasons(sm)
  {
    var reasons := Reasons(sm);
    var fs := TrueFlags(sm, FlagOrder);
    ReasonsAreTrueFlagPhrases(sm);
    forall k | 0 <= k < |reasons| ensures ',' !in reasons[k] {
      PhraseHasNoComma(fs[k]);
    }
    SplitJoin(reasons);
  }

  lemma JoinHead(parts: seq<string>, sep: string)
    requires |parts| > 0 && |parts[0]| > 0
    ensures |Join(parts, sep)| > 0 && Join(parts, sep)[0] == parts[0][0]
  {
  }

  /** The explanation reads "no significant behavioral changes" exactly when
      no flag holds. */
  lemma NoChangesExactly(sm: Summary)
    ensures ReasonText(sm) == NoChanges <==>
      !sm.sleepDrop && !sm.lowActivity && !sm.lowMood && !sm.highHr && !sm.highStress && !sm.missedTherapy
  {
    var reasons := Reasons(sm);
    var fs := TrueFlags(sm, FlagOrder);
    ReasonsAreTrueFlagPhrases(sm);
    if reasons != [] {
      assert fs[0] in fs;
      assert Holds(sm, fs[0]);
      PhraseInitial(fs[0]);
      JoinHead(reasons, ReasonSeparator);
      assert ReasonText(sm)[0] != NoChanges[0];
    } else {
      assert fs == [];
      assert SleepDrop in FlagOrder && LowActivity in FlagOrder && LowMood in FlagOrder;
      assert HighHr in FlagOrder && HighStress in FlagOrder && MissedTherapy in FlagOrder;
    }
  }

  lemma PhraseInitial(f: Flag)
    ensures |Phrase(f)| > 0 && Phrase(f)[0] != 'n'
  {
  }

  const HighTag: string := "High risk"
  const MediumTag: string := "Medium risk"
  const StableTag: string := "Stable"

  const HighHead: string := HighTag + ": Patient shows "
  const HighTail: string := ". " + "Immediate nurse review recommended."
  const MediumHead: string := MediumTag + ": Behavioral changes detected ("
  const MediumTail: string := "). " + "Close monitoring advised."
  const StableMessage: string :=
    StableTag + ": No concerning behavioral changes detected. " + "Continue routine monitoring."

  /** The message template of each tier; the Stable one takes no reasons. */
  function Message(t: Tier, reasonText: string): string
  {
    match t
    case High => HighHead + reasonText + HighTail
    case Medium => MediumHead + reasonText + MediumTail
    case Stable => StableMessage
  }

  /** What `generate_insight` returns: it starts with "High risk" exactly when
      the classification is High, and a High or Medium text carries the
      explanation verbatim. */
  function InsightText(riskScore: real, progress: bool, sm: Summary): (msg: string)
    ensures StartsWith(msg, HighTag) <==> Classify(riskScore, progress, sm) == High
    ensures Classify(riskScore, progress, sm) != Stable ==> ReasonTextOfMessage(msg) == ReasonText(sm)
  {
    var t := Classify(riskScore, progress, sm);
    HighPrefixOnlyHigh(t, ReasonText(sm));
    MessageReasonRoundTrip(t, ReasonText(sm));
    Message(t, ReasonText(sm))
  }

  predicate StartsWith(s: string, prefix: string)
  {
    |prefix| <= |s| && s[..|prefix|] == prefix
  }

  /** Recovers the tier from a message by its prefix, as the triage view does. */
  function TierOfMessage(msg: string): Tier
  {
    if StartsWith(msg, HighTag) then High
    else if StartsWith(msg, MediumTag) then Medium
    else Stable
  }

  /** Recovers the explanation from a High or Medium message. */
  function ReasonTextOfMessage(msg: string): string
  {
    if StartsWith(msg, HighHead) && |HighHead| + |HighTail| <= |msg| then msg[|HighHead|..|msg| - |HighTail|]
    else if StartsWith(msg, MediumHead) && |MediumHead| + |MediumTail| <= |msg| then msg[|MediumHead|..|msg| - |MediumTail|]
    else ""
  }

  lemma StartsWithConcat(a: string, b: string, prefix: string)
    requires StartsWith(a, prefix)
    ensures StartsWith(a + b, prefix)
  {
    assert (a + b)[..|prefix|] == a[..|prefix|];
  }

  /** The tier is recoverable from the message alone. */
  lemma MessageTierRoundTrip(t: Tier, reasonText: string)
    ensures TierOfMessage(Message(t, reasonText)) == t
  {
    var msg := Message(t, reasonText);
    match t
    case High =>
      assert StartsWith(HighHead, HighTag);
      StartsWithConcat(HighHead, reasonText + HighTail, HighTag);
      assert msg == HighHead + (reasonText + HighTail);
    case Medium =>
      assert HighHead + (reasonText + HighTail) == HighHead + reasonText + HighTail;
      assert StartsWith(MediumHead, MediumTag);
      StartsWithConcat(MediumHead, reasonText + MediumTail, MediumTag);
      assert msg == MediumHead + (reasonText + MediumTail);
      assert msg[0] == 'M';
    case Stable =>
      assert msg == StableMessage;
      assert msg[0] == 'S';
  }

  /** Only a High message starts with the High tag. */
  lemma HighPrefixOnlyHigh(t: Tier, reasonText: string)
    ensures StartsWith(Message(t, reasonText), HighTag) <==> t == High
  {
    MessageTierRoundTrip(t, reasonText);
  }

  /** A High or Medium message carries the explanation verbatim. */
  lemma MessageReasonRoundTrip(t: Tier, reasonText: string)
    ensures t != Stable ==> ReasonTextOfMessage(Message(t, reasonText)) == reasonText
  {
    var msg := Message(t, reasonText);
    if t == High {
      Framed(HighHead, reasonText, HighTail);
    } else if t == Medium {
      Framed(MediumHead, reasonText, MediumTail);
      assert !StartsWith(msg, HighHead) by {
        assert msg[0] == MediumHead[0] != HighHead[0];
      }
    }
  }

  /** The middle of a framed string is what was framed. */
  lemma Framed(head: string, middle: string, tail: string)
    ensures StartsWith(head + middle + tail, head)
    ensures |head| + |tail| <= |head + middle + tail|
    ensures (head + middle + tail)[|head|..|head + middle + tail| - |tail|] == middle
  {
    var s := head + middle + tail;
    assert s[..|head|] == head;
    assert s[|head|..|s| - |tail|] == middle;
  }

  /** The Stable message never depends on the reasons. */
  lemma StableOmitsReasons(a: string, b: string)
    ensures Message(Stable, a) == Message(Stable, b) == StableMessage
  {
  }

  /** `generate_insight`: grow the reasons list flag by flag, join it, then
      pick the first matching template. */
  method GenerateInsight(riskScore: real, progress: bool, summary: Summary) returns (insight: string)
    ensures insight == Message(Classify(riskScore, progress, summary), ReasonText(summary))
    ensures StartsWith(insight, HighTag) <==>
      riskScore < RiskThreshold && HardEscalationCount(summary) >= 1 && !progress
  {
    var reasons: seq<string> := [];
    assert reasons == ReasonsUpTo(summary, 0);

    var hardEscalationFlags := HardEscalationCount(summary);

    if summary.sleepDrop {
      reasons := reasons + ["reduced sleep"];
    }
    assert reasons == ReasonsUpTo(summary, 1);
    if summary.lowActivity {
      reasons := reasons + ["low activity levels"];
    }
    assert reasons == ReasonsUpTo(summary, 2);
    if summary.lowMood {
      reasons := reasons + ["persistently low mood"];
    }
    assert reasons == ReasonsUpTo(summary, 3);
    if summary.highHr {
      reasons := reasons + ["elevated heart rate"];
    }
    assert reasons == ReasonsUpTo(summary, 4);
    if summary.highStress {
      reasons := reasons + ["high stress levels"];
    }
    assert reasons == ReasonsUpTo(summary, 5);
    if summary.missedTherapy {
      reasons := reasons + ["missed therapy sessions"];
    }
    assert reasons == Reasons(summary);

    var reasonText := if reasons != [] then Join(reasons, ReasonSeparator) else NoChanges;

    if riskScore < RiskThreshold && hardEscalationFlags >= 1 && !progress {
      insight := HighHead + reasonText + HighTail;
      assert insight == Message(High, reasonText);
    } else if riskScore < RiskThreshold {
      insight := MediumHead + reasonText + MediumTail;
      assert insight == Message(Medium, reasonText);
    } else {
      insight := StableMessage;
      assert insight == Message(Stable, reasonText);
    }
    HighPrefixOnlyHigh(Classify(riskScore, progress, summary), reasonText);
  }
}
