/** Three status texts of the kinds the live-score page shows, worked
    through the model: what the regular expressions extract from each, and
    the record parseStatus returns. */
module StatusExamples {

  import opened Wrappers
  import opened JsString
  import opened JsNumber
  import opened StatusParser
  import opened StatusProperties

  // ----- Evaluating the number patterns on concrete text -----

  /** A cheap reason why `(\d+)(?:-й)?\s?word` (or `(\d+)\s?word`) cannot
      match at k: no digit there, or the digit run is one character long and
      neither white space, '-' (when `ordinal`) nor the word's first letter
      follows it. */
  predicate QuickReject(s: string, k: nat, word: string, ci: bool, ordinal: bool)
    requires k < |s| && 0 < |word|
  {
    || !IsDigit(s[k])
    || k + 1 == |s|
    || (&& !IsDigit(s[k + 1]) && !IsSpace(s[k + 1]) && (!ordinal || s[k + 1] != '-')
        && !SameChar(s[k + 1], word[0], ci))
    || (&& IsSpace(s[k + 1]) && !SameChar(s[k + 1], word[0], ci)
        && (k + 2 == |s| || !SameChar(s[k + 2], word[0], ci)))
  }

  /** Every position in [i, j) is quickly rejected. */
  predicate RejectsAll(s: string, i: nat, j: nat, word: string, ci: bool, ordinal: bool)
    requires i <= j <= |s| && 0 < |word|
    decreases j - i
  {
    i == j || (QuickReject(s, i, word, ci, ordinal) && RejectsAll(s, i + 1, j, word, ci, ordinal))
  }

  lemma {:induction false} RejectsAllJoin(s: string, i: nat, m: nat, j: nat, word: string, ci: bool, ordinal: bool)
    requires i <= m <= j <= |s| && 0 < |word|
    requires RejectsAll(s, i, m, word, ci, ordinal) && RejectsAll(s, m, j, word, ci, ordinal)
    ensures RejectsAll(s, i, j, word, ci, ordinal)
    decreases m - i
  {
    if i < m {
      RejectsAllJoin(s, i + 1, m, j, word, ci, ordinal);
    }
  }

  /** A word that starts with neither '-' nor white space. */
  predicate PlainWord(word: string, ci: bool) {
    0 < |word| && !SameChar('-', word[0], ci) && !IsSpace(word[0])
  }

  lemma QuickRejectSound(s: string, k: nat, word: string, ci: bool, ordinal: bool)
    requires k < |s| && PlainWord(word, ci) && QuickReject(s, k, word, ci, ordinal)
    ensures !NumberedAt(s, k, word, ci, ordinal)
  {
    if IsDigit(s[k]) && k + 1 < |s| && !IsDigit(s[k + 1]) {
      assert DigitEnd(s, k) == k + 1;
    }
  }

  /** The leftmost match is at j when every earlier position is rejected. */
  lemma {:induction false} NumberedStartIs(s: string, i: nat, j: nat, word: string, ci: bool, ordinal: bool)
    requires i <= j < |s| && PlainWord(word, ci) && NumberedAt(s, j, word, ci, ordinal)
    requires RejectsAll(s, i, j, word, ci, ordinal)
    ensures NumberedStart(s, i, word, ci, ordinal) == Some(j)
    decreases j - i
  {
    if i < j {
      QuickRejectSound(s, i, word, ci, ordinal);
      NumberedStartIs(s, i + 1, j, word, ci, ordinal);
    }
  }

  /** There is no match when every position is rejected. */
  lemma {:induction false} NumberedStartNone(s: string, i: nat, word: string, ci: bool, ordinal: bool)
    requires i <= |s| && PlainWord(word, ci)
    requires RejectsAll(s, i, |s|, word, ci, ordinal)
    ensures NumberedStart(s, i, word, ci, ordinal) == None
    decreases |s| - i
  {
    if i < |s| {
      QuickRejectSound(s, i, word, ci, ordinal);
      NumberedStartNone(s, i + 1, word, ci, ordinal);
    }
  }

  /** The captured number is the digit run [j, e) of the leftmost match. */
  lemma NumberedValueIs(s: string, j: nat, e: nat, word: string, ci: bool, ordinal: bool)
    requires j < e <= |s| && PlainWord(word, ci) && NumberedAt(s, j, word, ci, ordinal)
    requires RejectsAll(s, 0, j, word, ci, ordinal)
    requires AllDigits(s, j, e) && (e == |s| || !IsDigit(s[e]))
    ensures NumberedValue(s, word, ci, ordinal) == Some(DecimalValue(s, j, e))
  {
    NumberedStartIs(s, 0, j, word, ci, ordinal);
  }

  /** No character in [i, j) matches c. */
  predicate FirstAbsent(s: string, i: nat, j: nat, c: char, ci: bool)
    requires i <= j <= |s|
    decreases j - i
  {
    i == j || (!SameChar(s[i], c, ci) && FirstAbsent(s, i + 1, j, c, ci))
  }

  lemma {:induction false} FirstAbsentJoin(s: string, i: nat, m: nat, j: nat, c: char, ci: bool)
    requires i <= m <= j <= |s|
    requires FirstAbsent(s, i, m, c, ci) && FirstAbsent(s, m, j, c, ci)
    ensures FirstAbsent(s, i, j, c, ci)
    decreases m - i
  {
    if i < m {
      FirstAbsentJoin(s, i + 1, m, j, c, ci);
    }
  }

  /** A phrase whose first letter occurs at no position where the phrase
      would still fit is not contained. */
  lemma {:induction false} FirstAbsentSound(s: string, i: nat, p: string, ci: bool)
    requires i <= |s| && 0 < |p|
    requires |s| < |p| + i || FirstAbsent(s, i, |s| - |p| + 1, p[0], ci)
    ensures !ContainsFrom(s, i, p, ci)
    decreases |s| - i
  {
    if i < |s| {
      FirstAbsentSound(s, i + 1, p, ci);
    }
  }

  lemma Words()
    ensures PlainWord(PeriodWord, true) && PlainWord(MinuteWord, false)
  {
  }

  /** Re-rendering a reported entry `h:a` gives it back. */
  lemma RenderedOneZero()
    ensures ScoreString(ScoreNumbers("1:0")) == "1:0"
  {
    assert ScoreString((Fin(1), Fin(0))) == "1:0";
    ScoreRoundTrip((Fin(1), Fin(0)));
  }

  lemma RenderedOneOne()
    ensures ScoreString(ScoreNumbers("1:1")) == "1:1"
  {
    assert ScoreString((Fin(1), Fin(1))) == "1:1";
    ScoreRoundTrip((Fin(1), Fin(1)));
  }

  lemma RenderedTwoOne()
    ensures ScoreNumbers("2:1") == (Fin(2), Fin(1))
    ensures ScoreString(ScoreNumbers("2:1")) == "2:1"
  {
    assert ScoreString((Fin(2), Fin(1))) == "2:1";
    ScoreRoundTrip((Fin(2), Fin(1)));
  }

  lemma ThreeOne()
    ensures Totals(Some("3:1")) == (Fin(3), Fin(1))
  {
    assert ScoreString((Fin(3), Fin(1))) == "3:1";
    ScoreRoundTrip((Fin(3), Fin(1)));
  }

  /** A breakdown entry "2" reads as 2 and `undefined`. */
  lemma ColonlessEntryRendered()
    ensures ScoreNumbers("2") == (Fin(2), Undefined)
    ensures ScoreString(ScoreNumbers("2")) == "2:undefined"
  {
    NonNegativeRoundTrip(2);
    assert NatToString(2) == "2";
  }

  /** A score "2" gives the totals 2 and `undefined`. */
  lemma ColonlessTotals()
    ensures Totals(Some("2")) == (Fin(2), Undefined)
  {
    ColonlessEntryRendered();
  }

  /** 3:1 minus 2:1 is rendered "1:0". */
  lemma RenderedDifference()
    ensures ScoreString(PairMinus(Totals(Some("3:1")), PairPlus((Fin(0), Fin(0)), ScoreNumbers("2:1")))) == "1:0"
  {
    RenderedTwoOne();
    ThreeOne();
    assert ScoreString((Fin(1), Fin(0))) == "1:0";
  }

  // ----- "2:1 (1:0,1:1) 2 период 14 мин" -----

  const InProgressText: string := "2:1 (1:0,1:1) 2 период 14 мин"

  lemma InProgressNotFinished0()
    ensures FirstAbsent("2:1 (1:0,1:1) 2 период 14 мин", 0, 5, FinishedPhrase[0], true)
  {
  }

  lemma InProgressNotFinished5()
    ensures FirstAbsent("2:1 (1:0,1:1) 2 период 14 мин", 5, 10, FinishedPhrase[0], true)
  {
  }

  lemma InProgressNotFinished10()
    ensures FirstAbsent("2:1 (1:0,1:1) 2 период 14 мин", 10, 15, FinishedPhrase[0], true)
  {
  }

  lemma InProgressNotFinished15()
    ensures FirstAbsent("2:1 (1:0,1:1) 2 период 14 мин", 15, 17, FinishedPhrase[0], true)
  {
  }

  /** No "матч завершен" in the in-progress text. */
  lemma InProgressNotFinished(s: string)
    requires s == "2:1 (1:0,1:1) 2 период 14 мин"
    ensures !IsFinishedText(s)
  {
    InProgressNotFinished0();
    InProgressNotFinished5();
    InProgressNotFinished10();
    InProgressNotFinished15();
    FirstAbsentJoin(s, 10, 15, 17, FinishedPhrase[0], true);
    FirstAbsentJoin(s, 5, 10, 17, FinishedPhrase[0], true);
    FirstAbsentJoin(s, 0, 5, 17, FinishedPhrase[0], true);
    FirstAbsentSound(s, 0, FinishedPhrase, true);
  }

  lemma InProgressScore()
    ensures ScoreOf("2:1 (1:0,1:1) 2 период 14 мин") == Some("2:1")
  {
    assert "2:1" + " (1:0,1:1) 2 период 14 мин" == "2:1 (1:0,1:1) 2 период 14 мин";
    ScoreIsLeadingRun("2:1", " (1:0,1:1) 2 период 14 мин");
  }

  lemma InProgressGroup()
    ensures GroupOf("2:1 (1:0,1:1) 2 период 14 мин") == Some("1:0,1:1")
  {
    assert "2:1 " + "(" + "1:0,1:1" + ")" + " 2 период 14 мин" == "2:1 (1:0,1:1) 2 период 14 мин";
    FirstGroup("2:1 ", "1:0,1:1", " 2 период 14 мин");
  }

  lemma InProgressPeriodMatch()
    ensures NumberedAt("2:1 (1:0,1:1) 2 период 14 мин", 14, PeriodWord, true, true)
    ensures AllDigits("2:1 (1:0,1:1) 2 период 14 мин", 14, 15)
    ensures !IsDigit("2:1 (1:0,1:1) 2 период 14 мин"[15])
    ensures DecimalValue("2:1 (1:0,1:1) 2 период 14 мин", 14, 15) == 2
  {
    var s := "2:1 (1:0,1:1) 2 период 14 мин";
    assert IsDigit(s[14]) && !IsDigit(s[15]);
    DigitEndAt(s, 14, 15);
    InProgressPeriodWord();
  }

  lemma InProgressPeriodWord()
    ensures MatchesAt("2:1 (1:0,1:1) 2 период 14 мин", 16, PeriodWord, true)
  {
  }

  lemma InProgressPeriodRejects0()
    ensures RejectsAll("2:1 (1:0,1:1) 2 период 14 мин", 0, 5, PeriodWord, true, true)
  {
  }

  lemma InProgressPeriodRejects5()
    ensures RejectsAll("2:1 (1:0,1:1) 2 период 14 мин", 5, 10, PeriodWord, true, true)
  {
  }

  lemma InProgressPeriodRejects10()
    ensures RejectsAll("2:1 (1:0,1:1) 2 период 14 мин", 10, 14, PeriodWord, true, true)
  {
  }

  /** No period number starts before position 14. */
  lemma InProgressPeriodRejects(s: string)
    requires s == "2:1 (1:0,1:1) 2 период 14 мин"
    ensures RejectsAll(s, 0, 14, PeriodWord, true, true)
  {
    InProgressPeriodRejects0();
    InProgressPeriodRejects5();
    InProgressPeriodRejects10();
    RejectsAllJoin(s, 5, 10, 14, PeriodWord, true, true);
    RejectsAllJoin(s, 0, 5, 14, PeriodWord, true, true);
  }

  lemma InProgressMinuteMatch()
    ensures NumberedAt("2:1 (1:0,1:1) 2 период 14 мин", 23, MinuteWord, false, false)
    ensures AllDigits("2:1 (1:0,1:1) 2 период 14 мин", 23, 25)
    ensures !IsDigit("2:1 (1:0,1:1) 2 период 14 мин"[25])
    ensures DecimalValue("2:1 (1:0,1:1) 2 период 14 мин", 23, 25) == 14
  {
    var s := "2:1 (1:0,1:1) 2 период 14 мин";
    assert DigitEnd(s, 23) == 25;
    assert MatchesAt(s, 26, MinuteWord, false);
  }

  lemma InProgressMinuteRejects0()
    ensures RejectsAll("2:1 (1:0,1:1) 2 период 14 мин", 0, 5, MinuteWord, false, false)
  {
  }

  lemma InProgressMinuteRejects5()
    ensures RejectsAll("2:1 (1:0,1:1) 2 период 14 мин", 5, 10, MinuteWord, false, false)
  {
  }

  lemma InProgressMinuteRejects10()
    ensures RejectsAll("2:1 (1:0,1:1) 2 период 14 мин", 10, 15, MinuteWord, false, false)
  {
  }

  lemma InProgressMinuteRejects15()
    ensures RejectsAll("2:1 (1:0,1:1) 2 период 14 мин", 15, 20, MinuteWord, false, false)
  {
  }

  lemma InProgressMinuteRejects20()
    ensures RejectsAll("2:1 (1:0,1:1) 2 период 14 мин", 20, 23, MinuteWord, false, false)
  {
  }

  /** No minute number starts before position 23. */
  lemma InProgressMinuteRejects(s: string)
    requires s == "2:1 (1:0,1:1) 2 период 14 мин"
    ensures RejectsAll(s, 0, 23, MinuteWord, false, false)
  {
    InProgressMinuteRejects0();
    InProgressMinuteRejects5();
    InProgressMinuteRejects10();
    InProgressMinuteRejects15();
    InProgressMinuteRejects20();
    RejectsAllJoin(s, 15, 20, 23, MinuteWord, false, false);
    RejectsAllJoin(s, 10, 15, 23, MinuteWord, false, false);
    RejectsAllJoin(s, 5, 10, 23, MinuteWord, false, false);
    RejectsAllJoin(s, 0, 5, 23, MinuteWord, false, false);
  }

  /** What the regular expressions find in the in-progress text. */
  lemma ExtractInProgress(s: string)
    requires s == InProgressText
    ensures Extract(s) == Extracted(false, Some("2:1"), Some("1:0,1:1"), Some(2), Some(14))
  {
    InProgressNotFinished(s);
    InProgressScore();
    InProgressGroup();
    Words();
    InProgressPeriodMatch();
    InProgressPeriodRejects(s);
    NumberedValueIs(s, 14, 15, PeriodWord, true, true);
    InProgressMinuteMatch();
    InProgressMinuteRejects(s);
    NumberedValueIs(s, 23, 25, MinuteWord, false, false);
  }

  lemma EntriesTwo()
    ensures EntriesOf(Some("1:0,1:1")) == ["1:0", "1:1"]
  {
    forall k | 0 <= k < 3 ensures !MatchesAt("1:0,1:1", k, ",", false) {
      MatchesSingle("1:0,1:1", k, ',');
    }
    assert "1:0,1:1" == "1:0" + "," + "1:1";
    SplitFirst("1:0", ",", "1:1");
    forall k | 0 <= k < 3 ensures !MatchesAt("1:1", k, ",", false) {
      MatchesSingle("1:1", k, ',');
    }
    SplitNone("1:1", ",");
    TrimUnpadded("1:0");
    TrimUnpadded("1:1");
  }

  /** A breakdown of two non-empty entries while period 2 is current: both
      are re-rendered and period 3 stays null. */
  lemma TwoReported(x: Extracted, raw: string, a: string, b: string)
    requires x.group.Some? && EntriesOf(x.group) == [a, b] && a != "" && b != ""
    requires !x.finished && x.periodNow == Some(2)
    ensures Reconcile(x, raw) == StatusRecord(x.score, Some(ScoreString(ScoreNumbers(a))),
                                              Some(ScoreString(ScoreNumbers(b))), None,
                                              x.periodNow, x.minute, false, raw)
  {
  }

  lemma ReconcileInProgress(x: Extracted, raw: string)
    requires x == Extracted(false, Some("2:1"), Some("1:0,1:1"), Some(2), Some(14))
    ensures Reconcile(x, raw) == StatusRecord(Some("2:1"), Some("1:0"), Some("1:1"), None, Some(2), Some(14), false, raw)
  {
    EntriesTwo();
    TwoReported(x, raw, "1:0", "1:1");
    RenderedOneZero();
    RenderedOneOne();
  }

  /** Two reported periods, the second one current: both are kept and
      period 3 stays null. */
  lemma ExampleInProgress(s: string)
    requires s == InProgressText
    ensures Status(s) == StatusRecord(Some("2:1"), Some("1:0"), Some("1:1"), None, Some(2), Some(14), false, s)
  {
    ExtractInProgress(s);
    ReconcileInProgress(Extract(s), s);
  }

  // ----- "3:2 Матч завершен" -----

  const FinishedText: string := "3:2 Матч завершен"

  lemma FinishedFlag()
    ensures IsFinishedText("3:2 Матч завершен")
  {
    assert MatchesAt("3:2 Матч завершен", 4, FinishedPhrase, true);
  }

  lemma FinishedScore()
    ensures ScoreOf("3:2 Матч завершен") == Some("3:2")
  {
    assert "3:2" + " Матч завершен" == "3:2 Матч завершен";
    ScoreIsLeadingRun("3:2", " Матч завершен");
  }

  lemma FinishedGroup()
    ensures GroupOf("3:2 Матч завершен") == None
  {
    NoGroup("3:2 Матч завершен");
  }

  lemma FinishedPeriodRejects0()
    ensures RejectsAll("3:2 Матч завершен", 0, 5, PeriodWord, true, true)
  {
  }

  lemma FinishedPeriodRejects5()
    ensures RejectsAll("3:2 Матч завершен", 5, 10, PeriodWord, true, true)
  {
  }

  lemma FinishedPeriodRejects10()
    ensures RejectsAll("3:2 Матч завершен", 10, 15, PeriodWord, true, true)
  {
  }

  lemma FinishedPeriodRejects15()
    ensures RejectsAll("3:2 Матч завершен", 15, 17, PeriodWord, true, true)
  {
  }

  /** No period number anywhere in the finished text. */
  lemma FinishedPeriodRejects(s: string)
    requires s == "3:2 Матч завершен"
    ensures RejectsAll(s, 0, 17, PeriodWord, true, true)
  {
    FinishedPeriodRejects0();
    FinishedPeriodRejects5();
    FinishedPeriodRejects10();
    FinishedPeriodRejects15();
    RejectsAllJoin(s, 10, 15, 17, PeriodWord, true, true);
    RejectsAllJoin(s, 5, 10, 17, PeriodWord, true, true);
    RejectsAllJoin(s, 0, 5, 17, PeriodWord, true, true);
  }

  lemma FinishedMinuteRejects0()
    ensures RejectsAll("3:2 Матч завершен", 0, 5, MinuteWord, false, false)
  {
  }

  lemma FinishedMinuteRejects5()
    ensures RejectsAll("3:2 Матч завершен", 5, 10, MinuteWord, false, false)
  {
  }

  lemma FinishedMinuteRejects10()
    ensures RejectsAll("3:2 Матч завершен", 10, 15, MinuteWord, false, false)
  {
  }

  lemma FinishedMinuteRejects15()
    ensures RejectsAll("3:2 Матч завершен", 15, 17, MinuteWord, false, false)
  {
  }

  /** No minute number anywhere in the finished text. */
  lemma FinishedMinuteRejects(s: string)
    requires s == "3:2 Матч завершен"
    ensures RejectsAll(s, 0, 17, MinuteWord, false, false)
  {
    FinishedMinuteRejects0();
    FinishedMinuteRejects5();
    FinishedMinuteRejects10();
    FinishedMinuteRejects15();
    RejectsAllJoin(s, 10, 15, 17, MinuteWord, false, false);
    RejectsAllJoin(s, 5, 10, 17, MinuteWord, false, false);
    RejectsAllJoin(s, 0, 5, 17, MinuteWord, false, false);
  }

  /** What the regular expressions find in the finished text. */
  lemma ExtractFinished(s: string)
    requires s == FinishedText
    ensures Extract(s) == Extracted(true, Some("3:2"), None, None, None)
  {
    FinishedFlag();
    FinishedScore();
    FinishedGroup();
    Words();
    FinishedPeriodRejects(s);
    NumberedStartNone(s, 0, PeriodWord, true, true);
    FinishedMinuteRejects(s);
    NumberedStartNone(s, 0, MinuteWord, false, false);
  }

  /** Finished without parentheses: period 1 is the score verbatim and the
      other periods are "0:0". */
  lemma ExampleFinished(s: string)
    requires s == FinishedText
    ensures Status(s) == StatusRecord(Some("3:2"), Some("3:2"), Some(ZeroScore), Some(ZeroScore),
                                      None, None, true, s)
  {
    ExtractFinished(s);
  }

  // ----- "3:1 (2:1) 2-й период 5 мин" -----

  const SynthesisedText: string := "3:1 (2:1) 2-й период 5 мин"

  lemma SynthesisedNotFinished0()
    ensures FirstAbsent("3:1 (2:1) 2-й период 5 мин", 0, 5, FinishedPhrase[0], true)
  {
  }

  lemma SynthesisedNotFinished5()
    ensures FirstAbsent("3:1 (2:1) 2-й период 5 мин", 5, 10, FinishedPhrase[0], true)
  {
  }

  lemma SynthesisedNotFinished10()
    ensures FirstAbsent("3:1 (2:1) 2-й период 5 мин", 10, 14, FinishedPhrase[0], true)
  {
  }

  /** No "матч завершен" in the synthesised text. */
  lemma SynthesisedNotFinished(s: string)
    requires s == "3:1 (2:1) 2-й период 5 мин"
    ensures !IsFinishedText(s)
  {
    SynthesisedNotFinished0();
    SynthesisedNotFinished5();
    SynthesisedNotFinished10();
    FirstAbsentJoin(s, 5, 10, 14, FinishedPhrase[0], true);
    FirstAbsentJoin(s, 0, 5, 14, FinishedPhrase[0], true);
    FirstAbsentSound(s, 0, FinishedPhrase, true);
  }

  lemma SynthesisedScore()
    ensures ScoreOf("3:1 (2:1) 2-й период 5 мин") == Some("3:1")
  {
    assert "3:1" + " (2:1) 2-й период 5 мин" == "3:1 (2:1) 2-й период 5 мин";
    ScoreIsLeadingRun("3:1", " (2:1) 2-й период 5 мин");
  }

  lemma SynthesisedGroup()
    ensures GroupOf("3:1 (2:1) 2-й период 5 мин") == Some("2:1")
  {
    assert "3:1 " + "(" + "2:1" + ")" + " 2-й период 5 мин" == "3:1 (2:1) 2-й период 5 мин";
    FirstGroup("3:1 ", "2:1", " 2-й период 5 мин");
  }

  lemma SynthesisedPeriodWords()
    ensures MatchesAt("3:1 (2:1) 2-й период 5 мин", 11, OrdinalSuffix, true)
    ensures MatchesAt("3:1 (2:1) 2-й период 5 мин", 14, PeriodWord, true)
  {
  }

  lemma SynthesisedPeriodMatch()
    ensures NumberedAt("3:1 (2:1) 2-й период 5 мин", 10, PeriodWord, true, true)
    ensures AllDigits("3:1 (2:1) 2-й период 5 мин", 10, 11)
    ensures !IsDigit("3:1 (2:1) 2-й период 5 мин"[11])
    ensures DecimalValue("3:1 (2:1) 2-й период 5 мин", 10, 11) == 2
  {
    var s := "3:1 (2:1) 2-й период 5 мин";
    assert IsDigit(s[10]) && !IsDigit(s[11]);
    DigitEndAt(s, 10, 11);
    SynthesisedPeriodWords();
  }

  lemma SynthesisedPeriodRejects0()
    ensures RejectsAll("3:1 (2:1) 2-й период 5 мин", 0, 5, PeriodWord, true, true)
  {
  }

  lemma SynthesisedPeriodRejects5()
    ensures RejectsAll("3:1 (2:1) 2-й период 5 мин", 5, 10, PeriodWord, true, true)
  {
  }

  /** No period number starts before position 10. */
  lemma SynthesisedPeriodRejects(s: string)
    requires s == "3:1 (2:1) 2-й период 5 мин"
    ensures RejectsAll(s, 0, 10, PeriodWord, true, true)
  {
    SynthesisedPeriodRejects0();
    SynthesisedPeriodRejects5();
    RejectsAllJoin(s, 0, 5, 10, PeriodWord, true, true);
  }

  lemma SynthesisedMinuteMatch()
    ensures NumberedAt("3:1 (2:1) 2-й период 5 мин", 21, MinuteWord, false, false)
    ensures AllDigits("3:1 (2:1) 2-й период 5 мин", 21, 22)
    ensures !IsDigit("3:1 (2:1) 2-й период 5 мин"[22])
    ensures DecimalValue("3:1 (2:1) 2-й период 5 мин", 21, 22) == 5
  {
    var s := "3:1 (2:1) 2-й период 5 мин";
    assert DigitEnd(s, 21) == 22;
    assert MatchesAt(s, 23, MinuteWord, false);
  }

  lemma SynthesisedMinuteRejects0()
    ensures RejectsAll("3:1 (2:1) 2-й период 5 мин", 0, 5, MinuteWord, false, false)
  {
  }

  lemma SynthesisedMinuteRejects5()
    ensures RejectsAll("3:1 (2:1) 2-й период 5 мин", 5, 10, MinuteWord, false, false)
  {
  }

  lemma SynthesisedMinuteRejects10()
    ensures RejectsAll("3:1 (2:1) 2-й период 5 мин", 10, 15, MinuteWord, false, false)
  {
  }

  lemma SynthesisedMinuteRejects15()
    ensures RejectsAll("3:1 (2:1) 2-й период 5 мин", 15, 20, MinuteWord, false, false)
  {
  }

  lemma SynthesisedMinuteRejects20()
    ensures RejectsAll("3:1 (2:1) 2-й период 5 мин", 20, 21, MinuteWord, false, false)
  {
  }

  /** No minute number starts before position 21 (the "2" of "2-й" is followed by '-'). */
  lemma SynthesisedMinuteRejects(s: string)
    requires s == "3:1 (2:1) 2-й период 5 мин"
    ensures RejectsAll(s, 0, 21, MinuteWord, false, false)
  {
    SynthesisedMinuteRejects0();
    SynthesisedMinuteRejects5();
    SynthesisedMinuteRejects10();
    SynthesisedMinuteRejects15();
    SynthesisedMinuteRejects20();
    RejectsAllJoin(s, 15, 20, 21, MinuteWord, false, false);
    RejectsAllJoin(s, 10, 15, 21, MinuteWord, false, false);
    RejectsAllJoin(s, 5, 10, 21, MinuteWord, false, false);
    RejectsAllJoin(s, 0, 5, 21, MinuteWord, false, false);
  }

  /** What the regular expressions find in the synthesised text. */
  lemma ExtractSynthesised(s: string)
    requires s == SynthesisedText
    ensures Extract(s) == Extracted(false, Some("3:1"), Some("2:1"), Some(2), Some(5))
  {
    SynthesisedNotFinished(s);
    SynthesisedScore();
    SynthesisedGroup();
    Words();
    SynthesisedPeriodMatch();
    SynthesisedPeriodRejects(s);
    NumberedValueIs(s, 10, 11, PeriodWord, true, true);
    SynthesisedMinuteMatch();
    SynthesisedMinuteRejects(s);
    NumberedValueIs(s, 21, 22, MinuteWord, false, false);
  }

  lemma EntriesOne()
    ensures EntriesOf(Some("2:1")) == ["2:1"]
  {
    forall k | 0 <= k < 3 ensures !MatchesAt("2:1", k, ",", false) {
      MatchesSingle("2:1", k, ',');
    }
    SplitNone("2:1", ",");
    TrimUnpadded("2:1");
  }

  /** One non-empty entry while period 2 is current: the entry is
      re-rendered, period 2 is the total minus that entry, and period 3
      stays null. */
  lemma OneReportedSecondCurrent(x: Extracted, raw: string, a: string)
    requires x.group.Some? && EntriesOf(x.group) == [a] && a != ""
    requires !x.finished && x.periodNow == Some(2)
    ensures Reconcile(x, raw)
            == StatusRecord(x.score, Some(ScoreString(ScoreNumbers(a))),
                            Some(ScoreString(PairMinus(Totals(x.score), PairPlus((Fin(0), Fin(0)), ScoreNumbers(a))))),
                            None, x.periodNow, x.minute, false, raw)
  {
    var e := EntriesOf(x.group);
    var first := ScoreNumbers(a);
    assert LoopPeriod(x, 0) == Some(ScoreString(first));
    assert SumBefore(e, 1) == PairPlus((Fin(0), Fin(0)), first);
    assert InProgressAt(x, 1);
    assert LoopPeriod(x, 1) == Some(ScoreString(PairMinus(Totals(x.score), SumBefore(e, 1))));
    assert !InProgressAt(x, 2);
    assert LoopPeriod(x, 2) == None;
  }

  lemma ReconcileSynthesised(x: Extracted, raw: string)
    requires x == Extracted(false, Some("3:1"), Some("2:1"), Some(2), Some(5))
    ensures Reconcile(x, raw) == StatusRecord(Some("3:1"), Some("2:1"), Some("1:0"), None, Some(2), Some(5), false, raw)
  {
    EntriesOne();
    OneReportedSecondCurrent(x, raw, "2:1");
    RenderedTwoOne();
    RenderedDifference();
  }

  /** Period 2 is current and not yet reported, so it is synthesised as the
      total 3:1 minus the reported 2:1. */
  lemma ExampleSynthesised(s: string)
    requires s == SynthesisedText
    ensures Status(s) == StatusRecord(Some("3:1"), Some("2:1"), Some("1:0"), None, Some(2), Some(5), false, s)
  {
    ExtractSynthesised(s);
    ReconcileSynthesised(Extract(s), s);
  }
}
