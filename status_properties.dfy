/** What parseStatus promises about the record it returns, proved about
    the specification Reconcile/Status that ParseStatus is verified
    against. */
module StatusProperties {

  import opened Wrappers
  import opened JsString
  import opened JsNumber
  import opened StatusParser

  /** With parentheses present, a period is what the loop gave it,
      padded when the match is finished. */
  lemma PeriodWithGroup(x: Extracted, raw: string, i: nat)
    requires i < 3 && x.group.Some?
    ensures Reconcile(x, raw).Period(i) == (if x.finished then PadOne(LoopPeriod(x, i)) else LoopPeriod(x, i))
  {
    var a, b, c := LoopPeriod(x, 0), LoopPeriod(x, 1), LoopPeriod(x, 2);
    PaddedPeriod(x.score, a, b, c, x.periodNow, x.minute, x.finished, raw, i);
  }

  /** The period fields of a padded record, one at a time. */
  lemma PaddedPeriod(score: Option<string>, a: Option<string>, b: Option<string>, c: Option<string>,
                     periodNow: Option<nat>, minute: Option<nat>, finished: bool, raw: string, i: nat)
    requires i < 3
    ensures PadPeriods(StatusRecord(score, a, b, c, periodNow, minute, finished, raw)).Period(i)
            == (if finished then PadOne([a, b, c][i]) else [a, b, c][i])
  {
  }

  /** A non-empty reported entry among the first three becomes the period
      of the same index, re-rendered as `h:a` from its two numbers. */
  lemma ReportedEntryKept(x: Extracted, raw: string, i: nat)
    requires i < 3 && i < |EntriesOf(x.group)| && EntriesOf(x.group)[i] != ""
    ensures Reconcile(x, raw).Period(i) == Some(ScoreString(ScoreNumbers(EntriesOf(x.group)[i])))
  {
    assert x.group.Some?;
    PeriodWithGroup(x, raw, i);
    assert LoopPeriod(x, i) == Some(ScoreString(ScoreNumbers(EntriesOf(x.group)[i])));
  }

  /** An entry without ':' has no second number: `a` is `undefined`, so
      the period reads "h:undefined". */
  lemma EntryWithoutColon(x: Extracted, raw: string, i: nat)
    requires i < 3 && i < |EntriesOf(x.group)| && EntriesOf(x.group)[i] != ""
    requires forall k :: 0 <= k < |EntriesOf(x.group)[i]| ==> EntriesOf(x.group)[i][k] != ':'
    ensures Reconcile(x, raw).Period(i) == Some(ToStr(ToNumber(EntriesOf(x.group)[i])) + ":undefined")
  {
    ReportedEntryKept(x, raw, i);
    ColonlessScore(EntriesOf(x.group)[i]);
  }

  /** Entries beyond the third change nothing: two breakdowns that agree
      on their first three entries and have at least three give the same
      record. */
  lemma LaterEntriesIgnored(x: Extracted, g: string, raw: string)
    requires x.group.Some?
    requires 3 <= |EntriesOf(x.group)| && 3 <= |EntriesOf(Some(g))|
    requires EntriesOf(x.group)[..3] == EntriesOf(Some(g))[..3]
    ensures Reconcile(x, raw) == Reconcile(x.(group := Some(g)), raw)
  {
    var y := x.(group := Some(g));
    forall i | 0 <= i < 3 ensures LoopPeriod(x, i) == LoopPeriod(y, i) {
      assert EntriesOf(x.group)[i] == EntriesOf(x.group)[..3][i];
      assert EntriesOf(y.group)[i] == EntriesOf(y.group)[..3][i];
    }
  }

  /** The in-progress period: when the first k < 3 periods are all that
      is reported and the current period is beyond them, period k + 1 is
      the total minus the sums of the reported entries, side by side
      (unclamped, so possibly negative). Without parentheses and with a
      score the override wins instead (NoGroupOverride). */
  lemma InProgressPeriod(x: Extracted, raw: string, k: nat)
    requires k < 3 && InProgressAt(x, k)
    requires !(x.group.None? && Truthy(x.score))
    ensures Reconcile(x, raw).Period(k)
            == Some(ScoreString(PairMinus(Totals(x.score), SumBefore(EntriesOf(x.group), k))))
  {
  }

  lemma Balance(t: (Num, Num), b: (Num, Num))
    requires t.0.Fin? && t.1.Fin? && b.0.Fin? && b.1.Fin?
    ensures PairPlus(b, PairMinus(t, b)) == t
  {
  }

  /** The synthesised period closes the books: read back as numbers and
      added to the reported sums, it gives the total score, whenever the
      total and the sums are numbers. */
  lemma InProgressBalances(x: Extracted, raw: string, k: nat)
    requires k < 3 && InProgressAt(x, k)
    requires !(x.group.None? && Truthy(x.score))
    requires Totals(x.score).0.Fin? && Totals(x.score).1.Fin?
    requires SumBefore(EntriesOf(x.group), k).0.Fin? && SumBefore(EntriesOf(x.group), k).1.Fin?
    ensures Reconcile(x, raw).Period(k).Some?
    ensures PairPlus(SumBefore(EntriesOf(x.group), k), ScoreNumbers(Reconcile(x, raw).Period(k).value))
            == Totals(x.score)
  {
    var t, b := Totals(x.score), SumBefore(EntriesOf(x.group), k);
    InProgressPeriod(x, raw, k);
    ScoreRoundTrip(PairMinus(t, b));
    Balance(t, b);
  }

  /** Without a score the totals are 0:0, so a status with neither score
      nor parentheses whose current period is known starts period 1 at
      "0:0"; the later periods stay null unless the match is finished. */
  lemma NoScoreNoGroup(x: Extracted, raw: string)
    requires !Truthy(x.score) && x.group.None?
    requires x.periodNow.Some? && x.periodNow.value > 0
    ensures Totals(x.score) == (Fin(0), Fin(0))
    ensures Reconcile(x, raw).period1 == Some(ZeroScore)
    ensures Reconcile(x, raw).period2 == Reconcile(x, raw).period3
            == (if x.finished then Some(ZeroScore) else None)
  {
    assert ScoreString((Fin(0), Fin(0))) == ZeroScore;
  }

  /** Without parentheses and with a score: period 1 is the score
      verbatim, periods 2 and 3 are "0:0", whatever the loop produced. */
  lemma NoGroupOverride(x: Extracted, raw: string)
    requires x.group.None? && Truthy(x.score)
    ensures Reconcile(x, raw).period1 == x.score
    ensures Reconcile(x, raw).period2 == Reconcile(x, raw).period3 == Some(ZeroScore)
  {
  }

  /** A finished record has every period field filled in. */
  lemma FinishedHasAllPeriods(x: Extracted, raw: string)
    requires x.finished
    ensures forall i :: 0 <= i < 3 ==> Truthy(Reconcile(x, raw).Period(i))
  {
  }

  /** Padding only fills fields that were falsy... */
  lemma PadKeepsFilled(r: StatusRecord, i: nat)
    requires i < 3 && Truthy(r.Period(i))
    ensures PadPeriods(r).Period(i) == r.Period(i)
  {
  }

  /** ...so padding twice is padding once. */
  lemma PadIdempotent(r: StatusRecord)
    ensures PadPeriods(PadPeriods(r)) == PadPeriods(r)
  {
  }

  /** The fields parseStatus copies from the extraction. */
  lemma StatusFields(status: string)
    ensures Status(status).raw == status
    ensures Status(status).score == ScoreOf(status)
    ensures Status(status).score.None? <==> status == [] || !IsScoreChar(status[0])
    ensures Status(status).periodNow == PeriodNowOf(status)
    ensures Status(status).minute == MinuteOf(status)
  {
  }

  /** The score is the whole leading run of digits and colons. */
  lemma ScoreIsLeadingRun(p: string, rest: string)
    requires 0 < |p| && forall k :: 0 <= k < |p| ==> IsScoreChar(p[k])
    requires rest == [] || !IsScoreChar(rest[0])
    ensures ScoreOf(p + rest) == Some(p)
  {
    var s := p + rest;
    assert forall k :: 0 <= k < |p| ==> s[k] == p[k];
    assert rest != [] ==> s[|p|] == rest[0];
    assert ScoreRunEnd(s, 0) == |p|;
    assert s[..|p|] == p;
  }

  /** The breakdown is the text inside the first '(' when it reaches a ')'
      past at least one character. */
  lemma FirstGroup(pre: string, g: string, post: string)
    requires forall k :: 0 <= k < |pre| ==> pre[k] != '('
    requires 0 < |g| && forall k :: 0 <= k < |g| ==> g[k] != ')'
    ensures GroupOf(pre + "(" + g + ")" + post) == Some(g)
  {
    var s := pre + "(" + g + ")" + post;
    var i, j := |pre|, |pre| + 1 + |g|;
    assert forall k :: 0 <= k < i ==> s[k] == pre[k];
    assert s[i] == '(' && s[j] == ')';
    assert forall k :: i < k < j ==> s[k] == g[k - i - 1];
    assert IndexOfFrom(s, ')', i + 1) == Some(j);
    assert GroupEnd(s, i) == Some(j);
    assert forall k :: 0 <= k < i ==> GroupEnd(s, k).None?;
    assert GroupStart(s, 0) == Some(i);
    assert s[i + 1 .. j] == g;
  }

  /** Without any '(' there is no breakdown. */
  lemma NoGroup(s: string)
    requires forall k :: 0 <= k < |s| ==> s[k] != '('
    ensures GroupOf(s) == None
  {
  }
}
