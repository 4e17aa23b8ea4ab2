/** parseStatus: turns the status text of a live-score row, such as
    "2:1 (1:0,1:1) 2 период 14 мин" or "3:2 Матч завершен", into a
    status record. It is modelled in two layers: the regular-expression
    extractions become scanners (Extract), and the reconciliation of the
    three period fields is a method that updates a record step by step
    (ParseStatus), specified by the closed form Reconcile. */
module StatusParser {

  import opened Wrappers
  import opened JsString
  import opened JsNumber

  /** The record parseStatus returns; `null` is None, scores are "H:A" text. */
  datatype StatusRecord = StatusRecord(
    score: Option<string>,
    period1: Option<string>,
    period2: Option<string>,
    period3: Option<string>,
    periodNow: Option<nat>,
    minute: Option<nat>,
    finished: bool,
    raw: string)
  {
    /** `result[`period${i + 1}`]` */
    function Period(i: nat): Option<string>
      requires i < 3
    {
      if i == 0 then period1 else if i == 1 then period2 else period3
    }

    /** `result[`period${i + 1}`] = v` */
    function WithPeriod(i: nat, v: Option<string>): (r: StatusRecord)
      requires i < 3
      ensures r.Period(i) == v
      ensures forall k :: 0 <= k < 3 && k != i ==> r.Period(k) == Period(k)
    {
      if i == 0 then this.(period1 := v)
      else if i == 1 then this.(period2 := v)
      else this.(period3 := v)
    }
  }

  /** JavaScript truthiness of a string field: null and "" are falsy. */
  predicate Truthy(s: Option<string>) {
    s.Some? && s.value != ""
  }

  const FinishedPhrase: string := "матч завершен"
  const PeriodWord: string := "период"
  const OrdinalSuffix: string := "-й"
  const MinuteWord: string := "мин"
  const ZeroScore: string := "0:0"

  // ----- Extraction (parseStatus.js, lines 13-41) -----

  /** `/матч завершен/i.test(status)` */
  predicate IsFinishedText(status: string)
    ensures IsFinishedText(status) <==> exists k :: 0 <= k <= |status| && MatchesAt(status, k, FinishedPhrase, true)
  {
    ContainsFrom(status, 0, FinishedPhrase, true)
  }

  predicate IsScoreChar(c: char) {
    IsDigit(c) || c == ':'
  }

  function ScoreRunEnd(s: string, i: nat): (j: nat)
    requires i <= |s|
    decreases |s| - i
    ensures i <= j <= |s|
    ensures forall k :: i <= k < j ==> IsScoreChar(s[k])
    ensures j < |s| ==> !IsScoreChar(s[j])
  {
    if i < |s| && IsScoreChar(s[i]) then ScoreRunEnd(s, i + 1) else i
  }

  /** `status.match(/^([\d:]+)\s?/)[1]`: the longest prefix made of digits
      and colons, when it is not empty. */
  function ScoreOf(status: string): (r: Option<string>)
    ensures r.Some? ==> 0 < |r.value| && r.value <= status
    ensures r.Some? ==> forall k :: 0 <= k < |r.value| ==> IsScoreChar(r.value[k])
    ensures r.Some? ==> |r.value| == |status| || !IsScoreChar(status[|r.value|])
    ensures r.None? <==> status == [] || !IsScoreChar(status[0])
  {
    var e := ScoreRunEnd(status, 0);
    if e == 0 then None else Some(status[..e])
  }

  /** The closing parenthesis of a match of `\(([^)]+)\)` that starts at i. */
  function GroupEnd(s: string, i: nat): (r: Option<nat>)
    requires i < |s|
    ensures r.Some? ==> s[i] == '(' && i + 1 < r.value < |s| && s[r.value] == ')'
    ensures r.Some? ==> forall k :: i < k < r.value ==> s[k] != ')'
    ensures r.None? ==> s[i] != '(' || i + 1 == |s| || s[i + 1] == ')'
                        || forall k :: i < k < |s| ==> s[k] != ')'
  {
    if s[i] != '(' then None
    else match IndexOfFrom(s, ')', i + 1)
      case None => None
      case Some(j) => if i + 1 < j then Some(j) else None
  }

  /** The leftmost position at or after i where the group pattern matches. */
  function GroupStart(s: string, i: nat): (r: Option<nat>)
    requires i <= |s|
    decreases |s| - i
    ensures r.Some? ==> i <= r.value < |s| && GroupEnd(s, r.value).Some?
    ensures r.Some? ==> forall k :: i <= k < r.value ==> GroupEnd(s, k).None?
    ensures r.None? ==> forall k :: i <= k < |s| ==> GroupEnd(s, k).None?
  {
    if i == |s| then None
    else if GroupEnd(s, i).Some? then Some(i)
    else GroupStart(s, i + 1)
  }

  /** `status.match(/\(([^)]+)\)/)[1]`: the text inside the first pair of
      parentheses that encloses at least one character. */
  function GroupOf(status: string): (r: Option<string>)
    ensures r.None? <==> forall k :: 0 <= k < |status| ==> GroupEnd(status, k).None?
    ensures r.Some? ==> 0 < |r.value| && forall k :: 0 <= k < |r.value| ==> r.value[k] != ')'
    ensures r.Some? ==> exists i :: 0 <= i < |status| && GroupEnd(status, i).Some?
                                    && (forall k :: 0 <= k < i ==> GroupEnd(status, k).None?)
                                    && r.value == status[i + 1 .. GroupEnd(status, i).value]
  {
    match GroupStart(status, 0)
    case None => None
    case Some(i) => Some(status[i + 1 .. GroupEnd(status, i).value])
  }

  function TrimAll(parts: seq<string>): (r: seq<string>)
    ensures |r| == |parts|
    ensures forall k :: 0 <= k < |parts| ==> r[k] == Trim(parts[k])
  {
    if parts == [] then [] else [Trim(parts[0])] + TrimAll(parts[1..])
  }

  /** `periods`: the group split on ',' and trimmed, or [] without a group. */
  function EntriesOf(group: Option<string>): (r: seq<string>)
    ensures group.None? <==> r == []
  {
    match group
    case None => []
    case Some(g) => TrimAll(Split(g, ","))
  }

  /** `\s?word` at position k. */
  predicate WordAt(s: string, k: nat, word: string, ci: bool) {
    MatchesAt(s, k, word, ci) || (k < |s| && IsSpace(s[k]) && MatchesAt(s, k + 1, word, ci))
  }

  /** The pattern `(\d+)\s?word`, or `(\d+)(?:-й)?\s?word` when `ordinal`,
      matches from position p. Backtracking into `\d+` never helps (a digit
      can start neither '-', white space nor the word), so the digits are
      the whole run from p. */
  predicate NumberedAt(s: string, p: nat, word: string, ci: bool, ordinal: bool)
    requires p < |s|
  {
    && IsDigit(s[p])
    && var e := DigitEnd(s, p);
       || WordAt(s, e, word, ci)
       || (ordinal && MatchesAt(s, e, OrdinalSuffix, ci) && WordAt(s, e + |OrdinalSuffix|, word, ci))
  }

  /** The leftmost position at or after i where that pattern matches. */
  function NumberedStart(s: string, i: nat, word: string, ci: bool, ordinal: bool): (r: Option<nat>)
    requires i <= |s|
    decreases |s| - i
    ensures r.Some? ==> i <= r.value < |s| && NumberedAt(s, r.value, word, ci, ordinal)
    ensures r.Some? ==> forall k :: i <= k < r.value ==> !NumberedAt(s, k, word, ci, ordinal)
    ensures r.None? ==> forall k :: i <= k < |s| ==> !NumberedAt(s, k, word, ci, ordinal)
  {
    if i == |s| then None
    else if NumberedAt(s, i, word, ci, ordinal) then Some(i)
    else NumberedStart(s, i + 1, word, ci, ordinal)
  }

  /** `Number(status.match(pattern)[1])` for that pattern, None without a match. */
  function NumberedValue(s: string, word: string, ci: bool, ordinal: bool): (r: Option<nat>)
    ensures r.None? <==> forall k :: 0 <= k < |s| ==> !NumberedAt(s, k, word, ci, ordinal)
    ensures r.Some? ==> exists p :: 0 <= p < |s| && NumberedAt(s, p, word, ci, ordinal)
                                    && (forall k :: 0 <= k < p ==> !NumberedAt(s, k, word, ci, ordinal))
                                    && r.value == DecimalValue(s, p, DigitEnd(s, p))
  {
    match NumberedStart(s, 0, word, ci, ordinal)
    case None => None
    case Some(p) => Some(DecimalValue(s, p, DigitEnd(s, p)))
  }

  /** `/(\d+)(?:-й)?\s?период/i` */
  function PeriodNowOf(status: string): (r: Option<nat>)
    ensures r.None? <==> forall k :: 0 <= k < |status| ==> !NumberedAt(status, k, PeriodWord, true, true)
    ensures r.Some? ==> exists p :: 0 <= p < |status| && NumberedAt(status, p, PeriodWord, true, true)
                                    && (forall k :: 0 <= k < p ==> !NumberedAt(status, k, PeriodWord, true, true))
                                    && r.value == DecimalValue(status, p, DigitEnd(status, p))
  {
    NumberedValue(status, PeriodWord, true, true)
  }

  /** `/(\d+)\s?мин/` (case-sensitive) */
  function MinuteOf(status: string): (r: Option<nat>)
    ensures r.None? <==> forall k :: 0 <= k < |status| ==> !NumberedAt(status, k, MinuteWord, false, false)
    ensures r.Some? ==> exists p :: 0 <= p < |status| && NumberedAt(status, p, MinuteWord, false, false)
                                    && (forall k :: 0 <= k < p ==> !NumberedAt(status, k, MinuteWord, false, false))
                                    && r.value == DecimalValue(status, p, DigitEnd(status, p))
  {
    NumberedValue(status, MinuteWord, false, false)
  }

  /** What the regular expressions extract from a status text. */
  datatype Extracted = Extracted(
    finished: bool,
    score: Option<string>,
    group: Option<string>,
    periodNow: Option<nat>,
    minute: Option<nat>)

  function Extract(status: string): (r: Extracted)
    ensures r.finished <==> exists k :: 0 <= k <= |status| && MatchesAt(status, k, FinishedPhrase, true)
    ensures r.score.None? <==> status == [] || !IsScoreChar(status[0])
    ensures r.group.None? <==> forall k :: 0 <= k < |status| ==> GroupEnd(status, k).None?
    ensures r.periodNow.None? <==> forall k :: 0 <= k < |status| ==> !NumberedAt(status, k, PeriodWord, true, true)
    ensures r.minute.None? <==> forall k :: 0 <= k < |status| ==> !NumberedAt(status, k, MinuteWord, false, false)
  {
    Extracted(IsFinishedText(status), ScoreOf(status), GroupOf(status),
              PeriodNowOf(status), MinuteOf(status))
  }

  // ----- Reconciliation (parseStatus.js, lines 43-85) -----

  /** `totalHome`/`totalAway`: the score's two numbers, 0:0 without a score. */
  function Totals(score: Option<string>): (r: (Num, Num))
    ensures !Truthy(score) ==> r == (Fin(0), Fin(0))
    ensures !r.0.Undefined?
    ensures r.1.Undefined? <==> Truthy(score) && forall k :: 0 <= k < |score.value| ==> score.value[k] != ':'
  {
    if Truthy(score) then ScoreNumbers(score.value) else (Fin(0), Fin(0))
  }

  function PairPlus(a: (Num, Num), b: (Num, Num)): (Num, Num) {
    (a.0.Plus(b.0), a.1.Plus(b.1))
  }

  function PairMinus(a: (Num, Num), b: (Num, Num)): (Num, Num) {
    (a.0.Minus(b.0), a.1.Minus(b.1))
  }

  /** The sums of the non-empty entries among the first i. */
  function SumBefore(entries: seq<string>, i: nat): (Num, Num)
    decreases i
  {
    if i == 0 then (Fin(0), Fin(0))
    else if i - 1 < |entries| && entries[i - 1] != "" then
      PairPlus(SumBefore(entries, i - 1), ScoreNumbers(entries[i - 1]))
    else SumBefore(entries, i - 1)
  }

  /** An in-progress period nobody has reported yet: period `i + 1` when
      the first i periods are all there are and the current period is
      beyond them. */
  predicate InProgress(periods: seq<string>, periodNow: Option<nat>, i: nat) {
    i == |periods| && periodNow.Some? && periodNow.value != 0 && periodNow.value > |periods|
  }

  /** The value iteration i of the loop (lines 54-71) gives period i + 1:
      a reported entry is re-rendered from its two numbers; the
      in-progress period is the total minus the reported entries; without
      any entry and with a score, period 1 is the score; otherwise null. */
  function PeriodAt(periods: seq<string>, score: Option<string>, periodNow: Option<nat>, i: nat)
    : (r: Option<string>)
    ensures r.Some? ==> r.value != ""
    ensures i < |periods| ==> (r.Some? <==> periods[i] != "")
    ensures |periods| < i ==> r.None?
  {
    if i < |periods| && periods[i] != "" then Some(ScoreString(ScoreNumbers(periods[i])))
    else if InProgress(periods, periodNow, i) then
      Some(ScoreString(PairMinus(Totals(score), SumBefore(periods, i))))
    else if i == 0 && |periods| == 0 && Truthy(score) then score
    else None
  }

  predicate InProgressAt(x: Extracted, i: nat) {
    InProgress(EntriesOf(x.group), x.periodNow, i)
  }

  function LoopPeriod(x: Extracted, i: nat): Option<string> {
    PeriodAt(EntriesOf(x.group), x.score, x.periodNow, i)
  }

  /** The no-parentheses correction (lines 74-78). */
  function Override(x: Extracted, r: StatusRecord): StatusRecord {
    if x.group.None? && Truthy(x.score) then
      r.(period1 := x.score, period2 := Some(ZeroScore), period3 := Some(ZeroScore))
    else r
  }

  function PadOne(p: Option<string>): Option<string> {
    if Truthy(p) then p else Some(ZeroScore)
  }

  /** The finished-match padding (lines 81-85). */
  function PadPeriods(r: StatusRecord): StatusRecord {
    if r.finished then
      r.(period1 := PadOne(r.period1), period2 := PadOne(r.period2), period3 := PadOne(r.period3))
    else r
  }

  /** The record parseStatus builds from what was extracted from `raw`. */
  function Reconcile(x: Extracted, raw: string): (r: StatusRecord)
    ensures r.raw == raw && r.score == x.score && r.finished == x.finished
    ensures r.periodNow == x.periodNow && r.minute == x.minute
    ensures r.finished ==> Truthy(r.period1) && Truthy(r.period2) && Truthy(r.period3)
  {
    var looped := StatusRecord(x.score, LoopPeriod(x, 0), LoopPeriod(x, 1), LoopPeriod(x, 2),
                               x.periodNow, x.minute, x.finished, raw);
    PadPeriods(Override(x, looped))
  }

  /** The record parseStatus returns for a status text. */
  function Status(status: string): (r: StatusRecord)
    ensures r.raw == status
    ensures r.finished <==> exists k :: 0 <= k <= |status| && MatchesAt(status, k, FinishedPhrase, true)
  {
    Reconcile(Extract(status), status)
  }

  /** The period loop (lines 53-71), run on a record whose other fields
      are already filled in: a running sum of the reported entries, and
      one assignment to period i + 1 per iteration. */
  method PeriodLoop(start: StatusRecord, periods: seq<string>) returns (result: StatusRecord)
    ensures result == start.(period1 := PeriodAt(periods, start.score, start.periodNow, 0),
                             period2 := PeriodAt(periods, start.score, start.periodNow, 1),
                             period3 := PeriodAt(periods, start.score, start.periodNow, 2))
  {
    result := start;
    var totalHome, totalAway := Fin(0), Fin(0);
    if Truthy(result.score) {
      var pair := ScoreNumbers(result.score.value);
      totalHome, totalAway := pair.0, pair.1;
    }

    var sumHome, sumAway := Fin(0), Fin(0);
    for i := 0 to 3
      invariant (totalHome, totalAway) == Totals(start.score)
      invariant (sumHome, sumAway) == SumBefore(periods, i)
      invariant 0 < i ==> result.period1 == PeriodAt(periods, start.score, start.periodNow, 0)
      invariant 1 < i ==> result.period2 == PeriodAt(periods, start.score, start.periodNow, 1)
      invariant 2 < i ==> result.period3 == PeriodAt(periods, start.score, start.periodNow, 2)
      invariant result == start.(period1 := result.period1, period2 := result.period2,
                                 period3 := result.period3)
    {
      if i < |periods| && periods[i] != "" {
        var pair := ScoreNumbers(periods[i]);
        sumHome := sumHome.Plus(pair.0);
        sumAway := sumAway.Plus(pair.1);
        result := result.WithPeriod(i, Some(ScoreString(pair)));
      } else if i == |periods| && result.periodNow.Some? && result.periodNow.value != 0
                && result.periodNow.value > |periods| {
        var h := totalHome.Minus(sumHome);
        var a := totalAway.Minus(sumAway);
        result := result.WithPeriod(i, Some(ScoreString((h, a))));
      } else if i == 0 && |periods| == 0 && Truthy(result.score) {
        result := result.(period1 := result.score);
      } else {
        result := result.WithPeriod(i, None);
      }
    }
  }

  /** The padding loop (lines 81-85): a finished record gets "0:0" in
      every period field that is still falsy. */
  method PadFinished(start: StatusRecord) returns (result: StatusRecord)
    ensures result == PadPeriods(start)
  {
    result := start;
    if result.finished {
      for i := 0 to 3
        invariant forall k :: 0 <= k < i ==> result.Period(k) == PadOne(start.Period(k))
        invariant forall k :: i <= k < 3 ==> result.Period(k) == start.Period(k)
        invariant result == start.(period1 := result.period1, period2 := result.period2,
                                   period3 := result.period3)
      {
        if !Truthy(result.Period(i)) {
          result := result.WithPeriod(i, Some(ZeroScore));
        }
      }
      assert result.Period(0) == PadOne(start.Period(0));
      assert result.Period(1) == PadOne(start.Period(1));
      assert result.Period(2) == PadOne(start.Period(2));
    }
  }

  /** parseStatus (parseStatus.js, lines 1-88): fills in the record from
      the extractions, runs the period loop, then the two correction
      passes. */
  method ParseStatus(status: string) returns (result: StatusRecord)
    ensures result == Status(status)
    ensures result.raw == status
    ensures result.finished <==> exists k :: 0 <= k <= |status| && MatchesAt(status, k, FinishedPhrase, true)
  {
    result := StatusRecord(None, None, None, None, None, None, false, status);

    if IsFinishedText(status) {
      result := result.(finished := true);
    }
    var scoreMatch := ScoreOf(status);
    if scoreMatch.Some? {
      result := result.(score := scoreMatch);
    }
    var setsMatch := GroupOf(status);
    var periods: seq<string> := [];
    if setsMatch.Some? {
      periods := TrimAll(Split(setsMatch.value, ","));
    }
    var periodMatch := PeriodNowOf(status);
    if periodMatch.Some? {
      result := result.(periodNow := periodMatch);
    }
    var minuteMatch := MinuteOf(status);
    if minuteMatch.Some? {
      result := result.(minute := minuteMatch);
    }

    result := PeriodLoop(result, periods);
    if setsMatch.None? && Truthy(result.score) {
      result := result.(period1 := result.score, period2 := Some(ZeroScore), period3 := Some(ZeroScore));
    }
    result := PadFinished(result);
  }
}
