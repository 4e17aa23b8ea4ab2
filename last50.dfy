/** The `/last50` command (index.js, lines 154-190): the last 50 finished
    matches, newest first, are written out as text, and a text longer
    than 4000 characters is sent in pieces of 4000. What the bot sends is
    modelled as the list of message texts. */
module Last50 {

  import opened Wrappers
  import opened JsString
  import opened JsNumber
  import opened Matches

  const Limit: nat := 50
  const ChunkSize: nat := 4000
  const NoGames: string := "Нет завершённых игр."

  function Reverse<T>(s: seq<T>): (r: seq<T>)
    ensures |r| == |s| && forall k :: 0 <= k < |s| ==> r[k] == s[|s| - 1 - k]
  {
    if s == [] then [] else Reverse(s[1..]) + [s[0]]
  }

  // ----- selection (index.js, line 170) -----

  /** `finished.slice(-50).reverse()`: the last min(50, n) entries, the
      newest first. */
  function LastGames(finished: seq<Match>): (r: seq<Match>)
    ensures |r| == if |finished| < Limit then |finished| else Limit
    ensures forall k :: 0 <= k < |r| ==> r[k] == finished[|finished| - 1 - k]
  {
    var start := if |finished| < Limit then 0 else |finished| - Limit;
    Reverse(finished[start..])
  }

  // ----- formatting (index.js, lines 171-177) -----

  /** `  ${g.minute ? g.minute + ' мин' : ''} — ${g.team}`: a missing or zero
      minute prints nothing. */
  function FormatGoal(g: Goal): (r: string)
    ensures |r| >= |g.team| + 5 && r[..2] == "  " && r[|r| - |g.team| - 3..] == " — " + g.team
    ensures (g.minute.Some? && g.minute.value != 0) <==> |r| > |g.team| + 5
  {
    var minute := if g.minute.Some? && g.minute.value != 0 then NatToString(g.minute.value) + " мин" else "";
    var line := "  " + minute + " — " + g.team;
    assert line[..2] == "  ";
    assert line[|line| - |g.team| - 3..] == " — " + g.team;
    line
  }

  function FormatGoals(goals: seq<Goal>): (r: seq<string>)
    ensures |r| == |goals| && forall k :: 0 <= k < |goals| ==> r[k] == FormatGoal(goals[k])
  {
    if goals == [] then [] else [FormatGoal(goals[0])] + FormatGoals(goals[1..])
  }

  /** `goalsText`: empty without goals, otherwise a heading and one line
      per goal. */
  function GoalsText(goals: seq<Goal>): string {
    if |goals| == 0 then "" else "Голы:\n" + Join(FormatGoals(goals), "\n")
  }

  /** `${game.status.score}`: a null score prints as "null". */
  function ScoreText(score: Option<string>): string {
    match score
    case None => "null"
    case Some(s) => s
  }

  /** The text of one game. */
  function FormatGame(game: Match): (r: string)
    ensures 0 < |r| && r[|r| - 1] == '\n'
  {
    game.time + " | " + game.league + "\n" + game.teams + "\n"
    + "Счёт: " + ScoreText(game.status.score) + "\n" + GoalsText(game.goals) + "\n"
  }

  function FormatGames(games: seq<Match>): (r: seq<string>)
    ensures |r| == |games| && forall k :: 0 <= k < |games| ==> r[k] == FormatGame(games[k])
  {
    if games == [] then [] else [FormatGame(games[0])] + FormatGames(games[1..])
  }

  /** The whole reply before it is split: the games joined by blank lines. */
  function ReportText(finished: seq<Match>): (r: string)
    ensures r == [] <==> finished == []
    ensures finished != [] ==> FormatGame(finished[|finished| - 1]) <= r
    ensures 2 <= |finished| ==> FormatGame(finished[|finished| - 1]) + "\n" <= r
  {
    Join(FormatGames(LastGames(finished)), "\n")
  }

  /** A goal line is one line when the team name is. */
  lemma GoalLineSingle(g: Goal)
    requires forall k :: 0 <= k < |g.team| ==> g.team[k] != '\n'
    ensures forall k :: 0 <= k < |FormatGoal(g)| ==> FormatGoal(g)[k] != '\n'
  {
    var m := if g.minute.Some? && g.minute.value != 0 then NatToString(g.minute.value) + " мин" else "";
    assert forall k :: 0 <= k < |m| ==> m[k] != '\n' by {
      if g.minute.Some? && g.minute.value != 0 {
        var d := NatToString(g.minute.value);
        assert forall k :: 0 <= k < |d| ==> IsDigit(d[k]);
        assert forall k :: |d| <= k < |m| ==> m[k] == " мин"[k - |d|];
      }
    }
    var line := FormatGoal(g);
    assert line == "  " + m + " — " + g.team;
    assert forall k :: 2 <= k < 2 + |m| ==> line[k] == m[k - 2];
    assert forall k :: 2 + |m| + 3 <= k < |line| ==> line[k] == g.team[k - 2 - |m| - 3];
  }

  /** The goal section reads back line by line: splitting its body on
      line breaks gives one line per goal, in order, when no team name
      holds a line break. */
  lemma GoalLinesReadBack(goals: seq<Goal>)
    requires 0 < |goals|
    requires forall i, k :: 0 <= i < |goals| && 0 <= k < |goals[i].team| ==> goals[i].team[k] != '\n'
    ensures GoalsText(goals) == "Голы:\n" + Join(FormatGoals(goals), "\n")
    ensures Split(Join(FormatGoals(goals), "\n"), "\n") == FormatGoals(goals)
  {
    var lines := FormatGoals(goals);
    forall i | 0 <= i < |lines|
      ensures forall k :: 0 <= k < |lines[i]| ==> lines[i][k] != '\n'
    {
      GoalLineSingle(goals[i]);
    }
    SplitJoinChar(lines, '\n');
  }

  /** Text without a line break. */
  predicate OneLine(t: string) {
    forall k :: 0 <= k < |t| ==> t[k] != '\n'
  }

  /** The lines of one game's block: the heading, the teams, the score,
      the goal section (one empty line without goals) and the empty line
      that closes the block. */
  function GameLines(game: Match): seq<string> {
    [game.time + " | " + game.league, game.teams, "Счёт: " + ScoreText(game.status.score)]
    + (GoalLines(game.goals) + [""])
  }

  /** The goal section's lines: one empty line without goals, otherwise
      the heading and one line per goal. */
  function GoalLines(goals: seq<Goal>): seq<string> {
    if goals == [] then [""] else ["Голы:"] + FormatGoals(goals)
  }

  /** The goal section and the line break after it. */
  lemma GoalSectionJoined(goals: seq<Goal>)
    ensures Join(GoalLines(goals) + [""], "\n") == GoalsText(goals) + "\n"
  {
    var gp := GoalLines(goals);
    if goals != [] {
      assert gp[1..] == FormatGoals(goals);
    }
    assert Join(gp, "\n") == GoalsText(goals);
    JoinAppend(gp, [""], "\n");
  }

  lemma OneLineConcat(a: string, b: string)
    requires OneLine(a) && OneLine(b)
    ensures OneLine(a + b)
  {
    assert forall k :: 0 <= k < |a| ==> (a + b)[k] == a[k];
    assert forall k :: |a| <= k < |a + b| ==> (a + b)[k] == b[k - |a|];
  }

  /** A block is its lines joined by line breaks. */
  lemma GameJoined(game: Match)
    ensures FormatGame(game) == Join(GameLines(game), "\n")
  {
    var l1, l2, l3 := game.time + " | " + game.league, game.teams, "Счёт: " + ScoreText(game.status.score);
    GoalSectionJoined(game.goals);
    JoinAppend([l1, l2, l3], GoalLines(game.goals) + [""], "\n");
    JoinThree(l1, l2, l3, "\n");
  }

  lemma GameLinesOneLine(game: Match)
    requires OneLine(game.time) && OneLine(game.league) && OneLine(game.teams)
    requires OneLine(ScoreText(game.status.score))
    requires forall i :: 0 <= i < |game.goals| ==> OneLine(game.goals[i].team)
    ensures forall i :: 0 <= i < |GameLines(game)| ==> OneLine(GameLines(game)[i])
  {
    OneLineConcat(game.time, " | ");
    OneLineConcat(game.time + " | ", game.league);
    OneLineConcat("Счёт: ", ScoreText(game.status.score));
    forall i | 0 <= i < |game.goals| ensures OneLine(FormatGoal(game.goals[i])) {
      GoalLineSingle(game.goals[i]);
    }
  }

  /** A block reads back line by line: splitting it on line breaks gives
      its fields in template order, when no field holds a line break. */
  lemma GameLinesReadBack(game: Match)
    requires OneLine(game.time) && OneLine(game.league) && OneLine(game.teams)
    requires OneLine(ScoreText(game.status.score))
    requires forall i :: 0 <= i < |game.goals| ==> OneLine(game.goals[i].team)
    ensures Split(FormatGame(game), "\n") == GameLines(game)
  {
    GameJoined(game);
    GameLinesOneLine(game);
    SplitJoinChar(GameLines(game), '\n');
  }

  // ----- chunking (index.js, lines 179-189) -----

  function Min(a: nat, b: nat): nat {
    if a < b then a else b
  }

  /** `parts` of the while loop: `text.slice(0, 4000)` taken until the
      text is used up. */
  function Chunks(text: string): (r: seq<string>)
    ensures r == [] <==> text == []
    ensures forall k :: 0 <= k < |r| ==> 0 < |r[k]| <= ChunkSize
    decreases |text|
  {
    if |text| == 0 then [] else [text[..Min(ChunkSize, |text|)]] + Chunks(text[Min(ChunkSize, |text|)..])
  }

  /** The texts sent for `text`: the pieces when it exceeds 4000
      characters, else the text itself. */
  function Messages(text: string): (r: seq<string>)
    ensures |text| <= ChunkSize ==> r == [text]
    ensures 0 < |r| && forall k :: 0 <= k < |r| ==> |r[k]| <= ChunkSize
  {
    if |text| > ChunkSize then Chunks(text) else [text]
  }

  function Concat(parts: seq<string>): string {
    if parts == [] then "" else parts[0] + Concat(parts[1..])
  }

  /** The pieces put back together give the text... */
  lemma {:induction false} ChunksConcat(text: string)
    ensures Concat(Chunks(text)) == text
    decreases |text|
  {
    if 0 < |text| {
      var n := Min(ChunkSize, |text|);
      ChunksConcat(text[n..]);
      assert Chunks(text)[1..] == Chunks(text[n..]);
      assert text == text[..n] + text[n..];
    }
  }

  /** ...each piece has 1 to 4000 characters, all but the last exactly
      4000, and there are ceil(n / 4000) of them. */
  lemma {:induction false} ChunksSizes(text: string)
    ensures |Chunks(text)| == (|text| + ChunkSize - 1) / ChunkSize
    ensures forall k :: 0 <= k < |Chunks(text)| ==> 0 < |Chunks(text)[k]| <= ChunkSize
    ensures forall k :: 0 <= k < |Chunks(text)| - 1 ==> |Chunks(text)[k]| == ChunkSize
    decreases |text|
  {
    if 0 < |text| {
      var n := Min(ChunkSize, |text|);
      ChunksSizes(text[n..]);
      var c, rest := Chunks(text), Chunks(text[n..]);
      assert c == [text[..n]] + rest;
      assert forall k :: 1 <= k < |c| ==> c[k] == rest[k - 1];
      if |text| <= ChunkSize {
        assert rest == [];
      }
    }
  }

  /** A text of at most 4000 characters is sent whole; a longer one is
      split into pieces that concatenate back to it. Either way no message
      exceeds 4000 characters. */
  lemma MessagesFit(text: string)
    ensures |text| <= ChunkSize ==> Messages(text) == [text]
    ensures Concat(Messages(text)) == text
    ensures forall k :: 0 <= k < |Messages(text)| ==> |Messages(text)[k]| <= ChunkSize
  {
    ChunksConcat(text);
    ChunksSizes(text);
    assert Concat([text]) == text + Concat([]);
  }

  /** The sending loop: while text remains, its first 4000 characters are
      pushed and cut off. */
  method SplitMessage(text: string) returns (parts: seq<string>)
    ensures parts == Messages(text)
  {
    if |text| > ChunkSize {
      parts := [];
      var rest := text;
      while |rest| > 0
        invariant parts + Chunks(rest) == Chunks(text)
        decreases |rest|
      {
        var n := Min(ChunkSize, |rest|);
        assert Chunks(rest) == [rest[..n]] + Chunks(rest[n..]);
        parts := parts + [rest[..n]];
        rest := rest[n..];
      }
    } else {
      parts := [text];
    }
  }

  // ----- the reply (index.js, lines 155-190) -----

  /** The texts the bot sends for the stored list (None when the file
      cannot be read or parsed). */
  function Reply(stored: Option<seq<Match>>): (r: seq<string>)
    ensures stored.None? || stored.value == [] ==> r == [NoGames]
    ensures 0 < |r| && forall k :: 0 <= k < |r| ==> |r[k]| <= ChunkSize
  {
    if stored.None? || |stored.value| == 0 then [NoGames]
    else Messages(ReportText(stored.value))
  }

  /** Without games the reply is the one notice; with games it is the
      report of the last 50, in messages of at most 4000 characters that
      concatenate to it. */
  lemma ReplyShape(stored: Option<seq<Match>>)
    ensures stored.None? || stored.value == [] ==> Reply(stored) == [NoGames]
    ensures stored.Some? && stored.value != [] ==> Concat(Reply(stored)) == ReportText(stored.value)
    ensures forall k :: 0 <= k < |Reply(stored)| ==> |Reply(stored)[k]| <= ChunkSize
  {
    if stored.Some? && stored.value != [] {
      MessagesFit(ReportText(stored.value));
    }
  }

  /** The handler: a failed read or an empty list gives the notice,
      otherwise the report, split when it is too long. */
  method HandleLast50(stored: Option<seq<Match>>) returns (sent: seq<string>)
    ensures sent == Reply(stored)
  {
    if stored.None? {
      return [NoGames];
    }
    var finished := stored.value;
    if |finished| == 0 {
      return [NoGames];
    }
    var lastGames := LastGames(finished);
    var text := Join(FormatGames(lastGames), "\n");
    sent := SplitMessage(text);
  }
}
