/** The poll-to-poll diff of parseSite (index.js, lines 100-146): goals
    are inferred by comparing each match with its snapshot from the
    previous poll, the snapshots are re-indexed by id, and matches that
    left the page are appended to the finished list. */
module DiffEngine {

  import opened Wrappers
  import opened Scrape
  import opened Matches

  // ----- goal inference (index.js, lines 107-132) -----

  /** n copies of the goal g. */
  function Repeat(g: Goal, n: nat): (r: seq<Goal>)
    ensures |r| == n && forall k :: 0 <= k < n ==> r[k] == g
  {
    if n == 0 then [] else Repeat(g, n - 1) + [g]
  }

  /** The goals pushed for a match, as the source decides them: nothing
      unless the score changed; then one goal per point gained by the
      home side, followed by one per point gained by the away side. */
  function NewGoals(prev: Match, m: Match): seq<Goal> {
    GoalsBetween(GetScoreParts(prev.status.score), GetScoreParts(m.status.score), m.status.minute, m.team1, m.team2)
  }

  /** The same decision on the two score pairs. */
  function GoalsBetween(before: (int, int), now: (int, int), minute: Option<nat>,
                        team1: string, team2: string): (r: seq<Goal>)
    ensures |r| == Gain(before.0, now.0) + Gain(before.1, now.1)
    ensures forall k :: 0 <= k < |r| ==> r[k].minute == minute
  {
    if now.0 != before.0 || now.1 != before.1 then
      (if now.0 > before.0 then Repeat(Goal(minute, team1), now.0 - before.0) else [])
      + (if now.1 > before.1 then Repeat(Goal(minute, team2), now.1 - before.1) else [])
    else []
  }

  /** `match.goals` after the loop: a copy of the previous snapshot's goals
      with the new ones appended, or [] for a match seen for the first
      time. */
  function GoalsFor(prevMatches: map<string, Match>, m: Match): (r: seq<Goal>)
    ensures m.id !in prevMatches ==> r == []
    ensures m.id in prevMatches ==> prevMatches[m.id].goals <= r
  {
    if m.id in prevMatches then prevMatches[m.id].goals + NewGoals(prevMatches[m.id], m) else []
  }

  function WithGoals(prevMatches: map<string, Match>, m: Match): Match {
    m.(goals := GoalsFor(prevMatches, m))
  }

  /** Every row of `ms` with its goals filled in. */
  function Fill(prevMatches: map<string, Match>, ms: seq<Match>): (r: seq<Match>)
    ensures |r| == |ms|
    ensures forall k :: 0 <= k < |ms| ==> r[k] == WithGoals(prevMatches, ms[k])
  {
    if ms == [] then [] else [WithGoals(prevMatches, ms[0])] + Fill(prevMatches, ms[1..])
  }

  /** max(0, now - before) */
  function Gain(before: int, now: int): nat {
    if now > before then now - before else 0
  }

  /** A match seen for the first time starts with no goals. */
  lemma FirstSightingNoGoals(prevMatches: map<string, Match>, m: Match)
    requires m.id !in prevMatches
    ensures GoalsFor(prevMatches, m) == []
  {
  }

  /** The goals between two score pairs: max(0, home gain) for team1,
      then max(0, away gain) for team2. */
  lemma GoalsBetweenCounts(before: (int, int), now: (int, int), minute: Option<nat>,
                           team1: string, team2: string)
    ensures GoalsBetween(before, now, minute, team1, team2)
            == Repeat(Goal(minute, team1), Gain(before.0, now.0)) + Repeat(Goal(minute, team2), Gain(before.1, now.1))
  {
    if now.0 == before.0 && now.1 == before.1 {
      assert Repeat(Goal(minute, team1), 0) + Repeat(Goal(minute, team2), 0) == [];
    }
  }

  /** For a match with a previous snapshot: the earlier goals are kept as
      a prefix and followed by exactly max(0, home gain) goals for team1
      and then max(0, away gain) goals for team2, each stamped with the
      current minute. */
  lemma GoalsExtend(prevMatches: map<string, Match>, m: Match)
    requires m.id in prevMatches
    ensures var p, g := prevMatches[m.id], GoalsFor(prevMatches, m);
            var before, now := GetScoreParts(p.status.score), GetScoreParts(m.status.score);
            var h := Gain(before.0, now.0);
            && p.goals <= g
            && |g| == |p.goals| + h + Gain(before.1, now.1)
            && (forall k :: |p.goals| <= k < |p.goals| + h ==> g[k] == Goal(m.status.minute, m.team1))
            && (forall k :: |p.goals| + h <= k < |g| ==> g[k] == Goal(m.status.minute, m.team2))
  {
    var p := prevMatches[m.id];
    var before, now := GetScoreParts(p.status.score), GetScoreParts(m.status.score);
    GoalsBetweenCounts(before, now, m.status.minute, m.team1, m.team2);
    var home := Repeat(Goal(m.status.minute, m.team1), Gain(before.0, now.0));
    var away := Repeat(Goal(m.status.minute, m.team2), Gain(before.1, now.1));
    assert GoalsFor(prevMatches, m) == p.goals + home + away;
  }

  /** Every goal added in a poll carries the minute of that poll. */
  lemma NewGoalsStamped(prevMatches: map<string, Match>, m: Match)
    requires m.id in prevMatches
    ensures var p, g := prevMatches[m.id], GoalsFor(prevMatches, m);
            forall k :: |p.goals| <= k < |g| ==> g[k].minute == m.status.minute
  {
    GoalsExtend(prevMatches, m);
  }

  /** A score that did not go up on either side (a decrease included)
      adds no goal. */
  lemma NoGainNoGoals(prevMatches: map<string, Match>, m: Match)
    requires m.id in prevMatches
    requires GetScoreParts(m.status.score).0 <= GetScoreParts(prevMatches[m.id].status.score).0
    requires GetScoreParts(m.status.score).1 <= GetScoreParts(prevMatches[m.id].status.score).1
    ensures GoalsFor(prevMatches, m) == prevMatches[m.id].goals
  {
    GoalsExtend(prevMatches, m);
    var p, g := prevMatches[m.id], GoalsFor(prevMatches, m);
    assert g[..|p.goals|] == p.goals;
  }

  /** The two counted loops: one goal pushed per point gained by each
      side, when the score changed. */
  method PushGoals(goals: seq<Goal>, before: (int, int), now: (int, int), minute: Option<nat>,
                   team1: string, team2: string) returns (r: seq<Goal>)
    ensures r == goals + GoalsBetween(before, now, minute, team1, team2)
  {
    r := goals;
    ghost var home: seq<Goal> := [];
    ghost var away: seq<Goal> := [];
    if now.0 != before.0 || now.1 != before.1 {
      if now.0 > before.0 {
        for i := 0 to now.0 - before.0
          invariant r == goals + Repeat(Goal(minute, team1), i)
        {
          r := r + [Goal(minute, team1)];
        }
        home := Repeat(Goal(minute, team1), now.0 - before.0);
      }
      if now.1 > before.1 {
        for i := 0 to now.1 - before.1
          invariant r == goals + home + Repeat(Goal(minute, team2), i)
        {
          r := r + [Goal(minute, team2)];
        }
        away := Repeat(Goal(minute, team2), now.1 - before.1);
      }
    }
    assert r == goals + (home + away);
  }

  /** The body of the loop for one row: `match.goals` is set from the
      previous snapshot, and goals are pushed when there is one. */
  method GoalsOf(prevMatches: map<string, Match>, m: Match) returns (goals: seq<Goal>)
    ensures goals == GoalsFor(prevMatches, m)
  {
    goals := if m.id in prevMatches then prevMatches[m.id].goals else [];
    if m.id !in prevMatches {
      return;
    }
    var prev := prevMatches[m.id];
    var before := GetScoreParts(prev.status.score);
    var now := GetScoreParts(m.status.score);
    goals := PushGoals(goals, before, now, m.status.minute, m.team1, m.team2);
  }

  /** The loop over `result`: each row gets the copied goals of its
      previous snapshot, then one goal per point gained on each side. */
  method InferGoals(prevMatches: map<string, Match>, result: seq<Match>) returns (filled: seq<Match>)
    ensures filled == Fill(prevMatches, result)
  {
    filled := [];
    for j := 0 to |result|
      invariant |filled| == j
      invariant forall k :: 0 <= k < j ==> filled[k] == WithGoals(prevMatches, result[k])
    {
      var goals := GoalsOf(prevMatches, result[j]);
      filled := filled + [result[j].(goals := goals)];
    }
    assert Fill(prevMatches, result) == filled;
  }

  // ----- lastMatches (index.js, lines 101-104) -----

  /** `new Set(result.map(m => m.id))` */
  function IdsOf(ms: seq<Match>): set<string> {
    set k | 0 <= k < |ms| :: ms[k].id
  }

  /** Every snapshot is filed under its own id. */
  predicate Keyed(index: map<string, Match>) {
    forall id :: id in index ==> index[id].id == id
  }

  /** `lastMatches` after `result.forEach(m => { lastMatches[m.id] = m; })`. */
  function IndexById(ms: seq<Match>): (r: map<string, Match>)
    ensures Keyed(r)
  {
    if |ms| == 0 then map[] else IndexById(ms[..|ms| - 1])[ms[|ms| - 1].id := ms[|ms| - 1]]
  }

  /** One step of the forEach loop, in terms of prefixes. */
  lemma IndexStep(ms: seq<Match>, j: nat)
    requires j < |ms|
    ensures IndexById(ms[..j + 1]) == IndexById(ms[..j])[ms[j].id := ms[j]]
  {
    assert ms[..j + 1][..j] == ms[..j];
  }

  /** The index has one key per id of the rows... */
  lemma {:induction false} IndexKeys(ms: seq<Match>)
    ensures IndexById(ms).Keys == IdsOf(ms)
  {
    if 0 < |ms| {
      var init := ms[..|ms| - 1];
      IndexKeys(init);
      assert forall k :: 0 <= k < |init| ==> init[k] == ms[k];
      assert IdsOf(ms) == IdsOf(init) + {ms[|ms| - 1].id};
    }
  }

  /** ...and holds, for each id, the last row with that id. */
  lemma {:induction false} IndexLast(ms: seq<Match>, id: string)
    requires id in IndexById(ms)
    ensures exists k :: 0 <= k < |ms| && IndexById(ms)[id] == ms[k] && forall j :: k < j < |ms| ==> ms[j].id != id
  {
    var init := ms[..|ms| - 1];
    if ms[|ms| - 1].id != id {
      IndexLast(init, id);
      var k :| 0 <= k < |init| && IndexById(init)[id] == init[k] && forall j :: k < j < |init| ==> init[j].id != id;
      assert ms[k] == init[k];
    } else {
      assert IndexById(ms)[id] == ms[|ms| - 1];
    }
  }

  /** Filling in goals keeps the ids. */
  lemma FillKeepsIds(prevMatches: map<string, Match>, ms: seq<Match>)
    ensures IdsOf(Fill(prevMatches, ms)) == IdsOf(ms)
  {
    var r := Fill(prevMatches, ms);
    assert forall k :: 0 <= k < |ms| ==> r[k].id == ms[k].id;
    assert forall id :: id in IdsOf(ms) ==> id in IdsOf(r) by {
      forall id | id in IdsOf(ms) ensures id in IdsOf(r) {
        var k :| 0 <= k < |ms| && ms[k].id == id;
        assert r[k].id == id;
      }
    }
  }

  // ----- finished matches (index.js, lines 135-146) -----

  /** `finished.find(m => m.id === id)` finds an entry. */
  predicate Listed(finished: seq<Match>, id: string) {
    exists k :: 0 <= k < |finished| && finished[k].id == id
  }

  /** No two entries share an id. */
  predicate UniqueIds(finished: seq<Match>) {
    forall i, j :: 0 <= i < j < |finished| ==> finished[i].id != finished[j].id
  }

  /** The finished list after the `for (const id in prevMatches)` loop has
      visited the ids of `order`, in that order: an id absent from the
      current poll and not yet listed gets its previous snapshot appended
      with `finished: true`. */
  function FinishedAfter(prevMatches: map<string, Match>, currentIds: set<string>,
                         finished: seq<Match>, order: seq<string>): (r: seq<Match>)
    requires forall j :: 0 <= j < |order| ==> order[j] in prevMatches
    decreases |order|
    ensures finished <= r
  {
    if |order| == 0 then finished
    else
      var f := FinishedAfter(prevMatches, currentIds, finished, order[..|order| - 1]);
      var id := order[|order| - 1];
      if id !in currentIds && !Listed(f, id) then f + [prevMatches[id].(finished := true)] else f
  }

  /** Every id that left the page is listed afterwards. */
  lemma {:induction false} DepartedListed(prevMatches: map<string, Match>, currentIds: set<string>,
                                          finished: seq<Match>, order: seq<string>)
    requires Keyed(prevMatches)
    requires forall j :: 0 <= j < |order| ==> order[j] in prevMatches
    ensures forall j :: 0 <= j < |order| && order[j] !in currentIds ==>
              Listed(FinishedAfter(prevMatches, currentIds, finished, order), order[j])
    decreases |order|
  {
    if 0 < |order| {
      var init := order[..|order| - 1];
      var f := FinishedAfter(prevMatches, currentIds, finished, init);
      var r := FinishedAfter(prevMatches, currentIds, finished, order);
      DepartedListed(prevMatches, currentIds, finished, init);
      forall j | 0 <= j < |order| && order[j] !in currentIds
        ensures Listed(r, order[j])
      {
        if j < |order| - 1 {
          assert init[j] == order[j];
          var k :| 0 <= k < |f| && f[k].id == order[j];
          assert r[k] == f[k];
        } else if !Listed(f, order[j]) {
          assert r[|f|].id == order[j];
        }
      }
    }
  }

  /** A list without duplicate ids stays without them. */
  lemma {:induction false} UniqueIdsKept(prevMatches: map<string, Match>, currentIds: set<string>,
                                         finished: seq<Match>, order: seq<string>)
    requires Keyed(prevMatches) && UniqueIds(finished)
    requires forall j :: 0 <= j < |order| ==> order[j] in prevMatches
    ensures UniqueIds(FinishedAfter(prevMatches, currentIds, finished, order))
    decreases |order|
  {
    if 0 < |order| {
      var init := order[..|order| - 1];
      var f := FinishedAfter(prevMatches, currentIds, finished, init);
      UniqueIdsKept(prevMatches, currentIds, finished, init);
      var id := order[|order| - 1];
      if id !in currentIds && !Listed(f, id) {
        var r := f + [prevMatches[id].(finished := true)];
        forall i, j | 0 <= i < j < |r| ensures r[i].id != r[j].id {
          if j == |f| {
            assert r[i] == f[i];
          }
        }
      }
    }
  }

  /** When every departed id is already listed, the loop adds nothing. */
  lemma {:induction false} AllListedUnchanged(prevMatches: map<string, Match>, currentIds: set<string>,
                                              finished: seq<Match>, order: seq<string>)
    requires forall j :: 0 <= j < |order| ==> order[j] in prevMatches
    requires forall j :: 0 <= j < |order| && order[j] !in currentIds ==> Listed(finished, order[j])
    ensures FinishedAfter(prevMatches, currentIds, finished, order) == finished
    decreases |order|
  {
    if 0 < |order| {
      var init := order[..|order| - 1];
      assert forall j :: 0 <= j < |init| ==> init[j] == order[j];
      AllListedUnchanged(prevMatches, currentIds, finished, init);
    }
  }

  /** Rerunning the finished-list update with the same inputs adds nothing. */
  lemma FinishedIdempotent(prevMatches: map<string, Match>, currentIds: set<string>,
                           finished: seq<Match>, order: seq<string>)
    requires Keyed(prevMatches)
    requires forall j :: 0 <= j < |order| ==> order[j] in prevMatches
    ensures var r := FinishedAfter(prevMatches, currentIds, finished, order);
            FinishedAfter(prevMatches, currentIds, r, order) == r
  {
    var r := FinishedAfter(prevMatches, currentIds, finished, order);
    DepartedListed(prevMatches, currentIds, finished, order);
    AllListedUnchanged(prevMatches, currentIds, r, order);
  }

  /** No id occurs twice. */
  predicate Distinct(order: seq<string>) {
    forall i, j :: 0 <= i < j < |order| ==> order[i] != order[j]
  }

  /** What the loop appends, written as a filter over the ids: the
      snapshot of each id, in order, that is absent from the current
      poll and not in the list the loop started from. */
  function Departures(prevMatches: map<string, Match>, currentIds: set<string>,
                      finished: seq<Match>, order: seq<string>): (r: seq<Match>)
    requires forall j :: 0 <= j < |order| ==> order[j] in prevMatches
    ensures forall k :: 0 <= k < |r| ==>
              exists j :: 0 <= j < |order| && order[j] !in currentIds && !Listed(finished, order[j])
                          && r[k] == prevMatches[order[j]].(finished := true)
  {
    if |order| == 0 then []
    else
      var init := order[..|order| - 1];
      var id := order[|order| - 1];
      assert forall j :: 0 <= j < |init| ==> init[j] == order[j];
      Departures(prevMatches, currentIds, finished, init)
      + if id !in currentIds && !Listed(finished, id) then [prevMatches[id].(finished := true)] else []
  }

  /** With each snapshot filed under its own id and each id visited once,
      the loop appends exactly the departures: existing entries are kept
      in order, followed by one entry per departed, unlisted id. */
  lemma {:induction false} FinishedClosedForm(prevMatches: map<string, Match>, currentIds: set<string>,
                                              finished: seq<Match>, order: seq<string>)
    requires Keyed(prevMatches) && Distinct(order)
    requires forall j :: 0 <= j < |order| ==> order[j] in prevMatches
    ensures FinishedAfter(prevMatches, currentIds, finished, order)
            == finished + Departures(prevMatches, currentIds, finished, order)
    decreases |order|
  {
    if 0 < |order| {
      var init := order[..|order| - 1];
      var id := order[|order| - 1];
      assert forall j :: 0 <= j < |init| ==> init[j] == order[j];
      FinishedClosedForm(prevMatches, currentIds, finished, init);
      var d := Departures(prevMatches, currentIds, finished, init);
      var f := finished + d;
      assert Listed(f, id) <==> Listed(finished, id) by {
        if Listed(finished, id) {
          var k :| 0 <= k < |finished| && finished[k].id == id;
          assert f[k] == finished[k];
        }
      }
    }
  }

  /** The `for (const id in prevMatches)` loop. */
  method DetectFinished(prevMatches: map<string, Match>, currentIds: set<string>,
                        stored: seq<Match>, order: seq<string>) returns (finished: seq<Match>)
    requires forall j :: 0 <= j < |order| ==> order[j] in prevMatches
    ensures finished == FinishedAfter(prevMatches, currentIds, stored, order)
  {
    finished := stored;
    for j := 0 to |order|
      invariant finished == FinishedAfter(prevMatches, currentIds, stored, order[..j])
    {
      assert order[..j + 1][..j] == order[..j];
      var id := order[j];
      if id !in currentIds {
        if !Listed(finished, id) {
          var entry := prevMatches[id].(finished := true);
          finished := finished + [entry];
        }
      }
    }
    assert order[..|order|] == order;
  }

  // ----- the poller (index.js, lines 13 and 59-151) -----

  /** `order` is how `for..in` enumerates the keys of `index`: each key
      once. The engine's order (integer-like keys ascending, then the
      others by insertion) is not modelled; any enumeration is allowed. */
  predicate ForInOrder(order: seq<string>, index: map<string, Match>) {
    && (forall j :: 0 <= j < |order| ==> order[j] in index)
    && (forall id :: id in index ==> id in order)
    && (forall i, j :: 0 <= i < j < |order| ==> order[i] != order[j])
  }

  /** The module state: `lastMatches`, the snapshots of the previous poll
      by id. */
  class Poller {
    var lastMatches: map<string, Match>

    ghost predicate Valid()
      reads this
    {
      Keyed(lastMatches)
    }

    /** `let lastMatches = {}` */
    constructor()
      ensures Valid() && lastMatches == map[]
    {
      lastMatches := map[];
    }

    /** One poll of parseSite after the page has been read: rows are
        collected, then compared with the previous poll by Update. */
    method ParseSite(cells: seq<Row>, stored: Option<seq<Match>>, order: seq<string>)
      returns (result: seq<Match>, finished: seq<Match>)
      requires Valid() && ForInOrder(order, lastMatches)
      modifies this
      ensures Valid()
      ensures result == Fill(old(lastMatches), RowsOf(cells))
      ensures lastMatches == IndexById(result)
      ensures lastMatches.Keys == IdsOf(RowsOf(cells))
      ensures finished == FinishedAfter(old(lastMatches), IdsOf(result), stored.GetOr([]), order)
    {
      var rows := CollectRows(cells);
      result, finished := Update(rows, stored, order);
    }

    /** The diff stage of parseSite (index.js, lines 100-146): goals are
        inferred against the previous poll, `lastMatches` is replaced,
        and the finished list (`stored`, or [] when it cannot be read) is
        extended with the matches that left the page. The source files
        the rows into `lastMatches` before filling in their goals, but as
        the map holds the same objects, it ends up holding the filled
        rows, as here. */
    method Update(rows: seq<Match>, stored: Option<seq<Match>>, order: seq<string>)
      returns (result: seq<Match>, finished: seq<Match>)
      requires Valid() && ForInOrder(order, lastMatches)
      modifies this
      ensures Valid()
      ensures result == Fill(old(lastMatches), rows)
      ensures lastMatches == IndexById(result)
      ensures lastMatches.Keys == IdsOf(rows)
      ensures finished == FinishedAfter(old(lastMatches), IdsOf(result), stored.GetOr([]), order)
    {
      var currentIds := IdsOf(rows);
      var prevMatches := lastMatches;
      result := InferGoals(prevMatches, rows);
      FillKeepsIds(prevMatches, rows);
      lastMatches := map[];
      for j := 0 to |result|
        invariant lastMatches == IndexById(result[..j])
      {
        IndexStep(result, j);
        lastMatches := lastMatches[result[j].id := result[j]];
      }
      assert result[..|result|] == result;
      IndexKeys(result);
      finished := DetectFinished(prevMatches, currentIds, stored.GetOr([]), order);
    }
  }
}
