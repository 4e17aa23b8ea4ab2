/** The match rows the scraper builds from the live page (index.js, lines
    71-98). The page itself is read by an HTML library; what the scraper
    sees of it is a sequence of cells, each either a bold league header
    or a match row, and that sequence is the input here. */
module Matches {

  import opened Wrappers
  import opened JsString
  import opened StatusParser
  import opened Scrape

  /** A goal event: `{ minute: match.status.minute, team }`. */
  datatype Goal = Goal(minute: Option<nat>, team: string)

  /** A match snapshot. `goals` is filled in by the diff engine, and
      `finished` is set on the copies kept in the finished list (rows of
      the live page do not carry the field, which reads as false). */
  datatype Match = Match(
    id: string,
    league: string,
    time: string,
    teams: string,
    team1: string,
    gamer1: Option<string>,
    team2: string,
    gamer2: Option<string>,
    status: StatusRecord,
    goals: seq<Goal>,
    finished: bool)

  /** The text of a `div.sports` element as the library hands it over: a
      header carries its whole text; a match row carries the texts of its
      `i`, `a` (and the link's href) and `span` children. */
  datatype Cell =
    | Header(text: string)
    | Entry(time: string, link: string, teamsText: string, statusText: string)

  /** A row the scraper can process without throwing, and with an id: the
      link carries one, and the teams text has a " - ". */
  predicate WellFormed(c: Cell) {
    c.Entry? ==> ExtractId(c.link).Some? && 2 <= |Split(Trim(c.teamsText), " - ")|
  }

  /** The cells the scraper is given: all well formed. */
  type Row = c: Cell | WellFormed(c) witness Header("")

  /** The record `result.push({...})` adds for a match row under `league`. */
  function RowOf(league: string, c: Row): (m: Match)
    requires c.Entry?
    ensures m.id == ExtractId(c.link).value && m.league == league
    ensures m.status == Status(Trim(c.statusText)) && m.goals == [] && !m.finished
  {
    var teams := Trim(c.teamsText);
    var t := SplitTeams(teams);
    Match(ExtractId(c.link).value, league, Trim(c.time), teams,
          t.team1, t.gamer1, t.team2, t.gamer2, Status(Trim(c.statusText)), [], false)
  }

  /** The match rows of `cells`, read from the front with `league`
      current, each paired with the league it is filed under. */
  function Placed(cells: seq<Row>, league: string): (r: seq<(string, Row)>)
    ensures forall k :: 0 <= k < |r| ==> r[k].1.Entry?
  {
    if |cells| == 0 then []
    else match cells[0]
      case Header(text) => Placed(cells[1..], GetLeagueName(text))
      case Entry(_, _, _, _) => [(league, cells[0])] + Placed(cells[1..], league)
  }

  /** One record per placed match row, in order. */
  function Rows(placed: seq<(string, Row)>): (r: seq<Match>)
    requires forall k :: 0 <= k < |placed| ==> placed[k].1.Entry?
    ensures |r| == |placed|
  {
    if |placed| == 0 then []
    else Rows(placed[..|placed| - 1]) + [RowOf(placed[|placed| - 1].0, placed[|placed| - 1].1)]
  }

  lemma RowsSnoc(placed: seq<(string, Row)>, league: string, c: Row)
    requires forall k :: 0 <= k < |placed| ==> placed[k].1.Entry?
    requires c.Entry?
    ensures Rows(placed + [(league, c)]) == Rows(placed) + [RowOf(league, c)]
  {
    assert (placed + [(league, c)])[..|placed|] == placed;
  }

  /** What the loop pushes for the cells: one record per match row. */
  function RowsOf(cells: seq<Row>): (r: seq<Match>)
    ensures |r| == |Placed(cells, "")|
  {
    Rows(Placed(cells, ""))
  }

  /** The league current after `cells`: the name in the last header, or
      `league` when there is none. */
  function LeagueAfter(cells: seq<Row>, league: string): string {
    if |cells| == 0 then league
    else match cells[|cells| - 1]
      case Header(text) => GetLeagueName(text)
      case Entry(_, _, _, _) => LeagueAfter(cells[..|cells| - 1], league)
  }

  /** Reading one more cell: a header changes the current league, a match
      row is filed under the league of the last header above it. */
  lemma {:induction false} PlacedSnoc(cells: seq<Row>, c: Row, league: string)
    ensures Placed(cells + [c], league)
            == Placed(cells, league) + (if c.Entry? then [(LeagueAfter(cells, league), c)] else [])
    decreases |cells|
  {
    var all := cells + [c];
    if |cells| == 0 {
      assert all[1..] == [];
    } else {
      assert all[1..] == cells[1..] + [c];
      var next := if cells[0].Header? then GetLeagueName(cells[0].text) else league;
      PlacedSnoc(cells[1..], c, next);
      LeagueAfterFrom(cells, league);
    }
  }

  /** One step of the loop over cells, in terms of prefixes. */
  lemma PrefixStep(cells: seq<Row>, j: nat, league: string)
    requires j < |cells|
    ensures Placed(cells[..j + 1], league)
            == Placed(cells[..j], league) + (if cells[j].Entry? then [(LeagueAfter(cells[..j], league), cells[j])] else [])
    ensures LeagueAfter(cells[..j + 1], league)
            == if cells[j].Header? then GetLeagueName(cells[j].text) else LeagueAfter(cells[..j], league)
  {
    assert cells[..j + 1] == cells[..j] + [cells[j]];
    assert cells[..j + 1][..j] == cells[..j];
    PlacedSnoc(cells[..j], cells[j], league);
  }

  /** The league after a non-empty prefix, computed from its second cell on. */
  lemma {:induction false} LeagueAfterFrom(cells: seq<Row>, league: string)
    requires 0 < |cells|
    ensures LeagueAfter(cells, league)
            == LeagueAfter(cells[1..], if cells[0].Header? then GetLeagueName(cells[0].text) else league)
    decreases |cells|
  {
    if 1 < |cells| && cells[|cells| - 1].Entry? {
      LeagueAfterFrom(cells[..|cells| - 1], league);
      assert cells[..|cells| - 1][1..] == cells[1..][..|cells| - 2];
    }
  }

  /** The body of the loop for one match row: the `result.push({...})`
      record, with the status parsed by ParseStatus. */
  method ReadRow(league: string, c: Row) returns (m: Match)
    requires c.Entry?
    ensures m == RowOf(league, c)
  {
    var teams := Trim(c.teamsText);
    var t := SplitTeams(teams);
    var status := ParseStatus(Trim(c.statusText));
    m := Match(ExtractId(c.link).value, league, Trim(c.time), teams,
               t.team1, t.gamer1, t.team2, t.gamer2, status, [], false);
  }

  /** The `mainBlock.find('div.sports').each(...)` loop: a header sets the
      current league, a match row is pushed with that league. */
  method CollectRows(cells: seq<Row>) returns (result: seq<Match>)
    ensures result == RowsOf(cells)
  {
    result := [];
    var currentLeague := "";
    ghost var placed: seq<(string, Row)> := [];
    for j := 0 to |cells|
      invariant placed == Placed(cells[..j], "")
      invariant currentLeague == LeagueAfter(cells[..j], "")
      invariant result == Rows(placed)
    {
      PrefixStep(cells, j, "");
      match cells[j]
      case Header(text) =>
        currentLeague := GetLeagueName(text);
      case Entry(_, _, _, _) =>
        var m := ReadRow(currentLeague, cells[j]);
        RowsSnoc(placed, currentLeague, cells[j]);
        result := result + [m];
        placed := placed + [(currentLeague, cells[j])];
    }
    assert cells[..|cells|] == cells;
  }
}
