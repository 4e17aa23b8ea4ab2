# Cyber-hockey live-score bot: a verified model of its core

The bot polls a live-score page every minute. The page lists
cyber-hockey matches: league headers, and match rows under each header,
with a link, the team names and a free-text Russian status such as
`"2:1 (1:0,1:1) 2 период 14 мин"` or `"3:2 Матч завершен"`.

From every poll the bot builds match snapshots. It infers goal events by
comparing each match's score with its score one poll earlier. A match
that has left the page is appended to a persistent list of finished
matches. The `/last50` chat command reports the last 50 finished matches,
newest first, split into messages of at most 4000 characters.

This Dafny project models that core in these modules:

- `Wrappers`: an `Option` type.
- `JsString` and `JsNumber`: the parts of JavaScript the code relies on.
  - Regular-expression matching, written out as explicit scanners, with ASCII and Cyrillic case folding.
  - `trim`, `split` and `join`.
  - `Number()` coercion, including `NaN`, the `undefined` a destructuring leaves, `${n}` rendering and `x || 0`.
- `StatusParser` (parseStatus.js): the status-text parser, in two layers.
  - The extraction layer turns the regular expressions into scanners.
  - The reconciliation layer is the imperative period loop and its two correction passes, proved equal to `Status`, a closed-form definition.
- `StatusProperties` and `StatusExamples`: what the parser promises, and three worked status texts.
- `Scrape` (index.js): the helpers `extractId`, `getLeagueName`, `splitTeams` and `getScoreParts`.
- `Matches`: snapshots and the loop that turns the page's rows into snapshots.
- `DiffEngine`: goal inference, the by-id index `lastMatches` and finished-match detection.
  - The class `Poller` holds `lastMatches` as a field. One call of `ParseSite` is one poll.
- `Last50`: the `/last50` reply.
  - Selection: `slice(-50).reverse()`.
  - Formatting of each game.
  - The 4000-character chunking loop.

Four behaviours of the code that are easy to misread:

- `[h, a] = t.split(':').map(Number)` leaves `a` as `undefined` when `t` has no ':', because `map` calls `Number` only on the elements there are.
  - A breakdown entry `"2"` is re-rendered as `"2:undefined"`.
  - A score `"2"` gives the totals 2 and `undefined`. Subtracting from `undefined` gives NaN, so `"2 (1:0) 2 период"` synthesises period 2 as `"1:NaN"`.
  - A missing or empty score gives the totals 0:0. So does a score whose two parts `Number()` reads as 0, such as ":" (empty parts) or "0:0".
- Finished padding fills every falsy period field, not only `null` ones.
- A failure to read the finished list is handled differently in the two places.
  - During a poll the list starts empty.
  - Under `/last50` the reply is the "no games" notice.

## Model

| member | source | states |
|---|---|---|
| StatusParser.ParseStatus | parseStatus.js:1-88 | The record equals the closed form `Status(status)`; `raw` is the input; `finished` holds exactly when "матч завершен" occurs somewhere, compared case-insensitively |
| StatusParser.Status | parseStatus.js:1-88 | The record for a text: `raw` is the text, and `finished` holds exactly when the phrase occurs |
| StatusParser.Reconcile | parseStatus.js:43-87 | `raw`, `score`, `finished`, `periodNow` and `minute` are taken as extracted. A finished record has all three periods truthy |
| StatusParser.IsFinishedText | parseStatus.js:14-16 | True exactly when "матч завершен" occurs at some position, compared case-insensitively |
| StatusParser.ScoreOf | parseStatus.js:19-22 | The score is a non-empty prefix of digits and colons, not followed by another. It is null exactly when the text does not start with one |
| StatusParser.GroupOf | parseStatus.js:25-29 | Null exactly when no position opens a `(…)` group with at least one character before the first ')'. Otherwise the breakdown is the inside of the leftmost such group: non-empty and without ')' |
| StatusParser.NumberedValue | parseStatus.js:32-41 | Null exactly when the pattern matches nowhere. Otherwise it is the decimal value of the digit run at the leftmost matching position, as `String.match` returns it |
| StatusParser.PeriodNowOf | parseStatus.js:32-35 | Null exactly when `(\d+)(?:-й)?\s?период` matches nowhere, compared case-insensitively. Otherwise it is the number at the leftmost match |
| StatusParser.MinuteOf | parseStatus.js:38-41 | Null exactly when `(\d+)\s?мин` matches nowhere. Otherwise it is the number at the leftmost match |
| StatusParser.Extract | parseStatus.js:13-41 | What the five patterns find. `finished` holds exactly when the phrase occurs. Each other field is null exactly when its pattern matches nowhere: no leading digit or ':', no closed `(…)` group, no period number, no minute. The values are pinned by StatusFields |
| StatusParser.Totals | parseStatus.js:45-50 | 0:0 for a missing or empty score. Otherwise the score's `split(':').map(Number)` pair, whose home part is never `undefined` and whose away part is `undefined` exactly when the score has no ':'. ColonlessTotals is an instance |
| StatusParser.PeriodLoop | parseStatus.js:53-71 | The loop with running sums sets period i+1 to `PeriodAt(i)`: the re-rendered entry, the in-progress difference, the score, or null. Every other field is unchanged |
| StatusParser.PeriodAt | parseStatus.js:54-71 | The value one iteration writes. A period that is set is never empty. A slot with an entry is set exactly when the entry is non-empty. A slot past the first missing one is null. InProgressPeriod and ReportedEntryKept give the values |
| StatusParser.PadFinished | parseStatus.js:81-85 | The padding loop gives `PadPeriods(start)`: "0:0" in each falsy period field of a finished record, nothing else changed |
| StatusProperties.StatusFields | parseStatus.js:2-41 | `raw` is the input. `score`, `periodNow` and `minute` are what their patterns extract. `score` is null exactly when the text does not start with a digit or ':' |
| StatusProperties.ScoreIsLeadingRun | parseStatus.js:19-22 | The score is the whole leading run of digits and colons |
| StatusProperties.FirstGroup | parseStatus.js:25-29 | The breakdown is the text of the first parenthesised group |
| StatusProperties.NoGroup | parseStatus.js:25-29 | Without any '(' there is no breakdown |
| StatusProperties.ReportedEntryKept | parseStatus.js:54-59 | A non-empty entry i < 3 becomes period i+1, re-rendered as `${h}:${a}` from `split(':').map(Number)`, where `a` is `undefined` when the entry has no ':' |
| StatusProperties.EntryWithoutColon | parseStatus.js:56-59 | A non-empty entry without ':' becomes its number followed by ":undefined" |
| StatusProperties.LaterEntriesIgnored | parseStatus.js:54-59 | Breakdowns that agree on their first three entries give the same record |
| StatusProperties.PeriodWithGroup | parseStatus.js:53-85 | With parentheses, each period is the loop's value, padded when the match is finished |
| StatusProperties.InProgressPeriod | parseStatus.js:60-64 | When the first k entries are all there are and the current period is past k, period k+1 is the totals minus the reported sums. The result is not clamped |
| StatusProperties.InProgressBalances | parseStatus.js:43-64 | The synthesised period, read back as numbers and added to the reported sums, gives the total score |
| StatusProperties.NoScoreNoGroup | parseStatus.js:45-71 | Without a score the totals are 0:0. When there is also no parenthesised group and a current period above 0 is known, period 1 is "0:0", and periods 2 and 3 are null unless the match is finished |
| StatusProperties.NoGroupOverride | parseStatus.js:74-78 | Without parentheses and with a score: period 1 is the score verbatim, periods 2 and 3 are "0:0" |
| StatusProperties.FinishedHasAllPeriods | parseStatus.js:81-85 | A finished record has all three period fields truthy |
| StatusProperties.PadKeepsFilled | parseStatus.js:81-85 | Padding leaves truthy fields as they were |
| StatusProperties.PadIdempotent | parseStatus.js:81-85 | Padding twice is padding once |
| StatusExamples.ExampleInProgress | parseStatus.js:1-88 | For "2:1 (1:0,1:1) 2 период 14 мин": score "2:1", periods "1:0", "1:1", null, periodNow 2, minute 14, not finished |
| StatusExamples.ExampleFinished | parseStatus.js:1-88 | For "3:2 Матч завершен": periods "3:2", "0:0", "0:0", no period number, no minute, finished |
| StatusExamples.ExampleSynthesised | parseStatus.js:1-88 | For "3:1 (2:1) 2-й период 5 мин": period 2 is synthesised as 3:1 minus 2:1, giving "1:0" |
| StatusExamples.ColonlessEntryRendered | parseStatus.js:56-59 | The entry "2" reads as 2 and `undefined`, and is re-rendered "2:undefined" |
| StatusExamples.ColonlessTotals | parseStatus.js:45-50 | The score "2" gives the totals 2 and `undefined` |
| JsNumber.ScoreNumbers | parseStatus.js:47-56 | The first part is always a value. The second is `undefined` exactly when the text has no ':' |
| JsNumber.ColonlessScore | parseStatus.js:56-59 | Text without ':' is re-rendered as its number followed by ":undefined" |
| JsNumber.ScoreRoundTrip | parseStatus.js:56-64 | A pair rendered as `${h}:${a}` and split back with Number gives the same pair, NaN included, with a rendered `undefined` read as NaN |
| JsNumber.NumberRoundTrip | parseStatus.js:56-59 | Number() of a rendered number gives the number back; "undefined" reads as NaN |
| Scrape.ExtractId | index.js:15-18 | The result is null exactly when the link contains no `id=` followed by a digit; otherwise it is a non-empty run of digits |
| Scrape.ExtractIdOf | index.js:15-18 | The id is the whole digit run after the first `id=` |
| Scrape.GetLeagueName | index.js:20-23 | The name is trimmed at both ends and no longer than the header. Without a remark it is the trimmed text |
| Scrape.LeagueWithoutParens | index.js:20-23 | Without '(' the league name is the trimmed header text |
| Scrape.LeagueWithParens | index.js:20-23 | The first parenthesised remark on one line, with the white space before it, is removed, and the rest is trimmed |
| Scrape.SplitTeams | index.js:25-38 | A side without a gamer is the trimmed side text |
| Scrape.SplitSide | index.js:30-37 | A gamer is found exactly when `^(.+?)\s*\((.+?)\)$` matches at some split point, and only for text of at least three characters ending in ')'. Without a gamer the name is the whole side. SideWithGamer gives the values |
| Scrape.SideWithGamer | index.js:30-35 | A side `name (gamer)` gives the trimmed name and the trimmed gamer |
| Scrape.SideWithoutGamer | index.js:30-37 | A side that does not end in ')' is kept whole, with a null gamer |
| Scrape.SideWithoutParen | index.js:30-37 | A side without '(' is kept whole, with a null gamer |
| Scrape.TeamsAtSeparator | index.js:27 | When the first " - " is the one after the first side, that side is the whole text before it, and the second side is the text after it up to any further " - ". Hyphens inside names do not split |
| Scrape.TeamsWithGamers | index.js:25-38 | `n1 (g1) - n2 (g2)` gives both names and both gamers, for any one-line names without '(' or " - ", hyphenated names such as "Нью-Йорк Рейнджерс" included |
| Scrape.GetScoreParts | index.js:53-57 | A null or empty score gives (0, 0) |
| Scrape.ScorePartsOfRendered | index.js:53-57 | On a rendered pair, each component is the number, or 0 for NaN and `undefined` |
| Scrape.ScorePartsOfCounts | index.js:53-57 | On "h:a" with decimal counts, the result is (h, a) |
| Matches.RowOf | index.js:79-96 | A match row's snapshot carries the id from its link, the current league and the parsed status, with no goals |
| Matches.ReadRow | index.js:79-96 | The loop body for a match row builds exactly `RowOf(league, c)`, with the status parsed by ParseStatus |
| Matches.PlacedSnoc | index.js:74-97 | Reading one more cell: a header changes the current league, and a match row is filed under the last header above it |
| Matches.CollectRows | index.js:71-98 | The `div.sports` loop returns `RowsOf(cells)`: one snapshot per match row, in page order, under the preceding league |
| DiffEngine.GoalsBetween | index.js:115-131 | As many goals as the two sides gained, max(0, Δ) each, all stamped with the current minute |
| DiffEngine.GoalsFor | index.js:108-131 | A match seen for the first time gets no goals; otherwise its previous goals are a prefix of the new list |
| DiffEngine.FirstSightingNoGoals | index.js:107-112 | A match with no previous snapshot gets an empty goal list |
| DiffEngine.GoalsBetweenCounts | index.js:115-131 | The new goals are max(0, Δhome) entries for team 1, then max(0, Δaway) for team 2 |
| DiffEngine.GoalsExtend | index.js:110-131 | The previous goals are a prefix, followed by the team-1 gains and then the team-2 gains, each with the current minute |
| DiffEngine.NewGoalsStamped | index.js:123-128 | Every new goal carries the current `status.minute` |
| DiffEngine.NoGainNoGoals | index.js:118-131 | A score that rose on neither side leaves the goals as they were |
| DiffEngine.PushGoals | index.js:119-131 | The counted push loops append exactly `GoalsBetween` |
| DiffEngine.GoalsOf | index.js:108-131 | The goal list of one match is `GoalsFor` |
| DiffEngine.InferGoals | index.js:107-132 | Every snapshot of the poll gets its goals, and nothing else about it changes |
| DiffEngine.Fill | index.js:107-132 | Same length as the poll, each entry with its goals filled in |
| DiffEngine.FillKeepsIds | index.js:101-132 | Filling in goals keeps the id set |
| DiffEngine.IndexById | index.js:103-104 | Every snapshot in the index is filed under its own id |
| DiffEngine.IndexKeys | index.js:101-104 | The keys of `lastMatches` are exactly the ids of the current poll |
| DiffEngine.IndexLast | index.js:103-104 | Each key maps to the last snapshot with that id |
| DiffEngine.FinishedAfter | index.js:138-146 | The existing list is a prefix of the new one |
| DiffEngine.DepartedListed | index.js:138-146 | Every id that left the page is listed afterwards |
| DiffEngine.UniqueIdsKept | index.js:138-146 | A list without duplicate ids stays without them |
| DiffEngine.AllListedUnchanged | index.js:141 | When every departed id is already listed, nothing is appended |
| DiffEngine.FinishedIdempotent | index.js:138-146 | Rerunning with the same inputs adds nothing |
| DiffEngine.Departures | index.js:139-143 | Each appended entry is the previous snapshot of a departed, unlisted id, with `finished` set |
| DiffEngine.FinishedClosedForm | index.js:138-146 | The new list is the old list followed by exactly the departures, in visiting order |
| DiffEngine.DetectFinished | index.js:135-146 | The `for..in` loop gives `FinishedAfter` |
| DiffEngine.Poller.Update | index.js:100-146 | One poll after the rows are read. The snapshots get goals; `lastMatches` is their index with exactly their ids as keys; the finished list is `FinishedAfter`, over the stored list or [] when that cannot be read |
| DiffEngine.Poller.ParseSite | index.js:71-146 | The whole poll from the page's cells: `Update` applied to `RowsOf(cells)` |
| DiffEngine.Poller.constructor | index.js:13 | `lastMatches` starts empty |
| Last50.LastGames | index.js:170 | min(50, n) games; entry k is `finished[n-1-k]` |
| Last50.FormatGoal | index.js:174 | The line starts with two spaces and ends with " — " and the team. A minute is printed exactly when it is present and non-zero |
| Last50.FormatGame | index.js:171-176 | A game's block is non-empty and ends in a line break |
| Last50.GameJoined | index.js:176 | A game's block is its lines joined by line breaks: heading, teams, score, the goal section and a closing empty line |
| Last50.GameLinesReadBack | index.js:171-176 | When no field holds a line break, splitting a block on line breaks gives the heading with the time and the league, the teams, `Счёт: ` and the score, then the goal heading and goal lines (one empty line without goals), then the empty line that ends the block |
| Last50.ReportText | index.js:170-177 | The report is empty exactly when no game is stored. It starts with the newest game's block, and with two or more games that block is followed by one more line break, which leaves a blank line between blocks. ReplyShape relates it to the messages |
| Last50.GoalLineSingle | index.js:174 | A goal line has no line break when the team name has none |
| Last50.GoalLinesReadBack | index.js:172-175 | The goal section is the heading plus the goal lines joined by line breaks; splitting it on line breaks gives the lines back |
| Last50.Chunks | index.js:181-185 | No pieces exactly for the empty text; each piece has 1 to 4000 characters |
| Last50.Messages | index.js:180-189 | A text of at most 4000 characters is sent whole. There is always at least one message, and none exceeds 4000 characters |
| Last50.ChunksConcat | index.js:180-185 | The pieces concatenate back to the text |
| Last50.ChunksSizes | index.js:180-185 | There are ceil(n/4000) pieces; each has 1 to 4000 characters and all but the last exactly 4000 |
| Last50.MessagesFit | index.js:180-189 | A text of at most 4000 characters is sent whole. In every case the messages concatenate to the text, and none exceeds 4000 characters |
| Last50.SplitMessage | index.js:180-189 | The while loop yields `Messages(text)` |
| Last50.ReplyShape | index.js:155-189 | A failed read or an empty list gives the one notice. Otherwise the messages concatenate to the report, each at most 4000 characters |
| Last50.Reply | index.js:155-189 | A failed read or an empty list gives the one notice. There is always at least one message, each of at most 4000 characters |
| Last50.HandleLast50 | index.js:155-189 | The handler sends `Reply(stored)` |

## Left out

- Network fetching and the hard-coded URL. A poll starts from the page's cells as given.
- The HTML library and its DOM traversal. The style test for a bold header is taken as already done: a cell is a `Header` or an `Entry`.
- The Telegram bot, `/start`, environment variables, `setInterval` and logging. Sending messages is modelled as the list of texts sent.
- Reading and writing `finished.json` and `result.json`, and JSON parsing. The stored list is a parameter. Its `None` means the read failed.
- Full JavaScript regular expressions and `Number()`. Only the patterns the code uses are written out. `Number()` accepts an optional sign and ASCII digits; decimals, exponents, hex and `Infinity` are left out.
- Case folding is ASCII and Cyrillic only, which covers the phrase "матч завершен" and the word "период".
- Numbers are unbounded integers, not doubles.
- Last50.SplitMessage: the model cuts after 4000 Dafny characters, which are Unicode scalar values, while `text.length` and `slice(0, 4000)` count UTF-16 code units.
  - A character outside the Basic Multilingual Plane counts once in the model and twice in the source.
  - So the model's pieces can be longer in code units, and `slice` can split a surrogate pair, which the model cannot express.
- The `for..in` key order is a parameter. It is any duplicate-free listing of the keys of `lastMatches`.
- Matches.Row: the subset type `Row` excludes two kinds of row.
  - Rows whose teams text has no " - ", which crash `splitTeams` (index.js:27-31).
  - Rows whose link carries no id. `extractId` returns null for them (index.js:16-17), and the null id would become the key `"null"` in `lastMatches`. That key never equals the null in the current id set, or any listed id, so the match would be re-appended on every poll.
- A row without a link, whose undefined href makes `extractId` throw, is not representable: a link is always a string.
- Aliasing: the objects in `lastMatches` are the ones that then receive goals. The model fills in goals first and indexes the filled snapshots, which gives the same final state.
- Matches.Match: the `finished` field is absent on live rows. It is modelled as false there.
- DiffEngine.FinishedClosedForm: stated for a `lastMatches` keyed by id and a visiting order without repeats. The poller guarantees both.
- DiffEngine.Departures: states that each appended entry is a departure. The converse, that every departed id is listed, is DepartedListed.
- Last50.FormatGame: the game's fields are printed as stored. A JSON file with missing fields (`undefined`, or no `goals`) is not modelled.
