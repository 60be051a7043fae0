# Sports scoreboard: a Dafny model

This project models the core of a small sports-scoreboard application: an Express backend
and a React client.

The backend (`server.js`) keeps a module-level score cache filled from an upstream sports
database. It contains:

- `POST /api/scores`: returns the scores of the requested teams, refetches only what the cache
  lacks while the cache is fresh (less than five minutes old), refetches everything once the
  cache is stale, and deduplicates by event id so that the last copy of an event wins;
- `GET /api/device/scores`: serves a simplified view of the cache;
- `GET /api/search`: searches teams by name, optionally within a league.

The client contains:

- the favourite-team list, with add and remove (`App.js`);
- today's games, put in order: favourites first, then each part sorted Live, Preview, Final,
  with Preview games by start time (`App.js`);
- the team-schedule page: team lookup, the date range of the request, grouping by month or by
  week, and the result and score columns (`TeamSchedule.js`);
- the status sections of the games list (`GamesList.js`);
- the per-league score board (`ScoreBoard.js`);
- the league filter and the display cells of the standings (`Standings.js`).

The model is written in the source's own form:

- Mutable state is a class proved against specification functions:
  - `Server.ScoreServer` holds `scoreCache` and `lastFetchTime`;
  - `App.FavoritesList` holds the favourites;
  - `Calendar.JsDate` holds a JavaScript `Date` that `setDate`/`setMonth` update in place.
- In-place sorting stays on an array (`App.SortGames`, an insertion sort).
- Loops stay loops: the cached-team-id set, the deduplication, the grouping `reduce` and the
  date-range `switch`.
- Pure expressions are functions, and lemmas state their properties.

The JavaScript built-ins the code relies on are written out in `JsText`:

- `toLowerCase` (ASCII letters);
- `includes`;
- `split`/`join` on one character;
- `String(n)` for integers;
- `parseInt` without a radix.

`Date.prototype.setDate` and `setMonth`, including their day overflow, are in `Calendar`, on
proleptic Gregorian civil dates with a day number. The upstream database and the request
clock are parameters of the handlers.

Modules:

| module | file | models |
|---|---|---|
| `Wrappers` | wrappers.dfy | `Option` |
| `Seqs` | seqs.dfy | `filter`, `map` |
| `JsText` | js_text.dfy | string built-ins |
| `Calendar` | calendar.dfy | `Date` day arithmetic |
| `Grouping` | grouping.dfy | the group-into-object `reduce` |
| `Server` | server.dfy | server.js |
| `Mlb` | mlb.dfy | the client's team and game records |
| `App` | app.dfy | client/src/App.js |
| `TeamSchedule` | team_schedule.dfy | client/src/components/TeamSchedule.js |
| `GamesList` | games_list.dfy | client/src/components/GamesList.js |
| `ScoreBoard` | score_board.dfy | client/src/components/ScoreBoard.js |
| `Standings` | standings.dfy | client/src/components/Standings.js |

## Model

| member | source | states |
|---|---|---|
| Server.FreshnessWindow | server.js:80-82 | a cache fetched at `t` is fresh at `t + d` exactly when `d` is below 300000 ms; a cache never fetched is never fresh |
| Server.CollectCachedTeamIds | server.js:88-92 | the `forEach` loop collects exactly the home and away ids of the cached scores |
| Server.MissingTeamIdsSpec | server.js:88-95 | a requested id is missing exactly when no cached score has it as home or away id; none is missing exactly when every requested id is cached; the teams to fetch are the missing ids |
| Server.PostResponse | server.js:73-205 | `Server.PostScores`, the handler as a function: 400 with "Teams array is required" exactly for a missing, non-array or empty `teams`, leaving the cache as it was; otherwise the reply is the new cache filtered to scores involving a requested team, holds exactly those scores, and the cache keeps one entry per event id |
| Server.PostServesFromCache | server.js:98-105 | a fresh cache that covers every requested team answers from the cache, leaves cache and fetch time unchanged, and does not depend on upstream |
| Server.PostFetchesOnlyMissing | server.js:111-116 | with a fresh cache the outcome depends on upstream only for teams that are not cached |
| Server.PostExtendsFreshCache | server.js:108-195 | with a fresh cache and a missing team, the new cache has exactly the ids of the old cache and of the fetched scores; it holds a score exactly when that score is the last with its id in the old cache followed by the fetched scores, so a fetched score replaces the cached one with the same id and an old score with no fetched twin stays; the fetch time becomes `now` |
| Server.PostReplacesStaleCache | server.js:111-116 | with a stale cache the outcome does not depend on the old cache; the new cache has exactly the ids fetched for all requested teams, and holds a score exactly when it is the last fetched score with its id, so a later team's copy of a shared event replaces an earlier team's; the fetch time becomes `now` |
| Server.FetchAllSkipsFailed | server.js:174-177 | a team whose upstream request fails contributes nothing: fetching without it gives the same scores |
| Server.FetchAllAgrees | server.js:118-181 | the fetched scores depend only on upstream's answers for the teams fetched |
| Server.PostRepeatIsCacheHit | server.js:194-195 | repeating a request while the cache it left is fresh and covers the teams yields the same reply and the same state |
| Server.PutSpec | server.js:190 | `uniqueScores[score.id] = score` keeps ids unique; afterwards the table holds the new score and every old score with another id |
| Server.DedupLastWins | server.js:188-191 | the deduplicated table has unique ids and holds a score exactly when it is the last score with its id in the input |
| Server.DedupKeepsEveryId | server.js:188-191 | every event id of the input survives deduplication |
| Server.DedupIds | server.js:188-191 | an id is in the deduplicated table exactly when it is in the input |
| Server.Deduplicate | server.js:188-191 | the `for` loop computes the deduplicated table |
| Server.ScoreServer.constructor | server.js:16-17 | the server starts with an empty cache and no fetch time |
| Server.ScoreServer.HandlePostScores | server.js:73-205 | the handler's reply and the new `scoreCache`/`lastFetchTime` are those of `PostScores`; cache ids stay unique |
| Server.EventConversion | server.js:132-171 | `Server.UpcomingScore` and `Server.PastScore`: upcoming events become "scheduled" with scores 0 and their timestamp; past events become "completed" with their date and the integer their score text reads, or 0 when the text is absent or empty |
| Server.InvolvingSpec | server.js:197-200 | the reply filter keeps exactly the scores with a requested home or away id |
| Server.DeviceScoresSpec | server.js:208-249 | `Server.DeviceScores`: 400 exactly for absent or empty `teams`; otherwise a reply exactly when the cache is fresh and non-empty, else 404; the reply has one record per cached score involving a comma-split id, with the same id, names, scores and status, and misses none |
| Server.DeviceAfterPost | server.js:215-226 | after a POST, the device endpoint queried with the same teams joined by commas serves the POST's reply in simplified form |
| Server.SearchSpec | server.js:26-71 | `Server.Search`: 400 exactly without a term; 500 exactly when upstream fails; [] when upstream has no teams; league "all" returns the name search unfiltered; otherwise exactly the found teams whose lower-cased name contains the lower-cased term |
| Server.SearchIgnoresCase | server.js:62-64 | with no league given, and when upstream answers the name search for both terms alike, two non-empty terms equal up to case give the same search reply |
| App.AddSpec | client/src/App.js:94-98 | `App.WithFavorite`: adding keeps the old list as a prefix and grows it by at most one; a new id is appended at the end; a present id changes nothing; adding twice is adding once; distinct ids stay distinct |
| App.RemoveSpec | client/src/App.js:113-115 | `App.WithoutFavorite`: removing keeps exactly the favourites with another id; the id is gone; distinct ids stay distinct; an absent id changes nothing |
| App.RemoveUndoesAdd | client/src/App.js:94-115 | removing a newly added team restores the list |
| App.FavoritesList.HandleAddFavorite | client/src/App.js:94-111 | the favourites become the list with the team added; ids stay distinct |
| App.FavoritesList.HandleRemoveFavorite | client/src/App.js:113-115 | the favourites become the list without the id; ids stay distinct |
| App.CompareAgreesWithKey | client/src/App.js:136-151 | `App.Compare`: on Live, Preview and Final games the comparator is negative, zero or positive exactly as the first game's key (Live, Preview by start time, Final) is below, equal to or above the second's |
| App.CompareInconsistentOutsideKnown | client/src/App.js:142-150 | with another status the comparator is not a consistent order: Preview = Postponed = Final but Preview < Final |
| App.InsertGame | client/src/App.js:136-151 | one insertion step keeps the array a permutation, keeps the order among games of equal key, and extends the sorted prefix by one |
| App.SortGames | client/src/App.js:135-152 | sorting in place yields a permutation that keeps equal-key games in input order and is sorted by key when every status is known |
| App.SortedCopy | client/src/App.js:135-152 | the sorted copy of a part is a permutation of it, stable, and sorted when every status is known |
| App.PartitionIsPermutation | client/src/App.js:124-132 | the favourite and the other games together are a permutation of today's games, and each part holds exactly the games on its side of the favourite test |
| App.GetFilteredGames | client/src/App.js:118-155 | no games gives []; the result is a permutation of today's games; every favourite game precedes every other game; within each part the order is stable by key, and sorted when every status is known |
| Mlb.FavoriteIds | client/src/App.js:121 | the favourite ids list one id per favourite, and exactly the favourites' ids |
| TeamSchedule.FindTeam | client/src/components/TeamSchedule.js:18 | a found team is one of `allTeams` whose id as a string is `teamId`; nothing is found exactly when no team's id matches |
| TeamSchedule.FindTeamIsFirst | client/src/components/TeamSchedule.js:18 | the lookup returns the first team whose id matches |
| TeamSchedule.FindTeamById | client/src/components/TeamSchedule.js:18 | looking up a number's text finds a team with that number as id, and fails exactly when none has it |
| TeamSchedule.TeamAfterLookup | client/src/components/TeamSchedule.js:17-22 | the shown team stays as it was or becomes a matching team of `allTeams`; with no match it stays as it was; with a match it becomes the first matching team |
| TeamSchedule.DateRange | client/src/components/TeamSchedule.js:33-57 | week is today−3 .. today+4, month is day 1 .. the last day of today's month, season is April 1 .. October 31 of this year, anything else is today−7 .. today+14; the start never follows the end; the month end is the corrected one (see ## Findings) |
| TeamSchedule.AroundToday | client/src/components/TeamSchedule.js:34-39 | `setDate(getDate() ± k)` on copies of today moves exactly `k` days either way, across month and year ends |
| TeamSchedule.MonthOf | client/src/components/TeamSchedule.js:40-46 | the month range starts on day 1 and ends on the last day of today's month |
| TeamSchedule.MonthEnd | client/src/components/TeamSchedule.js:43-45 | from day 1, `setMonth(month + 1)` then `setDate(0)` gives the last day of the month |
| TeamSchedule.MonthEndAsWrittenSpec | client/src/components/TeamSchedule.js:43-45 | `TeamSchedule.MonthEndAsWritten`: from today itself this gives the last day of this month when today's day exists next month, and the last day of next month otherwise |
| TeamSchedule.MonthEndAsWrittenOverflows | client/src/components/TeamSchedule.js:43-45 | on 2026-01-31 the range end as written is 2026-02-28 |
| TeamSchedule.MonthEndOfJanuary | client/src/components/TeamSchedule.js:45 | the last day of January 2026 is the 31st |
| TeamSchedule.WeekNumber | client/src/components/TeamSchedule.js:99 | the week number is `ceil(day / 7)`: the `w` with `7(w−1) < day ≤ 7w` |
| TeamSchedule.WeekNumberRange | client/src/components/TeamSchedule.js:99 | days 1..31 give weeks 1..5 |
| TeamSchedule.MonthNameInverse | client/src/components/TeamSchedule.js:98 | month names are distinct: the name determines the month |
| TeamSchedule.WeekLabelInjective | client/src/components/TeamSchedule.js:100 | two dates get the same week label exactly when they share month and week number |
| TeamSchedule.GroupedGames | client/src/components/TeamSchedule.js:96-110 | the groups have one key per distinct group key of the games, in first-seen order; each holds exactly the games with that key, in input order |
| TeamSchedule.ScheduleGroupOfGame | client/src/components/TeamSchedule.js:96-110 | every copy of a game lands in the group of its own key and in no other |
| TeamSchedule.SameWeekGroup | client/src/components/TeamSchedule.js:102 | outside the month view, two games share a group exactly when they share month and week number |
| TeamSchedule.SameMonthGroup | client/src/components/TeamSchedule.js:102 | in the month view, two games share a group exactly when they share the month |
| TeamSchedule.SidesFromEitherTeam | client/src/components/TeamSchedule.js:206-207 | `TeamSchedule.IsHome` and `TeamSchedule.Opponent`: seen from the home team the row is home with the away team as opponent, and the reverse from the away team |
| TeamSchedule.ResultSpec | client/src/components/TeamSchedule.js:208-217 | `TeamSchedule.GameResult`: from any team's point of view the result is "-" exactly when the game is not Final; a Final result is one of W, L, T, exactly as the team has more, fewer or as many runs as its opponent |
| TeamSchedule.ResultFromEitherTeam | client/src/components/TeamSchedule.js:206-217 | the result is "-" exactly before Final; for a Final game the home side wins, loses or ties exactly as it has more, fewer or as many runs, and W/L/T seen from one side are L/W/T from the other |
| TeamSchedule.ScoreDisplayRoundTrip | client/src/components/TeamSchedule.js:219-226 | `TeamSchedule.ScoreDisplay`: the score text is empty exactly for Preview; otherwise, for non-negative scores, it splits at `-` into the team's and then the opponent's score |
| Calendar.WithDate | client/src/components/TeamSchedule.js:36 | `setDate(d)` yields a real date: day `d` of the month when it exists, the previous month's last day for 0 |
| Calendar.WithDateDayNumber | client/src/components/TeamSchedule.js:36 | `setDate(d)` lands on day number "first of the month + d − 1" for every `d`, in or out of range |
| Calendar.WithDateShifts | client/src/components/TeamSchedule.js:36-38 | `setDate(getDate() + k)` moves exactly `k` days |
| Calendar.WithMonth | client/src/components/TeamSchedule.js:44 | `setMonth(m)` yields a real date: the same day in month `m` (years carried) when it exists, otherwise rolled over into the following month |
| Calendar.WithMonthDayNumber | client/src/components/TeamSchedule.js:44 | `setMonth(m)` lands on the day number of day `day` of month `m`, in or out of range |
| Calendar.SetMonthRollsOver | client/src/components/TeamSchedule.js:44 | `setMonth(1)` on 2026-01-31 gives 2026-03-03 |
| Calendar.LastOfMonth | client/src/components/TeamSchedule.js:45 | the last day of a month is a real date of that month, the day before the first of the next month |
| Calendar.JsDate.SetDate | client/src/components/TeamSchedule.js:36 | the held date becomes `setDate(d)` of the old one |
| Calendar.JsDate.SetMonth | client/src/components/TeamSchedule.js:44 | the held date becomes `setMonth(m)` of the old one |
| Grouping.GroupBy | client/src/components/ScoreBoard.js:14-21 | the `reduce` builds one distinct key per key of the items, in first-seen order, each holding exactly its items in input order |
| Grouping.GroupsOfPush | client/src/components/TeamSchedule.js:104-108 | creating a missing array and pushing an item keeps the object in step with the items seen so far, keys still in the order of their first items |
| Grouping.FirstIndexSnoc | client/src/components/ScoreBoard.js:16-19 | appending an item creates a key at the end only when the key is new: the first position of an existing key does not move |
| Grouping.BucketCount | client/src/components/ScoreBoard.js:14-21 | every item lands in the array of its own key and in no other |
| JsText.Includes | client/src/components/Standings.js:42 | `includes` holds exactly when the part occurs at some position |
| JsText.JoinSplit | server.js:215 | joining the parts of a `split` gives the string back |
| JsText.SplitJoin | server.js:215 | splitting a join of separator-free parts gives the parts back |
| JsText.ToLowerIdempotent | server.js:63 | lower-casing twice is lower-casing once |
| JsText.ParseIntOfIntToString | client/src/components/Standings.js:107 | `parseInt` reads back every integer `String` writes |
| JsText.IntToStringInjective | client/src/components/TeamSchedule.js:18 | two integers have the same text exactly when they are equal |
| GamesList.ViewSpec | client/src/components/GamesList.js:6-20 | `GamesList.View`: no games gives the empty state; otherwise the Live, Preview and Final sections hold exactly the games of that status |
| GamesList.SectionsPartitionKnown | client/src/components/GamesList.js:18-20 | the sections together hold each Live, Preview or Final game as often as the input does, and no game of another status |
| GamesList.FlagsSpec | client/src/components/GamesList.js:15-34 | `GamesList.Flags`: a side is flagged exactly when a favourite has its id; a card is highlighted exactly when its game is a favourite game |
| ScoreBoard.ScoresByLeague | client/src/components/ScoreBoard.js:5-21 | no scores gives the empty state; otherwise one group per distinct league key, each holding exactly its scores in input order |
| ScoreBoard.ScoreInOwnGroup | client/src/components/ScoreBoard.js:14-21 | every score lands in its league's group and no other; a falsy league means "Other" |
| ScoreBoard.LabelSpec | client/src/components/ScoreBoard.js:32-58 | `ScoreBoard.Label` and `ScoreBoard.PeriodInfo`: LIVE exactly for "in_progress", the scheduled time exactly for "scheduled", FINAL for every other status; the period line only for games in progress |
| ScoreBoard.PeriodInfoStartsWithPeriod | client/src/components/ScoreBoard.js:54-58 | for a game in progress with a period, the line is the period, a space, then the time remaining |
| Standings.FilteredStandingsSpec | client/src/components/Standings.js:40-42 | `Standings.FilteredStandings`: "all" keeps every record; any other choice keeps exactly the records whose league contains it; a choice every league contains keeps the standings as they are |
| Standings.EmptyChoiceKeepsAll | client/src/components/Standings.js:42 | the empty league choice keeps every record |
| Standings.GamesBackSpec | client/src/components/Standings.js:103 | `Standings.GamesBackText`: games back shows "-" exactly for "0.0" or "-"; every other value is shown verbatim; the display is idempotent |
| Standings.RunDiffOfInteger | client/src/components/Standings.js:107-108 | `Standings.RunDiffDisplay`: a positive integer run differential is shown with "+" in class positive and still reads as its value; zero and negative ones are shown verbatim in class negative |
| Standings.RunDiffOfText | client/src/components/Standings.js:107-108 | `Standings.RunDiffDisplay`: an unparsable run differential is shown verbatim in class negative |
| Standings.ParseIntOfSignedNat | client/src/components/Standings.js:108 | `parseInt` reads "+n" as `n` |

## Left out

- Express routing, middleware, static files and the catch-all route are HTTP plumbing. Each
  handler is a function from request fields to a response datatype.
- The `axios` calls and their `Promise.all` concurrency are modelled as one abstract upstream
  function. Per team it gives both event feeds, or `None` when either request throws, and
  teams are fetched in request order.
- The 500 "Failed to fetch scores" branch of `POST /api/scores` is left out because it cannot be
  reached. Every upstream request and every read of upstream data happens inside the per-team
  `try`, whose `catch` yields [] (server.js:120-177). Nothing after it (server.js:180-200)
  throws on the scores that the `try` built.
- Each `POST /api/scores` is atomic in the model; overlapping requests are left out. The handler
  reads the cache (server.js:112), awaits upstream (server.js:180) and then overwrites the cache
  (server.js:194). Two overlapping POSTs can therefore lose each other's fetched entries, and
  `lastFetchTime` can move backwards to the earlier request's time.
- Request teams are modelled by their ids. `teams.map(team => team.id)` on the body's objects
  is taken as given.
- Upstream events are modelled only by the fields the handlers read. The search's field
  mapping (`idTeam` to `id` and so on) is taken as already done.
- The cache object is the sequence of its values in insertion order. JavaScript enumerates
  integer-like keys in numeric order, so for numeric event ids the real `Object.values` order
  can differ; the membership and uniqueness facts do not depend on that order.
- `Server.DeviceScoresSpec`: a `teams` query given as a repeated parameter, which Express
  turns into an array, is not modelled; only a single string is.
- Undefined or non-numeric score fields on cached scores are left out. The model's scores are
  integers.
- `localStorage` persistence of the favourites, all `fetch`/`useEffect`/`setInterval` polling
  and React rendering are browser I/O or presentation.
- Dates are civil dates in one fixed time zone with no time of day. Locale formatting,
  `toISOString` and its time-zone shift, and `toLocaleTimeString` are left out. Month names are
  the English ones `toLocaleString('default', …)` gives in an English locale. Start times are
  integer timestamps, so `new Date(a) - new Date(b)` is a subtraction.
- `App.SortGames`: sortedness is proved only when every status is Live, Preview or Final. With
  another status (`Postponed`, say) the comparator is not a consistent order
  (`App.CompareInconsistentOutsideKnown`), and the order `Array.prototype.sort` produces is
  then implementation-defined. Permutation and stability are proved for every input.
- `App.SortedCopy`: sorted only when every status is known, for the same reason.
- `App.GetFilteredGames`: each part is sorted only when every status is known, for the same
  reason. The favourites-first order and the permutation hold for every input.
- `App.InsertGame`: the model sorts with insertion sort, a stable sort. On known statuses any
  stable sort with this comparator gives the same result.
- `JsText.ToLowerIdempotent`: `toLowerCase` is modelled on ASCII letters only; Unicode case
  mapping is left out.
- `Standings.RunDiffOfInteger`: `parseInt` is read on unbounded integers; the loss of precision
  beyond 2^53 is left out.
- GameDetail, LeagueLeaders, TeamSelector and DateSelector are not part of this model. They
  are fetch wrappers, floating-point formatting or locale display.
- The `/api/mlb/*` endpoints the client calls are not part of this model.
- Team ids are compared with `===` and `includes`, so a number never equals a text with the same
  digits. The client model types every id as an integer. Favourites added from the team search
  carry the upstream `idTeam`, which is text, and the model does not capture that mismatch.
- `JsText.ParseIntOfIntToString`: white space before the number is modelled as the ASCII
  blanks, no-break space, byte-order mark and the line and paragraph separators. The other
  Unicode space separators that `parseInt` also skips are left out.
- `Server.SearchSpec`: a repeated `q` query parameter, which arrives as an array, is not
  modelled; the model's term is a single string. With such an array `encodeURIComponent` does
  not throw (server.js:38, server.js:41). Besides the 500 of an upstream failure (server.js:66-69),
  the reply is a 500 only when the league is absent or other than "all" and upstream returns at
  least one team: only then does the filter callback call
  `q.toLowerCase()` (server.js:62-64). The reply is 200 for the league "all" (unfiltered,
  server.js:60-61), when upstream has no `teams` ([], server.js:46-48), and when the team list
  is empty.
- The log output of every handler (`console.log`/`console.error`) is left out.

## Findings

| source | as written | input that shows it | evidently intended | confidence | as-written member | corrected member |
|---|---|---|---|---|---|---|
| client/src/components/TeamSchedule.js:43-45 | the month range end is `new Date(today)` moved by `setMonth(month + 1)` and then `setDate(0)`; `setMonth` keeps today's day, so from the 29th to the 31st, before a shorter month, it rolls over into the month after next, and `setDate(0)` then lands on the last day of the NEXT month | today 2026-01-31: `setMonth(1)` gives 2026-03-03 and `setDate(0)` gives 2026-02-28 | the last day of the current month, 2026-01-31, as the comment on line 45 says | not executed | TeamSchedule.MonthEndAsWritten (TeamSchedule.MonthEndAsWrittenSpec, TeamSchedule.MonthEndAsWrittenOverflows) | TeamSchedule.MonthOf (TeamSchedule.MonthEnd, used by TeamSchedule.DateRange) |
