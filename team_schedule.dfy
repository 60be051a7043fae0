/**
 * The team schedule page: looking the team up among all teams, the date range its
 * schedule request covers, the grouping of the schedule into months or weeks, and each
 * row's home/away side, result letter and score text from the chosen team's point of view.
 */
module TeamSchedule {
  import opened Wrappers
  import opened Seqs
  import opened JsText
  import opened Calendar
  import opened Mlb
  import opened Grouping

  // ---------------------------------------------------------------- team lookup

  /** `allTeams.find(t => t.id.toString() === teamId)`. */
  function FindTeam(allTeams: seq<Team>, teamId: string): (r: Option<Team>)
    ensures r.Some? ==> r.value in allTeams && IntToString(r.value.id) == teamId
    ensures r.None? <==> forall i :: 0 <= i < |allTeams| ==> IntToString(allTeams[i].id) != teamId
  {
    if allTeams == [] then None
    else if IntToString(allTeams[0].id) == teamId then Some(allTeams[0])
    else
      var r := FindTeam(allTeams[1..], teamId);
      assert forall i :: 1 <= i < |allTeams| ==> allTeams[i] == allTeams[1..][i - 1];
      r
  }

  /** The lookup returns the first matching team. */
  lemma {:induction false} FindTeamIsFirst(allTeams: seq<Team>, teamId: string, k: int)
    requires 0 <= k < |allTeams| && IntToString(allTeams[k].id) == teamId
    requires forall j :: 0 <= j < k ==> IntToString(allTeams[j].id) != teamId
    ensures FindTeam(allTeams, teamId) == Some(allTeams[k])
  {
    if k > 0 {
      FindTeamIsFirst(allTeams[1..], teamId, k - 1);
    }
  }

  /** For the text of a numeric id, the lookup finds a team with exactly that id, if any. */
  lemma FindTeamById(allTeams: seq<Team>, n: int)
    ensures var r := FindTeam(allTeams, IntToString(n));
      && (r.Some? ==> r.value.id == n)
      && (r.None? <==> forall i :: 0 <= i < |allTeams| ==> allTeams[i].id != n)
  {
    forall a: int ensures IntToString(a) == IntToString(n) <==> a == n {
      IntToStringInjective(a, n);
    }
  }

  /** The `team` state after the lookup effect: replaced only when a team matches. */
  function TeamAfterLookup(current: Option<Team>, allTeams: seq<Team>, teamId: string): (r: Option<Team>)
    ensures r == current || (r.Some? && r.value in allTeams && IntToString(r.value.id) == teamId)
    ensures (forall i :: 0 <= i < |allTeams| ==> IntToString(allTeams[i].id) != teamId) ==> r == current
    ensures (exists i :: 0 <= i < |allTeams| && IntToString(allTeams[i].id) == teamId) ==> r == FindTeam(allTeams, teamId)
  {
    if |allTeams| > 0 then
      match FindTeam(allTeams, teamId)
      case Some(t) => Some(t)
      case None => current
    else current
  }

  // ---------------------------------------------------------------- date range

  /**
   * The start and end dates of the schedule request. Week: three days back to four days
   * ahead; month: the first to the last day of the current month; season: April 1 to
   * October 31; anything else: one week back to two weeks ahead.
   *
   * The month end is computed by setting the day to 1 before moving to the next month and
   * stepping back one day; the component's code as written moves the month first, see `MonthEndAsWritten`.
   */
  method DateRange(dateRange: string, today: ValidDate) returns (startDate: ValidDate, endDate: ValidDate)
    ensures DayNumber(startDate) <= DayNumber(endDate)
    ensures dateRange == "week" ==>
              DayNumber(startDate) == DayNumber(today) - 3 && DayNumber(endDate) == DayNumber(today) + 4
    ensures dateRange == "month" ==>
              startDate == Date(today.year, today.month, 1) && endDate == LastOfMonth(today.year, today.month)
    ensures dateRange == "season" ==> startDate == Date(today.year, 3, 1) && endDate == Date(today.year, 9, 31)
    ensures dateRange != "week" && dateRange != "month" && dateRange != "season" ==>
              DayNumber(startDate) == DayNumber(today) - 7 && DayNumber(endDate) == DayNumber(today) + 14
  {
    if dateRange == "week" {
      startDate, endDate := AroundToday(today, 3, 4);
    } else if dateRange == "month" {
      startDate, endDate := MonthOf(today);
    } else if dateRange == "season" {
      var start := new JsDate(Date(today.year, 3, 1));
      var end := new JsDate(Date(today.year, 9, 31));
      DayNumberOrder(start.value, end.value);
      startDate, endDate := start.value, end.value;
    } else {
      startDate, endDate := AroundToday(today, 7, 14);
    }
  }

  /** The week and default ranges: copies of today moved `back` days back and `ahead` days ahead. */
  method AroundToday(today: ValidDate, back: nat, ahead: nat) returns (startDate: ValidDate, endDate: ValidDate)
    ensures DayNumber(startDate) == DayNumber(today) - back && DayNumber(endDate) == DayNumber(today) + ahead
  {
    var start := new JsDate(today);
    start.SetDate(today.day - back);
    var end := new JsDate(today);
    end.SetDate(today.day + ahead);
    WithDateShifts(today, -(back as int));
    WithDateShifts(today, ahead);
    startDate, endDate := start.value, end.value;
  }

  /** The month range: the first of the month, then the day before the first of the next month. */
  method MonthOf(today: ValidDate) returns (startDate: ValidDate, endDate: ValidDate)
    ensures startDate == Date(today.year, today.month, 1) && endDate == LastOfMonth(today.year, today.month)
    ensures DayNumber(startDate) <= DayNumber(endDate)
  {
    var start := new JsDate(today);
    start.SetDate(1);
    var end := new JsDate(today);
    end.SetDate(1);
    end.SetMonth(today.month + 1);
    end.SetDate(0);
    MonthEnd(today);
    DayNumberOrder(start.value, end.value);
    startDate, endDate := start.value, end.value;
  }

  /**
   * The month end with the day set to 1 first: moving to the next month cannot overflow,
   * and stepping back one day lands on the last day of the current month.
   */
  lemma MonthEnd(today: ValidDate)
    ensures WithDate(WithMonth(WithDate(today, 1), today.month + 1), 0) == LastOfMonth(today.year, today.month)
  {
    var ny, nm := if today.month == 11 then today.year + 1 else today.year,
                  if today.month == 11 then 0 else today.month + 1;
    var first := WithDate(today, 1);
    assert first == Date(today.year, today.month, 1);
    assert ny == today.year + (today.month + 1) / 12 && nm == (today.month + 1) % 12;
    var moved := WithMonth(first, today.month + 1);
    assert moved == Date(ny, nm, 1);
    assert (if nm == 0 then ny - 1 else ny) == today.year && (if nm == 0 then 11 else nm - 1) == today.month;
  }

  /** The month end as the component's code computes it: `setMonth(month + 1)` first, then `setDate(0)`. */
  function MonthEndAsWritten(today: ValidDate): ValidDate {
    WithDate(WithMonth(today, today.month + 1), 0)
  }

  /**
   * When the day of month exists in the next month the code as written finds the right month end;
   * when it does not (the 29th to the 31st before a shorter month), `setMonth` rolls over
   * into the month after and the range ends on the last day of the NEXT month.
   */
  lemma MonthEndAsWrittenSpec(today: ValidDate)
    ensures var ny, nm := if today.month == 11 then today.year + 1 else today.year,
                          if today.month == 11 then 0 else today.month + 1;
      && (today.day <= DaysInMonth(ny, nm) ==> MonthEndAsWritten(today) == LastOfMonth(today.year, today.month))
      && (today.day > DaysInMonth(ny, nm) ==> MonthEndAsWritten(today) == LastOfMonth(ny, nm))
  {
    var ny, nm := if today.month == 11 then today.year + 1 else today.year,
                  if today.month == 11 then 0 else today.month + 1;
    assert ny == today.year + (today.month + 1) / 12 && nm == (today.month + 1) % 12;
    var moved := WithMonth(today, today.month + 1);
    if today.day <= DaysInMonth(ny, nm) {
      assert moved == Date(ny, nm, today.day);
      assert (if nm == 0 then ny - 1 else ny) == today.year && (if nm == 0 then 11 else nm - 1) == today.month;
    } else {
      var nny, nnm := if nm == 11 then ny + 1 else ny, if nm == 11 then 0 else nm + 1;
      assert moved == Date(nny, nnm, today.day - DaysInMonth(ny, nm));
      assert (if nnm == 0 then nny - 1 else nny) == ny && (if nnm == 0 then 11 else nnm - 1) == nm;
    }
  }

  /**
   * On the 31st of January 2026 the month view asks for games up to the 28th of February:
   * a month too far.
   */
  lemma MonthEndAsWrittenOverflows()
    ensures MonthEndAsWritten(Date(2026, 0, 31)) == Date(2026, 1, 28)
  {
    SetMonthRollsOver();
    assert WithDate(Date(2026, 2, 3), 0) == Date(2026, 1, 28);
  }

  /** The correct month end for the same day is January 31. */
  lemma MonthEndOfJanuary()
    ensures LastOfMonth(2026, 0) == Date(2026, 0, 31)
  {
  }

  // ---------------------------------------------------------------- grouping

  /** `Math.ceil(day / 7)`. */
  function WeekNumber(day: int): (w: int)
    requires day >= 1
    ensures 7 * (w - 1) < day <= 7 * w
  {
    (day + 6) / 7
  }

  lemma WeekNumberRange(day: int)
    requires 1 <= day <= 31
    ensures 1 <= WeekNumber(day) <= 5
  {
  }

  /** The long English month name of month index `m`. */
  function MonthName(m: int): string
    requires 0 <= m < 12
  {
    ["January", "February", "March", "April", "May", "June", "July",
     "August", "September", "October", "November", "December"][m]
  }

  function MonthIndex(name: string): int {
    if name == "January" then 0 else if name == "February" then 1 else if name == "March" then 2
    else if name == "April" then 3 else if name == "May" then 4 else if name == "June" then 5
    else if name == "July" then 6 else if name == "August" then 7 else if name == "September" then 8
    else if name == "October" then 9 else if name == "November" then 10 else if name == "December" then 11
    else -1
  }

  /** Month names are distinct: the index can be read back from the name. */
  lemma MonthNameInverse(m: int)
    requires 0 <= m < 12
    ensures MonthIndex(MonthName(m)) == m
  {
  }

  function WeekLabel(date: ValidDate): string {
    "Week " + IntToString(WeekNumber(date.day)) + " (" + MonthName(date.month) + ")"
  }

  /** `dateRange === 'month' ? month : weekLabel`. */
  function GroupKey(dateRange: string, date: ValidDate): string {
    if dateRange == "month" then MonthName(date.month) else WeekLabel(date)
  }

  function ScheduleKey(dateRange: string): Game -> string {
    (g: Game) => GroupKey(dateRange, g.date)
  }

  /** Two dates share a week label exactly when they share the month and the week of the month. */
  lemma WeekLabelInjective(a: ValidDate, b: ValidDate)
    ensures WeekLabel(a) == WeekLabel(b) <==> a.month == b.month && WeekNumber(a.day) == WeekNumber(b.day)
  {
    WeekNumberRange(a.day);
    WeekNumberRange(b.day);
    var la, lb := WeekLabel(a), WeekLabel(b);
    if la == lb {
      assert la[5] == lb[5];
      assert la[8..|la| - 1] == MonthName(a.month);
      assert lb[8..|lb| - 1] == MonthName(b.month);
      MonthNameInverse(a.month);
      MonthNameInverse(b.month);
    }
  }

  /**
   * `groupedGames`: one group per key, keys in order of first appearance, each group the
   * games with that key in schedule order. In the month view games group by month name,
   * otherwise two games share a group exactly when they share month and week of the month.
   */
  method GroupedGames(games: seq<Game>, dateRange: string) returns (g: Groups<Game>)
    ensures Distinct(g.keys)
    ensures forall k :: k in g.buckets <==> k in g.keys
    ensures forall k :: k in g.buckets <==> HasKey(games, ScheduleKey(dateRange), k)
    ensures forall k :: k in g.buckets ==> g.buckets[k] == Bucket(games, ScheduleKey(dateRange), k)
    ensures forall i, j :: 0 <= i < j < |g.keys| ==>
              FirstIndex(games, ScheduleKey(dateRange), g.keys[i]) < FirstIndex(games, ScheduleKey(dateRange), g.keys[j])
  {
    g := GroupBy(games, ScheduleKey(dateRange));
  }

  /** Each game is in the group of its own key only, with all its copies. */
  lemma ScheduleGroupOfGame(games: seq<Game>, dateRange: string, x: Game, k: string)
    ensures multiset(Bucket(games, ScheduleKey(dateRange), k))[x]
            == if GroupKey(dateRange, x.date) == k then multiset(games)[x] else 0
  {
    BucketCount(games, ScheduleKey(dateRange), k, x);
  }

  /** In the week views two games share a group exactly when they share month and week. */
  lemma SameWeekGroup(dateRange: string, x: Game, y: Game)
    requires dateRange != "month"
    ensures ScheduleKey(dateRange)(x) == ScheduleKey(dateRange)(y) <==>
              x.date.month == y.date.month && WeekNumber(x.date.day) == WeekNumber(y.date.day)
  {
    WeekLabelInjective(x.date, y.date);
  }

  /** In the month view two games share a group exactly when they share the month. */
  lemma SameMonthGroup(x: Game, y: Game)
    ensures ScheduleKey("month")(x) == ScheduleKey("month")(y) <==> x.date.month == y.date.month
  {
    MonthNameInverse(x.date.month);
    MonthNameInverse(y.date.month);
  }

  // ---------------------------------------------------------------- rows

  predicate IsHome(game: Game, teamId: string) {
    IntToString(game.homeTeam.id) == teamId
  }

  function Opponent(game: Game, teamId: string): GameTeam {
    if IsHome(game, teamId) then game.awayTeam else game.homeTeam
  }

  function TeamScore(game: Game, teamId: string): int {
    if IsHome(game, teamId) then game.homeTeam.score else game.awayTeam.score
  }

  function OpponentScore(game: Game, teamId: string): int {
    if IsHome(game, teamId) then game.awayTeam.score else game.homeTeam.score
  }

  function GameResult(game: Game, teamId: string): string {
    if game.abstractStatus != "Final" then "-"
    else if TeamScore(game, teamId) > OpponentScore(game, teamId) then "W"
    else if TeamScore(game, teamId) < OpponentScore(game, teamId) then "L"
    else "T"
  }

  function ScoreDisplay(game: Game, teamId: string): string {
    if game.abstractStatus == "Preview" then ""
    else IntToString(TeamScore(game, teamId)) + "-" + IntToString(OpponentScore(game, teamId))
  }

  /**
   * Viewed from the home team the home side is "us" and the opponent is the away side;
   * viewed from the away team (a different id) it is the other way round.
   */
  lemma SidesFromEitherTeam(game: Game)
    requires game.homeTeam.id != game.awayTeam.id
    ensures IsHome(game, IntToString(game.homeTeam.id)) && Opponent(game, IntToString(game.homeTeam.id)) == game.awayTeam
    ensures !IsHome(game, IntToString(game.awayTeam.id)) && Opponent(game, IntToString(game.awayTeam.id)) == game.homeTeam
  {
    IntToStringInjective(game.homeTeam.id, game.awayTeam.id);
  }

  /**
   * The result letter from any team's point of view: "-" exactly when the game is not
   * Final; a Final game is a W, an L or a T as the team scored more, fewer or as many runs
   * as its opponent.
   */
  lemma ResultSpec(game: Game, teamId: string)
    ensures game.abstractStatus != "Final" <==> GameResult(game, teamId) == "-"
    ensures game.abstractStatus == "Final" ==>
      && GameResult(game, teamId) in {"W", "L", "T"}
      && (GameResult(game, teamId) == "W" <==> TeamScore(game, teamId) > OpponentScore(game, teamId))
      && (GameResult(game, teamId) == "L" <==> TeamScore(game, teamId) < OpponentScore(game, teamId))
      && (GameResult(game, teamId) == "T" <==> TeamScore(game, teamId) == OpponentScore(game, teamId))
  {
  }

  /**
   * The result letter seen from the two teams of a game: "-" unless the game is Final;
   * then the home team wins, loses or ties as it has more, fewer or as many runs, a win
   * for one team is a loss for the other, and a tie is a tie for both.
   */
  lemma ResultFromEitherTeam(game: Game)
    requires game.homeTeam.id != game.awayTeam.id
    ensures var h, a := IntToString(game.homeTeam.id), IntToString(game.awayTeam.id);
      && (game.abstractStatus != "Final" <==> GameResult(game, h) == "-")
      && (game.abstractStatus == "Final" ==>
            && (GameResult(game, h) == "W" <==> game.homeTeam.score > game.awayTeam.score)
            && (GameResult(game, h) == "L" <==> game.homeTeam.score < game.awayTeam.score)
            && (GameResult(game, h) == "T" <==> game.homeTeam.score == game.awayTeam.score)
            && (GameResult(game, h) == "W" <==> GameResult(game, a) == "L")
            && (GameResult(game, h) == "L" <==> GameResult(game, a) == "W")
            && (GameResult(game, h) == "T" <==> GameResult(game, a) == "T"))
  {
    SidesFromEitherTeam(game);
  }

  /**
   * The score text is empty for Preview games; otherwise splitting it at '-' and parsing the
   * two parts gives back the team's score and the opponent's, for non-negative scores.
   */
  lemma ScoreDisplayRoundTrip(game: Game, teamId: string)
    requires game.homeTeam.score >= 0 && game.awayTeam.score >= 0
    ensures game.abstractStatus == "Preview" <==> ScoreDisplay(game, teamId) == ""
    ensures game.abstractStatus != "Preview" ==>
      var parts := Split(ScoreDisplay(game, teamId), '-');
      && |parts| == 2
      && ParseInt(parts[0]) == Some(TeamScore(game, teamId))
      && ParseInt(parts[1]) == Some(OpponentScore(game, teamId))
  {
    if game.abstractStatus != "Preview" {
      var a, b := IntToString(TeamScore(game, teamId)), IntToString(OpponentScore(game, teamId));
      NoMinusInNonNegative(TeamScore(game, teamId));
      NoMinusInNonNegative(OpponentScore(game, teamId));
      assert Join([a, b], '-') == a + "-" + b;
      SplitJoin([a, b], '-');
      ParseIntOfIntToString(TeamScore(game, teamId));
      ParseIntOfIntToString(OpponentScore(game, teamId));
    }
  }
}
