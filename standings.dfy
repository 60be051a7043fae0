/** The standings page: the league filter and the games-back and run-differential cells. */
module Standings {
  import opened Wrappers
  import opened Seqs
  import opened JsText

  datatype TeamRow = TeamRow(id: int, name: string, gamesBack: string, runDifferential: string)

  datatype StandingsRecord = StandingsRecord(league: string, division: string, teams: seq<TeamRow>)

  /** `activeLeague === 'all' ? standings : standings.filter(r => r.league.includes(activeLeague))`. */
  function FilteredStandings(standings: seq<StandingsRecord>, activeLeague: string): seq<StandingsRecord> {
    if activeLeague == "all" then standings
    else Filter(standings, (r: StandingsRecord) => Includes(r.league, activeLeague))
  }

  /**
   * "all" keeps every record; any other choice keeps exactly the records whose league name
   * contains it, never more records than there were; and a choice every league contains
   * (the empty string, for one) keeps the standings as they are.
   */
  lemma FilteredStandingsSpec(standings: seq<StandingsRecord>, activeLeague: string)
    ensures activeLeague == "all" ==> FilteredStandings(standings, activeLeague) == standings
    ensures activeLeague != "all" ==>
      && |FilteredStandings(standings, activeLeague)| <= |standings|
      && forall r :: r in FilteredStandings(standings, activeLeague) <==>
           r in standings && exists i :: OccursAt(r.league, activeLeague, i)
    ensures (forall i :: 0 <= i < |standings| ==> Includes(standings[i].league, activeLeague)) ==>
              FilteredStandings(standings, activeLeague) == standings
  {
    var p := (r: StandingsRecord) => Includes(r.league, activeLeague);
    FilterMembers(standings, p);
    if forall i :: 0 <= i < |standings| ==> Includes(standings[i].league, activeLeague) {
      FilterKeepsAll(standings, p);
    }
  }

  lemma EmptyChoiceKeepsAll(standings: seq<StandingsRecord>)
    ensures FilteredStandings(standings, "") == standings
  {
    forall i | 0 <= i < |standings| ensures Includes(standings[i].league, "") {
      IncludesEmpty(standings[i].league);
    }
    FilteredStandingsSpec(standings, "");
  }

  /** The games-back cell: `'0.0'` shows as `'-'`, anything else verbatim. */
  function GamesBackText(gamesBack: string): string {
    if gamesBack == "0.0" then "-" else gamesBack
  }

  lemma GamesBackSpec(gamesBack: string)
    ensures GamesBackText(gamesBack) == "-" <==> gamesBack == "0.0" || gamesBack == "-"
    ensures gamesBack != "0.0" ==> GamesBackText(gamesBack) == gamesBack
    ensures GamesBackText(GamesBackText(gamesBack)) == GamesBackText(gamesBack)
  {
  }

  datatype RunDiffCell = RunDiffCell(cssClass: string, text: string)

  /** `parseInt(runDifferential) > 0`; NaN compares false. */
  predicate PositiveRunDiff(runDifferential: string) {
    match ParseInt(runDifferential)
    case None => false
    case Some(n) => n > 0
  }

  function RunDiffDisplay(runDifferential: string): RunDiffCell {
    if PositiveRunDiff(runDifferential) then RunDiffCell("positive", "+" + runDifferential)
    else RunDiffCell("negative", runDifferential)
  }

  /**
   * For a run differential written as an integer `n`: a positive one is shown as `+n` in
   * class `positive`, and the shown text still reads as `n`; zero and negative ones are
   * shown verbatim in class `negative`.
   */
  lemma RunDiffOfInteger(n: int)
    ensures var cell := RunDiffDisplay(IntToString(n));
      && (n > 0 ==> cell == RunDiffCell("positive", "+" + IntToString(n)) && ParseInt(cell.text) == Some(n))
      && (n <= 0 ==> cell == RunDiffCell("negative", IntToString(n)))
  {
    ParseIntOfIntToString(n);
    if n > 0 {
      ParseIntOfSignedNat(n);
    }
  }

  /** A text that is not a number is shown verbatim in class `negative`. */
  lemma RunDiffOfText(runDifferential: string)
    requires ParseInt(runDifferential).None?
    ensures RunDiffDisplay(runDifferential) == RunDiffCell("negative", runDifferential)
  {
  }

  lemma ParseIntOfSignedNat(n: int)
    requires n > 0
    ensures ParseInt("+" + IntToString(n)) == Some(n)
  {
    var s := "+" + IntToString(n);
    ReadNatDigits(n);
    assert s == "+" + NatToString(n);
    assert TrimStart(s) == s;
    assert s[1..] == NatToString(n);
  }
}
