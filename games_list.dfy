/**
 * Today's games list: an empty state for no games, otherwise three sections by status,
 * and each card's favourite flags.
 */
module GamesList {
  import opened Seqs
  import opened Mlb
  import App

  datatype GamesView =
    | EmptyState
    | Sections(live: seq<Game>, upcoming: seq<Game>, completed: seq<Game>)

  function WithStatus(games: seq<Game>, status: string): seq<Game> {
    Filter(games, (g: Game) => g.abstractStatus == status)
  }

  function View(games: seq<Game>): GamesView {
    if |games| == 0 then EmptyState
    else Sections(WithStatus(games, "Live"), WithStatus(games, "Preview"), WithStatus(games, "Final"))
  }

  /**
   * No games gives the empty state; otherwise each section holds exactly the games of its
   * status.
   */
  lemma ViewSpec(games: seq<Game>)
    ensures View(games).EmptyState? <==> |games| == 0
    ensures View(games).Sections? ==>
      && (forall g :: g in View(games).live <==> g in games && g.abstractStatus == "Live")
      && (forall g :: g in View(games).upcoming <==> g in games && g.abstractStatus == "Preview")
      && (forall g :: g in View(games).completed <==> g in games && g.abstractStatus == "Final")
  {
    FilterMembers(games, (g: Game) => g.abstractStatus == "Live");
    FilterMembers(games, (g: Game) => g.abstractStatus == "Preview");
    FilterMembers(games, (g: Game) => g.abstractStatus == "Final");
  }

  /**
   * Together the sections hold every Live, Preview and Final game exactly as often as the
   * input does, and no game of any other status: each game is in at most one section.
   */
  lemma SectionsPartitionKnown(games: seq<Game>, x: Game)
    requires |games| > 0
    ensures var v := View(games);
      multiset(v.live + v.upcoming + v.completed)[x] == if App.Known(x) then multiset(games)[x] else 0
  {
    FilterCount(games, (g: Game) => g.abstractStatus == "Live", x);
    FilterCount(games, (g: Game) => g.abstractStatus == "Preview", x);
    FilterCount(games, (g: Game) => g.abstractStatus == "Final", x);
  }

  datatype CardFlags = CardFlags(homeFavorite: bool, awayFavorite: bool, highlighted: bool)

  function Flags(game: Game, favoriteTeamIds: seq<int>): CardFlags {
    var home := game.homeTeam.id in favoriteTeamIds;
    var away := game.awayTeam.id in favoriteTeamIds;
    CardFlags(home, away, home || away)
  }

  /**
   * A side is flagged exactly when some favourite team has its id, and a card is
   * highlighted exactly when its game is among the favourite games the top-level ordering
   * puts first.
   */
  lemma FlagsSpec(games: seq<Game>, favorites: seq<Team>, game: Game)
    requires game in games
    ensures var f := Flags(game, FavoriteIds(favorites));
      && (f.homeFavorite <==> exists i :: 0 <= i < |favorites| && favorites[i].id == game.homeTeam.id)
      && (f.awayFavorite <==> exists i :: 0 <= i < |favorites| && favorites[i].id == game.awayTeam.id)
      && (f.highlighted <==> game in App.FavoriteGames(games, FavoriteIds(favorites)))
  {
    App.PartitionIsPermutation(games, FavoriteIds(favorites));
    forall i | 0 <= i < |favorites| ensures favorites[i].id in FavoriteIds(favorites) {
      assert favorites[i] in favorites;
    }
  }
}
