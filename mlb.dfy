/**
 * The client's view of the MLB data it receives: teams, and games whose two sides carry a
 * numeric team id, a name and a score. Start times are integer timestamps and game dates
 * calendar dates.
 */
module Mlb {
  import opened Seqs
  import Calendar

  datatype Team = Team(id: int, name: string)

  datatype GameTeam = GameTeam(id: int, name: string, score: int)

  datatype Game = Game(
    id: int,
    homeTeam: GameTeam,
    awayTeam: GameTeam,
    abstractStatus: string,
    startTime: int,
    date: Calendar.ValidDate,
    inningState: string)

  /** `favorites.map(team => team.id)`. */
  function FavoriteIds(favorites: seq<Team>): (ids: seq<int>)
    ensures |ids| == |favorites|
    ensures forall t :: t in favorites ==> t.id in ids
    ensures forall id :: id in ids ==> exists i :: 0 <= i < |favorites| && favorites[i].id == id
  {
    var ids := Map(favorites, (t: Team) => t.id);
    assert forall t :: t in favorites ==> t.id in ids by {
      forall t | t in favorites ensures t.id in ids {
        var i :| 0 <= i < |favorites| && favorites[i] == t;
        assert ids[i] == t.id;
      }
    }
    ids
  }

  predicate InvolvesFavorite(g: Game, ids: seq<int>) {
    g.homeTeam.id in ids || g.awayTeam.id in ids
  }
}
