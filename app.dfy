/**
 * The top-level client component: the list of favourite teams, changed by adding and
 * removing a team, and the ordering of today's games, favourites first and each part sorted
 * by status and start time.
 */
module App {
  import opened Seqs
  import opened Mlb

  // ---------------------------------------------------------------- favourites

  /** `favorites.some(fav => fav.id === id)`. */
  predicate HasTeamId(favorites: seq<Team>, id: int) {
    exists i :: 0 <= i < |favorites| && favorites[i].id == id
  }

  predicate DistinctIds(favorites: seq<Team>) {
    forall i, j :: 0 <= i < j < |favorites| ==> favorites[i].id != favorites[j].id
  }

  /** The list `handleAddFavorite(team)` leaves. */
  function WithFavorite(favorites: seq<Team>, team: Team): seq<Team> {
    if HasTeamId(favorites, team.id) then favorites else favorites + [team]
  }

  /** The list `handleRemoveFavorite(teamId)` leaves. */
  function WithoutFavorite(favorites: seq<Team>, teamId: int): seq<Team> {
    Filter(favorites, (t: Team) => t.id != teamId)
  }

  /**
   * Adding keeps the old list as a prefix and grows it by at most one; the team's id is
   * then present; a new id is appended at the end; adding again changes nothing; and
   * distinct ids stay distinct.
   */
  lemma AddSpec(favorites: seq<Team>, team: Team)
    ensures var r := WithFavorite(favorites, team);
      && |favorites| <= |r| <= |favorites| + 1
      && r[..|favorites|] == favorites
      && HasTeamId(r, team.id)
      && (!HasTeamId(favorites, team.id) ==> r[|r| - 1] == team && |r| == |favorites| + 1)
      && (HasTeamId(favorites, team.id) ==> r == favorites)
      && WithFavorite(r, team) == r
      && (DistinctIds(favorites) ==> DistinctIds(r))
  {
    var r := WithFavorite(favorites, team);
    if !HasTeamId(favorites, team.id) {
      assert r[|favorites|].id == team.id;
    }
  }

  /**
   * Removing keeps exactly the teams with another id, in their order; the id is then
   * absent; distinct ids stay distinct; and removing an absent id changes nothing.
   */
  lemma RemoveSpec(favorites: seq<Team>, teamId: int)
    ensures var r := WithoutFavorite(favorites, teamId);
      && (forall t :: t in r <==> t in favorites && t.id != teamId)
      && !HasTeamId(r, teamId)
      && (DistinctIds(favorites) ==> DistinctIds(r))
      && (!HasTeamId(favorites, teamId) ==> r == favorites)
  {
    var p := (t: Team) => t.id != teamId;
    var r := WithoutFavorite(favorites, teamId);
    FilterMembers(favorites, p);
    if DistinctIds(favorites) {
      FilterKeepsDistinctIds(favorites, p);
    }
    if !HasTeamId(favorites, teamId) {
      FilterKeepsAll(favorites, p);
    }
  }

  lemma {:induction false} FilterKeepsDistinctIds(favorites: seq<Team>, p: Team -> bool)
    requires DistinctIds(favorites)
    ensures DistinctIds(Filter(favorites, p))
  {
    if favorites != [] {
      var rest := favorites[1..];
      assert DistinctIds(rest) by {
        forall i, j | 0 <= i < j < |rest| ensures rest[i].id != rest[j].id {
          assert rest[i] == favorites[i + 1] && rest[j] == favorites[j + 1];
        }
      }
      FilterKeepsDistinctIds(rest, p);
      FilterMembers(rest, p);
      var fr := Filter(rest, p);
      if p(favorites[0]) {
        var r := [favorites[0]] + fr;
        forall i, j | 0 <= i < j < |r| ensures r[i].id != r[j].id {
          if i == 0 {
            assert r[j] in fr;
            var k :| 0 <= k < |rest| && rest[k] == r[j];
            assert favorites[k + 1] == r[j];
          } else {
            assert r[i] == fr[i - 1] && r[j] == fr[j - 1];
          }
        }
      }
    }
  }

  /** Removing a team that was just added, when its id was new, restores the old list. */
  lemma RemoveUndoesAdd(favorites: seq<Team>, team: Team)
    requires !HasTeamId(favorites, team.id)
    ensures WithoutFavorite(WithFavorite(favorites, team), team.id) == favorites
  {
    var p := (t: Team) => t.id != team.id;
    FilterSnoc(favorites, team, p);
    FilterKeepsAll(favorites, p);
  }

  /** The favourites state of the component. */
  class FavoritesList {
    var favorites: seq<Team>

    ghost predicate Valid()
      reads this
    {
      DistinctIds(favorites)
    }

    constructor ()
      ensures Valid() && favorites == []
    {
      favorites := [];
    }

    method HandleAddFavorite(team: Team)
      requires Valid()
      modifies this
      ensures Valid()
      ensures favorites == WithFavorite(old(favorites), team)
    {
      AddSpec(favorites, team);
      if !HasTeamId(favorites, team.id) {
        favorites := favorites + [team];
      }
    }

    method HandleRemoveFavorite(teamId: int)
      requires Valid()
      modifies this
      ensures Valid()
      ensures favorites == WithoutFavorite(old(favorites), teamId)
    {
      RemoveSpec(favorites, teamId);
      favorites := WithoutFavorite(favorites, teamId);
    }
  }

  // ---------------------------------------------------------------- ordering of games

  /** The comparator `sortGames` hands to `Array.prototype.sort`. */
  function Compare(a: Game, b: Game): int {
    if a.abstractStatus == "Live" && b.abstractStatus != "Live" then -1
    else if a.abstractStatus != "Live" && b.abstractStatus == "Live" then 1
    else if a.abstractStatus == "Preview" && b.abstractStatus == "Final" then -1
    else if a.abstractStatus == "Final" && b.abstractStatus == "Preview" then 1
    else if a.abstractStatus == "Preview" && b.abstractStatus == "Preview" then a.startTime - b.startTime
    else 0
  }

  /** The three statuses the comparator distinguishes. */
  predicate Known(g: Game) {
    g.abstractStatus == "Live" || g.abstractStatus == "Preview" || g.abstractStatus == "Final"
  }

  predicate AllKnown(s: seq<Game>) {
    forall i :: 0 <= i < |s| ==> Known(s[i])
  }

  /** Live first, then Preview, then everything else; Preview games by start time. */
  datatype SortKey = SortKey(rank: int, tie: int)

  function Key(g: Game): SortKey {
    if g.abstractStatus == "Live" then SortKey(0, 0)
    else if g.abstractStatus == "Preview" then SortKey(1, g.startTime)
    else SortKey(2, 0)
  }

  predicate KeyLe(a: Game, b: Game) {
    Key(a).rank < Key(b).rank || (Key(a).rank == Key(b).rank && Key(a).tie <= Key(b).tie)
  }

  /** The games of `s` with key `k`, in order. */
  function WithKey(s: seq<Game>, k: SortKey): seq<Game> {
    Filter(s, (g: Game) => Key(g) == k)
  }

  predicate SortedByKey(s: seq<Game>) {
    forall p, q :: 0 <= p < q < |s| ==> KeyLe(s[p], s[q])
  }

  /**
   * On the three known statuses the comparator is the key order: negative, zero or
   * positive exactly as the first key is smaller than, equal to or greater than the second.
   */
  lemma CompareAgreesWithKey(a: Game, b: Game)
    requires Known(a) && Known(b)
    ensures Compare(a, b) < 0 <==> KeyLe(a, b) && Key(a) != Key(b)
    ensures Compare(a, b) == 0 <==> Key(a) == Key(b)
    ensures Compare(a, b) > 0 <==> KeyLe(b, a) && Key(a) != Key(b)
  {
  }

  /** A status outside the three makes the comparator inconsistent: it is not transitive. */
  lemma CompareInconsistentOutsideKnown(a: Game, b: Game, c: Game)
    requires a.abstractStatus == "Preview" && b.abstractStatus == "Postponed" && c.abstractStatus == "Final"
    ensures Compare(a, b) == 0 && Compare(b, c) == 0 && Compare(a, c) < 0
  {
  }

  /** The comparator asks for a swap only between games of different keys, whatever their status. */
  lemma SwapOnlyAcrossKeys(a: Game, b: Game)
    requires Compare(a, b) > 0
    ensures Key(a) != Key(b)
  {
  }

  function Swap(s: seq<Game>, j: int): (r: seq<Game>)
    requires 0 < j < |s|
    ensures |r| == |s| && r[j - 1] == s[j] && r[j] == s[j - 1]
    ensures forall i :: 0 <= i < |s| && i != j - 1 && i != j ==> r[i] == s[i]
  {
    s[j - 1 := s[j]][j := s[j - 1]]
  }

  lemma SwapKeepsWithKey(s: seq<Game>, j: int, k: SortKey)
    requires 0 < j < |s| && Key(s[j - 1]) != Key(s[j])
    ensures WithKey(Swap(s, j), k) == WithKey(s, k)
  {
    var p := (g: Game) => Key(g) == k;
    var front, back := s[..j - 1], s[j + 1..];
    assert s == front + [s[j - 1], s[j]] + back;
    assert Swap(s, j) == front + [s[j], s[j - 1]] + back;
    FilterConcat(front + [s[j - 1], s[j]], back, p);
    FilterConcat(front, [s[j - 1], s[j]], p);
    FilterConcat(front + [s[j], s[j - 1]], back, p);
    FilterConcat(front, [s[j], s[j - 1]], p);
    assert Filter([s[j - 1], s[j]], p) == Filter([s[j], s[j - 1]], p) by {
      FilterSnoc([s[j - 1]], s[j], p);
      FilterSnoc([s[j]], s[j - 1], p);
      assert [s[j - 1]] + [s[j]] == [s[j - 1], s[j]];
      assert [s[j]] + [s[j - 1]] == [s[j], s[j - 1]];
      FilterSnoc([], s[j - 1], p);
      FilterSnoc([], s[j], p);
      assert [] + [s[j - 1]] == [s[j - 1]];
      assert [] + [s[j]] == [s[j]];
    }
  }

  /** Two sequences list the games of every key in the same order. */
  ghost predicate SameKeyOrder(s: seq<Game>, t: seq<Game>) {
    forall k :: WithKey(s, k) == WithKey(t, k)
  }

  lemma SwapKeepsKeyOrder(s: seq<Game>, t: seq<Game>, j: int)
    requires 0 < j < |s| && Key(s[j - 1]) != Key(s[j]) && SameKeyOrder(s, t)
    ensures SameKeyOrder(Swap(s, j), t)
  {
    forall k ensures WithKey(Swap(s, j), k) == WithKey(t, k) {
      SwapKeepsWithKey(s, j, k);
    }
  }

  lemma SwapKeepsMultiset(s: seq<Game>, j: int)
    requires 0 < j < |s|
    ensures multiset(Swap(s, j)) == multiset(s)
    ensures AllKnown(s) ==> AllKnown(Swap(s, j))
  {
    var front, back := s[..j - 1], s[j + 1..];
    assert s == front + [s[j - 1], s[j]] + back;
    assert Swap(s, j) == front + [s[j], s[j - 1]] + back;
  }

  /** The first `n` games are in key order. */
  predicate SortedPrefix(s: seq<Game>, n: int)
    requires n <= |s|
  {
    forall p, q :: 0 <= p < q < n ==> KeyLe(s[p], s[q])
  }

  /** `s[..hi + 1]` is in key order apart from the element at `j`, ... */
  ghost predicate SortedExcept(s: seq<Game>, hi: int, j: int)
    requires hi < |s|
  {
    forall p, q :: 0 <= p < q <= hi && p != j && q != j ==> KeyLe(s[p], s[q])
  }

  /** ... which is no greater than everything after it. */
  ghost predicate BelowRest(s: seq<Game>, hi: int, j: int)
    requires 0 <= j && hi < |s|
  {
    forall q :: j < q <= hi ==> KeyLe(s[j], s[q])
  }

  lemma SwapStep(s: seq<Game>, hi: int, j: int)
    requires 0 < j <= hi < |s|
    requires SortedExcept(s, hi, j) && BelowRest(s, hi, j)
    requires KeyLe(s[j], s[j - 1]) && Key(s[j]) != Key(s[j - 1])
    ensures SortedExcept(Swap(s, j), hi, j - 1) && BelowRest(Swap(s, j), hi, j - 1)
  {
  }

  lemma InsertStart(s: seq<Game>, i: int)
    requires 0 <= i < |s| && SortedPrefix(s, i)
    ensures SortedExcept(s, i, i) && BelowRest(s, i, i)
  {
  }

  lemma InsertDone(s: seq<Game>, hi: int, j: int)
    requires 0 <= j <= hi < |s|
    requires SortedExcept(s, hi, j) && BelowRest(s, hi, j)
    requires j == 0 || KeyLe(s[j - 1], s[j])
    ensures SortedPrefix(s, hi + 1)
  {
  }

  /** One pass of the insertion sort: moves `a[i]` left past every game the comparator puts after it. */
  method InsertGame(a: array<Game>, i: int)
    requires 0 <= i < a.Length
    modifies a
    ensures multiset(a[..]) == multiset(old(a[..]))
    ensures SameKeyOrder(a[..], old(a[..]))
    ensures AllKnown(old(a[..])) && SortedPrefix(old(a[..]), i) ==> AllKnown(a[..]) && SortedPrefix(a[..], i + 1)
  {
    ghost var known := AllKnown(a[..]) && SortedPrefix(a[..], i);
    if known {
      InsertStart(a[..], i);
    }
    var j := i;
    while j > 0 && Compare(a[j - 1], a[j]) > 0
      invariant 0 <= j <= i
      invariant multiset(a[..]) == multiset(old(a[..]))
      invariant SameKeyOrder(a[..], old(a[..]))
      invariant known ==> AllKnown(a[..]) && SortedExcept(a[..], i, j) && BelowRest(a[..], i, j)
    {
      SwapOnlyAcrossKeys(a[j - 1], a[j]);
      ghost var s := a[..];
      SwapKeepsKeyOrder(s, old(a[..]), j);
      SwapKeepsMultiset(s, j);
      if known {
        CompareAgreesWithKey(a[j - 1], a[j]);
        SwapStep(s, i, j);
      }
      a[j - 1], a[j] := a[j], a[j - 1];
      assert a[..] == Swap(s, j);
      j := j - 1;
    }
    if known {
      if j > 0 {
        CompareAgreesWithKey(a[j - 1], a[j]);
      }
      InsertDone(a[..], i, j);
    }
  }

  /**
   * `games.sort(Compare)` as an insertion sort by adjacent swaps. It permutes the games,
   * keeps the order of games with equal keys (the comparator returns 0 between them), and
   * when every status is Live, Preview or Final it leaves them in key order.
   */
  method SortGames(a: array<Game>)
    modifies a
    ensures multiset(a[..]) == multiset(old(a[..]))
    ensures SameKeyOrder(a[..], old(a[..]))
    ensures AllKnown(old(a[..])) ==> AllKnown(a[..]) && SortedByKey(a[..])
  {
    ghost var known := AllKnown(a[..]);
    for i := 0 to a.Length
      invariant multiset(a[..]) == multiset(old(a[..]))
      invariant SameKeyOrder(a[..], old(a[..]))
      invariant known ==> AllKnown(a[..]) && SortedPrefix(a[..], i)
    {
      ghost var before := a[..];
      InsertGame(a, i);
      assert SameKeyOrder(a[..], old(a[..])) by {
        forall k ensures WithKey(a[..], k) == WithKey(old(a[..]), k) {
          assert WithKey(a[..], k) == WithKey(before, k);
        }
      }
    }
  }

  /** The games a favourite team plays in, in order. */
  function FavoriteGames(games: seq<Game>, ids: seq<int>): seq<Game> {
    Filter(games, (g: Game) => InvolvesFavorite(g, ids))
  }

  /** The games neither side of which is a favourite, in order. */
  function OtherGames(games: seq<Game>, ids: seq<int>): seq<Game> {
    Filter(games, (g: Game) => g.homeTeam.id !in ids && g.awayTeam.id !in ids)
  }

  /** Every game is in exactly one of the two parts. */
  lemma PartitionIsPermutation(games: seq<Game>, ids: seq<int>)
    ensures multiset(FavoriteGames(games, ids) + OtherGames(games, ids)) == multiset(games)
    ensures forall g :: g in FavoriteGames(games, ids) <==> g in games && InvolvesFavorite(g, ids)
    ensures forall g :: g in OtherGames(games, ids) <==> g in games && !InvolvesFavorite(g, ids)
  {
    FilterPartition(games, (g: Game) => InvolvesFavorite(g, ids), (g: Game) => g.homeTeam.id !in ids && g.awayTeam.id !in ids);
    FilterMembers(games, (g: Game) => InvolvesFavorite(g, ids));
    FilterMembers(games, (g: Game) => g.homeTeam.id !in ids && g.awayTeam.id !in ids);
  }

  /** Every game of a favourite team comes before every other game. */
  predicate FavoritesFirst(r: seq<Game>, ids: seq<int>) {
    forall i, j :: 0 <= i < |r| && 0 <= j < |r| && InvolvesFavorite(r[i], ids) && !InvolvesFavorite(r[j], ids) ==> i < j
  }

  lemma KnownParts(games: seq<Game>, ids: seq<int>)
    requires AllKnown(games)
    ensures AllKnown(FavoriteGames(games, ids)) && AllKnown(OtherGames(games, ids))
  {
    PartitionIsPermutation(games, ids);
    var f, o := FavoriteGames(games, ids), OtherGames(games, ids);
    forall i | 0 <= i < |f| ensures Known(f[i]) { assert f[i] in f; }
    forall i | 0 <= i < |o| ensures Known(o[i]) { assert o[i] in o; }
  }

  method SortedCopy(games: seq<Game>) returns (r: seq<Game>)
    ensures multiset(r) == multiset(games)
    ensures SameKeyOrder(r, games)
    ensures AllKnown(games) ==> SortedByKey(r)
  {
    var a := new Game[|games|](i requires 0 <= i < |games| => games[i]);
    assert a[..] == games;
    SortGames(a);
    r := a[..];
  }

  /**
   * `getFilteredGames()`: nothing for no games; otherwise a permutation of today's games in
   * which every game of a favourite team comes before every other game, each part keeps
   * the input order among games with equal keys, and, when every status is Live, Preview
   * or Final, each part is in key order.
   */
  method GetFilteredGames(todayGames: seq<Game>, favorites: seq<Team>) returns (r: seq<Game>)
    ensures |todayGames| == 0 ==> r == []
    ensures multiset(r) == multiset(todayGames)
    ensures FavoritesFirst(r, FavoriteIds(favorites))
    ensures SameKeyOrder(FavoriteGames(r, FavoriteIds(favorites)), FavoriteGames(todayGames, FavoriteIds(favorites)))
    ensures SameKeyOrder(OtherGames(r, FavoriteIds(favorites)), OtherGames(todayGames, FavoriteIds(favorites)))
    ensures AllKnown(todayGames) ==>
              SortedByKey(FavoriteGames(r, FavoriteIds(favorites))) && SortedByKey(OtherGames(r, FavoriteIds(favorites)))
  {
    if |todayGames| == 0 {
      return [];
    }
    var ids := FavoriteIds(favorites);
    var favoriteGames := FavoriteGames(todayGames, ids);
    var otherGames := OtherGames(todayGames, ids);
    var sortedFavorites := SortedCopy(favoriteGames);
    var sortedOthers := SortedCopy(otherGames);
    r := sortedFavorites + sortedOthers;

    PartitionIsPermutation(todayGames, ids);
    PartsOfConcat(todayGames, ids, sortedFavorites, sortedOthers);
    ConcatFavoritesFirst(sortedFavorites, sortedOthers, ids);
    if AllKnown(todayGames) {
      KnownParts(todayGames, ids);
    }
  }

  lemma PartsOfConcat(games: seq<Game>, ids: seq<int>, fs: seq<Game>, os: seq<Game>)
    requires multiset(fs) == multiset(FavoriteGames(games, ids))
    requires multiset(os) == multiset(OtherGames(games, ids))
    ensures forall i :: 0 <= i < |fs| ==> InvolvesFavorite(fs[i], ids)
    ensures forall i :: 0 <= i < |os| ==> !InvolvesFavorite(os[i], ids)
    ensures FavoriteGames(fs + os, ids) == fs
    ensures OtherGames(fs + os, ids) == os
  {
    PartitionIsPermutation(games, ids);
    forall i | 0 <= i < |fs| ensures InvolvesFavorite(fs[i], ids) {
      assert fs[i] in multiset(fs);
    }
    forall i | 0 <= i < |os| ensures !InvolvesFavorite(os[i], ids) {
      assert os[i] in multiset(os);
    }
    var p := (g: Game) => InvolvesFavorite(g, ids);
    var q := (g: Game) => g.homeTeam.id !in ids && g.awayTeam.id !in ids;
    FilterConcat(fs, os, p);
    FilterConcat(fs, os, q);
    FilterKeepsAll(fs, p);
    FilterEmpty(os, p);
    FilterKeepsAll(os, q);
    FilterEmpty(fs, q);
    assert fs + [] == fs;
    assert [] + os == os;
  }

  lemma ConcatFavoritesFirst(fs: seq<Game>, os: seq<Game>, ids: seq<int>)
    requires forall i :: 0 <= i < |fs| ==> InvolvesFavorite(fs[i], ids)
    requires forall i :: 0 <= i < |os| ==> !InvolvesFavorite(os[i], ids)
    ensures FavoritesFirst(fs + os, ids)
  {
  }
}
