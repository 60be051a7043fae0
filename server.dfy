/**
 * The backend's score cache (`POST /api/scores`), the device projection of that cache
 * (`GET /api/device/scores`) and the team search (`GET /api/search`).
 *
 * The cache is the pair of module-level variables `scoreCache` (an object from event id to
 * score, modelled as the sequence of its values in insertion order, ids unique) and
 * `lastFetchTime`. The upstream sports database is a parameter: for each team id it yields
 * that team's two event feeds, or `None` when either request throws.
 */
module Server {
  import opened Wrappers
  import opened Seqs
  import opened JsText

  type TeamId = string
  type EventId = string

  /** Five minutes, in milliseconds. */
  const CACHE_DURATION: int := 5 * 60 * 1000

  const TEAMS_REQUIRED := "Teams array is required"
  const TEAM_IDS_REQUIRED := "Team IDs required"
  const NO_CACHED_SCORES := "No cached scores available"
  const FETCH_FIRST := "Please fetch scores via the frontend first"
  const SEARCH_TERM_REQUIRED := "Search term is required"
  const SEARCH_FAILED := "Failed to search teams"

  // ---------------------------------------------------------------- data

  datatype Side = Side(id: TeamId, name: string, score: int)

  datatype Score = Score(
    id: EventId,
    league: string,
    homeTeam: Side,
    awayTeam: Side,
    status: string,
    scheduledTime: Option<string>,
    completedTime: Option<string>)

  /** The fields of an upstream event that the handler reads. */
  datatype RawEvent = RawEvent(
    idEvent: string,
    strLeague: string,
    idHomeTeam: string,
    strHomeTeam: string,
    idAwayTeam: string,
    strAwayTeam: string,
    intHomeScore: Option<string>,
    intAwayScore: Option<string>,
    strTimestamp: string,
    dateEvent: string)

  /** The `events` of the upcoming-events reply and the `results` of the past-events reply. */
  datatype TeamFeed = TeamFeed(events: Option<seq<RawEvent>>, results: Option<seq<RawEvent>>)

  type Upstream = TeamId -> Option<TeamFeed>

  /** The `teams` field of the request body. */
  datatype TeamsField = Missing | NotAnArray | TeamList(teams: seq<TeamId>)

  datatype ScoresResponse = ScoresBadRequest(error: string) | ScoresOk(scores: seq<Score>)

  /** The reply to one POST together with the cache it leaves behind. */
  datatype PostOutcome = PostOutcome(response: ScoresResponse, scoreCache: seq<Score>, lastFetchTime: Option<int>)

  // ---------------------------------------------------------------- upstream events

  /** `parseInt(text) || 0`. */
  function ScoreValue(text: Option<string>): int {
    match text
    case None => 0
    case Some(t) => match ParseInt(t) { case None => 0 case Some(n) => n }
  }

  function UpcomingScore(e: RawEvent): Score {
    Score(e.idEvent, e.strLeague, Side(e.idHomeTeam, e.strHomeTeam, 0), Side(e.idAwayTeam, e.strAwayTeam, 0),
          "scheduled", Some(e.strTimestamp), None)
  }

  function PastScore(e: RawEvent): Score {
    Score(e.idEvent, e.strLeague,
          Side(e.idHomeTeam, e.strHomeTeam, ScoreValue(e.intHomeScore)),
          Side(e.idAwayTeam, e.strAwayTeam, ScoreValue(e.intAwayScore)),
          "completed", None, Some(e.dateEvent))
  }

  /** Upcoming events first, then past events; a missing list contributes nothing. */
  function TeamEvents(feed: TeamFeed): seq<Score> {
    (if feed.events.Some? then Map(feed.events.value, UpcomingScore) else [])
      + (if feed.results.Some? then Map(feed.results.value, PastScore) else [])
  }

  /** One team's scores; a failed fetch is caught and yields `[]`. */
  function FetchFor(upstream: Upstream, team: TeamId): seq<Score> {
    match upstream(team)
    case None => []
    case Some(feed) => TeamEvents(feed)
  }

  function OtherThan(failed: TeamId): TeamId -> bool {
    t => t != failed
  }

  /** `(await Promise.all(teams.map(fetch))).flat()`. */
  function FetchAll(teams: seq<TeamId>, upstream: Upstream): seq<Score> {
    if teams == [] then [] else FetchFor(upstream, teams[0]) + FetchAll(teams[1..], upstream)
  }

  // ---------------------------------------------------------------- cache queries

  predicate IsFresh(lastFetchTime: Option<int>, now: int) {
    lastFetchTime.Some? && now - lastFetchTime.value < CACHE_DURATION
  }

  predicate Involves(s: Score, id: TeamId) {
    s.homeTeam.id == id || s.awayTeam.id == id
  }

  predicate InvolvesAny(s: Score, ids: seq<TeamId>) {
    s.homeTeam.id in ids || s.awayTeam.id in ids
  }

  /** The home and away team ids of every cached score. */
  function CachedTeamIds(cache: seq<Score>): set<TeamId> {
    (set s | s in cache :: s.homeTeam.id) + (set s | s in cache :: s.awayTeam.id)
  }

  function MissingTeamIds(requested: seq<TeamId>, cached: set<TeamId>): seq<TeamId> {
    Filter(requested, id => id !in cached)
  }

  /** `teams.filter(team => missingTeamIds.includes(team.id))`. */
  function TeamsMissing(teams: seq<TeamId>, missingIds: seq<TeamId>): seq<TeamId> {
    Filter(teams, t => t in missingIds)
  }

  /** The scores in which a requested team plays, in order. */
  function Involving(scores: seq<Score>, ids: seq<TeamId>): seq<Score> {
    Filter(scores, s => InvolvesAny(s, ids))
  }

  /** A score is in the response exactly when it is in the table and a requested team plays in it. */
  lemma InvolvingSpec(scores: seq<Score>, ids: seq<TeamId>)
    ensures forall s :: s in Involving(scores, ids) <==> s in scores && InvolvesAny(s, ids)
  {
    FilterMembers(scores, s => InvolvesAny(s, ids));
  }

  /** A fetch made at time `t` serves requests for the next five minutes; before any fetch nothing is fresh. */
  lemma FreshnessWindow(t: int, d: int)
    ensures IsFresh(Some(t), t + d) <==> d < 300000
    ensures !IsFresh(None, t)
  {
  }

  predicate UniqueIds(scores: seq<Score>) {
    forall i, j :: 0 <= i < j < |scores| ==> scores[i].id != scores[j].id
  }

  ghost predicate HasId(scores: seq<Score>, id: EventId) {
    exists i :: 0 <= i < |scores| && scores[i].id == id
  }

  // ---------------------------------------------------------------- de-duplication

  /** `table[x.id] = x`: overwrite the entry with the same id in place, or append. */
  function Put(table: seq<Score>, x: Score): seq<Score> {
    if table == [] then [x]
    else if table[0].id == x.id then [x] + table[1..]
    else [table[0]] + Put(table[1..], x)
  }

  /** The object `for (const score of all) unique[score.id] = score` builds. */
  function Dedup(all: seq<Score>): seq<Score> {
    if all == [] then [] else Put(Dedup(all[..|all| - 1]), all[|all| - 1])
  }

  /** The last score in `s` with event id `id`. */
  function LastWithId(s: seq<Score>, id: EventId): (r: Option<Score>)
    ensures r.Some? ==> r.value in s && r.value.id == id
    ensures r.None? ==> forall i :: 0 <= i < |s| ==> s[i].id != id
  {
    if s == [] then None
    else if s[|s| - 1].id == id then Some(s[|s| - 1])
    else
      var r := LastWithId(s[..|s| - 1], id);
      assert forall i :: 0 <= i < |s| - 1 ==> s[i] == s[..|s| - 1][i];
      r
  }

  lemma {:induction false} PutSpec(table: seq<Score>, x: Score)
    requires UniqueIds(table)
    ensures UniqueIds(Put(table, x))
    ensures forall y :: y in Put(table, x) <==> y == x || (y in table && y.id != x.id)
  {
    if table != [] {
      if table[0].id == x.id {
        assert forall y :: y in table[1..] ==> y.id != x.id by {
          forall y | y in table[1..] ensures y.id != x.id {
            var k :| 0 <= k < |table[1..]| && table[1..][k] == y;
            assert table[k + 1] == y;
          }
        }
        assert table == [table[0]] + table[1..];
      } else {
        PutSpec(table[1..], x);
        assert table == [table[0]] + table[1..];
        var r := Put(table, x);
        assert r == [table[0]] + Put(table[1..], x);
        forall i, j | 0 <= i < j < |r| ensures r[i].id != r[j].id {
          if i == 0 {
            assert r[j] in Put(table[1..], x);
            if r[j] != x {
              var k :| 0 <= k < |table[1..]| && table[1..][k] == r[j];
              assert table[k + 1] == r[j];
            }
          }
        }
      }
    }
  }

  /**
   * De-duplication keeps one entry per event id, and the entry it keeps is the last one
   * with that id: a later score overwrites an earlier one.
   */
  lemma {:induction false} DedupLastWins(all: seq<Score>)
    ensures UniqueIds(Dedup(all))
    ensures forall y :: y in Dedup(all) <==> LastWithId(all, y.id) == Some(y)
  {
    if all != [] {
      var init, x := all[..|all| - 1], all[|all| - 1];
      DedupLastWins(init);
      PutSpec(Dedup(init), x);
    }
  }

  /** Every event id of the input is still there after de-duplication. */
  lemma DedupKeepsEveryId(all: seq<Score>, k: int)
    requires 0 <= k < |all|
    ensures exists y :: y in Dedup(all) && y.id == all[k].id
  {
    DedupLastWins(all);
    var r := LastWithId(all, all[k].id);
    assert r.Some?;
    assert r.value in Dedup(all);
  }

  method CollectCachedTeamIds(cache: seq<Score>) returns (ids: set<TeamId>)
    ensures ids == CachedTeamIds(cache)
  {
    ids := {};
    for i := 0 to |cache|
      invariant ids == CachedTeamIds(cache[..i])
    {
      assert cache[..i + 1] == cache[..i] + [cache[i]];
      ids := ids + {cache[i].homeTeam.id};
      ids := ids + {cache[i].awayTeam.id};
    }
    assert cache[..|cache|] == cache;
  }

  method Deduplicate(all: seq<Score>) returns (unique: seq<Score>)
    ensures unique == Dedup(all)
  {
    unique := [];
    for i := 0 to |all|
      invariant unique == Dedup(all[..i])
    {
      assert all[..i + 1][..i] == all[..i];
      unique := Put(unique, all[i]);
    }
    assert all[..|all|] == all;
  }

  // ---------------------------------------------------------------- POST /api/scores

  /** The reply and the new cache for one `POST /api/scores`. */
  function PostScores(scoreCache: seq<Score>, lastFetchTime: Option<int>, body: TeamsField, now: int,
                      upstream: Upstream): PostOutcome
  {
    if !body.TeamList? || |body.teams| == 0 then
      PostOutcome(ScoresBadRequest(TEAMS_REQUIRED), scoreCache, lastFetchTime)
    else
      var teams := body.teams;
      var cacheIsValid := IsFresh(lastFetchTime, now);
      var missingTeamIds := MissingTeamIds(teams, CachedTeamIds(scoreCache));
      var missingTeams := TeamsMissing(teams, missingTeamIds);
      if cacheIsValid && |missingTeamIds| == 0 then
        PostOutcome(ScoresOk(Involving(scoreCache, teams)), scoreCache, lastFetchTime)
      else
        var prior := if cacheIsValid then scoreCache else [];
        var teamsToFetch := if cacheIsValid then missingTeams else teams;
        var allScores := if |teamsToFetch| > 0 then prior + FetchAll(teamsToFetch, upstream) else prior;
        var uniqueScores := Dedup(allScores);
        PostOutcome(ScoresOk(Involving(uniqueScores, teams)), uniqueScores, Some(now))
  }

  class ScoreServer {
    var scoreCache: seq<Score>
    var lastFetchTime: Option<int>

    /** The cache is an object keyed by event id: no id occurs twice. */
    ghost predicate Valid()
      reads this
    {
      UniqueIds(scoreCache)
    }

    constructor ()
      ensures Valid() && scoreCache == [] && lastFetchTime == None
    {
      scoreCache := [];
      lastFetchTime := None;
    }

    method HandlePostScores(body: TeamsField, now: int, upstream: Upstream) returns (response: ScoresResponse)
      requires Valid()
      modifies this
      ensures Valid()
      ensures PostOutcome(response, scoreCache, lastFetchTime)
              == PostScores(old(scoreCache), old(lastFetchTime), body, now, upstream)
    {
      if !body.TeamList? || |body.teams| == 0 {
        return ScoresBadRequest(TEAMS_REQUIRED);
      }
      var teams := body.teams;
      var cacheIsValid := IsFresh(lastFetchTime, now);
      var requestedTeamIds := teams;
      var cachedTeamIds := CollectCachedTeamIds(scoreCache);
      var missingTeamIds := MissingTeamIds(requestedTeamIds, cachedTeamIds);
      var missingTeams := TeamsMissing(teams, missingTeamIds);
      if cacheIsValid && |missingTeamIds| == 0 {
        return ScoresOk(Involving(scoreCache, requestedTeamIds));
      }
      var allScores: seq<Score> := [];
      if cacheIsValid {
        allScores := scoreCache;
      }
      var teamsToFetch := if cacheIsValid then missingTeams else teams;
      if |teamsToFetch| > 0 {
        var newScores := FetchAll(teamsToFetch, upstream);
        allScores := allScores + newScores;
      }
      var uniqueScores := Deduplicate(allScores);
      DedupLastWins(allScores);
      scoreCache := uniqueScores;
      lastFetchTime := Some(now);
      response := ScoresOk(Involving(uniqueScores, requestedTeamIds));
    }
  }

  // ---------------------------------------------------------------- properties of the POST handler

  lemma HasIdConcat(a: seq<Score>, b: seq<Score>, id: EventId)
    ensures HasId(a + b, id) <==> HasId(a, id) || HasId(b, id)
  {
    if HasId(a + b, id) {
      var i :| 0 <= i < |a + b| && (a + b)[i].id == id;
      if i >= |a| { assert b[i - |a|].id == id; }
    }
    if HasId(b, id) {
      var i :| 0 <= i < |b| && b[i].id == id;
      assert (a + b)[|a| + i].id == id;
    }
    if HasId(a, id) {
      var i :| 0 <= i < |a| && a[i].id == id;
      assert (a + b)[i].id == id;
    }
  }

  /** De-duplication keeps exactly the event ids of its input. */
  lemma DedupIds(all: seq<Score>, id: EventId)
    ensures HasId(Dedup(all), id) <==> HasId(all, id)
  {
    DedupLastWins(all);
    if HasId(all, id) {
      var r := LastWithId(all, id);
      assert r.Some?;
      var k :| 0 <= k < |Dedup(all)| && Dedup(all)[k] == r.value;
    }
    if HasId(Dedup(all), id) {
      var k :| 0 <= k < |Dedup(all)| && Dedup(all)[k].id == id;
      assert Dedup(all)[k] in Dedup(all);
      var j :| 0 <= j < |all| && all[j] == Dedup(all)[k];
    }
  }

  lemma {:induction false} LastWithIdUnique(a: seq<Score>, x: Score)
    requires UniqueIds(a) && x in a
    ensures LastWithId(a, x.id) == Some(x)
  {
    var last := a[|a| - 1];
    if last != x {
      var k :| 0 <= k < |a| && a[k] == x;
      assert k != |a| - 1;
      assert a[..|a| - 1][k] == x;
      LastWithIdUnique(a[..|a| - 1], x);
    }
  }

  /** When `b` has the id, the last score with it in `a + b` is the last one in `b`. */
  lemma {:induction false} LastWithIdFromTail(a: seq<Score>, b: seq<Score>, id: EventId)
    requires HasId(b, id)
    ensures LastWithId(a + b, id) == LastWithId(b, id)
  {
    var init := b[..|b| - 1];
    assert (a + b)[..|a + b| - 1] == a + init;
    assert (a + b)[|a + b| - 1] == b[|b| - 1];
    if b[|b| - 1].id != id {
      var i :| 0 <= i < |b| && b[i].id == id;
      assert init[i] == b[i];
      LastWithIdFromTail(a, init, id);
    }
  }

  lemma {:induction false} LastWithIdSkipsTail(a: seq<Score>, b: seq<Score>, id: EventId)
    requires !HasId(b, id)
    ensures LastWithId(a + b, id) == LastWithId(a, id)
  {
    if b != [] {
      var init := b[..|b| - 1];
      assert (a + b)[..|a + b| - 1] == a + init;
      assert b[|b| - 1].id != id;
      LastWithIdSkipsTail(a, init, id);
    } else {
      assert a + b == a;
    }
  }

  /**
   * The reply to a POST: 400 exactly when `teams` is missing, not an array or empty, with
   * the state untouched; otherwise the cached scores that involve a requested team, and the
   * cache keeps at most one score per event id.
   */
  lemma PostResponse(cache: seq<Score>, last: Option<int>, body: TeamsField, now: int, upstream: Upstream)
    requires UniqueIds(cache)
    ensures var o := PostScores(cache, last, body, now, upstream);
      && (o.response.ScoresOk? <==> body.TeamList? && |body.teams| > 0)
      && (o.response.ScoresBadRequest? ==>
            o.response.error == TEAMS_REQUIRED && o.scoreCache == cache && o.lastFetchTime == last)
      && (o.response.ScoresOk? ==> o.response.scores == Involving(o.scoreCache, body.teams))
      && (o.response.ScoresOk? ==>
            forall s :: s in o.response.scores <==> s in o.scoreCache && InvolvesAny(s, body.teams))
      && UniqueIds(o.scoreCache)
  {
    var o := PostScores(cache, last, body, now, upstream);
    if body.TeamList? {
      InvolvingSpec(o.scoreCache, body.teams);
    }
    if body.TeamList? && |body.teams| > 0 {
      var teams := body.teams;
      var isFresh := IsFresh(last, now);
      var missing := MissingTeamIds(teams, CachedTeamIds(cache));
      if !(isFresh && |missing| == 0) {
        var prior := if isFresh then cache else [];
        var toFetch := if isFresh then TeamsMissing(teams, missing) else teams;
        DedupLastWins(if |toFetch| > 0 then prior + FetchAll(toFetch, upstream) else prior);
      }
    }
  }

  /** Every requested team missing from the cache, in request order. */
  lemma MissingTeamIdsSpec(requested: seq<TeamId>, cache: seq<Score>)
    ensures forall id :: id in MissingTeamIds(requested, CachedTeamIds(cache)) <==>
              id in requested && forall s :: s in cache ==> !Involves(s, id)
    ensures |MissingTeamIds(requested, CachedTeamIds(cache))| == 0 <==>
              forall i :: 0 <= i < |requested| ==> requested[i] in CachedTeamIds(cache)
    ensures TeamsMissing(requested, MissingTeamIds(requested, CachedTeamIds(cache)))
              == MissingTeamIds(requested, CachedTeamIds(cache))
  {
    var cached := CachedTeamIds(cache);
    var missing := MissingTeamIds(requested, cached);
    FilterMembers(requested, id => id !in cached);
    FilterEmpty(requested, id => id !in cached);
    FilterCongruent(requested, t => t in missing, id => id !in cached);
  }

  /**
   * A fresh cache that already covers every requested team is served as is: the reply is
   * the cached scores involving those teams, the state does not change and upstream is not
   * consulted.
   */
  lemma PostServesFromCache(cache: seq<Score>, last: Option<int>, teams: seq<TeamId>, now: int,
                            up1: Upstream, up2: Upstream)
    requires |teams| > 0 && IsFresh(last, now)
    requires forall i :: 0 <= i < |teams| ==> teams[i] in CachedTeamIds(cache)
    ensures PostScores(cache, last, TeamList(teams), now, up1)
            == PostOutcome(ScoresOk(Involving(cache, teams)), cache, last)
    ensures PostScores(cache, last, TeamList(teams), now, up1) == PostScores(cache, last, TeamList(teams), now, up2)
  {
    MissingTeamIdsSpec(teams, cache);
  }

  /** Scores fetched for a list of teams do not depend on what upstream says about other teams. */
  lemma {:induction false} FetchAllAgrees(teams: seq<TeamId>, up1: Upstream, up2: Upstream)
    requires forall i :: 0 <= i < |teams| ==> up1(teams[i]) == up2(teams[i])
    ensures FetchAll(teams, up1) == FetchAll(teams, up2)
  {
    if teams != [] {
      FetchAllAgrees(teams[1..], up1, up2);
    }
  }

  /** A team whose fetch fails contributes nothing to the combined result. */
  lemma {:induction false} FetchAllSkipsFailed(teams: seq<TeamId>, upstream: Upstream, failed: TeamId)
    requires upstream(failed) == None
    ensures FetchAll(teams, upstream) == FetchAll(Filter(teams, OtherThan(failed)), upstream)
  {
    if teams != [] {
      var p := OtherThan(failed);
      FetchAllSkipsFailed(teams[1..], upstream, failed);
      var rest := Filter(teams[1..], p);
      if teams[0] != failed {
        assert Filter(teams, p) == [teams[0]] + rest;
        assert ([teams[0]] + rest)[1..] == rest;
      } else {
        assert Filter(teams, p) == rest;
      }
    }
  }

  /**
   * With a fresh cache only the teams it does not cover are fetched: two upstreams that
   * agree on those teams give the same outcome.
   */
  lemma PostFetchesOnlyMissing(cache: seq<Score>, last: Option<int>, teams: seq<TeamId>, now: int,
                               up1: Upstream, up2: Upstream)
    requires IsFresh(last, now)
    requires forall t :: t !in CachedTeamIds(cache) ==> up1(t) == up2(t)
    ensures PostScores(cache, last, TeamList(teams), now, up1) == PostScores(cache, last, TeamList(teams), now, up2)
  {
    var missing := MissingTeamIds(teams, CachedTeamIds(cache));
    MissingTeamIdsSpec(teams, cache);
    var toFetch := TeamsMissing(teams, missing);
    forall i | 0 <= i < |toFetch| ensures up1(toFetch[i]) == up2(toFetch[i]) {
      assert toFetch[i] in toFetch;
    }
    FetchAllAgrees(toFetch, up1, up2);
  }

  /**
   * A fresh cache that lacks some requested team is extended, not replaced: the new cache
   * holds the event ids of the old one and of the scores fetched for the missing teams, an
   * old entry that no fetched score overwrites stays as it was, a fetched score replaces the
   * cached one with the same id (the last fetched copy wins), and the fetch time is now.
   */
  lemma PostExtendsFreshCache(cache: seq<Score>, last: Option<int>, teams: seq<TeamId>, now: int,
                              upstream: Upstream)
    requires UniqueIds(cache) && |teams| > 0 && IsFresh(last, now)
    requires exists i :: 0 <= i < |teams| && teams[i] !in CachedTeamIds(cache)
    ensures var o := PostScores(cache, last, TeamList(teams), now, upstream);
      var fetched := FetchAll(MissingTeamIds(teams, CachedTeamIds(cache)), upstream);
      && o.lastFetchTime == Some(now)
      && (forall id :: HasId(o.scoreCache, id) <==> HasId(cache, id) || HasId(fetched, id))
      && (forall x :: x in cache && !HasId(fetched, x.id) ==> x in o.scoreCache)
      && (forall y :: y in o.scoreCache <==> LastWithId(cache + fetched, y.id) == Some(y))
      && (forall y :: y in o.scoreCache && HasId(fetched, y.id) ==> LastWithId(fetched, y.id) == Some(y))
      && (forall y :: y in fetched && LastWithId(fetched, y.id) == Some(y) ==> y in o.scoreCache)
  {
    MissingTeamIdsSpec(teams, cache);
    var missing := MissingTeamIds(teams, CachedTeamIds(cache));
    var fetched := FetchAll(missing, upstream);
    var i :| 0 <= i < |teams| && teams[i] !in CachedTeamIds(cache);
    assert teams[i] in missing;
    var all := cache + fetched;
    var o := PostScores(cache, last, TeamList(teams), now, upstream);
    assert o.scoreCache == Dedup(all);
    forall id ensures HasId(o.scoreCache, id) <==> HasId(cache, id) || HasId(fetched, id) {
      DedupIds(all, id);
      HasIdConcat(cache, fetched, id);
    }
    DedupLastWins(all);
    forall x | x in cache && !HasId(fetched, x.id) ensures x in o.scoreCache {
      LastWithIdSkipsTail(cache, fetched, x.id);
      LastWithIdUnique(cache, x);
    }
    forall y: Score | HasId(fetched, y.id) ensures LastWithId(all, y.id) == LastWithId(fetched, y.id) {
      LastWithIdFromTail(cache, fetched, y.id);
    }
  }

  /**
   * A stale (or never filled) cache is discarded: the outcome does not depend on it, and the
   * new cache holds exactly the last fetched copy of each event id fetched for all requested
   * teams.
   */
  lemma PostReplacesStaleCache(cache1: seq<Score>, last1: Option<int>, cache2: seq<Score>, last2: Option<int>,
                               teams: seq<TeamId>, now: int, upstream: Upstream)
    requires |teams| > 0 && !IsFresh(last1, now) && !IsFresh(last2, now)
    ensures PostScores(cache1, last1, TeamList(teams), now, upstream)
            == PostScores(cache2, last2, TeamList(teams), now, upstream)
    ensures var o := PostScores(cache1, last1, TeamList(teams), now, upstream);
      && o.lastFetchTime == Some(now)
      && (forall id :: HasId(o.scoreCache, id) <==> HasId(FetchAll(teams, upstream), id))
      && (forall y :: y in o.scoreCache <==> LastWithId(FetchAll(teams, upstream), y.id) == Some(y))
  {
    var fetched := FetchAll(teams, upstream);
    assert [] + fetched == fetched;
    forall id ensures HasId(Dedup(fetched), id) <==> HasId(fetched, id) {
      DedupIds(fetched, id);
    }
    DedupLastWins(fetched);
  }

  /**
   * A repeat of a successful request while the cache it left is still fresh is answered
   * from the cache with the same scores, and changes nothing.
   */
  lemma PostRepeatIsCacheHit(cache: seq<Score>, last: Option<int>, teams: seq<TeamId>, now1: int, now2: int,
                             up1: Upstream, up2: Upstream)
    requires var o := PostScores(cache, last, TeamList(teams), now1, up1);
      && |teams| > 0 && IsFresh(o.lastFetchTime, now2)
      && forall i :: 0 <= i < |teams| ==> teams[i] in CachedTeamIds(o.scoreCache)
    ensures var o := PostScores(cache, last, TeamList(teams), now1, up1);
      PostScores(o.scoreCache, o.lastFetchTime, TeamList(teams), now2, up2) == o
  {
    var o := PostScores(cache, last, TeamList(teams), now1, up1);
    PostServesFromCache(o.scoreCache, o.lastFetchTime, teams, now2, up2, up2);
  }

  /** Upcoming events are scheduled with no score; past events read both scores with `parseInt || 0`. */
  lemma EventConversion(e: RawEvent, home: int, away: int)
    ensures UpcomingScore(e).status == "scheduled" && UpcomingScore(e).homeTeam.score == 0
         && UpcomingScore(e).awayTeam.score == 0 && UpcomingScore(e).scheduledTime == Some(e.strTimestamp)
    ensures PastScore(e).status == "completed" && PastScore(e).completedTime == Some(e.dateEvent)
    ensures e.intHomeScore == Some(IntToString(home)) ==> PastScore(e).homeTeam.score == home
    ensures e.intAwayScore == Some(IntToString(away)) ==> PastScore(e).awayTeam.score == away
    ensures e.intHomeScore == None || e.intHomeScore == Some("") ==> PastScore(e).homeTeam.score == 0
    ensures e.intAwayScore == None || e.intAwayScore == Some("") ==> PastScore(e).awayTeam.score == 0
  {
    ParseIntOfIntToString(home);
    ParseIntOfIntToString(away);
  }

  // ---------------------------------------------------------------- GET /api/device/scores

  datatype DeviceSide = DeviceSide(team: string, score: int)
  datatype DeviceScore = DeviceScore(id: EventId, home: DeviceSide, away: DeviceSide, status: string)

  datatype DeviceResponse =
    | DeviceBadRequest(error: string)
    | DeviceNotFound(error: string, message: string)
    | DeviceOk(scores: seq<DeviceScore>)

  function Simplify(s: Score): DeviceScore {
    DeviceScore(s.id, DeviceSide(s.homeTeam.name, s.homeTeam.score), DeviceSide(s.awayTeam.name, s.awayTeam.score), s.status)
  }

  /** `teams` is the raw query string; the handler only reads the cache. */
  function DeviceScores(cache: seq<Score>, lastFetchTime: Option<int>, teams: Option<string>, now: int): DeviceResponse {
    if teams.None? || teams.value == "" then DeviceBadRequest(TEAM_IDS_REQUIRED)
    else
      var teamIds := Split(teams.value, ',');
      if IsFresh(lastFetchTime, now) && |cache| > 0 then DeviceOk(Map(Involving(cache, teamIds), Simplify))
      else DeviceNotFound(NO_CACHED_SCORES, FETCH_FIRST)
  }

  /**
   * 400 without a team list, 404 unless the cache is fresh and non-empty, and otherwise one
   * simplified entry for each cached score involving a listed team, in cache order.
   */
  lemma DeviceScoresSpec(cache: seq<Score>, last: Option<int>, teams: Option<string>, now: int)
    ensures var r := DeviceScores(cache, last, teams, now);
      && (r.DeviceBadRequest? <==> teams.None? || teams.value == "")
      && (r.DeviceOk? <==> teams.Some? && teams.value != "" && IsFresh(last, now) && |cache| > 0)
      && (r.DeviceOk? ==>
            var ids := Split(teams.value, ',');
            && |r.scores| == |Involving(cache, ids)|
            && (forall i :: 0 <= i < |r.scores| ==>
                  var s := Involving(cache, ids)[i];
                  && InvolvesAny(s, ids)
                  && r.scores[i].id == s.id && r.scores[i].status == s.status
                  && r.scores[i].home == DeviceSide(s.homeTeam.name, s.homeTeam.score)
                  && r.scores[i].away == DeviceSide(s.awayTeam.name, s.awayTeam.score))
            && (forall s :: s in cache && InvolvesAny(s, ids) ==> Simplify(s) in r.scores))
  {
    if teams.Some? && teams.value != "" && IsFresh(last, now) && |cache| > 0 {
      var ids := Split(teams.value, ',');
      var f := Involving(cache, ids);
      FilterMembers(cache, s => InvolvesAny(s, ids));
      forall i | 0 <= i < |f| ensures InvolvesAny(f[i], ids) { assert f[i] in f; }
      forall s | s in cache && InvolvesAny(s, ids) ensures Simplify(s) in Map(f, Simplify) {
        var k :| 0 <= k < |f| && f[k] == s;
        assert Map(f, Simplify)[k] == Simplify(s);
      }
    }
  }

  /**
   * A device that asks, within the cache window, for the comma-joined list of teams a
   * successful POST used receives that POST's scores in simplified form.
   */
  lemma DeviceAfterPost(cache: seq<Score>, last: Option<int>, teams: seq<TeamId>, now1: int, now2: int,
                        upstream: Upstream)
    requires UniqueIds(cache) && |teams| > 0
    requires forall i :: 0 <= i < |teams| ==> ',' !in teams[i]
    requires Join(teams, ',') != ""
    requires var o := PostScores(cache, last, TeamList(teams), now1, upstream);
      IsFresh(o.lastFetchTime, now2) && |o.scoreCache| > 0
    ensures var o := PostScores(cache, last, TeamList(teams), now1, upstream);
      DeviceScores(o.scoreCache, o.lastFetchTime, Some(Join(teams, ',')), now2) == DeviceOk(Map(o.response.scores, Simplify))
  {
    SplitJoin(teams, ',');
    PostResponse(cache, last, TeamList(teams), now1, upstream);
  }

  // ---------------------------------------------------------------- GET /api/search

  datatype Team = Team(id: string, name: string, league: string, logo: string, sport: string)

  /** The two upstream searches: every team of a league, or teams by name. */
  datatype SearchQuery = TeamsInLeague(league: string) | TeamsByName(name: string)

  /** What upstream answers: the request throws, `teams` is null, or a list of teams. */
  datatype SearchFeed = SearchFailed | NoTeams | FoundTeams(teams: seq<Team>)

  datatype SearchResponse = SearchBadRequest(error: string) | SearchError(error: string) | SearchOk(teams: seq<Team>)

  /** `league && league !== 'all'` chooses the league listing. */
  function SearchQueryFor(q: string, league: Option<string>): SearchQuery {
    if league.Some? && league.value != "" && league.value != "all" then TeamsInLeague(league.value)
    else TeamsByName(q)
  }

  function NameMatches(t: Team, q: string): bool {
    Includes(ToLower(t.name), ToLower(q))
  }

  function Search(q: Option<string>, league: Option<string>, upstream: SearchQuery -> SearchFeed): SearchResponse {
    if q.None? || q.value == "" then SearchBadRequest(SEARCH_TERM_REQUIRED)
    else
      match upstream(SearchQueryFor(q.value, league))
      case SearchFailed => SearchError(SEARCH_FAILED)
      case NoTeams => SearchOk([])
      case FoundTeams(teams) =>
        if league == Some("all") then SearchOk(teams)
        else SearchOk(Filter(teams, t => NameMatches(t, q.value)))
  }

  /**
   * Search answers 400 without a term, 500 when upstream fails and [] when upstream has no
   * teams; for the league "all" it returns what the name search found unfiltered, and
   * otherwise it keeps exactly the teams whose name contains the term, ignoring case.
   */
  lemma SearchSpec(q: Option<string>, league: Option<string>, upstream: SearchQuery -> SearchFeed)
    ensures var r := Search(q, league, upstream);
      && (r.SearchBadRequest? <==> q.None? || q.value == "")
      && (r.SearchError? <==> q.Some? && q.value != "" && upstream(SearchQueryFor(q.value, league)).SearchFailed?)
      && (q.Some? && q.value != "" && upstream(SearchQueryFor(q.value, league)).NoTeams? ==> r == SearchOk([]))
      && (q.Some? && q.value != "" && league == Some("all") && upstream(TeamsByName(q.value)).FoundTeams? ==>
            r == SearchOk(upstream(TeamsByName(q.value)).teams))
      && (q.Some? && q.value != "" && league != Some("all") && upstream(SearchQueryFor(q.value, league)).FoundTeams? ==>
            var found := upstream(SearchQueryFor(q.value, league)).teams;
            r.SearchOk? && |r.teams| <= |found| &&
            forall t :: t in r.teams <==>
              (t in found && exists i :: OccursAt(ToLower(t.name), ToLower(q.value), i)))
  {
    if q.Some? && q.value != "" && league != Some("all") && upstream(SearchQueryFor(q.value, league)).FoundTeams? {
      FilterMembers(upstream(SearchQueryFor(q.value, league)).teams, t => NameMatches(t, q.value));
    }
  }

  /** Searching by name ignores case: two terms with the same lower-case form give the same reply. */
  lemma SearchIgnoresCase(q1: string, q2: string, upstream: SearchQuery -> SearchFeed)
    requires q1 != "" && q2 != "" && ToLower(q1) == ToLower(q2)
    requires upstream(TeamsByName(q1)) == upstream(TeamsByName(q2))
    ensures Search(Some(q1), None, upstream) == Search(Some(q2), None, upstream)
  {
    match upstream(TeamsByName(q1))
    case FoundTeams(teams) =>
      FilterCongruent(teams, t => NameMatches(t, q1), t => NameMatches(t, q2));
    case _ =>
  }
}
