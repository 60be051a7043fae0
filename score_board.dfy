/**
 * The score board: an empty state for no scores, otherwise the scores grouped by league
 * (falling back to "Other"), each card labelled by its status.
 */
module ScoreBoard {
  import opened Wrappers
  import opened Seqs
  import opened Grouping

  /**
   * A score as the board reads it. A missing or empty league, period or remaining time is
   * `None` or `""`; the scheduled time is kept as the text the board formats.
   */
  datatype BoardScore = BoardScore(
    id: string,
    league: Option<string>,
    status: string,
    scheduledTime: string,
    period: Option<string>,
    timeRemaining: Option<string>)

  predicate Truthy(s: Option<string>) { s.Some? && s.value != "" }

  /** `score.league || 'Other'`. */
  function LeagueKey(s: BoardScore): string {
    if Truthy(s.league) then s.league.value else "Other"
  }

  function LeagueOf(): BoardScore -> string {
    s => LeagueKey(s)
  }

  datatype StatusLabel = LiveLabel | ScheduledAt(time: string) | FinalLabel

  function Label(s: BoardScore): StatusLabel {
    if s.status == "in_progress" then LiveLabel
    else if s.status == "scheduled" then ScheduledAt(s.scheduledTime)
    else FinalLabel
  }

  /** The period line: shown only for games in progress, empty without a period. */
  function PeriodInfo(s: BoardScore): Option<string> {
    if s.status != "in_progress" then None
    else if Truthy(s.period) then Some(s.period.value + " " + (if Truthy(s.timeRemaining) then s.timeRemaining.value else ""))
    else Some("")
  }

  /** LIVE exactly for "in_progress", the scheduled time exactly for "scheduled", FINAL for every other status. */
  lemma LabelSpec(s: BoardScore)
    ensures Label(s) == LiveLabel <==> s.status == "in_progress"
    ensures Label(s).ScheduledAt? <==> s.status == "scheduled"
    ensures Label(s).ScheduledAt? ==> Label(s).time == s.scheduledTime
    ensures Label(s) == FinalLabel <==> s.status != "in_progress" && s.status != "scheduled"
    ensures PeriodInfo(s).Some? <==> Label(s) == LiveLabel
  {
  }

  /** The period line, when there is a period, starts with it. */
  lemma PeriodInfoStartsWithPeriod(s: BoardScore)
    requires s.status == "in_progress" && Truthy(s.period)
    ensures PeriodInfo(s).Some? && |s.period.value| < |PeriodInfo(s).value|
    ensures PeriodInfo(s).value[..|s.period.value|] == s.period.value
    ensures PeriodInfo(s).value[|s.period.value|] == ' '
  {
  }

  datatype BoardView = EmptyBoard | Leagues(groups: Groups<BoardScore>)

  /**
   * `scoresByLeague`: for no scores the empty state; otherwise one group per league key in
   * order of first appearance, each holding that league's scores in input order.
   */
  method ScoresByLeague(scores: seq<BoardScore>) returns (v: BoardView)
    ensures v.EmptyBoard? <==> |scores| == 0
    ensures v.Leagues? ==>
      && Distinct(v.groups.keys)
      && (forall k :: k in v.groups.buckets <==> k in v.groups.keys)
      && (forall k :: k in v.groups.buckets <==> HasKey(scores, LeagueOf(), k))
      && (forall k :: k in v.groups.buckets ==> v.groups.buckets[k] == Bucket(scores, LeagueOf(), k))
      && (forall i, j :: 0 <= i < j < |v.groups.keys| ==>
            FirstIndex(scores, LeagueOf(), v.groups.keys[i]) < FirstIndex(scores, LeagueOf(), v.groups.keys[j]))
  {
    if |scores| == 0 {
      return EmptyBoard;
    }
    var g := GroupBy(scores, LeagueOf());
    v := Leagues(g);
  }

  /**
   * Every score is in the group of its own league key and in no other, and a score with a
   * missing or empty league is in the "Other" group.
   */
  lemma ScoreInOwnGroup(scores: seq<BoardScore>, x: BoardScore, k: string)
    ensures multiset(Bucket(scores, LeagueOf(), k))[x] == if LeagueKey(x) == k then multiset(scores)[x] else 0
    ensures !Truthy(x.league) ==> LeagueKey(x) == "Other"
  {
    BucketCount(scores, LeagueOf(), k, x);
  }
}
