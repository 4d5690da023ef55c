/** The LeetCode fetcher: three strategies tried in turn (the GraphQL API, the
    JSON embedded in the profile page, a public statistics API), each
    normalising what it received into the canonical profile. The replies are
    inputs: `None` stands for a request that failed or threw, and the nodes
    found in the page are given already decoded (locating them is
    `ObjectGraph.DeepFind`). */
module Leetcode {
  import opened Wrappers
  import opened Profiles
  import Ranking
  import Text

  const FetchError := "Failed to fetch LeetCode data"

  /** One `acSubmissionNum` entry; `difficulty` is "All", "Easy", "Medium" or
      "Hard" in practice. */
  datatype SubmissionNum = SubmissionNum(difficulty: string, count: Option<int>)

  /** `userContestRanking`. */
  datatype ContestRanking = ContestRanking(rating: Option<int>, attendedContestsCount: Option<int>,
                                           globalRanking: Option<int>)

  /** One `userContestRankingHistory` entry; `startTime` is in seconds. */
  datatype History = History(contest: string, startTime: int, ranking: Option<int>, rating: Option<int>)

  /** `matchedUser`; a missing `submitStats` gives an empty list. */
  datatype MatchedUser = MatchedUser(username: Option<string>, acSubmissionNum: seq<SubmissionNum>)

  /** The `data` of a GraphQL reply; a missing history gives an empty list. */
  datatype GraphQLData = GraphQLData(matchedUser: Option<MatchedUser>, ranking: Option<ContestRanking>,
                                     history: seq<History>)

  /** The nodes located in the page's `__NEXT_DATA__` tree, decoded: the
      `acSubmissionNum` list of the submit-stats node, the `username` string of
      the user node, the contest-ranking node and the history array, each
      `None` when no node of that shape was found. */
  datatype ScrapedNodes = ScrapedNodes(acSubmissionNum: Option<seq<SubmissionNum>>, username: Option<string>,
                                       ranking: Option<ContestRanking>, history: Option<seq<History>>)

  /** The public statistics reply; an empty body has every field absent. */
  datatype PublicStats = PublicStats(totalSolved: Option<int>, totalSolvedCount: Option<int>,
                                     easySolved: Option<int>, mediumSolved: Option<int>, hardSolved: Option<int>)

  function ProfileUrl(username: string): string {
    "https://leetcode.com/u/" + username + "/"
  }

  // ------------------------------------------------------------ solved counts

  /** `ac.find(x => x.difficulty === k)?.count ?? 0`. */
  function SolvedFor(ac: seq<SubmissionNum>, k: string): int {
    if ac == [] then 0
    else if ac[0].difficulty == k then ac[0].count.GetOr(0)
    else SolvedFor(ac[1..], k)
  }

  /** The count of the first entry for `k`, 0 when that count is missing or
      there is no such entry. */
  lemma {:induction false} SolvedForFirst(ac: seq<SubmissionNum>, k: string)
    ensures (forall i :: 0 <= i < |ac| ==> ac[i].difficulty != k) ==> SolvedFor(ac, k) == 0
    ensures forall i :: 0 <= i < |ac| && ac[i].difficulty == k && (forall j :: 0 <= j < i ==> ac[j].difficulty != k)
              ==> SolvedFor(ac, k) == ac[i].count.GetOr(0)
  {
    if ac != [] && ac[0].difficulty != k {
      var rest := ac[1..];
      SolvedForFirst(rest, k);
      forall i | 0 <= i < |ac| && ac[i].difficulty == k && (forall j :: 0 <= j < i ==> ac[j].difficulty != k)
        ensures SolvedFor(ac, k) == ac[i].count.GetOr(0)
      {
        assert rest[i - 1] == ac[i];
        forall j | 0 <= j < i - 1 ensures rest[j].difficulty != k {
          assert rest[j] == ac[j + 1];
        }
      }
      if forall i :: 0 <= i < |ac| ==> ac[i].difficulty != k {
        forall j | 0 <= j < |rest| ensures rest[j].difficulty != k {
          assert rest[j] == ac[j + 1];
        }
      }
    }
  }

  // ------------------------------------------------------------ contests

  function HistoryRating(h: History): int { h.rating.GetOr(0) }

  /** `Math.max(...history.map(h => h.rating ?? 0), 0)`. */
  function PeakRating(history: seq<History>): (m: int)
    ensures m >= 0
    ensures forall i :: 0 <= i < |history| ==> HistoryRating(history[i]) <= m
    ensures m == 0 || exists i :: 0 <= i < |history| && HistoryRating(history[i]) == m
  {
    if history == [] then 0
    else
      var rest := PeakRating(history[1..]);
      assert forall i :: 1 <= i < |history| ==> history[i] == history[1..][i - 1];
      if HistoryRating(history[0]) > rest then HistoryRating(history[0]) else rest
  }

  /** `maxRating || null`. */
  function MaxRating(history: seq<History>): Option<int> {
    NonZero(PeakRating(history))
  }

  /** The maximum rating, missing ratings read as 0; null exactly when no
      entry has a positive rating (in particular for an empty history). */
  lemma MaxRatingSpec(history: seq<History>)
    ensures MaxRating(history).None? <==> forall i :: 0 <= i < |history| ==> HistoryRating(history[i]) <= 0
    ensures MaxRating(history).Some? ==>
              MaxRating(history).value > 0
              && (exists i :: 0 <= i < |history| && HistoryRating(history[i]) == MaxRating(history).value)
              && forall i :: 0 <= i < |history| ==> HistoryRating(history[i]) <= MaxRating(history).value
  {
  }

  predicate Ranked(h: History) { h.ranking.Some? }

  function HistoryRank(h: History): int { h.ranking.GetOr(0) }

  function ToTopContest(h: History): TopContest {
    TopContest(h.contest, HistoryRank(h), h.rating, Some(h.startTime * 1000))
  }

  /** `topContests`: the entries with a numeric ranking, stably sorted by
      ranking, the first five, each with its time in milliseconds. */
  function TopContests(history: seq<History>): seq<TopContest> {
    BestContests(history, Ranked, HistoryRank, ToTopContest)
  }

  /** At most five entries, ranks non-decreasing; when at most five entries
      are ranked, all of them are listed. */
  lemma TopContestsBest(history: seq<History>)
    ensures |TopContests(history)| <= 5
    ensures Ranking.SortedBy(TopContests(history), ContestRank)
    ensures |Ranking.Filter(history, Ranked)| <= 5 ==> |TopContests(history)| == |Ranking.Filter(history, Ranked)|
  {
    BestContestsSorted(history, Ranked, HistoryRank, ToTopContest);
  }

  /** Each entry comes from a history entry with a numeric ranking, and keeps
      its name, ranking and rating. */
  lemma TopContestsFromRanked(history: seq<History>, i: nat)
    requires i < |TopContests(history)|
    ensures exists h :: h in history && h.ranking.Some?
              && TopContests(history)[i] == TopContest(h.contest, h.ranking.value, h.rating, Some(h.startTime * 1000))
  {
    BestContestsFrom(history, Ranked, HistoryRank, ToTopContest, i);
  }

  /** The graph mirrors the history in order, a missing rating read as 0. */
  function RatingGraph(history: seq<History>): (g: seq<RatingPoint>)
    ensures |g| == |history|
    ensures forall i :: 0 <= i < |g| ==> g[i] == RatingPoint(HistoryRating(history[i]), history[i].startTime * 1000)
  {
    seq(|history|, i requires 0 <= i < |history| => RatingPoint(HistoryRating(history[i]), history[i].startTime * 1000))
  }

  // ------------------------------------------------------------ ranking fields

  function CurrentRating(ranking: Option<ContestRanking>): Option<int> {
    if ranking.Some? then ranking.value.rating else None
  }

  function GlobalRank(ranking: Option<ContestRanking>): Option<RankValue> {
    if ranking.Some? && ranking.value.globalRanking.Some? then Some(RankNumber(ranking.value.globalRanking.value))
    else None
  }

  /** `ranking?.attendedContestsCount ?? history.length`. */
  function ContestCount(ranking: Option<ContestRanking>, history: seq<History>): int {
    if ranking.Some? && ranking.value.attendedContestsCount.Some? then ranking.value.attendedContestsCount.value
    else |history|
  }

  // ------------------------------------------------------------ strategies

  /** Strategy 1, `tryGraphQL`: null when the request failed or no user
      matched; otherwise a profile whose counts keep zeros. */
  function TryGraphQL(username: string, reply: Option<GraphQLData>): (r: Option<Profile>)
    ensures r.None? <==> reply.None? || reply.value.matchedUser.None?
    ensures r.Some? ==> r.value.Profile? && r.value.platform == LeetCode && WellFormed(r.value)
                        && r.value.profileUrl == ProfileUrl(username)
    ensures r.Some? ==>
      var d := reply.value;
      var ac := d.matchedUser.value.acSubmissionNum;
      && r.value.username == Some(d.matchedUser.value.username.GetOr(username))
      && r.value.solvedCount == Some(SolvedFor(ac, "All"))
      && r.value.difficultySolved == Some(Difficulty(Some(SolvedFor(ac, "Easy")), Some(SolvedFor(ac, "Medium")),
                                                     Some(SolvedFor(ac, "Hard"))))
      && r.value.title.None? && r.value.countryRank.None? && r.value.globalRank == GlobalRank(d.ranking)
      && r.value.currentRating == CurrentRating(d.ranking) && r.value.maxRating == MaxRating(d.history)
      && r.value.contestCount == Some(ContestCount(d.ranking, d.history))
      && r.value.topContests == TopContests(d.history) && r.value.ratingGraph == RatingGraph(d.history)
  {
    if reply.None? || reply.value.matchedUser.None? then None
    else
      var d := reply.value;
      var user := d.matchedUser.value;
      var ac := user.acSubmissionNum;
      TopContestsBest(d.history);
      Some(Profile(LeetCode, Some(user.username.GetOr(username)), None,
                   CurrentRating(d.ranking), MaxRating(d.history), GlobalRank(d.ranking), None,
                   Some(SolvedFor(ac, "All")),
                   Some(Difficulty(Some(SolvedFor(ac, "Easy")), Some(SolvedFor(ac, "Medium")),
                                   Some(SolvedFor(ac, "Hard")))),
                   Some(ContestCount(d.ranking, d.history)), TopContests(d.history),
                   RatingGraph(d.history), ProfileUrl(username)))
  }

  /** Strategy 2, `tryScrape`: null when the page could not be fetched or has
      no embedded JSON; otherwise a profile in which zero counts become null
      and a missing history reads as empty. */
  function TryScrape(username: string, page: Option<ScrapedNodes>): (r: Option<Profile>)
    ensures r.None? <==> page.None?
    ensures r.Some? ==> r.value.Profile? && r.value.platform == LeetCode && WellFormed(r.value)
                        && r.value.profileUrl == ProfileUrl(username)
    ensures r.Some? ==>
      var n := page.value;
      var ac := n.acSubmissionNum.GetOr([]);
      var history := n.history.GetOr([]);
      && r.value.username == Some(n.username.GetOr(username))
      && r.value.solvedCount == NonZero(SolvedFor(ac, "All"))
      && r.value.difficultySolved == Some(Difficulty(NonZero(SolvedFor(ac, "Easy")), NonZero(SolvedFor(ac, "Medium")),
                                                     NonZero(SolvedFor(ac, "Hard"))))
      && r.value.title.None? && r.value.countryRank.None? && r.value.globalRank == GlobalRank(n.ranking)
      && r.value.currentRating == CurrentRating(n.ranking) && r.value.maxRating == MaxRating(history)
      && r.value.contestCount == Some(ContestCount(n.ranking, history))
      && r.value.topContests == TopContests(history) && r.value.ratingGraph == RatingGraph(history)
  {
    if page.None? then None
    else
      var n := page.value;
      var ac := n.acSubmissionNum.GetOr([]);
      var history := n.history.GetOr([]);
      TopContestsBest(history);
      Some(Profile(LeetCode, Some(n.username.GetOr(username)), None,
                   CurrentRating(n.ranking), MaxRating(history), GlobalRank(n.ranking), None,
                   NonZero(SolvedFor(ac, "All")),
                   Some(Difficulty(NonZero(SolvedFor(ac, "Easy")), NonZero(SolvedFor(ac, "Medium")),
                                   NonZero(SolvedFor(ac, "Hard")))),
                   Some(ContestCount(n.ranking, history)), TopContests(history),
                   RatingGraph(history), ProfileUrl(username)))
  }

  /** Strategy 3, `tryPublicStats`: any reply gives a solved-only profile. */
  function TryPublicStats(username: string, reply: Option<PublicStats>): (r: Option<Profile>)
    ensures r.None? <==> reply.None?
    ensures r.Some? ==> r.value.Profile? && r.value.platform == LeetCode && WellFormed(r.value)
                        && r.value.profileUrl == ProfileUrl(username) && r.value.username == Some(username)
    ensures r.Some? ==>
      var s := reply.value;
      && r.value.solvedCount == (if s.totalSolved.Some? then s.totalSolved else s.totalSolvedCount)
      && r.value.difficultySolved == Some(Difficulty(s.easySolved, s.mediumSolved, s.hardSolved))
      && r.value.currentRating.None? && r.value.maxRating.None? && r.value.contestCount.None?
      && r.value.title.None? && r.value.globalRank.None? && r.value.countryRank.None?
      && r.value.topContests == [] && r.value.ratingGraph == []
  {
    if reply.None? then None
    else
      var s := reply.value;
      Some(Profile(LeetCode, Some(username), None, None, None, None, None,
                   s.totalSolved.OrElse(s.totalSolvedCount),
                   Some(Difficulty(s.easySolved, s.mediumSolved, s.hardSolved)),
                   None, [], [], ProfileUrl(username)))
  }

  // ------------------------------------------------------------ the fetcher

  /** `fetchLeetcodeData`: the trimmed handle is tried with GraphQL, then the
      page scrape, then the public API; the first profile wins, and the error
      object is returned only when all three give nothing. */
  function FetchLeetcode(handle: string, graphql: Option<GraphQLData>, page: Option<ScrapedNodes>,
                         stats: Option<PublicStats>): (p: Profile)
    ensures WellFormed(p)
    ensures p.Failure? <==> (graphql.None? || graphql.value.matchedUser.None?) && page.None? && stats.None?
    ensures p.Failure? ==> p.error == FetchError
    ensures p.Profile? ==> p.platform == LeetCode && p.profileUrl == ProfileUrl(Text.Trim(handle))
  {
    var username := Text.Trim(handle);
    var gql := TryGraphQL(username, graphql);
    if gql.Some? then gql.value
    else
      var scraped := TryScrape(username, page);
      if scraped.Some? then scraped.value
      else
        var fallback := TryPublicStats(username, stats);
        if fallback.Some? then fallback.value
        else Failure(FetchError)
  }

  /** A later strategy's profile is returned only when every earlier one
      gave nothing. */
  lemma FetchOrder(handle: string, graphql: Option<GraphQLData>, page: Option<ScrapedNodes>, stats: Option<PublicStats>)
    ensures var u := Text.Trim(handle);
            var p := FetchLeetcode(handle, graphql, page, stats);
            && (TryGraphQL(u, graphql).Some? ==> p == TryGraphQL(u, graphql).value)
            && (TryGraphQL(u, graphql).None? && TryScrape(u, page).Some? ==> p == TryScrape(u, page).value)
            && ((TryGraphQL(u, graphql).None? && TryScrape(u, page).None? && TryPublicStats(u, stats).Some?)
                ==> p == TryPublicStats(u, stats).value)
  {
  }

  /** Surrounding whitespace in the handle makes no difference. */
  lemma FetchIgnoresSurroundingWhitespace(handle: string, graphql: Option<GraphQLData>,
                                          page: Option<ScrapedNodes>, stats: Option<PublicStats>)
    ensures FetchLeetcode(Text.Trim(handle), graphql, page, stats) == FetchLeetcode(handle, graphql, page, stats)
  {
    Text.TrimIdempotent(handle);
  }

  /** GraphQL reports a zero count as 0, the scrape reports it as null, for
      the total and for each of the three difficulties. */
  lemma ZeroSolvedCounts(username: string, user: MatchedUser, ranking: Option<ContestRanking>, history: seq<History>)
    ensures var ac := user.acSubmissionNum;
            var g := TryGraphQL(username, Some(GraphQLData(Some(user), ranking, history))).value;
            var s := TryScrape(username, Some(ScrapedNodes(Some(ac), user.username, ranking, Some(history)))).value;
            && (SolvedFor(ac, "All") == 0 ==> g.solvedCount == Some(0) && s.solvedCount.None?)
            && (SolvedFor(ac, "Easy") == 0 ==> g.difficultySolved.value.easy == Some(0)
                                               && s.difficultySolved.value.easy.None?)
            && (SolvedFor(ac, "Medium") == 0 ==> g.difficultySolved.value.medium == Some(0)
                                                 && s.difficultySolved.value.medium.None?)
            && (SolvedFor(ac, "Hard") == 0 ==> g.difficultySolved.value.hard == Some(0)
                                               && s.difficultySolved.value.hard.None?)
  {
  }
}
