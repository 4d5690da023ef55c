/** The canonical profile every platform fetcher returns, and the invariant
    they all keep: a profile is either a full record or an error object, and
    its best-contest list has at most five entries in rank order. */
module Profiles {
  import opened Wrappers
  import Ranking

  datatype Platform = Codeforces | LeetCode | CodeChef

  /** Ranks are numbers on LeetCode and labels scraped from HTML on CodeChef. */
  datatype RankValue = RankNumber(n: int) | RankLabel(text: string)

  datatype Difficulty = Difficulty(easy: Option<int>, medium: Option<int>, hard: Option<int>)

  /** One of the best contests; `time` is a timestamp in milliseconds. */
  datatype TopContest = TopContest(contestName: string, rank: int, rating: Option<int>, time: Option<int>)

  /** One point of the rating graph; `time` is a timestamp in milliseconds. */
  datatype RatingPoint = RatingPoint(rating: int, time: int)

  datatype Profile =
    | Profile(platform: Platform,
              username: Option<string>,
              title: Option<string>,
              currentRating: Option<int>,
              maxRating: Option<int>,
              globalRank: Option<RankValue>,
              countryRank: Option<RankValue>,
              solvedCount: Option<int>,
              difficultySolved: Option<Difficulty>,
              contestCount: Option<int>,
              topContests: seq<TopContest>,
              ratingGraph: seq<RatingPoint>,
              profileUrl: string)
    | Failure(error: string)

  function ContestRank(c: TopContest): int { c.rank }

  /** The shape promised to the dashboard: at most five best contests, ranks
      non-decreasing. */
  predicate WellFormed(p: Profile) {
    p.Profile? ==> |p.topContests| <= 5 && Ranking.SortedBy(p.topContests, ContestRank)
  }

  /** The best-contests chain shared by the fetchers:
      `.filter(ranked).sort((a, b) => rank(a) - rank(b)).slice(0, 5).map(entry)`.
      At most five entries, and every ranked item is listed when there are at
      most five; `BestContestsSorted` and `BestContestsFrom` give the order
      and the provenance. */
  function BestContests<T>(items: seq<T>, ranked: T -> bool, rank: T -> int, entry: T -> TopContest)
    : (r: seq<TopContest>)
    ensures |r| <= 5
    ensures |r| == if |Ranking.Filter(items, ranked)| <= 5 then |Ranking.Filter(items, ranked)| else 5
  {
    MapEntries(Ranking.Top(Ranking.Filter(items, ranked), rank, 5), entry)
  }

  /** `.map(entry)`. */
  function MapEntries<T>(s: seq<T>, entry: T -> TopContest): (r: seq<TopContest>)
    ensures |r| == |s| && forall i :: 0 <= i < |s| ==> r[i] == entry(s[i])
  {
    if s == [] then [] else [entry(s[0])] + MapEntries(s[1..], entry)
  }

  /** When each entry carries its item's rank, the list is in rank order. */
  lemma BestContestsSorted<T>(items: seq<T>, ranked: T -> bool, rank: T -> int, entry: T -> TopContest)
    requires forall x :: entry(x).rank == rank(x)
    ensures Ranking.SortedBy(BestContests(items, ranked, rank, entry), ContestRank)
  {
    MapEntriesSorted(Ranking.Top(Ranking.Filter(items, ranked), rank, 5), rank, entry);
  }

  /** Mapping a rank-ordered list to entries that carry the rank keeps the
      order. */
  lemma MapEntriesSorted<T>(s: seq<T>, rank: T -> int, entry: T -> TopContest)
    requires Ranking.SortedBy(s, rank)
    requires forall x :: entry(x).rank == rank(x)
    ensures Ranking.SortedBy(MapEntries(s, entry), ContestRank)
  {
    var r := MapEntries(s, entry);
    forall i, j | 0 <= i < j < |r| ensures ContestRank(r[i]) <= ContestRank(r[j]) {
      assert r[i] == entry(s[i]) && r[j] == entry(s[j]);
    }
  }

  /** Every listed entry is made from a ranked item of the input. */
  lemma BestContestsFrom<T>(items: seq<T>, ranked: T -> bool, rank: T -> int, entry: T -> TopContest, i: nat)
    requires i < |BestContests(items, ranked, rank, entry)|
    ensures exists x :: x in items && ranked(x) && BestContests(items, ranked, rank, entry)[i] == entry(x)
  {
    var kept := Ranking.Filter(items, ranked);
    var best := Ranking.Top(kept, rank, 5);
    Ranking.TopSpec(kept, rank, 5);
    assert best[i] in multiset(best);
    assert best[i] in kept;
  }
}
