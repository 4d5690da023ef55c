/** Normalisation of the four Codeforces API responses (user info, rating
    changes, submissions, problem catalog) into a canonical profile:
    distinct solved problems, difficulty buckets by catalog rating, the five
    best-ranked contests and the rating graph. The HTTP calls are inputs: a
    failed call or a malformed payload is `None`. */
module Codeforces {
  import opened Wrappers
  import opened Profiles
  import Ranking

  datatype UserInfo = UserInfo(handle: Option<string>, rank: Option<string>,
                               rating: Option<int>, maxRating: Option<int>)

  /** `rank` is None when the payload's rank is not a number. */
  datatype RatingChange = RatingChange(contestName: string, rank: Option<int>,
                                       newRating: int, ratingUpdateTimeSeconds: int)

  /** A submission; `contestId` and `index` are None when `problem` or the
      field itself is missing. */
  datatype Submission = Submission(verdict: Option<string>, contestId: Option<int>, index: Option<string>)

  datatype CatalogProblem = CatalogProblem(contestId: Option<int>, index: Option<string>, rating: Option<int>)

  /** The problem key `${contestId}-${index}`. The text is injective for
      integer contest ids, so the pair stands for it. */
  datatype ProblemKey = ProblemKey(contestId: int, index: string)

  /** The payloads after the `?? {}` / `?? []` defaults: a missing user entry
      is a UserInfo with every field None. */
  datatype Responses = Responses(info: UserInfo, ratingChanges: seq<RatingChange>,
                                 submissions: seq<Submission>, problems: seq<CatalogProblem>)

  const FetchError := "Failed to fetch Codeforces data"
  const EasyMax := 1200
  const HardMin := 1800

  // ------------------------------------------------------------ solved set

  /** JavaScript truthiness of an optional number and an optional string. */
  predicate TruthyId(id: Option<int>) { id.Some? && id.value != 0 }
  predicate TruthyIndex(ix: Option<string>) { ix.Some? && ix.value != "" }

  /** Counts towards the solved set: verdict 'OK' and a truthy contest id and
      index. */
  predicate Accepted(s: Submission) {
    s.verdict == Some("OK") && TruthyId(s.contestId) && TruthyIndex(s.index)
  }

  function SubmissionKey(s: Submission): ProblemKey
    requires Accepted(s)
  {
    ProblemKey(s.contestId.value, s.index.value)
  }

  /** The distinct problems with at least one accepted submission. */
  function SolvedKeys(subs: seq<Submission>): set<ProblemKey> {
    set i | 0 <= i < |subs| && Accepted(subs[i]) :: SubmissionKey(subs[i])
  }

  /** The `solvedSet.add` loop. */
  method CollectSolved(subs: seq<Submission>) returns (solved: set<ProblemKey>)
    ensures solved == SolvedKeys(subs)
  {
    solved := {};
    var i := 0;
    while i < |subs|
      invariant 0 <= i <= |subs|
      invariant solved == SolvedKeys(subs[..i])
    {
      var s := subs[i];
      if s.verdict == Some("OK") && TruthyId(s.contestId) && TruthyIndex(s.index) {
        solved := solved + {SubmissionKey(s)};
      }
      assert subs[..i + 1] == subs[..i] + [s];
      SolvedKeysAppend(subs[..i], s);
      i := i + 1;
    }
    assert subs[..i] == subs;
  }

  lemma SolvedKeysAppend(subs: seq<Submission>, s: Submission)
    ensures SolvedKeys(subs + [s]) == SolvedKeys(subs) + (if Accepted(s) then {SubmissionKey(s)} else {})
  {
    var t := subs + [s];
    forall k | k in SolvedKeys(t) ensures k in SolvedKeys(subs) || (Accepted(s) && k == SubmissionKey(s)) {
      var i :| 0 <= i < |t| && Accepted(t[i]) && SubmissionKey(t[i]) == k;
      if i < |subs| { assert t[i] == subs[i]; }
    }
    forall k | k in SolvedKeys(subs) ensures k in SolvedKeys(t) {
      var i :| 0 <= i < |subs| && Accepted(subs[i]) && SubmissionKey(subs[i]) == k;
      assert t[i] == subs[i];
    }
    if Accepted(s) {
      assert t[|subs|] == s;
    }
  }

  lemma SolvedKeysConcat(a: seq<Submission>, b: seq<Submission>)
    ensures SolvedKeys(a + b) == SolvedKeys(a) + SolvedKeys(b)
  {
    var t := a + b;
    forall k | k in SolvedKeys(t) ensures k in SolvedKeys(a) + SolvedKeys(b) {
      var i :| 0 <= i < |t| && Accepted(t[i]) && SubmissionKey(t[i]) == k;
      if i < |a| { assert t[i] == a[i]; } else { assert t[i] == b[i - |a|]; }
    }
    forall k | k in SolvedKeys(a) ensures k in SolvedKeys(t) {
      var i :| 0 <= i < |a| && Accepted(a[i]) && SubmissionKey(a[i]) == k;
      assert t[i] == a[i];
    }
    forall k | k in SolvedKeys(b) ensures k in SolvedKeys(t) {
      var i :| 0 <= i < |b| && Accepted(b[i]) && SubmissionKey(b[i]) == k;
      assert t[|a| + i] == b[i];
    }
  }

  /** A submission that is not accepted, wherever it sits, adds no solved
      problem. */
  lemma RejectedSubmissionIgnored(a: seq<Submission>, s: Submission, b: seq<Submission>)
    requires !Accepted(s)
    ensures SolvedKeys(a + [s] + b) == SolvedKeys(a + b)
  {
    SolvedKeysConcat(a + [s], b);
    SolvedKeysConcat(a, b);
    SolvedKeysAppend(a, s);
  }

  /** Accepting an already-solved problem again leaves the count unchanged. */
  lemma RepeatedAcceptCountsOnce(a: seq<Submission>, s: Submission, b: seq<Submission>)
    requires Accepted(s) && SubmissionKey(s) in SolvedKeys(a + b)
    ensures SolvedKeys(a + [s] + b) == SolvedKeys(a + b)
    ensures |SolvedKeys(a + [s] + b)| == |SolvedKeys(a + b)|
  {
    SolvedKeysConcat(a + [s], b);
    SolvedKeysConcat(a, b);
    SolvedKeysAppend(a, s);
  }

  // ------------------------------------------------------------ rating catalog

  /** Enters the rating map: truthy contest id and index and a numeric rating. */
  predicate Rated(p: CatalogProblem) {
    TruthyId(p.contestId) && TruthyIndex(p.index) && p.rating.Some?
  }

  function CatalogKey(p: CatalogProblem): ProblemKey
    requires Rated(p)
  {
    ProblemKey(p.contestId.value, p.index.value)
  }

  /** The rating the catalog gives `k`: that of the last rated entry with key
      `k`, since a later `ratingMap.set` overwrites an earlier one. */
  function CatalogRating(problems: seq<CatalogProblem>, k: ProblemKey): Option<int> {
    if problems == [] then None
    else
      var last := problems[|problems| - 1];
      if Rated(last) && CatalogKey(last) == k then Some(last.rating.value)
      else CatalogRating(problems[..|problems| - 1], k)
  }

  /** CatalogRating characterised by position: the entry it reports is rated,
      has key `k`, carries that rating and no later rated entry has key `k`;
      and it reports nothing only when no rated entry has key `k`. */
  lemma {:induction false} CatalogRatingIsLast(problems: seq<CatalogProblem>, k: ProblemKey) returns (i: int)
    ensures CatalogRating(problems, k).None? ==>
              i == -1 && forall j :: 0 <= j < |problems| && Rated(problems[j]) ==> CatalogKey(problems[j]) != k
    ensures CatalogRating(problems, k).Some? ==>
              && 0 <= i < |problems| && Rated(problems[i]) && CatalogKey(problems[i]) == k
              && CatalogRating(problems, k).value == problems[i].rating.value
              && forall j :: i < j < |problems| && Rated(problems[j]) ==> CatalogKey(problems[j]) != k
  {
    if problems == [] {
      i := -1;
    } else {
      var n := |problems| - 1;
      var last := problems[n];
      if Rated(last) && CatalogKey(last) == k {
        i := n;
      } else {
        i := CatalogRatingIsLast(problems[..n], k);
        assert forall j :: 0 <= j < n ==> problems[..n][j] == problems[j];
      }
    }
  }

  /** The `ratingMap.set` loop: the map agrees with CatalogRating on every key. */
  method BuildRatingMap(problems: seq<CatalogProblem>) returns (ratings: map<ProblemKey, int>)
    ensures forall k :: CatalogRating(problems, k) == (if k in ratings then Some(ratings[k]) else None)
  {
    ratings := map[];
    var i := 0;
    while i < |problems|
      invariant 0 <= i <= |problems|
      invariant forall k :: CatalogRating(problems[..i], k) == (if k in ratings then Some(ratings[k]) else None)
    {
      var p := problems[i];
      assert problems[..i + 1][..i] == problems[..i];
      if TruthyId(p.contestId) && TruthyIndex(p.index) && p.rating.Some? {
        ratings := ratings[CatalogKey(p) := p.rating.value];
      }
      i := i + 1;
    }
    assert problems[..i] == problems;
  }

  // ------------------------------------------------------------ buckets

  datatype Level = Easy | Medium | Hard

  /** The difficulty thresholds: easy up to 1200 inclusive, hard from 1800
      inclusive, medium strictly between. */
  function Classify(rating: int): (l: Level)
    ensures (l == Easy) == (rating <= EasyMax)
    ensures (l == Hard) == (rating >= HardMin)
    ensures (l == Medium) == (EasyMax < rating < HardMin)
  {
    if rating <= EasyMax then Easy else if rating >= HardMin then Hard else Medium
  }

  /** The solved problems whose catalog rating falls in `level`. */
  function InBucket(solved: set<ProblemKey>, ratings: map<ProblemKey, int>, level: Level): set<ProblemKey> {
    set k | k in solved && k in ratings && Classify(ratings[k]) == level
  }

  /** The `solvedSet.forEach` counters. The iteration order of the set does
      not matter: each count is the size of its bucket, and together they
      count exactly the solved problems the catalog rates. */
  method CountDifficulties(solved: set<ProblemKey>, ratings: map<ProblemKey, int>)
    returns (easy: nat, medium: nat, hard: nat)
    ensures easy == |InBucket(solved, ratings, Easy)|
    ensures medium == |InBucket(solved, ratings, Medium)|
    ensures hard == |InBucket(solved, ratings, Hard)|
    ensures easy + medium + hard == |solved * ratings.Keys| <= |solved|
  {
    easy, medium, hard := 0, 0, 0;
    var todo := solved;
    ghost var done: set<ProblemKey> := {};
    while todo != {}
      invariant todo !! done && todo + done == solved
      invariant easy == |InBucket(done, ratings, Easy)|
      invariant medium == |InBucket(done, ratings, Medium)|
      invariant hard == |InBucket(done, ratings, Hard)|
      decreases todo
    {
      var key :| key in todo;
      BucketAdd(done, key, ratings, Easy);
      BucketAdd(done, key, ratings, Medium);
      BucketAdd(done, key, ratings, Hard);
      easy, medium, hard := CountKey(key, ratings, easy, medium, hard);
      todo := todo - {key};
      done := done + {key};
    }
    assert done == solved;
    BucketsPartitionRated(solved, ratings);
  }

  /** The `forEach` callback: a key the catalog rates adds one to the
      counter of its rating's level; an unrated key changes nothing. */
  method CountKey(key: ProblemKey, ratings: map<ProblemKey, int>, easy: nat, medium: nat, hard: nat)
    returns (easy': nat, medium': nat, hard': nat)
    ensures easy' == easy + (if key in ratings && Classify(ratings[key]) == Easy then 1 else 0)
    ensures medium' == medium + (if key in ratings && Classify(ratings[key]) == Medium then 1 else 0)
    ensures hard' == hard + (if key in ratings && Classify(ratings[key]) == Hard then 1 else 0)
  {
    easy', medium', hard' := easy, medium, hard;
    if key in ratings {
      var r := ratings[key];
      if r <= EasyMax {
        easy' := easy + 1;
      } else if r >= HardMin {
        hard' := hard + 1;
      } else {
        medium' := medium + 1;
      }
    }
  }

  /** Counting one more key grows the bucket of its rating by one and
      leaves the others alone. */
  lemma BucketAdd(done: set<ProblemKey>, key: ProblemKey, ratings: map<ProblemKey, int>, l: Level)
    requires key !in done
    ensures |InBucket(done + {key}, ratings, l)| ==
              |InBucket(done, ratings, l)| + (if key in ratings && Classify(ratings[key]) == l then 1 else 0)
  {
    if key in ratings && Classify(ratings[key]) == l {
      assert InBucket(done + {key}, ratings, l) == InBucket(done, ratings, l) + {key};
    } else {
      assert InBucket(done + {key}, ratings, l) == InBucket(done, ratings, l);
    }
  }

  lemma SubsetSize<T>(a: set<T>, b: set<T>)
    requires a <= b
    ensures |a| <= |b|
  {
    assert b == a + (b - a);
    assert a * (b - a) == {};
  }

  /** The buckets split the rated solved problems: their sizes add up to the
      number of solved problems the catalog rates, never more than the
      solved count; an unrated solved problem is in no bucket. */
  lemma BucketsPartitionRated(solved: set<ProblemKey>, ratings: map<ProblemKey, int>)
    ensures |InBucket(solved, ratings, Easy)| + |InBucket(solved, ratings, Medium)|
            + |InBucket(solved, ratings, Hard)| == |solved * ratings.Keys|
    ensures |solved * ratings.Keys| <= |solved|
    ensures forall k :: k in solved && k !in ratings ==>
              forall l: Level :: k !in InBucket(solved, ratings, l)
  {
    var e, m, h := InBucket(solved, ratings, Easy), InBucket(solved, ratings, Medium), InBucket(solved, ratings, Hard);
    assert e + m + h == solved * ratings.Keys;
    assert e * m == {} && (e + m) * h == {};
    assert |e + m| == |e| + |m|;
    assert |e + m + h| == |e + m| + |h|;
    SubsetSize(solved * ratings.Keys, solved);
  }

  // ------------------------------------------------------------ contests

  predicate HasRank(c: RatingChange) { c.rank.Some? }

  function ChangeRank(c: RatingChange): int { c.rank.GetOr(0) }

  function ToTopContest(c: RatingChange): TopContest {
    TopContest(c.contestName, ChangeRank(c), Some(c.newRating), Some(c.ratingUpdateTimeSeconds * 1000))
  }

  /** `topContests`: the changes with a numeric rank, stably sorted by rank,
      the first five, each mapped to name, rank, new rating and time in
      milliseconds. */
  function TopContests(changes: seq<RatingChange>): seq<TopContest> {
    BestContests(changes, HasRank, ChangeRank, ToTopContest)
  }

  /** At most five entries, ranks non-decreasing; when at most five changes
      are ranked, all of them are listed. */
  lemma TopContestsBest(changes: seq<RatingChange>)
    ensures |TopContests(changes)| <= 5
    ensures Ranking.SortedBy(TopContests(changes), ContestRank)
    ensures |Ranking.Filter(changes, HasRank)| <= 5 ==> |TopContests(changes)| == |Ranking.Filter(changes, HasRank)|
  {
    BestContestsSorted(changes, HasRank, ChangeRank, ToTopContest);
  }

  /** Each entry is made from a rating change of the input with a numeric
      rank, carrying that change's name, rank and new rating. */
  lemma TopContestsFromRanked(changes: seq<RatingChange>, i: nat)
    requires i < |TopContests(changes)|
    ensures exists c :: c in changes && c.rank.Some? && TopContests(changes)[i] == ToTopContest(c)
  {
    BestContestsFrom(changes, HasRank, ChangeRank, ToTopContest, i);
  }

  /** The graph: one point per rating change, in source order. */
  function RatingGraph(changes: seq<RatingChange>): (g: seq<RatingPoint>)
    ensures |g| == |changes|
    ensures forall i :: 0 <= i < |g| ==>
              g[i].rating == changes[i].newRating && g[i].time == changes[i].ratingUpdateTimeSeconds * 1000
  {
    seq(|changes|, i requires 0 <= i < |changes| =>
      RatingPoint(changes[i].newRating, changes[i].ratingUpdateTimeSeconds * 1000))
  }

  // ------------------------------------------------------------ the fetcher

  /** The problems solved at `level`, as the catalog rates them. */
  function SolvedAt(subs: seq<Submission>, problems: seq<CatalogProblem>, level: Level): set<ProblemKey> {
    set k | k in SolvedKeys(subs) && CatalogRating(problems, k).Some?
                                  && Classify(CatalogRating(problems, k).value) == level
  }

  /** `fetchCodeforcesData`: any failure gives exactly the error object;
      otherwise a full profile built from the responses. */
  method FetchCodeforces(handle: string, responses: Option<Responses>) returns (p: Profile)
    ensures responses.None? <==> p == Failure(FetchError)
    ensures WellFormed(p)
    ensures responses.Some? ==>
      var r := responses.value;
      && p.Profile? && p.platform == Codeforces
      && p.username == r.info.handle && p.title == r.info.rank
      && p.currentRating == r.info.rating && p.maxRating == r.info.maxRating
      && p.globalRank == None && p.countryRank == None
      && p.solvedCount == Some(|SolvedKeys(r.submissions)|)
      && p.difficultySolved == Some(Difficulty(Some(|SolvedAt(r.submissions, r.problems, Easy)|),
                                               Some(|SolvedAt(r.submissions, r.problems, Medium)|),
                                               Some(|SolvedAt(r.submissions, r.problems, Hard)|)))
      && p.contestCount == Some(|r.ratingChanges|)
      && p.topContests == TopContests(r.ratingChanges)
      && p.ratingGraph == RatingGraph(r.ratingChanges)
      && p.profileUrl == "https://codeforces.com/profile/" + handle
  {
    if responses.None? {
      return Failure(FetchError);
    }
    var r := responses.value;
    var solved := CollectSolved(r.submissions);
    var ratings := BuildRatingMap(r.problems);
    var easy, medium, hard := CountDifficulties(solved, ratings);
    forall l: Level ensures InBucket(solved, ratings, l) == SolvedAt(r.submissions, r.problems, l) {
      forall k ensures k in InBucket(solved, ratings, l) <==> k in SolvedAt(r.submissions, r.problems, l) {
        assert CatalogRating(r.problems, k) == (if k in ratings then Some(ratings[k]) else None);
      }
    }
    p := Profile(Codeforces, r.info.handle, r.info.rank, r.info.rating, r.info.maxRating, None, None,
                 Some(|solved|), Some(Difficulty(Some(easy), Some(medium), Some(hard))),
                 Some(|r.ratingChanges|), TopContests(r.ratingChanges), RatingGraph(r.ratingChanges),
                 "https://codeforces.com/profile/" + handle);
  }

  /** The buckets never exceed the solved count, and a solved problem the
      catalog does not rate is in no bucket. */
  lemma BucketsWithinSolved(subs: seq<Submission>, problems: seq<CatalogProblem>)
    ensures |SolvedAt(subs, problems, Easy)| + |SolvedAt(subs, problems, Medium)|
            + |SolvedAt(subs, problems, Hard)| <= |SolvedKeys(subs)|
    ensures forall k, l :: k in SolvedKeys(subs) && CatalogRating(problems, k).None? ==> k !in SolvedAt(subs, problems, l)
  {
    var e, m, h := SolvedAt(subs, problems, Easy), SolvedAt(subs, problems, Medium), SolvedAt(subs, problems, Hard);
    assert e * m == {} && (e + m) * h == {};
    assert |e + m| == |e| + |m|;
    assert |e + m + h| == |e + m| + |h|;
    SubsetSize(e + m + h, SolvedKeys(subs));
  }

  /** Worked boundary cases of the thresholds. */
  lemma ClassifyBoundaries()
    ensures Classify(1200) == Easy && Classify(1201) == Medium
    ensures Classify(1500) == Medium
    ensures Classify(1799) == Medium && Classify(1800) == Hard
  {
  }
}
