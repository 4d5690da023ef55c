# CPTrack core in Dafny

CPTrack is a dashboard for competitive programmers. Its server gathers a
user's profile from Codeforces, LeetCode and CodeChef and reduces each one to
a canonical profile. That profile holds:

- the solved count and the difficulty buckets;
- the current and best rating;
- the five best contests;
- the rating graph.

The server also copies a feed of upcoming contests into its database, without
duplicates. It serves those contests grouped by start day. The client labels
each day, shows a countdown per contest and builds its CSS class names with
`cn`.

This project models that core on values and proves what the code promises:

| module | file | models |
|---|---|---|
| `Wrappers` | `wrappers.dfy` | `Option`; the `n \|\| null` idiom on numbers |
| `Text` | `text.dfy` | the string operations the scrapers use: `trim()`, ASCII `toLowerCase()`, `includes`, `replace(/[^\d]/g, '')`, `match(/\d+/)`, `Number(text)`, `String(n)` |
| `Ranking` | `ranking.dfy` | `filter`, the stable `sort((a, b) => a.key - b.key)` and `slice(0, n)` |
| `Profiles` | `profiles.dfy` | the canonical profile, its well-formedness, and the best-contests chain shared by all fetchers |
| `Codeforces` | `codeforces.dfy` | `fetchCodeforcesData`: the solved-set loop, the rating-map loop, the difficulty counters, the top contests, the rating graph, the error object |
| `ObjectGraph` | `object_graph.dfy` | `deepFind` over a parsed JSON document held as a heap of nodes, and the four shape searches of the scrape strategy |
| `Leetcode` | `leetcode.dfy` | the three strategies (GraphQL, page scrape, public stats) and their fallback order |
| `Codechef` | `codechef.dfy` | the blocked-page test, the field readers, the solved-count rule, the contest table, the acceptance test, the fallback API |
| `Contests` | `contests.dfy` | `fetchAndStoreContests`: a contest table as a class with a `seq` of rows, the find-or-create loop, duration in minutes |
| `ContestRoutes` | `contest_routes.dfy` | `GET /upcoming`: the future-only query and the date-key grouping loop |
| `UpcomingPage` | `upcoming_page.dfy` | `getTimeLeft`, and `getDayHeaderLabel`: how the date key is read, the day difference and the three branches |
| `ClassNames` | `class_names.dfy` | `cn(...args)` |

Inputs the code receives from outside become parameters:

- HTTP replies, parsed as the code reads them;
- database rows;
- the current time.

A request that throws is modelled as a `None` reply.

Loops that update state are methods, each proved against a specification
function:

- `CollectSolved`, `BuildRatingMap`, `CountDifficulties`;
- `DeepFind`;
- `SumBadges`, `CollectRows`;
- `FetchAndStoreContests`;
- `GroupByDay`.

The lemmas state that function's properties.

## Model

| member | source | states |
|---|---|---|
| Wrappers.NonZero | server/src/utils/fetchLeetcode.ts:105 | `n \|\| null` on a number is null exactly when n is 0, and n otherwise |
| Text.DecimalString | client/src/app/upcoming-contests/page.tsx:44 | `String(n)` is a non-empty digit string with no leading zero (except for 0) that reads back as n |
| Text.IntString | client/src/app/upcoming-contests/page.tsx:31 | `String(i)` starts with '-' exactly for a negative i, followed by the numeral of the magnitude |
| Text.DecimalStringInjective | client/src/app/upcoming-contests/page.tsx:31 | different numbers have different numerals |
| Text.Trim | server/src/utils/fetchCodechef.ts:33 | the trimmed text is the stretch of the input left between a whitespace-only prefix and a whitespace-only suffix, and it neither starts nor ends with whitespace |
| Text.TrimBetween | server/src/utils/fetchCodechef.ts:33 | when only whitespace lies outside `s[i..j]` and neither end of it is whitespace, the trim is exactly `s[i..j]` |
| Text.TrimPadded | server/src/utils/fetchCodechef.ts:33 | trimming whitespace + t + whitespace gives t back, for any t that neither starts nor ends with whitespace |
| Text.TrimIdempotent | server/src/utils/fetchLeetcode.ts:243 | trimming a trimmed handle changes nothing |
| Text.TrimEmptyIff | server/src/utils/fetchCodechef.ts:33 | the trimmed text is empty exactly when the input is all whitespace |
| Text.ToLowerAscii | server/src/utils/fetchCodechef.ts:29 | lower-casing keeps the length and lower-cases each letter in place |
| Text.ContainsAt | server/src/utils/fetchCodechef.ts:29 | a text contains a pattern exactly when the pattern starts at some position |
| Text.StripNonDigits | server/src/utils/fetchCodechef.ts:81-82 | removing every non-digit leaves only digits, and leaves nothing exactly when the text has no digit |
| Text.StripNonDigitsConcat | server/src/utils/fetchCodechef.ts:81 | digit stripping distributes over concatenation |
| Text.StripNonDigitsKeepsDigits | server/src/utils/fetchCodechef.ts:81 | a text of digits is left unchanged |
| Text.StripNonDigitsIdempotent | server/src/utils/fetchCodechef.ts:81 | stripping twice is stripping once |
| Text.StripNonDigitsIgnoresTrim | server/src/utils/fetchCodechef.ts:81 | trimming before stripping makes no difference |
| Text.FirstDigitRun | server/src/utils/fetchCodechef.ts:46 | `match(/\d+/)` finds nothing exactly when the text has no digit, and otherwise a non-empty run of digits |
| Text.FirstDigitRunPosition | server/src/utils/fetchCodechef.ts:46 | that run is the leftmost one and is not followed by another digit |
| Text.ToNumber | server/src/utils/fetchCodechef.ts:70 | `Number(text)` is 0 for a blank text; it is NaN (`None`) exactly when the trimmed text is non-empty and not all digits; otherwise it is the decimal value of the trimmed digits |
| Text.ToNumberOfTrim | server/src/utils/fetchCodechef.ts:40 | `Number` of the trimmed text equals `Number` of the text |
| Text.ToNumberPadded | server/src/utils/fetchCodechef.ts:70 | a digit string with whitespace around it reads as its value |
| Text.NumberOfDecimalString | server/src/utils/fetchCodechef.ts:65 | `Number(String(n))` is n |
| Ranking.SortByKey | server/src/utils/fetchCodeforces.ts:76 | the sort is ordered by key, a permutation of its input, and stable (the elements of each key keep their order) |
| Ranking.Filter | server/src/utils/fetchCodeforces.ts:75 | the filter keeps exactly the elements that pass, no more often than they occur |
| Ranking.FilterConcat | server/src/utils/fetchCodeforces.ts:75 | filtering distributes over concatenation |
| Ranking.Take | server/src/utils/fetchCodeforces.ts:77 | `slice(0, n)` is the prefix of length min(n, length) |
| Ranking.Top | server/src/utils/fetchCodeforces.ts:76-77 | sort then `slice(0, n)`: min(n, length) entries in key order |
| Ranking.TopSpec | server/src/utils/fetchCodeforces.ts:76-77 | the entries are taken from the input; every element left out has a key no smaller than any kept one; for each key the kept entries are the first ones of the input with that key |
| Profiles.BestContests | server/src/utils/fetchCodeforces.ts:74-83 | the best-contests chain gives at most five entries, and every ranked item when at most five are ranked |
| Profiles.MapEntries | server/src/utils/fetchCodeforces.ts:78-83 | `.map(entry)` applies the entry pointwise, keeping order and length |
| Profiles.BestContestsSorted | server/src/utils/fetchCodeforces.ts:76 | when each entry carries its item's rank, the list is in non-decreasing rank order |
| Profiles.BestContestsFrom | server/src/utils/fetchCodeforces.ts:74-83 | every listed entry is made from a ranked item of the input |
| Codeforces.CollectSolved | server/src/utils/fetchCodeforces.ts:47-52 | the loop's set is exactly the distinct (contestId, index) keys of accepted submissions with truthy ids |
| Codeforces.Accepted | server/src/utils/fetchCodeforces.ts:49 | (definition) the submission counts: verdict 'OK' with a truthy contest id and index |
| Codeforces.SolvedKeys | server/src/utils/fetchCodeforces.ts:47-52 | (definition) the set of keys of the submissions that are accepted and have a truthy contest id and index |
| Codeforces.SolvedKeysAppend | server/src/utils/fetchCodeforces.ts:48-51 | one more submission adds its key exactly when it is accepted |
| Codeforces.SolvedKeysConcat | server/src/utils/fetchCodeforces.ts:47-53 | the solved set of two runs of submissions is the union of theirs |
| Codeforces.RejectedSubmissionIgnored | server/src/utils/fetchCodeforces.ts:49 | a submission that is not 'OK' or lacks an id, wherever it stands, changes no solved key |
| Codeforces.RepeatedAcceptCountsOnce | server/src/utils/fetchCodeforces.ts:50-53 | accepting an already solved problem again leaves the set and the count unchanged |
| Codeforces.CatalogRating | server/src/utils/fetchCodeforces.ts:56-61 | (definition) the rating of the last rated catalog entry with the key, so a later entry overwrites; CatalogRatingIsLast states it |
| Codeforces.CatalogRatingIsLast | server/src/utils/fetchCodeforces.ts:56-61 | a key's catalog rating is that of its last rated entry; a key gets none only when no rated entry has it |
| Codeforces.BuildRatingMap | server/src/utils/fetchCodeforces.ts:56-61 | the map built by the loop agrees with the catalog rating on every key, later entries overwriting earlier ones |
| Codeforces.Classify | server/src/utils/fetchCodeforces.ts:67-69 | easy iff rating ≤ 1200, hard iff rating ≥ 1800, medium iff strictly between |
| Codeforces.ClassifyBoundaries | server/src/utils/fetchCodeforces.ts:67-69 | 1200 is easy, 1201, 1500 and 1799 medium, 1800 hard |
| Codeforces.InBucket | server/src/utils/fetchCodeforces.ts:64-70 | (definition) the solved keys present in the rating map whose rating falls in the level |
| Codeforces.SolvedAt | server/src/utils/fetchCodeforces.ts:63-71 | (definition) the solved keys whose catalog rating falls in the level: what each counter should count |
| Codeforces.CountDifficulties | server/src/utils/fetchCodeforces.ts:63-71 | each counter is the number of solved problems rated in its bucket; the three add up to the rated solved problems, at most the solved count |
| Codeforces.CountKey | server/src/utils/fetchCodeforces.ts:64-70 | the callback adds one to the counter of the rated key's level and leaves the other two alone; an unrated key changes nothing |
| Codeforces.BucketsPartitionRated | server/src/utils/fetchCodeforces.ts:64-71 | the buckets split the rated solved problems; an unrated solved problem is in none |
| Codeforces.BucketsWithinSolved | server/src/utils/fetchCodeforces.ts:64-71 | easy + medium + hard ≤ solvedCount, and a problem the catalog does not rate is in no bucket |
| Codeforces.ToTopContest | server/src/utils/fetchCodeforces.ts:78-83 | (definition) name, rank, new rating, and the update time in milliseconds |
| Codeforces.TopContests | server/src/utils/fetchCodeforces.ts:74-83 | (definition) the best-contests chain over the changes with a rank; TopContestsBest and TopContestsFromRanked state its properties |
| Codeforces.TopContestsBest | server/src/utils/fetchCodeforces.ts:74-83 | at most five contests, ranks non-decreasing, all ranked changes listed when at most five |
| Codeforces.TopContestsFromRanked | server/src/utils/fetchCodeforces.ts:74-83 | each listed contest carries the name, rank and new rating of a ranked change of the input, with the time in milliseconds |
| Codeforces.RatingGraph | server/src/utils/fetchCodeforces.ts:97-100 | one point per rating change, in order, rating = newRating and time = seconds × 1000 |
| Codeforces.FetchCodeforces | server/src/utils/fetchCodeforces.ts:32-106 | any failure gives exactly the error object; otherwise a well-formed profile whose counts, buckets, contests, graph and contest count are those of the responses |
| ObjectGraph.Children | server/src/utils/fetchLeetcode.ts:130-134 | the values pushed for a node are an array's elements or an object's values in key order; a leaf pushes nothing |
| ObjectGraph.ReachableRoot | server/src/utils/fetchLeetcode.ts:124 | the root is reachable from itself |
| ObjectGraph.ReachableStep | server/src/utils/fetchLeetcode.ts:130-134 | a child of a reachable object is reachable |
| ObjectGraph.ClosedContainsReachable | server/src/utils/fetchLeetcode.ts:123-135 | a set holding the root and closed under children holds every reachable object |
| ObjectGraph.SkipKeepsInvariant | server/src/utils/fetchLeetcode.ts:127 | popping a leaf or an already seen object keeps the search invariant |
| ObjectGraph.VisitKeepsInvariant | server/src/utils/fetchLeetcode.ts:128-134 | marking a failing object seen and pushing its children keeps the search invariant |
| ObjectGraph.DeepFind | server/src/utils/fetchLeetcode.ts:122-137 | a returned node is a reachable object satisfying the predicate; null means no reachable object does; a root that satisfies it is returned itself; each object is handed to the predicate at most once; the search ends on cyclic graphs |
| ObjectGraph.Get | server/src/utils/fetchLeetcode.ts:154 | a property read finds a value only on an object node |
| ObjectGraph.Lookup | server/src/utils/fetchLeetcode.ts:161 | a key is found exactly when the object has it |
| ObjectGraph.SubmitStatsShape | server/src/utils/fetchLeetcode.ts:152-155 | (definition) an object whose `acSubmissionNum` is a non-empty array with a truthy `difficulty` on its first element |
| ObjectGraph.UserShape | server/src/utils/fetchLeetcode.ts:157 | (definition) an object whose `username` is a string |
| ObjectGraph.RankingShape | server/src/utils/fetchLeetcode.ts:159-162 | (definition) an object with a `rating` or a `globalRanking` key |
| ObjectGraph.HistoryShape | server/src/utils/fetchLeetcode.ts:164-167 | (definition) a non-empty array whose first element has a truthy `contest` and the keys `startTime` and `ranking` |
| ObjectGraph.LocateProfileNodes | server/src/utils/fetchLeetcode.ts:152-167 | each of the four searches returns a reachable node of its shape, or null when no reachable object has that shape |
| Leetcode.SolvedForFirst | server/src/utils/fetchLeetcode.ts:83 | `get(k)` is the count of the first entry with difficulty k (null count as 0), and 0 when there is none |
| Leetcode.SolvedFor | server/src/utils/fetchLeetcode.ts:83 | (definition) `ac.find(x => x.difficulty === k)?.count ?? 0` as a first-match walk; SolvedForFirst states it |
| Leetcode.PeakRating | server/src/utils/fetchLeetcode.ts:99 | the maximum of 0 and the ratings (null as 0): at least every rating, and attained unless 0 |
| Leetcode.MaxRatingSpec | server/src/utils/fetchLeetcode.ts:99-105 | maxRating is null exactly when no rating is positive, and otherwise the largest rating |
| Leetcode.MaxRating | server/src/utils/fetchLeetcode.ts:99-105 | (definition) `Math.max(...ratings, 0) \|\| null`; MaxRatingSpec states it |
| Leetcode.TopContestsBest | server/src/utils/fetchLeetcode.ts:88-97 | at most five entries in non-decreasing rank order, all ranked entries when at most five |
| Leetcode.TopContestsFromRanked | server/src/utils/fetchLeetcode.ts:88-97 | each entry is a ranked history entry's contest, ranking and rating, time = startTime × 1000 |
| Leetcode.ToTopContest | server/src/utils/fetchLeetcode.ts:92-97 | (definition) contest, ranking, rating (null kept), and the start time in milliseconds |
| Leetcode.TopContests | server/src/utils/fetchLeetcode.ts:88-97 | (definition) the best-contests chain over the history entries with a ranking; TopContestsBest and TopContestsFromRanked state its properties |
| Leetcode.CurrentRating | server/src/utils/fetchLeetcode.ts:104 | (definition) `ranking?.rating ?? null` |
| Leetcode.GlobalRank | server/src/utils/fetchLeetcode.ts:107 | (definition) `ranking?.globalRanking ?? null` |
| Leetcode.ContestCount | server/src/utils/fetchLeetcode.ts:111 | (definition) `ranking?.attendedContestsCount ?? history.length` |
| Leetcode.RatingGraph | server/src/utils/fetchLeetcode.ts:113 | one point per history entry, in order, null rating as 0 |
| Leetcode.TryGraphQL | server/src/utils/fetchLeetcode.ts:78-115 | null exactly when the reply or `matchedUser` is missing; otherwise a well-formed profile: the username falls back to the handle; the total and the three difficulty counts are the raw `get` counts, 0 kept; no title or country rank; global rank, current and max rating, contest count, top contests and graph come from the ranking and history |
| Leetcode.TryScrape | server/src/utils/fetchLeetcode.ts:139-204 | null exactly when the page JSON is missing; otherwise the same fields from the found nodes, a missing history read as empty, and the total and each difficulty count null when 0 (`\|\| null`) |
| Leetcode.TryPublicStats | server/src/utils/fetchLeetcode.ts:208-239 | null exactly when the request fails; otherwise a solved-only profile for the handle: `totalSolved ?? totalSolvedCount`, the three difficulty counts, and no title, rating, ranks, contest count, contests or graph |
| Leetcode.FetchLeetcode | server/src/utils/fetchLeetcode.ts:242-258 | the error object appears exactly when all three strategies give null; every profile is a well-formed LeetCode profile for the trimmed handle |
| Leetcode.FetchOrder | server/src/utils/fetchLeetcode.ts:246-257 | the first non-null strategy in the order GraphQL, scrape, public stats is returned |
| Leetcode.FetchIgnoresSurroundingWhitespace | server/src/utils/fetchLeetcode.ts:243 | a handle and its trimmed form give the same result |
| Leetcode.ZeroSolvedCounts | server/src/utils/fetchLeetcode.ts:194-195 | for the total and for each difficulty, a zero count is null from the scrape (`\|\| null`), while GraphQL (lines 109-110) reports 0 |
| Codechef.BlockMarkerAt | server/src/utils/fetchCodechef.ts:29 | the marker test holds exactly when some marker occurs, case-insensitively, at some position of the body |
| Codechef.MarkerAt | server/src/utils/fetchCodechef.ts:29 | one marker occurs in the lower-cased body exactly when it matches at some position |
| Codechef.BlockMarkerIgnoresCase | server/src/utils/fetchCodechef.ts:29 | the marker test gives the same answer on the lower-cased body |
| Codechef.HasBlockMarker | server/src/utils/fetchCodechef.ts:29 | (definition) some marker, "attention required", "cloudflare" or "cf-error", occurs in the lower-cased body; BlockMarkerAt states it by position |
| Codechef.Blocked | server/src/utils/fetchCodechef.ts:25-29 | (definition) blocked exactly when the status is not 200, the body is empty or shorter than 5000 characters, or it holds a marker |
| Codechef.TextOf | server/src/utils/fetchCodechef.ts:33 | `text(sel)` is null exactly for a blank text, otherwise the trimmed non-empty text |
| Codechef.Username | server/src/utils/fetchCodechef.ts:35-38 | the trimmed name heading when it is not blank, else the trimmed details heading when that is not blank, else the handle |
| Codechef.CurrentRating | server/src/utils/fetchCodechef.ts:40 | the current rating is present exactly when the text is non-blank, numeric and not 0; it is then `Number(text)`, which is positive |
| Codechef.FirstNumber | server/src/utils/fetchCodechef.ts:46 | null exactly when the text has no digit, otherwise the value of its first digit run |
| Codechef.MaxRating | server/src/utils/fetchCodechef.ts:43-46 | the section header wins over the plain one; the first digit run of the chosen header; null without a header |
| Codechef.RankText | server/src/utils/fetchCodechef.ts:48-56 | the trimmed section text when it is not blank, else the trimmed plain text when that is not blank, else null |
| Codechef.FullySolved | server/src/utils/fetchCodechef.ts:61 | (definition) the lower-cased heading contains "fully solved" |
| Codechef.FirstFullySolved | server/src/utils/fetchCodechef.ts:60-62 | the first heading containing "fully solved" in any case, or none when no heading does |
| Codechef.BadgeSum | server/src/utils/fetchCodechef.ts:68-73 | the sum of the numeric badges is never negative; a single badge contributes `Number(text)`, or 0 when its text is not a number |
| Codechef.BadgeSumConcat | server/src/utils/fetchCodechef.ts:69-72 | the badge sum of two runs of badges is the sum of theirs |
| Codechef.BadgeSumSkipsNonNumbers | server/src/utils/fetchCodechef.ts:71 | a badge whose text is not a number adds nothing, wherever it stands |
| Codechef.SumBadges | server/src/utils/fetchCodechef.ts:68-72 | the `sum +=` loop computes the badge sum |
| Codechef.SolvedCount | server/src/utils/fetchCodechef.ts:59-74 | with a "fully solved" heading, its first number; otherwise the badge sum, null when it is 0 |
| Codechef.ParseCell | server/src/utils/fetchCodechef.ts:81-86 | a rank or rating cell is null exactly when it has no digit, otherwise the value of its digits |
| Codechef.ParseRow | server/src/utils/fetchCodechef.ts:79-87 | (definition) the name is the trimmed first cell; rank and rating are the second and fourth cells read by ParseCell |
| Codechef.CollectRows | server/src/utils/fetchCodechef.ts:77-88 | the `contests.push` loop applies the row parser to every row, in order |
| Codechef.ParseRows | server/src/utils/fetchCodechef.ts:77-88 | one parsed row per table row, in order: entry i is row i parsed |
| Codechef.TopContests | server/src/utils/fetchCodechef.ts:90-99 | (definition) the best-contests chain over the rows with a rank, without times; TopContestsBest states its properties |
| Codechef.TopContestsBest | server/src/utils/fetchCodechef.ts:90-99 | at most five, ranks non-decreasing, empty exactly when no row has a rank, no times |
| Codechef.Accepted | server/src/utils/fetchCodechef.ts:102 | (definition) the scrape is kept when the current rating is not null, a top contest exists, or the solved count is not null |
| Codechef.ScrapedProfile | server/src/utils/fetchCodechef.ts:102-118 | a kept scrape is a well-formed CodeChef profile: username, title, current and max rating, both ranks, solved count and top contests are the page readers' results; no buckets or graph; the row count is the contest count |
| Codechef.ScrapeAccepted | server/src/utils/fetchCodechef.ts:102 | the scrape is kept exactly when the page has a non-zero rating, a row with a rank, or a solved count |
| Codechef.ScrapeCodechef | server/src/utils/fetchCodechef.ts:32-119 | the scrape of an unblocked page, with its row and badge loops, gives exactly the kept profile, or null when the page is not kept |
| Codechef.FallbackProfile | server/src/utils/fetchCodechef.ts:125-177 | a status-200 object gives the API profile: username or the handle, stars as title, rating, both ranks, problems solved, contest count and top contests as the API gives them, no max rating, buckets or graph; a failed request or a null body gives the generic error; any other reply gives the fallback error |
| Codechef.FallbackContestNames | server/src/utils/fetchCodechef.ts:150-155 | each fallback entry is a ranked API contest, named "Contest" when it has no name |
| Codechef.ApiContestCount | server/src/utils/fetchCodechef.ts:167 | `participation` when present, else the length of `contests` when present, else null |
| Codechef.FetchCodechef | server/src/utils/fetchCodechef.ts:8-178 | an unblocked page whose scrape is kept gives that scrape; a failed request, a blocked page or a scrape that is not kept gives the fallback result; the result is a well-formed CodeChef profile or one of the two errors |
| Contests.ToContest | server/src/utils/fetchContests.ts:30-39 | a stored row has the entry's title and site as its key, its start time, end time and url, and as duration the whole minutes (floored) of the entry's milliseconds |
| Contests.TwoHoursIsOneHundredTwentyMinutes | server/src/utils/fetchContests.ts:36 | 7200000 ms is stored as 120 minutes |
| Contests.Step | server/src/utils/fetchContests.ts:23-40 | (definition) an entry whose key is stored leaves the rows as they are; otherwise its row is appended |
| Contests.Ingest | server/src/utils/fetchContests.ts:22-41 | (definition) Step over the feed in order; the Ingest lemmas state its properties |
| Contests.ContestStore.FindFirst | server/src/utils/fetchContests.ts:23-28 | null exactly when no row has the key; otherwise a stored row |
| Contests.ContestStore.Create | server/src/utils/fetchContests.ts:30-39 | the row is appended and nothing else changes |
| Contests.IngestConcat | server/src/utils/fetchContests.ts:22-41 | ingesting two feeds in turn is ingesting their concatenation |
| Contests.IngestExtends | server/src/utils/fetchContests.ts:22-41 | existing rows are never changed or removed |
| Contests.IngestKeys | server/src/utils/fetchContests.ts:22-41 | afterwards the keys are the old keys plus the feed's keys |
| Contests.IngestNoDuplicates | server/src/utils/fetchContests.ts:22-41 | a table without duplicate (name, platform) keys keeps none |
| Contests.IngestKnown | server/src/utils/fetchContests.ts:29 | a feed whose keys are all stored changes nothing |
| Contests.IngestIdempotent | server/src/utils/fetchContests.ts:22-41 | running the same feed twice stores nothing the second time |
| Contests.IngestFirstWins | server/src/utils/fetchContests.ts:22-41 | of several feed entries with a new key, the first is stored and is the only row with that key |
| Contests.IngestGrowth | server/src/utils/fetchContests.ts:22-41 | the table grows by exactly the number of new keys |
| Contests.IngestKeepsKeys | server/src/utils/fetchContests.ts:22-41 | every key stored before a run is still stored after it |
| Contests.FetchAndStoreContests | server/src/utils/fetchContests.ts:15-46 | the table becomes the ingest of the entries processed before any failure; the outcome says whether the run completed |
| Contests.Processed | server/src/utils/fetchContests.ts:16-45 | (definition) the entries handled before the run stops: none when the fetch fails, those before the failing store, else all |
| Contests.Completes | server/src/utils/fetchContests.ts:16-42 | (definition) the fetch succeeds and no store fails |
| Contests.CompletedRun | server/src/utils/fetchContests.ts:22-41 | after a completed run every feed key is stored and the old rows are kept |
| ContestRoutes.DayOf | server/src/routes/contestRoutes.ts:23 | the day key of an instant is the UTC day containing it |
| ContestRoutes.DayOfMonotone | server/src/routes/contestRoutes.ts:23 | a later instant never has an earlier day |
| ContestRoutes.Upcoming | server/src/routes/contestRoutes.ts:9-18 | exactly the contests starting after now, each as often as in the table (a permutation of the filtered table), in start-time order |
| ContestRoutes.OnDay | server/src/routes/contestRoutes.ts:22-26 | (definition) the listed contests starting on the day, in listed order: the group the loop should build |
| ContestRoutes.Days | server/src/routes/contestRoutes.ts:22-26 | (definition) the start days in order of first appearance, each once: the keys the loop should create |
| ContestRoutes.OnDayMembers | server/src/routes/contestRoutes.ts:20-26 | a contest is in the group of a day exactly when it is listed and starts on that day |
| ContestRoutes.DaysMembers | server/src/routes/contestRoutes.ts:20-26 | the keys are distinct, are exactly the days some contest starts on, and no group is empty |
| ContestRoutes.DaysIncreasing | server/src/routes/contestRoutes.ts:16-26 | with contests in start-time order the keys come out in increasing day order |
| ContestRoutes.GroupSizesSum | server/src/routes/contestRoutes.ts:22-26 | the group sizes add up to the number of contests listed |
| ContestRoutes.GroupTotal | server/src/routes/contestRoutes.ts:20-26 | (definition) the sum of the group sizes over a list of keys |
| ContestRoutes.GroupByDay | server/src/routes/contestRoutes.ts:20-26 | the loop creates one key per day in order of first appearance, each group that day's contests in listed order |
| ContestRoutes.UpcomingHandler | server/src/routes/contestRoutes.ts:7-33 | a failing query gives status 500 with the error text; otherwise the grouping of the upcoming contests |
| ContestRoutes.UpcomingReply | server/src/routes/contestRoutes.ts:7-28 | only future contests, each in its start day's group, days increasing, no empty group, sizes adding up |
| UpcomingPage.WholeDays | client/src/app/upcoming-contests/page.tsx:41 | whole days left are never negative and positive exactly from 24 hours on |
| UpcomingPage.WholeHours | client/src/app/upcoming-contests/page.tsx:42 | the left-over hours are between 0 and 23 |
| UpcomingPage.Decomposition | client/src/app/upcoming-contests/page.tsx:41-42 | days × 86400000 + hours × 3600000 ≤ diff < days × 86400000 + (hours + 1) × 3600000 |
| UpcomingPage.DecompositionUnique | client/src/app/upcoming-contests/page.tsx:41-42 | no other days and hours with hours ≤ 23 satisfy those bounds |
| UpcomingPage.Quantity | client/src/app/upcoming-contests/page.tsx:44 | a count phrase starts with a digit and ends in 's' exactly when the count is not 1 |
| UpcomingPage.TimeLeft | client/src/app/upcoming-contests/page.tsx:34-45 | with time left, the text starts with a digit |
| UpcomingPage.TimeLeftStarted | client/src/app/upcoming-contests/page.tsx:37-39 | the text is "Started" exactly when diff ≤ 0 |
| UpcomingPage.TimeLeftLeadingCount | client/src/app/upcoming-contests/page.tsx:44 | the text's leading number reads back as the days left, or the hours when under a day is left |
| UpcomingPage.TimeLeftMentionsDays | client/src/app/upcoming-contests/page.tsx:44 | the days segment appears exactly when at least a day is left |
| UpcomingPage.TimeLeftPlurals | client/src/app/upcoming-contests/page.tsx:44 | "hour" and "day" are singular exactly when their count is 1 |
| UpcomingPage.DayHeaderLabel | client/src/app/upcoming-contests/page.tsx:25-31 | "Today" exactly for 0, "Tomorrow" exactly for 1, otherwise "In N days (date)" |
| UpcomingPage.DayHeaderLabelInjective | client/src/app/upcoming-contests/page.tsx:25-31 | different day differences never share a label, whatever the date texts |
| UpcomingPage.LocalMidnight | client/src/app/upcoming-contests/page.tsx:20-21 | (definition) the UTC instant of the local midnight starting a local day, for a given offset |
| UpcomingPage.DiffDaysFloored | client/src/app/upcoming-contests/page.tsx:23 | (definition) the gap between two local midnights, floored to whole days, as written |
| UpcomingPage.DiffDaysFlooredSameOffset | client/src/app/upcoming-contests/page.tsx:20-23 | with one UTC offset throughout, the floored gap between local midnights is the number of calendar days |
| UpcomingPage.SpringForwardTomorrowIsToday | client/src/app/upcoming-contests/page.tsx:23-25 | as written, when the clocks go forward one hour before tomorrow, tomorrow's group is labelled "Today" |
| UpcomingPage.DiffDays | client/src/app/upcoming-contests/page.tsx:23 | (definition) the corrected gap, rounded to the nearest whole day |
| UpcomingPage.DiffDaysCounted | client/src/app/upcoming-contests/page.tsx:23 | rounding the gap gives the number of calendar days whenever the offset changes by less than half a day |
| UpcomingPage.DayHeader | client/src/app/upcoming-contests/page.tsx:17-32 | (definition) the corrected header: the group's date read as a local date, the gap rounded |
| UpcomingPage.DayHeaderNamesTheDay | client/src/app/upcoming-contests/page.tsx:17-32 | with the group's date read as a local date and the gap rounded, "Today" names exactly today, "Tomorrow" exactly tomorrow, and a later day shows its distance |
| UpcomingPage.KeyLocalDay | client/src/app/upcoming-contests/page.tsx:19-21 | the local day whose local midnights enclose the UTC midnight of the key date |
| UpcomingPage.KeyLocalDayEast | client/src/app/upcoming-contests/page.tsx:19-21 | on or east of UTC, that day is the key's own day |
| UpcomingPage.KeyLocalDayWest | client/src/app/upcoming-contests/page.tsx:19-21 | west of UTC, that day is the day before the key |
| UpcomingPage.PageDayHeader | client/src/app/upcoming-contests/page.tsx:17-32 | as written: the label of the floored gap to the local day that contains the key's UTC midnight |
| UpcomingPage.PageDayHeaderEast | client/src/app/upcoming-contests/page.tsx:17-32 | on or east of UTC, with one offset, each group is labelled by its own distance in days |
| UpcomingPage.PageDayHeaderWest | client/src/app/upcoming-contests/page.tsx:17-32 | west of UTC, with one offset, each group is labelled one day early, and tomorrow's group reads "Today" |
| UpcomingPage.NewYorkTomorrowIsToday | client/src/app/upcoming-contests/page.tsx:19-25 | in New York (UTC-4) on 2026-10-11, the group keyed 2026-10-12 is headed "Today" |
| ClassNames.Kept | client/lib/utils.ts:2 | at most one word per argument, none empty |
| ClassNames.Join | client/lib/utils.ts:2 | joining no words gives '' and one word gives the word |
| ClassNames.Cn | client/lib/utils.ts:1-3 | (definition) `args.filter(Boolean).join(' ')`: the kept words joined by single spaces; CnEmptyIff, CnConcat, FalsyIgnored, SingleArgument, KeptOrder, KeptIndex and KeptFrom state its properties |
| ClassNames.KeptConcat | client/lib/utils.ts:2 | the kept words of two argument lists are the kept words of each, in order |
| ClassNames.JoinConcat | client/lib/utils.ts:2 | joining two word lists puts a single space between the two joins when both are non-empty |
| ClassNames.CnEmptyIff | client/lib/utils.ts:2 | the output is '' exactly when no argument is truthy |
| ClassNames.CnConcat | client/lib/utils.ts:1-3 | `cn(...a, ...b)` is `cn(...a)` and `cn(...b)` joined by a space, which appears only when both are non-empty |
| ClassNames.FalsyIgnored | client/lib/utils.ts:2 | a `false`, `undefined` or `''` argument, wherever it stands, does not change the output |
| ClassNames.SingleArgument | client/lib/utils.ts:2 | a single non-empty string comes back unchanged, `true` gives "true", a single falsy argument gives '' |
| ClassNames.KeptOrder | client/lib/utils.ts:2 | two truthy arguments appear in the output words in their argument order |
| ClassNames.KeptIndex | client/lib/utils.ts:2 | every truthy argument appears among the output words |
| ClassNames.KeptFrom | client/lib/utils.ts:2 | every output word is the text of a truthy argument |

## Left out

- Network I/O is not modelled. That covers axios, headers, timeouts, `Promise.all` and the concurrent fetches. Each reply is an input, and a request that throws is `None`.
- HTML and JSON decoding are not modelled: cheerio's selector queries and `JSON.parse`. The CodeChef scraper's input is the selected texts. The LeetCode node searches run on the parsed node graph (ObjectGraph), but the LeetCode scraper itself takes the fields already read from the found nodes.
- Leetcode.TryScrape: takes the decoded `ScrapedNodes` record, not the node graph. Reading the fields out of the nodes that LocateProfileNodes finds is not modelled. The ranking search (`'rating' in v`, fetchLeetcode.ts:159-162) can also land on a history entry or any other object with a `rating` key; the model takes whatever ranking record it is given.
- Regular expressions are not modelled as such. The three patterns used are written as sequence functions: the marker search, `[^\d]` stripping and the first `\d+` run.
- Text.ToNumber: models `Number(text)` only on blank and digit-only texts. Signs, decimals, exponents and hexadecimal read as NaN (`None`).
- Codechef.BadgeSum: a signed badge such as "-3" counts as `Number("-3")` = -3 in the source. The model reads it as NaN and adds nothing, so its sum is never negative.
- Codechef.Blocked: `html.length < 5000` counts UTF-16 code units. The model's `|body| < MinPageLength` counts characters (code points), so a page heavy in characters outside the Basic Multilingual Plane can be measured shorter than in the source.
- Codechef.MaxRating: a header with no digits makes the source compute `NaN`, which JSON writes as null. It is modelled as `None`.
- Floating point is not modelled. LeetCode ratings are fractional, and `Number` loses precision on long digit strings. Ratings, ranks and times are unbounded integers.
- Codeforces.CollectSolved: the key `${contestId}-${index}` is modelled as the pair (contestId, index). The two are interchangeable because a number's text contains no '-' after its first character.
- Codeforces.CountDifficulties: `forEach` visits the set in insertion order, but the counts do not depend on the order, so the model iterates in any order.
- Codechef.FallbackProfile: the model gives every fallback contest a name and a rank field. A `null` element inside the `contests` array, which would throw and give the generic error, is not modelled.
- Contests.FetchAndStoreContests: the model assumes one run at a time. Duplicates from two concurrent runs, which only a database constraint could prevent, are out of scope, and so are the log messages.
- ContestRoutes.Upcoming: the database's order among contests with equal start times is taken as the stable order of the table.
- Dates and locales are not modelled beyond the points below:
  - `toISOString().split('T')[0]` is modelled by the UTC day number. The `YYYY-MM-DD` text names that day.
  - `toLocaleDateString` is the input `dateText`.
  - `toLocaleString` on the page is not modelled.
- UpcomingPage.TimeLeft: takes `diff` = start − now as its input. Reading the clock is not modelled.
- UpcomingPage.DayHeader: takes the local day numbers and the UTC offsets at the two local midnights as inputs. PageDayHeader models how `new Date('YYYY-MM-DD')` (UTC midnight) lands on a local day, using one offset for the key's day; a daylight-saving change between the key's UTC midnight and its local midnight is not modelled.
- The page's rendering and data loading are not modelled, beyond the two helpers. That covers `useEffect` and `fetch`, and the skipping of empty or non-array groups.
- Several files are not part of this model:
  - server/src/routes/profileRoutes.ts: a database lookup and a concurrent fan-out to the three fetchers;
  - the authentication routes and middleware (bcrypt, JSON web tokens);
  - the user routes;
  - the server start-up;
  - the dashboard, register, navbar, layout and route-guard components.

## Findings

| source | as written | input that shows it | evidently intended | confidence | as-written member | corrected member |
|---|---|---|---|---|---|---|
| client/src/app/upcoming-contests/page.tsx:23 | `Math.floor((target − today) / 86400000)` over two local midnights | today is a day whose clocks go forward one hour (e.g. Europe/London, last Sunday of March), target tomorrow: the midnights are 23 hours apart, the floor is 0 and tomorrow's group is labelled "Today" (every later day is one short too) | the number of calendar days between the two dates | not executed | UpcomingPage.SpringForwardTomorrowIsToday | UpcomingPage.DiffDaysCounted |
| client/src/app/upcoming-contests/page.tsx:19 | `new Date(dateKey)` on the server's `YYYY-MM-DD` key, then `setHours(0, 0, 0, 0)` | a browser west of UTC, e.g. New York (UTC-4) on 2026-10-11: the key 2026-10-12 parses to 2026-10-12T00:00Z, which is 20:00 on 2026-10-11 locally, so setHours moves it to local 2026-10-11 and the group of tomorrow is headed "Today" (every group is one day early) | the key's calendar date taken as a local date, `new Date(y, m - 1, d)` | plausible, not executed | UpcomingPage.PageDayHeaderWest | UpcomingPage.DayHeaderNamesTheDay |
