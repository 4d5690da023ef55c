/** The CodeChef fetcher: the profile page is scraped unless it looks like a
    block or challenge page, the scrape is kept only when it found a rating,
    a ranked contest or a solved count, and otherwise a public rating API is
    asked. The page is an input: its status, its body and the texts the
    scraper's selectors pick out of it. */
module Codechef {
  import opened Wrappers
  import opened Profiles
  import Ranking
  import Text

  /** The generic error: the fallback request failed or its body was null. */
  const FetchError := "Failed to fetch CodeChef data"
  const ApiError := "Failed to fetch CodeChef data (fallback API)"

  /** Pages shorter than this are taken for a block or challenge page. */
  const MinPageLength := 5000

  function ProfileUrl(handle: string): string {
    "https://www.codechef.com/users/" + handle
  }

  // ------------------------------------------------------------ the page

  /** A row of the rating table: the texts of its cells (a missing cell reads
      as empty text). */
  datatype Row = Row(cells: seq<string>)

  function Cell(row: Row, i: nat): string {
    if i < |row.cells| then row.cells[i] else ""
  }

  /** What the scraper reads from the page. Each single field is the text
      of the first element its selector matches, "" when none does; the
      headings and badges of the solved-problems section and the rating
      table rows are listed in document order. */
  datatype Page = Page(
    nameHeading: string,          // `.h2-style`
    detailsHeading: string,       // `.user-details h1`
    ratingNumber: string,         // `.rating-number`
    ratingStar: string,           // `.rating-star`
    sectionRatingHeader: string,  // `section.rating-data-section .rating-header small`
    ratingHeader: string,         // `.rating-header small`
    sectionGlobalRank: string,    // `section.rating-data-section .rating-ranks ul li:nth-child(1) strong`
    globalRank: string,           // `.rating-ranks li:nth-child(1) strong`
    sectionCountryRank: string,   // `section.rating-data-section .rating-ranks ul li:nth-child(2) strong`
    countryRank: string,          // `.rating-ranks li:nth-child(2) strong`
    solvedHeadings: seq<string>,  // `section.problems-solved h5, .content h5`
    badges: seq<string>,          // `section.problems-solved .badge, .content .badge`
    rows: seq<Row>)               // `table.rating-table tbody tr`

  /** The page request's outcome: status, body and the parsed page. */
  datatype PageReply = PageReply(status: int, body: string, page: Page)

  // ------------------------------------------------------------ blocked pages

  const BlockMarkers: seq<string> := ["attention required", "cloudflare", "cf-error"]

  /** `/Attention Required|Cloudflare|cf-error/i.test(html)`: the markers are
      ASCII, so ignoring case is comparing ASCII-lowercased text. */
  predicate HasBlockMarker(body: string) {
    exists m :: m in BlockMarkers && Text.Contains(Text.ToLowerAscii(body), m)
  }

  /** A non-200 status, an empty or short body, or a block marker. */
  predicate Blocked(status: int, body: string) {
    status != 200 || body == [] || |body| < MinPageLength || HasBlockMarker(body)
  }

  /** `m` equals, letter case aside, the stretch of `body` starting at `i`. */
  predicate MatchesAt(body: string, m: string, i: int) {
    0 <= i <= |body| - |m| && Text.ToLowerAscii(body[i..i + |m|]) == m
  }

  /** The marker test is a case-insensitive substring test: some marker
      matches some stretch of the body. */
  lemma BlockMarkerAt(body: string)
    ensures HasBlockMarker(body) <==> exists m, i :: m in BlockMarkers && MatchesAt(body, m, i)
  {
    forall m | m in BlockMarkers
      ensures Text.Contains(Text.ToLowerAscii(body), m) <==> exists i :: MatchesAt(body, m, i)
    {
      MarkerAt(body, m);
    }
  }

  lemma MarkerAt(body: string, m: string)
    ensures Text.Contains(Text.ToLowerAscii(body), m) <==> exists i :: MatchesAt(body, m, i)
  {
    var lower := Text.ToLowerAscii(body);
    Text.ContainsAt(lower, m);
    if Text.Contains(lower, m) {
      var i :| 0 <= i <= |lower| && m <= lower[i..];
      MatchFromPrefix(body, m, i);
    }
    if exists i :: MatchesAt(body, m, i) {
      var i :| MatchesAt(body, m, i);
      PrefixFromMatch(body, m, i);
    }
  }

  lemma MatchFromPrefix(body: string, m: string, i: nat)
    requires i <= |body| && m <= Text.ToLowerAscii(body)[i..]
    ensures MatchesAt(body, m, i)
  {
    var lower := Text.ToLowerAscii(body);
    var a := Text.ToLowerAscii(body[i..i + |m|]);
    forall k | 0 <= k < |m| ensures a[k] == m[k] {
      assert a[k] == Text.LowerChar(body[i + k]) == lower[i + k];
      assert m[k] == lower[i..][k];
    }
    assert a == m;
  }

  lemma PrefixFromMatch(body: string, m: string, i: int)
    requires MatchesAt(body, m, i)
    ensures m <= Text.ToLowerAscii(body)[i..]
  {
    LowerSlice(body, i, i + |m|);
    var lower := Text.ToLowerAscii(body);
    assert lower[i..][..|m|] == lower[i..i + |m|];
  }

  lemma LowerSlice(body: string, i: nat, j: nat)
    requires i <= j <= |body|
    ensures Text.ToLowerAscii(body[i..j]) == Text.ToLowerAscii(body)[i..j]
  {
  }

  /** Letter case in the body does not matter. */
  lemma BlockMarkerIgnoresCase(body: string)
    ensures HasBlockMarker(Text.ToLowerAscii(body)) == HasBlockMarker(body)
  {
    var lower := Text.ToLowerAscii(body);
    assert Text.ToLowerAscii(lower) == lower;
  }

  // ------------------------------------------------------------ single fields

  /** `$(sel).first().text().trim() || null`. */
  function TextOf(raw: string): (r: Option<string>)
    ensures r.None? <==> Text.AllWhitespace(raw)
    ensures r.Some? ==> r.value == Text.Trim(raw) && r.value != []
  {
    Text.TrimEmptyIff(raw);
    var t := Text.Trim(raw);
    if t == [] then None else Some(t)
  }

  /** `text(name) || text(details) || handle`: the first non-blank heading,
      trimmed, else the handle. */
  function Username(page: Page, handle: string): (r: string)
    ensures !Text.AllWhitespace(page.nameHeading) ==> r == Text.Trim(page.nameHeading)
    ensures Text.AllWhitespace(page.nameHeading) && !Text.AllWhitespace(page.detailsHeading)
            ==> r == Text.Trim(page.detailsHeading)
    ensures Text.AllWhitespace(page.nameHeading) && Text.AllWhitespace(page.detailsHeading) ==> r == handle
  {
    TextOf(page.nameHeading).OrElse(TextOf(page.detailsHeading)).GetOr(handle)
  }

  /** `Number(text) || null`: a missing, zero or non-numeric text gives null. */
  function CurrentRating(page: Page): (r: Option<int>)
    ensures r.Some? <==> TextOf(page.ratingNumber).Some? && Text.ToNumber(page.ratingNumber).Some?
                         && Text.ToNumber(page.ratingNumber).value != 0
    ensures r.Some? ==> r.value > 0 && r.value == Text.ToNumber(page.ratingNumber).value
  {
    var t := TextOf(page.ratingNumber);
    if t.None? then None
    else
      Text.ToNumberOfTrim(page.ratingNumber);
      match Text.ToNumber(t.value)
      case Some(n) => NonZero(n)
      case None => None
  }

  /** `Number(text.match(/\d+/)?.[0])`: the value of the first run of
      digits, NaN (None) when there is none. */
  function FirstNumber(text: string): (r: Option<int>)
    ensures r.None? <==> Text.NoDigits(text)
    ensures r.Some? ==> r.value == Text.DigitsValue(Text.FirstDigitRun(text).value)
  {
    match Text.FirstDigitRun(text)
    case Some(run) => Some(Text.DigitsValue(run))
    case None => None
  }

  /** The max-rating header is the section's one when present, else the
      plain one; none gives null, and a header without digits gives NaN,
      which the JSON reply carries as null. */
  function MaxRating(page: Page): (r: Option<int>)
    ensures TextOf(page.sectionRatingHeader).None? && TextOf(page.ratingHeader).None? ==> r.None?
    ensures TextOf(page.sectionRatingHeader).Some? ==> r == FirstNumber(Text.Trim(page.sectionRatingHeader))
    ensures (TextOf(page.sectionRatingHeader).None? && TextOf(page.ratingHeader).Some?)
            ==> r == FirstNumber(Text.Trim(page.ratingHeader))
  {
    var t := TextOf(page.sectionRatingHeader).OrElse(TextOf(page.ratingHeader));
    if t.None? then None else FirstNumber(t.value)
  }

  /** `text(section) || text(plain) || null`, kept as text. */
  function RankText(section: string, plain: string): (r: Option<RankValue>)
    ensures !Text.AllWhitespace(section) ==> r == Some(RankLabel(Text.Trim(section)))
    ensures Text.AllWhitespace(section) && !Text.AllWhitespace(plain) ==> r == Some(RankLabel(Text.Trim(plain)))
    ensures Text.AllWhitespace(section) && Text.AllWhitespace(plain) ==> r.None?
  {
    var t := TextOf(section).OrElse(TextOf(plain));
    if t.Some? then Some(RankLabel(t.value)) else None
  }

  // ------------------------------------------------------------ solved count

  predicate FullySolved(heading: string) {
    Text.Contains(Text.ToLowerAscii(heading), "fully solved")
  }

  /** The first heading that mentions "fully solved", in any letter case. */
  function FirstFullySolved(headings: seq<string>): (r: Option<nat>)
    ensures r.None? <==> forall i :: 0 <= i < |headings| ==> !FullySolved(headings[i])
    ensures r.Some? ==> r.value < |headings| && FullySolved(headings[r.value])
                        && forall j :: 0 <= j < r.value ==> !FullySolved(headings[j])
  {
    if headings == [] then None
    else if FullySolved(headings[0]) then Some(0)
    else
      var rest := FirstFullySolved(headings[1..]);
      assert forall i :: 1 <= i < |headings| ==> headings[i] == headings[1..][i - 1];
      if rest.Some? then Some(rest.value + 1) else None
  }

  /** The sum of the badges that read as numbers; `Number` of an empty badge
      is 0 and a badge that is not a number is skipped. */
  function BadgeSum(badges: seq<string>): (n: int)
    ensures n >= 0
    ensures |badges| == 1 ==> n == Text.ToNumber(badges[0]).GetOr(0)
  {
    if badges == [] then 0
    else BadgeSum(badges[..|badges| - 1]) + Text.ToNumber(badges[|badges| - 1]).GetOr(0)
  }

  lemma {:induction false} BadgeSumConcat(a: seq<string>, b: seq<string>)
    ensures BadgeSum(a + b) == BadgeSum(a) + BadgeSum(b)
    decreases |b|
  {
    if b == [] {
      assert a + b == a;
    } else {
      var c := b[..|b| - 1];
      assert (a + b)[..|a + b| - 1] == a + c;
      BadgeSumConcat(a, c);
    }
  }

  /** A badge that is not a number changes nothing. */
  lemma BadgeSumSkipsNonNumbers(a: seq<string>, x: string, b: seq<string>)
    requires Text.ToNumber(x).None?
    ensures BadgeSum(a + [x] + b) == BadgeSum(a + b)
  {
    BadgeSumConcat(a + [x], b);
    BadgeSumConcat(a, [x]);
    BadgeSumConcat(a, b);
    assert [x][..0] == [];
  }

  /** The badge loop: `sum += n` for every badge that is a number. */
  method SumBadges(badges: seq<string>) returns (sum: int)
    ensures sum == BadgeSum(badges)
  {
    sum := 0;
    var i := 0;
    while i < |badges|
      invariant 0 <= i <= |badges|
      invariant sum == BadgeSum(badges[..i])
    {
      var n := Text.ToNumber(badges[i]);
      if n.Some? {
        sum := sum + n.value;
      }
      BadgeSumStep(badges, i);
      i := i + 1;
    }
    assert badges[..i] == badges;
  }

  lemma BadgeSumStep(badges: seq<string>, i: nat)
    requires i < |badges|
    ensures BadgeSum(badges[..i + 1]) == BadgeSum(badges[..i]) + Text.ToNumber(badges[i]).GetOr(0)
  {
    assert badges[..i + 1][..i] == badges[..i];
  }

  /** The solved count: the first digit run of the first "fully solved"
      heading (null when it has none), else the badge sum with 0 as null. */
  function SolvedCount(page: Page): (r: Option<int>)
    ensures FirstFullySolved(page.solvedHeadings).None? ==>
              (r.None? <==> BadgeSum(page.badges) == 0) && (r.Some? ==> r.value == BadgeSum(page.badges))
    ensures FirstFullySolved(page.solvedHeadings).Some? ==>
              var h := page.solvedHeadings[FirstFullySolved(page.solvedHeadings).value];
              r == FirstNumber(h)
  {
    var first := FirstFullySolved(page.solvedHeadings);
    if first.Some? then FirstNumber(page.solvedHeadings[first.value])
    else NonZero(BadgeSum(page.badges))
  }

  // ------------------------------------------------------------ contests

  /** A parsed table row. */
  datatype ContestRow = ContestRow(contestName: string, rank: Option<int>, rating: Option<int>)

  /** `text.trim().replace(/[^\d]/g, '')`, then null for nothing left and the
      decimal value otherwise. */
  function ParseCell(text: string): (r: Option<int>)
    ensures r.None? <==> Text.NoDigits(text)
    ensures r.Some? ==> r.value == Text.DigitsValue(Text.StripNonDigits(text)) && r.value >= 0
  {
    Text.StripNonDigitsIgnoresTrim(text);
    var digits := Text.StripNonDigits(Text.Trim(text));
    if digits == [] then None else Some(Text.DigitsValue(digits))
  }

  function ParseRow(row: Row): ContestRow {
    ContestRow(Text.Trim(Cell(row, 0)), ParseCell(Cell(row, 1)), ParseCell(Cell(row, 3)))
  }

  /** The row loop, `contests.push(parse(tr))` for each row: one parsed row
      per table row, in order. The row parser is a parameter (`ParseRow` at
      the one call site). */
  method CollectRows(rows: seq<Row>, parse: Row -> ContestRow) returns (contests: seq<ContestRow>)
    ensures |contests| == |rows|
    ensures forall i :: 0 <= i < |rows| ==> contests[i] == parse(rows[i])
  {
    contests := [];
    var i := 0;
    while i < |rows|
      invariant 0 <= i <= |rows|
      invariant |contests| == i
      invariant forall j :: 0 <= j < i ==> contests[j] == parse(rows[j])
    {
      contests := contests + [parse(rows[i])];
      i := i + 1;
    }
  }

  function ParseRows(rows: seq<Row>): (r: seq<ContestRow>)
    ensures |r| == |rows|
    ensures forall i :: 0 <= i < |rows| ==> r[i] == ParseRow(rows[i])
  {
    seq(|rows|, i requires 0 <= i < |rows| => ParseRow(rows[i]))
  }

  predicate HasRank(c: ContestRow) { c.rank.Some? }

  function RowRank(c: ContestRow): int { c.rank.GetOr(0) }

  function RowTopContest(c: ContestRow): TopContest {
    TopContest(c.contestName, RowRank(c), c.rating, None)
  }

  /** The rows with a rank, stably sorted by rank, the first five, without
      a time. */
  function TopContests(contests: seq<ContestRow>): seq<TopContest> {
    BestContests(contests, HasRank, RowRank, RowTopContest)
  }

  /** At most five, in rank order, each from a ranked row and without a time;
      the list is empty exactly when no row has a rank. */
  lemma TopContestsBest(contests: seq<ContestRow>)
    ensures |TopContests(contests)| <= 5
    ensures Ranking.SortedBy(TopContests(contests), ContestRank)
    ensures TopContests(contests) == [] <==> forall i :: 0 <= i < |contests| ==> contests[i].rank.None?
    ensures forall i :: 0 <= i < |TopContests(contests)| ==> TopContests(contests)[i].time.None?
  {
    BestContestsSorted(contests, HasRank, RowRank, RowTopContest);
    TopContestsEmptyIff(contests);
    forall i | 0 <= i < |TopContests(contests)| ensures TopContests(contests)[i].time.None? {
      BestContestsFrom(contests, HasRank, RowRank, RowTopContest, i);
    }
  }

  lemma TopContestsEmptyIff(contests: seq<ContestRow>)
    ensures TopContests(contests) == [] <==> forall i :: 0 <= i < |contests| ==> contests[i].rank.None?
  {
    Ranking.FilterEmptyIff(contests, HasRank);
  }

  // ------------------------------------------------------------ the scrape

  /** The scrape is kept when it found a rating, a ranked contest or a solved
      count. */
  predicate Accepted(currentRating: Option<int>, topContests: seq<TopContest>, solvedCount: Option<int>) {
    currentRating.Some? || |topContests| > 0 || solvedCount.Some?
  }

  /** The profile read from an unblocked page, or null when it is not kept. */
  function ScrapedProfile(handle: string, page: Page): (r: Option<Profile>)
    ensures r.Some? ==> r.value.Profile? && r.value.platform == CodeChef && WellFormed(r.value)
                        && r.value.difficultySolved.None? && r.value.ratingGraph == []
                        && r.value.profileUrl == ProfileUrl(handle)
                        && r.value.contestCount == Some(|page.rows|)
    ensures r.Some? ==> && r.value.username == Some(Username(page, handle))
                        && r.value.title == TextOf(page.ratingStar)
                        && r.value.currentRating == CurrentRating(page)
                        && r.value.maxRating == MaxRating(page)
                        && r.value.globalRank == RankText(page.sectionGlobalRank, page.globalRank)
                        && r.value.countryRank == RankText(page.sectionCountryRank, page.countryRank)
                        && r.value.solvedCount == SolvedCount(page)
                        && r.value.topContests == TopContests(ParseRows(page.rows))
  {
    var contests := ParseRows(page.rows);
    var current := CurrentRating(page);
    var top := TopContests(contests);
    var solved := SolvedCount(page);
    TopContestsBest(contests);
    if Accepted(current, top, solved) then
      Some(Profile(CodeChef, Some(Username(page, handle)), TextOf(page.ratingStar), current, MaxRating(page),
                   RankText(page.sectionGlobalRank, page.globalRank),
                   RankText(page.sectionCountryRank, page.countryRank),
                   solved, None, Some(|contests|), top, [], ProfileUrl(handle)))
    else None
  }

  /** The profile a kept scrape gives, field by field. */
  lemma KeptScrape(handle: string, page: Page)
    requires Accepted(CurrentRating(page), TopContests(ParseRows(page.rows)), SolvedCount(page))
    ensures ScrapedProfile(handle, page)
            == Some(Profile(CodeChef, Some(Username(page, handle)), TextOf(page.ratingStar), CurrentRating(page),
                            MaxRating(page), RankText(page.sectionGlobalRank, page.globalRank),
                            RankText(page.sectionCountryRank, page.countryRank), SolvedCount(page), None,
                            Some(|page.rows|), TopContests(ParseRows(page.rows)), [], ProfileUrl(handle)))
  {
  }

  /** The acceptance test: the scrape is kept exactly when the page has a
      non-zero rating, a row with a rank or a solved count. */
  lemma ScrapeAccepted(handle: string, page: Page)
    ensures ScrapedProfile(handle, page).Some? <==>
              CurrentRating(page).Some?
              || (exists i :: 0 <= i < |page.rows| && ParseCell(Cell(page.rows[i], 1)).Some?)
              || SolvedCount(page).Some?
  {
    RowsRanked(page.rows);
  }

  /** Some contest is listed exactly when some table row has a rank cell
      with digits. */
  lemma RowsRanked(rows: seq<Row>)
    ensures TopContests(ParseRows(rows)) != [] <==> exists i :: 0 <= i < |rows| && ParseCell(Cell(rows[i], 1)).Some?
  {
    var contests := ParseRows(rows);
    TopContestsEmptyIff(contests);
    forall i | 0 <= i < |rows| ensures contests[i].rank == ParseCell(Cell(rows[i], 1)) {
      assert contests[i] == ParseRow(rows[i]);
    }
  }

  // ------------------------------------------------------------ the fallback API

  datatype ApiContest = ApiContest(name: Option<string>, rank: Option<int>)

  datatype ApiData = ApiData(username: Option<string>, rating: Option<int>, stars: Option<string>,
                             globalRank: Option<RankValue>, countryRank: Option<RankValue>,
                             problemsSolved: Option<int>, participation: Option<int>,
                             contests: Option<seq<ApiContest>>)

  /** The reply body: JSON `null` (whose type is also "object"), an object,
      or any other value. */
  datatype ApiBody = NullBody | ObjectBody(data: ApiData) | OtherBody

  datatype ApiReply = ApiReply(status: int, body: ApiBody)

  predicate ApiRanked(c: ApiContest) { c.rank.Some? }

  function ApiRank(c: ApiContest): int { c.rank.GetOr(0) }

  function ApiTopContest(c: ApiContest): TopContest {
    TopContest(c.name.GetOr("Contest"), ApiRank(c), None, None)
  }

  /** `participation ?? (contests?.length ?? null)`. */
  function ApiContestCount(d: ApiData): (r: Option<int>)
    ensures d.participation.Some? ==> r == d.participation
    ensures d.participation.None? && d.contests.Some? ==> r == Some(|d.contests.value|)
    ensures d.participation.None? && d.contests.None? ==> r.None?
  {
    d.participation.OrElse(if d.contests.Some? then Some(|d.contests.value|) else None)
  }

  /** The fallback: a status-200 object gives a profile; a status-200 `null`
      body throws on its first field access and, like a failed request,
      gives the generic error; any other reply gives the fallback error. */
  function FallbackProfile(handle: string, reply: Option<ApiReply>): (p: Profile)
    ensures WellFormed(p)
    ensures p.Profile? <==> reply.Some? && reply.value.status == 200 && reply.value.body.ObjectBody?
    ensures p.Failure? ==>
              p.error == (if reply.None? || (reply.value.status == 200 && reply.value.body.NullBody?)
                          then FetchError else ApiError)
    ensures p.Profile? ==>
              var d := reply.value.body.data;
              && p.platform == CodeChef && p.maxRating.None? && p.difficultySolved.None?
              && p.ratingGraph == [] && p.profileUrl == ProfileUrl(handle)
              && p.username == Some(d.username.GetOr(handle))
              && p.title == d.stars && p.currentRating == d.rating
              && p.globalRank == d.globalRank && p.countryRank == d.countryRank
              && p.solvedCount == d.problemsSolved
              && p.contestCount == ApiContestCount(d)
              && p.topContests == BestContests(d.contests.GetOr([]), ApiRanked, ApiRank, ApiTopContest)
  {
    if reply.None? then Failure(FetchError)
    else if reply.value.status != 200 || reply.value.body.OtherBody? then Failure(ApiError)
    else if reply.value.body.NullBody? then Failure(FetchError)
    else
      var d := reply.value.body.data;
      var contests := d.contests.GetOr([]);
      BestContestsSorted(contests, ApiRanked, ApiRank, ApiTopContest);
      Profile(CodeChef, Some(d.username.GetOr(handle)), d.stars, d.rating, None, d.globalRank, d.countryRank,
              d.problemsSolved, None, ApiContestCount(d),
              BestContests(contests, ApiRanked, ApiRank, ApiTopContest), [], ProfileUrl(handle))
  }

  /** A fallback contest without a name is listed as "Contest". */
  lemma FallbackContestNames(contests: seq<ApiContest>, i: nat)
    requires i < |BestContests(contests, ApiRanked, ApiRank, ApiTopContest)|
    ensures exists c :: c in contests && c.rank.Some?
              && BestContests(contests, ApiRanked, ApiRank, ApiTopContest)[i]
                 == TopContest(if c.name.Some? then c.name.value else "Contest", c.rank.value, None, None)
  {
    BestContestsFrom(contests, ApiRanked, ApiRank, ApiTopContest, i);
  }

  // ------------------------------------------------------------ the fetcher

  /** The scrape of an unblocked page: the row loop and, without a "fully
      solved" heading, the badge loop, then the acceptance test. */
  method ScrapeCodechef(handle: string, page: Page) returns (r: Option<Profile>)
    ensures r == ScrapedProfile(handle, page)
  {
    var contests := CollectRows(page.rows, ParseRow);
    assert contests == ParseRows(page.rows);
    var solved: Option<int>;
    var first := FirstFullySolved(page.solvedHeadings);
    if first.Some? {
      solved := FirstNumber(page.solvedHeadings[first.value]);
    } else {
      var sum := SumBadges(page.badges);
      solved := NonZero(sum);
    }
    assert solved == SolvedCount(page);
    var current := CurrentRating(page);
    var top := TopContests(contests);
    if current.Some? || |top| > 0 || solved.Some? {
      KeptScrape(handle, page);
      r := Some(Profile(CodeChef, Some(Username(page, handle)), TextOf(page.ratingStar), current, MaxRating(page),
                        RankText(page.sectionGlobalRank, page.globalRank),
                        RankText(page.sectionCountryRank, page.countryRank),
                        solved, None, Some(|contests|), top, [], ProfileUrl(handle)));
    } else {
      r := None;
    }
  }

  /** `fetchCodechefData`. A blocked page is never parsed; an unblocked page
      whose scrape is kept gives that profile; everything else goes to the
      fallback API. Every result is a full CodeChef profile or an error. */
  method FetchCodechef(handle: string, pageReply: Option<PageReply>, apiReply: Option<ApiReply>)
    returns (p: Profile)
    ensures WellFormed(p)
    ensures p.Profile? ==> p.platform == CodeChef && p.difficultySolved.None? && p.ratingGraph == []
                           && p.profileUrl == ProfileUrl(handle)
    ensures p.Failure? ==> p.error == FetchError || p.error == ApiError
    ensures pageReply.Some? && !Blocked(pageReply.value.status, pageReply.value.body)
            && ScrapedProfile(handle, pageReply.value.page).Some?
            ==> p == ScrapedProfile(handle, pageReply.value.page).value
    ensures pageReply.None? || Blocked(pageReply.value.status, pageReply.value.body)
            || ScrapedProfile(handle, pageReply.value.page).None?
            ==> p == FallbackProfile(handle, apiReply)
  {
    if pageReply.Some? && !Blocked(pageReply.value.status, pageReply.value.body) {
      var scraped := ScrapeCodechef(handle, pageReply.value.page);
      if scraped.Some? {
        return scraped.value;
      }
    }
    p := FallbackProfile(handle, apiReply);
  }
}
