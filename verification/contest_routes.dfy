/** The `/upcoming` route: the stored contests that start after now, in
    start-time order, grouped by the UTC calendar day they start on. The
    groups form a dictionary whose keys keep the order in which they were
    first created. */
module ContestRoutes {
  import opened Wrappers
  import Ranking
  import opened Contests

  const MillisPerDay := 86400000
  const FetchError := "Failed to fetch contests"

  /** The UTC calendar day of an instant, counted in days since the epoch;
      the `YYYY-MM-DD` prefix of `toISOString()` names exactly this day. */
  function DayOf(ms: int): (d: int)
    ensures d * MillisPerDay <= ms < (d + 1) * MillisPerDay
  {
    ms / MillisPerDay
  }

  lemma DayOfMonotone(a: int, b: int)
    requires a <= b
    ensures DayOf(a) <= DayOf(b)
  {
  }

  function StartTime(c: Contest): int { c.startTime }

  function ContestDay(c: Contest): int { DayOf(c.startTime) }

  predicate IsFuture(now: int, c: Contest) { c.startTime > now }

  /** The query `findMany({ where: { startTime: { gt: now } }, orderBy: { startTime: 'asc' } })`:
      exactly the contests starting after `now`, ascending by start time. */
  function Upcoming(rows: seq<Contest>, now: int): (r: seq<Contest>)
    ensures Ranking.SortedBy(r, StartTime)
    ensures forall c :: c in r ==> c in rows && c.startTime > now
    ensures forall c :: c in rows && c.startTime > now ==> c in r
    ensures multiset(r) == multiset(Ranking.Filter(rows, c => IsFuture(now, c)))
  {
    var future := Ranking.Filter(rows, c => IsFuture(now, c));
    var r := Ranking.SortByKey(future, StartTime);
    assert forall c :: c in r <==> c in multiset(r);
    assert forall c :: c in future <==> c in multiset(future);
    r
  }

  // ------------------------------------------------------------ specification

  /** The contests of `s` starting on day `d`, in their order in `s`. */
  function OnDay(s: seq<Contest>, d: int): seq<Contest>
    decreases |s|
  {
    if s == [] then []
    else OnDay(s[..|s| - 1], d) + (if ContestDay(s[|s| - 1]) == d then [s[|s| - 1]] else [])
  }

  /** The days of `s`, each once, in order of first appearance. */
  function Days(s: seq<Contest>): seq<int>
    decreases |s|
  {
    if s == [] then []
    else
      var d := ContestDay(s[|s| - 1]);
      var before := Days(s[..|s| - 1]);
      if d in before then before else before + [d]
  }

  /** A contest is in the group of day `d` exactly when it is listed and
      starts on `d`: every listed contest is in exactly one group. */
  lemma {:induction false} OnDayMembers(s: seq<Contest>, d: int)
    ensures forall c :: c in OnDay(s, d) <==> c in s && ContestDay(c) == d
    decreases |s|
  {
    if s != [] {
      OnDayMembers(s[..|s| - 1], d);
      assert s == s[..|s| - 1] + [s[|s| - 1]];
    }
  }

  /** The days are distinct and are exactly the days some contest starts on;
      no group is empty. */
  lemma {:induction false} DaysMembers(s: seq<Contest>)
    ensures forall i, j :: 0 <= i < j < |Days(s)| ==> Days(s)[i] != Days(s)[j]
    ensures forall d :: d in Days(s) <==> exists c :: c in s && ContestDay(c) == d
    ensures forall d :: d in Days(s) ==> OnDay(s, d) != []
    decreases |s|
  {
    if s != [] {
      var init, last := s[..|s| - 1], s[|s| - 1];
      DaysMembers(init);
      assert s == init + [last];
      forall d | d in Days(s) ensures OnDay(s, d) != [] {
        if d != ContestDay(last) {
          assert d in Days(init);
        }
      }
    }
  }

  /** With contests in start-time order, the days come out in increasing
      order. */
  lemma {:induction false} DaysIncreasing(s: seq<Contest>)
    requires Ranking.SortedBy(s, StartTime)
    ensures forall i, j :: 0 <= i < j < |Days(s)| ==> Days(s)[i] < Days(s)[j]
    decreases |s|
  {
    if s != [] {
      var init, last := s[..|s| - 1], s[|s| - 1];
      assert Ranking.SortedBy(init, StartTime);
      DaysIncreasing(init);
      forall i | 0 <= i < |init| ensures ContestDay(init[i]) <= ContestDay(last) {
        DayOfMonotone(init[i].startTime, last.startTime);
      }
      DaysAtMost(init, ContestDay(last));
      var d, days := ContestDay(last), Days(s);
      if d !in Days(init) {
        assert days == Days(init) + [d];
        forall i, j | 0 <= i < j < |days| ensures days[i] < days[j] {
          if j == |days| - 1 {
            assert days[i] in Days(init);
          }
        }
      }
    }
  }

  /** A bound on the start day of every contest bounds every day key. */
  lemma {:induction false} DaysAtMost(s: seq<Contest>, b: int)
    requires forall i :: 0 <= i < |s| ==> ContestDay(s[i]) <= b
    ensures forall d :: d in Days(s) ==> d <= b
    decreases |s|
  {
    if s != [] {
      DaysAtMost(s[..|s| - 1], b);
    }
  }

  /** The total size of the groups named by `keys`. */
  function GroupTotal(keys: seq<int>, s: seq<Contest>): nat
    decreases |keys|
  {
    if keys == [] then 0 else GroupTotal(keys[..|keys| - 1], s) + |OnDay(s, keys[|keys| - 1])|
  }

  lemma {:induction false} GroupTotalAppend(keys: seq<int>, s: seq<Contest>)
    requires s != []
    requires forall i, j :: 0 <= i < j < |keys| ==> keys[i] != keys[j]
    ensures GroupTotal(keys, s) == GroupTotal(keys, s[..|s| - 1]) + (if ContestDay(s[|s| - 1]) in keys then 1 else 0)
    decreases |keys|
  {
    if keys != [] {
      var init := keys[..|keys| - 1];
      GroupTotalAppend(init, s);
      assert keys == init + [keys[|keys| - 1]];
    }
  }

  lemma GroupTotalNewKey(keys: seq<int>, s: seq<Contest>, d: int)
    ensures GroupTotal(keys + [d], s) == GroupTotal(keys, s) + |OnDay(s, d)|
  {
    assert (keys + [d])[..|keys|] == keys;
  }

  /** No contest of `s` starts on a day missing from `Days(s)`. */
  lemma {:induction false} OnDayEmpty(s: seq<Contest>, d: int)
    requires d !in Days(s)
    ensures OnDay(s, d) == []
    decreases |s|
  {
    if s != [] {
      OnDayEmpty(s[..|s| - 1], d);
    }
  }

  /** The group sizes add up to the number of listed contests. */
  lemma {:induction false} GroupSizesSum(s: seq<Contest>)
    ensures GroupTotal(Days(s), s) == |s|
    decreases |s|
  {
    if s != [] {
      var init, last := s[..|s| - 1], s[|s| - 1];
      var d := ContestDay(last);
      GroupSizesSum(init);
      DaysMembers(init);
      GroupTotalAppend(Days(init), s);
      if d !in Days(init) {
        GroupTotalNewKey(Days(init), s, d);
        OnDayEmpty(init, d);
      }
    }
  }

  // ------------------------------------------------------------ the handler

  /** The grouping loop: one key per day in order of first appearance, each
      group the day's contests in listed order. */
  method GroupByDay(listed: seq<Contest>) returns (keys: seq<int>, groups: map<int, seq<Contest>>)
    ensures keys == Days(listed)
    ensures forall k :: k in groups <==> k in keys
    ensures forall k :: k in groups ==> groups[k] == OnDay(listed, k)
  {
    keys := [];
    groups := map[];
    var i := 0;
    while i < |listed|
      invariant 0 <= i <= |listed|
      invariant keys == Days(listed[..i])
      invariant forall k :: k in groups <==> k in keys
      invariant forall k :: k in groups ==> groups[k] == OnDay(listed[..i], k)
    {
      var c := listed[i];
      var day := ContestDay(c);
      assert listed[..i + 1][..i] == listed[..i];
      if day !in groups {
        OnDayEmpty(listed[..i], day);
        keys := keys + [day];
        groups := groups[day := []];
      }
      groups := groups[day := groups[day] + [c]];
      i := i + 1;
    }
    assert listed[..i] == listed;
  }

  datatype Response =
    | Grouped(keys: seq<int>, groups: map<int, seq<Contest>>)
    | ServerError(status: int, error: string)

  /** `GET /upcoming`. `rows` is the contest table, None when the query
      throws. */
  method UpcomingHandler(rows: Option<seq<Contest>>, now: int) returns (resp: Response)
    ensures rows.None? <==> resp == ServerError(500, FetchError)
    ensures rows.Some? ==>
              var listed := Upcoming(rows.value, now);
              && resp.Grouped?
              && resp.keys == Days(listed)
              && (forall k :: k in resp.groups <==> k in resp.keys)
              && (forall k :: k in resp.groups ==> resp.groups[k] == OnDay(listed, k))
  {
    if rows.None? {
      return ServerError(500, FetchError);
    }
    var listed := Upcoming(rows.value, now);
    var keys, groups := GroupByDay(listed);
    return Grouped(keys, groups);
  }

  /** What the handler's reply promises: only future contests, each in the
      group of its start day, days in increasing order, no empty group, and
      the sizes adding up to the number listed. */
  lemma UpcomingReply(rows: seq<Contest>, now: int, c: Contest, d: int)
    ensures c in OnDay(Upcoming(rows, now), d) <==> c in rows && c.startTime > now && ContestDay(c) == d
    ensures forall i, j :: 0 <= i < j < |Days(Upcoming(rows, now))| ==>
              Days(Upcoming(rows, now))[i] < Days(Upcoming(rows, now))[j]
    ensures d in Days(Upcoming(rows, now)) ==> OnDay(Upcoming(rows, now), d) != []
    ensures GroupTotal(Days(Upcoming(rows, now)), Upcoming(rows, now)) == |Upcoming(rows, now)|
  {
    var listed := Upcoming(rows, now);
    OnDayMembers(listed, d);
    DaysIncreasing(listed);
    DaysMembers(listed);
    GroupSizesSum(listed);
  }
}
