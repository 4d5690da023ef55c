/** Contest ingestion: the upcoming-contests feed is walked in order and
    each entry is stored unless a contest with the same name and platform is
    already there. The store is the contest table, kept in memory; the feed
    and the point at which a store operation fails are inputs. */
module Contests {
  import opened Wrappers

  const MillisPerMinute := 60000

  /** One feed entry; times and the duration are in milliseconds. */
  datatype FeedEntry = FeedEntry(site: string, title: string, startTime: int, duration: int, endTime: int,
                                 url: string)

  /** A stored contest; times are in milliseconds, the duration in minutes. */
  datatype Contest = Contest(name: string, platform: string, startTime: int, endTime: int, duration: int,
                             link: string)

  /** The identity used for de-duplication: name and platform. */
  type Key = (string, string)

  function RowKey(c: Contest): Key { (c.name, c.platform) }

  function EntryKey(e: FeedEntry): Key { (e.title, e.site) }

  /** The row created for a new entry; the duration is floored to whole
      minutes. */
  function ToContest(e: FeedEntry): (c: Contest)
    ensures RowKey(c) == EntryKey(e)
    ensures c.startTime == e.startTime && c.endTime == e.endTime && c.link == e.url
    ensures c.duration * MillisPerMinute <= e.duration < (c.duration + 1) * MillisPerMinute
  {
    Contest(e.title, e.site, e.startTime, e.endTime, e.duration / MillisPerMinute, e.url)
  }

  lemma TwoHoursIsOneHundredTwentyMinutes(e: FeedEntry)
    requires e.duration == 7200000
    ensures ToContest(e).duration == 120
  {
  }

  function Keys(rows: seq<Contest>): set<Key> {
    set i | 0 <= i < |rows| :: RowKey(rows[i])
  }

  predicate NoDuplicateKeys(rows: seq<Contest>) {
    forall i, j :: 0 <= i < j < |rows| ==> RowKey(rows[i]) != RowKey(rows[j])
  }

  /** The contest table. */
  class ContestStore {
    var rows: seq<Contest>

    constructor ()
      ensures rows == []
    {
      rows := [];
    }

    /** `findFirst({ where: { name, platform } })`. */
    method FindFirst(name: string, platform: string) returns (found: Option<Contest>)
      ensures found.None? <==> (name, platform) !in Keys(rows)
      ensures found.Some? ==> exists i :: 0 <= i < |rows| && rows[i] == found.value
                                         && RowKey(rows[i]) == (name, platform)
                                         && forall j :: 0 <= j < i ==> RowKey(rows[j]) != (name, platform)
    {
      var i := 0;
      while i < |rows|
        invariant 0 <= i <= |rows|
        invariant forall j :: 0 <= j < i ==> RowKey(rows[j]) != (name, platform)
      {
        if RowKey(rows[i]) == (name, platform) {
          return Some(rows[i]);
        }
        i := i + 1;
      }
      return None;
    }

    /** `create({ data })`: appends a row. */
    method Create(c: Contest)
      modifies this
      ensures rows == old(rows) + [c]
    {
      rows := rows + [c];
    }
  }

  // ------------------------------------------------------------ specification

  /** Processing one entry: the store gains its row only when its key is new. */
  function Step(rows: seq<Contest>, e: FeedEntry): seq<Contest> {
    if EntryKey(e) in Keys(rows) then rows else rows + [ToContest(e)]
  }

  /** The store after processing `feed` in order. */
  function Ingest(rows: seq<Contest>, feed: seq<FeedEntry>): seq<Contest>
    decreases |feed|
  {
    if feed == [] then rows else Step(Ingest(rows, feed[..|feed| - 1]), feed[|feed| - 1])
  }

  lemma KeysAppend(rows: seq<Contest>, c: Contest)
    ensures Keys(rows + [c]) == Keys(rows) + {RowKey(c)}
  {
    var s := rows + [c];
    assert forall i :: 0 <= i < |rows| ==> s[i] == rows[i];
    assert s[|rows|] == c;
  }

  lemma {:induction false} IngestConcat(rows: seq<Contest>, a: seq<FeedEntry>, b: seq<FeedEntry>)
    ensures Ingest(rows, a + b) == Ingest(Ingest(rows, a), b)
    decreases |b|
  {
    if b == [] {
      assert a + b == a;
    } else {
      assert (a + b)[..|a + b| - 1] == a + b[..|b| - 1];
      IngestConcat(rows, a, b[..|b| - 1]);
    }
  }

  /** Insert-only: the rows already stored are kept, unchanged and in place. */
  lemma {:induction false} IngestExtends(rows: seq<Contest>, feed: seq<FeedEntry>)
    ensures rows <= Ingest(rows, feed)
    decreases |feed|
  {
    if feed != [] {
      IngestExtends(rows, feed[..|feed| - 1]);
    }
  }

  /** Afterwards the stored keys are the old ones plus the feed's keys. */
  lemma {:induction false} IngestKeys(rows: seq<Contest>, feed: seq<FeedEntry>)
    ensures Keys(Ingest(rows, feed)) == Keys(rows) + set e | e in feed :: EntryKey(e)
    decreases |feed|
  {
    if feed != [] {
      var init, last := feed[..|feed| - 1], feed[|feed| - 1];
      IngestKeys(rows, init);
      var before := Ingest(rows, init);
      if EntryKey(last) !in Keys(before) {
        KeysAppend(before, ToContest(last));
      }
      assert feed == init + [last];
      assert (set e | e in feed :: EntryKey(e)) == (set e | e in init :: EntryKey(e)) + {EntryKey(last)};
    }
  }

  /** A store without duplicate keys stays without them. */
  lemma {:induction false} IngestNoDuplicates(rows: seq<Contest>, feed: seq<FeedEntry>)
    requires NoDuplicateKeys(rows)
    ensures NoDuplicateKeys(Ingest(rows, feed))
    decreases |feed|
  {
    if feed != [] {
      var init, last := feed[..|feed| - 1], feed[|feed| - 1];
      IngestNoDuplicates(rows, init);
      var before := Ingest(rows, init);
      if EntryKey(last) !in Keys(before) {
        var after := before + [ToContest(last)];
        forall i, j | 0 <= i < j < |after| ensures RowKey(after[i]) != RowKey(after[j]) {
          if j == |before| {
            assert RowKey(after[i]) == RowKey(before[i]) && RowKey(before[i]) in Keys(before);
          }
        }
      }
    }
  }

  /** Entries whose keys are all stored already change nothing. */
  lemma {:induction false} IngestKnown(rows: seq<Contest>, feed: seq<FeedEntry>)
    requires forall e :: e in feed ==> EntryKey(e) in Keys(rows)
    ensures Ingest(rows, feed) == rows
    decreases |feed|
  {
    if feed != [] {
      IngestKnown(rows, feed[..|feed| - 1]);
      assert feed[|feed| - 1] in feed;
    }
  }

  /** Running twice on the same feed leaves the store as one run did. */
  lemma IngestIdempotent(rows: seq<Contest>, feed: seq<FeedEntry>)
    ensures Ingest(Ingest(rows, feed), feed) == Ingest(rows, feed)
  {
    IngestKeys(rows, feed);
    IngestKnown(Ingest(rows, feed), feed);
  }

  /** Within one feed the first entry with a new key wins: its row is stored,
      and it is the only row with that key. */
  lemma IngestFirstWins(rows: seq<Contest>, feed: seq<FeedEntry>, i: nat)
    requires NoDuplicateKeys(rows)
    requires i < |feed| && EntryKey(feed[i]) !in Keys(rows)
    requires forall j :: 0 <= j < i ==> EntryKey(feed[j]) != EntryKey(feed[i])
    ensures ToContest(feed[i]) in Ingest(rows, feed)
    ensures forall c :: c in Ingest(rows, feed) && RowKey(c) == EntryKey(feed[i]) ==> c == ToContest(feed[i])
  {
    var pos := IngestStoresFirst(rows, feed, i);
    var result := Ingest(rows, feed);
    IngestNoDuplicates(rows, feed);
    forall c | c in result && RowKey(c) == EntryKey(feed[i]) ensures c == ToContest(feed[i]) {
      var k :| 0 <= k < |result| && result[k] == c;
      assert RowKey(result[k]) == RowKey(result[pos]);
    }
  }

  /** The row of the first entry with a new key lands in the store. */
  lemma IngestStoresFirst(rows: seq<Contest>, feed: seq<FeedEntry>, i: nat) returns (pos: nat)
    requires i < |feed| && EntryKey(feed[i]) !in Keys(rows)
    requires forall j :: 0 <= j < i ==> EntryKey(feed[j]) != EntryKey(feed[i])
    ensures pos < |Ingest(rows, feed)| && Ingest(rows, feed)[pos] == ToContest(feed[i])
  {
    var before := Ingest(rows, feed[..i]);
    IngestKeys(rows, feed[..i]);
    assert EntryKey(feed[i]) !in Keys(before);
    assert feed[..i + 1][..i] == feed[..i];
    var after := Ingest(rows, feed[..i + 1]);
    assert after == before + [ToContest(feed[i])];
    assert feed == feed[..i + 1] + feed[i + 1..];
    IngestConcat(rows, feed[..i + 1], feed[i + 1..]);
    IngestExtends(after, feed[i + 1..]);
    pos := |before|;
  }

  /** The store grows by one row per key it did not hold before. */
  lemma IngestGrowth(rows: seq<Contest>, feed: seq<FeedEntry>)
    requires NoDuplicateKeys(rows)
    ensures |Ingest(rows, feed)| == |rows| + |Keys(Ingest(rows, feed)) - Keys(rows)|
  {
    var result := Ingest(rows, feed);
    IngestNoDuplicates(rows, feed);
    DistinctKeysCount(rows);
    DistinctKeysCount(result);
    IngestKeepsKeys(rows, feed);
    SubsetSplit(Keys(rows), Keys(result));
  }

  /** Every key stored before is still stored. */
  lemma IngestKeepsKeys(rows: seq<Contest>, feed: seq<FeedEntry>)
    ensures Keys(rows) <= Keys(Ingest(rows, feed))
  {
    var result := Ingest(rows, feed);
    IngestExtends(rows, feed);
    forall k | k in Keys(rows) ensures k in Keys(result) {
      var i :| 0 <= i < |rows| && RowKey(rows[i]) == k;
      assert result[i] == rows[i];
    }
  }

  /** A superset splits into the subset and the new elements. */
  lemma SubsetSplit<T>(a: set<T>, b: set<T>)
    requires a <= b
    ensures |b| == |a| + |b - a|
  {
    assert b == a + (b - a);
  }

  /** Without duplicates there are as many keys as rows. */
  lemma {:induction false} DistinctKeysCount(rows: seq<Contest>)
    requires NoDuplicateKeys(rows)
    ensures |Keys(rows)| == |rows|
    decreases |rows|
  {
    if rows != [] {
      var init := rows[..|rows| - 1];
      DistinctKeysCount(init);
      assert rows == init + [rows[|rows| - 1]];
      KeysAppend(init, rows[|rows| - 1]);
      assert RowKey(rows[|rows| - 1]) !in Keys(init);
    }
  }

  // ------------------------------------------------------------ the run

  /** How a run ended: the success message or the logged error. */
  datatype RunOutcome = Stored | Failed

  /** The entries a run gets through: none when the feed could not be
      fetched, those before the failing one when a store operation fails,
      all of them otherwise. */
  function Processed(feed: Option<seq<FeedEntry>>, failAt: Option<nat>): seq<FeedEntry> {
    if feed.None? then []
    else if failAt.Some? && failAt.value < |feed.value| then feed.value[..failAt.value]
    else feed.value
  }

  predicate Completes(feed: Option<seq<FeedEntry>>, failAt: Option<nat>) {
    feed.Some? && (failAt.None? || failAt.value >= |feed.value|)
  }

  /** `fetchAndStoreContests`. `feed` is the fetched list (None when the
      request fails) and `failAt` the index of the entry at which a store
      operation throws, if any. The run stops there, keeps what it stored and
      reports the error instead of throwing. */
  method FetchAndStoreContests(store: ContestStore, feed: Option<seq<FeedEntry>>, failAt: Option<nat>)
    returns (outcome: RunOutcome)
    modifies store
    ensures store.rows == Ingest(old(store.rows), Processed(feed, failAt))
    ensures outcome == (if Completes(feed, failAt) then Stored else Failed)
  {
    if feed.None? {
      return Failed;
    }
    var entries := feed.value;
    var i := 0;
    while i < |entries|
      invariant 0 <= i <= |entries|
      invariant failAt.Some? && failAt.value < |entries| ==> i <= failAt.value
      invariant store.rows == Ingest(old(store.rows), entries[..i])
    {
      if failAt == Some(i) {
        return Failed;
      }
      var existing := store.FindFirst(entries[i].title, entries[i].site);
      if existing.None? {
        store.Create(ToContest(entries[i]));
      }
      assert entries[..i + 1][..i] == entries[..i];
      i := i + 1;
    }
    assert entries[..i] == entries;
    return Stored;
  }

  /** After a run that completes, every entry's key is stored and nothing
      stored before was changed or removed. */
  lemma CompletedRun(rows: seq<Contest>, feed: seq<FeedEntry>)
    ensures rows <= Ingest(rows, Processed(Some(feed), None))
    ensures forall e :: e in feed ==> EntryKey(e) in Keys(Ingest(rows, Processed(Some(feed), None)))
  {
    IngestExtends(rows, feed);
    IngestKeys(rows, feed);
  }
}
