/** The two text helpers of the upcoming-contests page: the countdown shown
    next to each contest and the label above each day's group. Times are
    integer milliseconds; `now` and the locale-formatted date are inputs. */
module UpcomingPage {
  import opened Text

  const MillisPerHour := 3600000
  const MillisPerDay := 86400000

  // ------------------------------------------------------------ time left

  /** `Math.floor(diff / 86400000)`: whole days left. */
  function WholeDays(diff: int): (days: int)
    requires diff > 0
    ensures days >= 0 && (days > 0 <==> diff >= MillisPerDay)
  {
    diff / MillisPerDay
  }

  /** `Math.floor((diff % 86400000) / 3600000)`: whole hours left over. */
  function WholeHours(diff: int): (hours: int)
    requires diff > 0
    ensures 0 <= hours <= 23
  {
    (diff % MillisPerDay) / MillisPerHour
  }

  /** The countdown splits `diff` into whole days and at most 23 whole hours,
      and loses less than one hour. */
  lemma Decomposition(diff: int)
    requires diff > 0
    ensures WholeDays(diff) * MillisPerDay + WholeHours(diff) * MillisPerHour <= diff
    ensures diff < WholeDays(diff) * MillisPerDay + (WholeHours(diff) + 1) * MillisPerHour
  {
    var r := diff % MillisPerDay;
    assert diff == WholeDays(diff) * MillisPerDay + r;
    assert r == WholeHours(diff) * MillisPerHour + r % MillisPerHour;
  }

  /** The split is the only one with those bounds. */
  lemma DecompositionUnique(diff: int, days: int, hours: int)
    requires diff > 0 && 0 <= hours <= 23
    requires days * MillisPerDay + hours * MillisPerHour <= diff < days * MillisPerDay + (hours + 1) * MillisPerHour
    ensures days == WholeDays(diff) && hours == WholeHours(diff)
  {
    Decomposition(diff);
    var d, h := WholeDays(diff), WholeHours(diff);
    var t, u := days * 24 + hours, d * 24 + h;
    assert t * MillisPerHour <= diff < (t + 1) * MillisPerHour;
    assert u * MillisPerHour <= diff < (u + 1) * MillisPerHour;
  }

  /** `${n} ${unit}` with an `s` unless `n` is exactly 1. */
  function Quantity(n: nat, unit: string): (r: string)
    ensures |r| > 0 && IsDigit(r[0])
    ensures r[|r| - 1] == 's' <==> n != 1 || (unit != [] && unit[|unit| - 1] == 's')
  {
    DecimalString(n) + " " + unit + (if n != 1 then "s" else "")
  }

  /** `getTimeLeft` for `diff` = start time minus now. */
  function TimeLeft(diff: int): (r: string)
    ensures diff > 0 ==> |r| > 0 && IsDigit(r[0])
  {
    if diff <= 0 then "Started"
    else
      var days, hours := WholeDays(diff), WholeHours(diff);
      (if days > 0 then Quantity(days, "day") + " " else "") + Quantity(hours, "hour")
  }

  /** The countdown reads "Started" exactly when the start time has come:
      any other text begins with a digit. */
  lemma TimeLeftStarted(diff: int)
    ensures TimeLeft(diff) == "Started" <==> diff <= 0
  {
    if diff > 0 {
      assert !IsDigit("Started"[0]);
    }
  }

  /** The text begins with the day count, or with the hour count when under a
      day is left: reading the leading digits back gives that count. */
  lemma TimeLeftLeadingCount(diff: int)
    requires diff > 0
    ensures var n := if WholeDays(diff) > 0 then WholeDays(diff) else WholeHours(diff);
            n >= 0 && LeadingDigits(TimeLeft(diff)) == DecimalString(n)
  {
    var days, hours := WholeDays(diff), WholeHours(diff);
    if days > 0 {
      TimeLeftWithDays(diff);
      LeadingCountOfQuantity(days, "day", " " + Quantity(hours, "hour"));
    } else {
      TimeLeftHoursOnly(diff);
      LeadingCountOfQuantity(hours, "hour", []);
      assert Quantity(hours, "hour") + [] == Quantity(hours, "hour");
    }
  }

  /** With a day or more left, the day phrase, a space and the hour phrase. */
  lemma TimeLeftWithDays(diff: int)
    requires diff > 0 && WholeDays(diff) > 0
    ensures TimeLeft(diff) == Quantity(WholeDays(diff), "day") + (" " + Quantity(WholeHours(diff), "hour"))
  {
  }

  /** With under a day left, the hour phrase alone. */
  lemma TimeLeftHoursOnly(diff: int)
    requires diff > 0 && WholeDays(diff) == 0
    ensures TimeLeft(diff) == Quantity(WholeHours(diff), "hour")
  {
  }

  /** A count phrase, whatever follows it, leads with the count's numeral. */
  lemma LeadingCountOfQuantity(n: nat, unit: string, rest: string)
    ensures LeadingDigits(Quantity(n, unit) + rest) == DecimalString(n)
  {
    var tail := " " + unit + (if n != 1 then "s" else "") + rest;
    assert Quantity(n, unit) + rest == DecimalString(n) + tail;
    LeadingDigitsOfNumeral(DecimalString(n), tail);
  }

  /** The days segment appears exactly when at least a day is left. */
  lemma TimeLeftMentionsDays(diff: int)
    requires diff > 0
    ensures 'd' in TimeLeft(diff) <==> diff >= MillisPerDay
  {
    Decomposition(diff);
    var days, hours := WholeDays(diff), WholeHours(diff);
    var hourPart := Quantity(hours, "hour");
    NumeralHasNoLetters(hours);
    assert forall i :: 0 <= i < |hourPart| ==> hourPart[i] != 'd';
    if days > 0 {
      var k := |DecimalString(days)|;
      assert TimeLeft(diff)[k + 1] == 'd';
    } else {
      assert TimeLeft(diff) == hourPart;
    }
  }

  /** "hour" is plural unless exactly one hour is left over; "day" is plural
      unless exactly one day is left. */
  lemma TimeLeftPlurals(diff: int)
    requires diff > 0
    ensures var r := TimeLeft(diff);
            r[|r| - 1] == 's' <==> WholeHours(diff) != 1
    ensures WholeDays(diff) > 0 ==>
              var r, k := TimeLeft(diff), |DecimalString(WholeDays(diff))|;
              k + 5 < |r| && r[k..k + 4] == " day" && (r[k + 4] == 's' <==> WholeDays(diff) != 1)
  {
    var days, hours := WholeDays(diff), WholeHours(diff);
    var r, tail := TimeLeft(diff), Quantity(hours, "hour");
    var head := if days > 0 then Quantity(days, "day") + " " else "";
    assert r == head + tail;
    assert r[|r| - 1] == tail[|tail| - 1];
    if days > 0 {
      DayWord(days, tail);
    }
  }

  /** The day phrase: the numeral, " day", then 's' or the separating space. */
  lemma DayWord(days: nat, rest: string)
    requires rest != []
    ensures var r, k := Quantity(days, "day") + " " + rest, |DecimalString(days)|;
            k + 5 < |r| && r[k..k + 4] == " day" && (r[k + 4] == 's' <==> days != 1)
  {
    var num := DecimalString(days);
    var word := " day" + (if days != 1 then "s" else "") + " ";
    var r := Quantity(days, "day") + " " + rest;
    assert r == num + word + rest;
    assert r[|num|..|num| + 4] == word[..4];
    assert r[|num| + 4] == word[4];
  }

  /** A numeral followed by a non-digit: its leading digits are the numeral. */
  lemma LeadingDigitsOfNumeral(num: string, rest: string)
    requires AllDigits(num)
    requires rest == [] || !IsDigit(rest[0])
    ensures LeadingDigits(num + rest) == num
  {
    var s := num + rest;
    assert s[..|num|] == num;
  }

  lemma NumeralHasNoLetters(n: nat)
    ensures forall i :: 0 <= i < |DecimalString(n)| ==> IsDigit(DecimalString(n)[i])
  {
  }

  // ------------------------------------------------------------ day header

  /** The three branches of `getDayHeaderLabel` for a day difference;
      `dateText` is the locale-formatted weekday and date. */
  function DayHeaderLabel(diffDays: int, dateText: string): (r: string)
    ensures r == "Today" <==> diffDays == 0
    ensures r == "Tomorrow" <==> diffDays == 1
    ensures diffDays != 0 && diffDays != 1 ==> r == "In " + IntString(diffDays) + " days (" + dateText + ")"
  {
    if diffDays == 0 then "Today"
    else if diffDays == 1 then "Tomorrow"
    else
      var r := "In " + IntString(diffDays) + " days (" + dateText + ")";
      assert r[0] == 'I';
      r
  }

  /** Different day differences get different labels, whatever the date
      text: the number after "In " reads back as the difference. */
  lemma DayHeaderLabelInjective(m: int, n: int, a: string, b: string)
    requires DayHeaderLabel(m, a) == DayHeaderLabel(n, b)
    ensures m == n
  {
    if m != 0 && m != 1 && n != 0 && n != 1 {
      LabelTail(IntString(m), a);
      LabelTail(IntString(n), b);
      IntStringPrefixInjective(m, n, " days (" + a + ")", " days (" + b + ")");
    }
  }

  /** What follows "In " in the third form of the label. */
  lemma LabelTail(numeral: string, dateText: string)
    ensures ("In " + numeral + " days (" + dateText + ")")[3..] == numeral + (" days (" + dateText + ")")
  {
  }

  /** A signed numeral followed by a non-digit can be read back. */
  lemma IntStringPrefixInjective(m: int, n: int, x: string, y: string)
    requires x != [] && !IsDigit(x[0]) && x[0] != '-'
    requires y != [] && !IsDigit(y[0]) && y[0] != '-'
    requires IntString(m) + x == IntString(n) + y
    ensures m == n
  {
    var im, iN := IntString(m), IntString(n);
    assert (im + x)[0] == im[0] && (iN + y)[0] == iN[0];
    if m >= 0 {
      NumeralPrefix(im, iN, x, y);
      DecimalStringInjective(m, n);
    } else {
      assert (im + x)[1..] == im[1..] + x;
      assert (iN + y)[1..] == iN[1..] + y;
      NumeralPrefix(im[1..], iN[1..], x, y);
      DecimalStringInjective(-m, -n);
    }
  }

  /** Two digit strings, each followed by a non-digit, that spell the same
      text are the same numeral. */
  lemma NumeralPrefix(a: string, b: string, x: string, y: string)
    requires AllDigits(a) && AllDigits(b)
    requires x == [] || !IsDigit(x[0])
    requires y == [] || !IsDigit(y[0])
    requires a + x == b + y
    ensures a == b
  {
    LeadingDigitsOfNumeral(a, x);
    LeadingDigitsOfNumeral(b, y);
  }

  /** The instant (UTC milliseconds) of local midnight starting local
      calendar day `day`, when the local clock is `offset` ms ahead of UTC. */
  function LocalMidnight(day: int, offset: int): int {
    day * MillisPerDay - offset
  }

  /** `diffDays` as written: the floor of the gap between the two local
      midnights over 24 hours. The offsets at the two midnights differ when a
      daylight-saving change falls between them. */
  function DiffDaysFloored(today: int, target: int, offsetToday: int, offsetTarget: int): int {
    (LocalMidnight(target, offsetTarget) - LocalMidnight(today, offsetToday)) / MillisPerDay
  }

  /** With one offset throughout, the floored gap is the number of calendar
      days. */
  lemma DiffDaysFlooredSameOffset(today: int, target: int, offset: int)
    ensures DiffDaysFloored(today, target, offset, offset) == target - today
  {
    assert LocalMidnight(target, offset) - LocalMidnight(today, offset) == (target - today) * MillisPerDay;
  }

  /** Spring forward between today and tomorrow (the offset grows by one hour,
      as on the last Sunday of March in London): tomorrow's local midnight is
      only 23 hours away, the floor gives 0 and tomorrow is labelled "Today". */
  lemma SpringForwardTomorrowIsToday()
    ensures DiffDaysFloored(0, 1, 0, MillisPerHour) == 0
    ensures DayHeaderLabel(DiffDaysFloored(0, 1, 0, MillisPerHour), "") == "Today"
  {
  }

  /** The calendar-day difference, rounding the gap to the nearest whole day
      so that a shorter or longer day does not shift it. */
  function DiffDays(today: int, target: int, offsetToday: int, offsetTarget: int): int {
    (LocalMidnight(target, offsetTarget) - LocalMidnight(today, offsetToday) + MillisPerDay / 2) / MillisPerDay
  }

  /** Whenever the offset changes by less than half a day between the two
      midnights, the rounded gap is the number of calendar days. */
  lemma DiffDaysCounted(today: int, target: int, offsetToday: int, offsetTarget: int)
    requires -MillisPerDay / 2 < offsetToday - offsetTarget < MillisPerDay / 2
    ensures DiffDays(today, target, offsetToday, offsetTarget) == target - today
  {
    var n, e := target - today, offsetToday - offsetTarget + MillisPerDay / 2;
    assert LocalMidnight(target, offsetTarget) - LocalMidnight(today, offsetToday) + MillisPerDay / 2
        == n * MillisPerDay + e;
    assert 0 <= e < MillisPerDay;
  }

  /** The header computed from the group's date read as a local calendar
      date, with the day difference rounded: `target` is the day of the
      group's `YYYY-MM-DD` key itself, `today` the local day of the viewer. */
  function DayHeader(today: int, target: int, offsetToday: int, offsetTarget: int, dateText: string): string {
    DayHeaderLabel(DiffDays(today, target, offsetToday, offsetTarget), dateText)
  }

  /** Read as a local date, the key's day is named correctly even across a
      daylight-saving change: "Today", "Tomorrow", and a later day by its
      distance. */
  lemma DayHeaderNamesTheDay(today: int, target: int, offsetToday: int, offsetTarget: int, dateText: string)
    requires -MillisPerDay / 2 < offsetToday - offsetTarget < MillisPerDay / 2
    ensures DayHeader(today, target, offsetToday, offsetTarget, dateText) == "Today" <==> target == today
    ensures DayHeader(today, target, offsetToday, offsetTarget, dateText) == "Tomorrow" <==> target == today + 1
    ensures target > today + 1 ==>
              DayHeader(today, target, offsetToday, offsetTarget, dateText)
              == "In " + DecimalString(target - today) + " days (" + dateText + ")"
  {
    DiffDaysCounted(today, target, offsetToday, offsetTarget);
  }

  // ------------------------------------------------------------ the group key as written

  /** `new Date('YYYY-MM-DD')` is UTC midnight of day `key`; `setHours(0, 0,
      0, 0)` then moves to the local day on which that instant falls, for a
      local clock `offset` ms ahead of UTC. */
  function KeyLocalDay(key: int, offset: int): (d: int)
    ensures LocalMidnight(d, offset) <= key * MillisPerDay < LocalMidnight(d + 1, offset)
  {
    (key * MillisPerDay + offset) / MillisPerDay
  }

  /** East of UTC (or on it), the key's UTC midnight falls on the key's own
      local day. */
  lemma KeyLocalDayEast(key: int, offset: int)
    requires 0 <= offset < MillisPerDay
    ensures KeyLocalDay(key, offset) == key
  {
    assert key * MillisPerDay + offset == key * MillisPerDay + offset % MillisPerDay;
  }

  /** West of UTC, the key's UTC midnight is still the evening of the day
      before, locally. */
  lemma KeyLocalDayWest(key: int, offset: int)
    requires -MillisPerDay < offset < 0
    ensures KeyLocalDay(key, offset) == key - 1
  {
    assert key * MillisPerDay + offset == (key - 1) * MillisPerDay + (MillisPerDay + offset);
  }

  /** `getDayHeaderLabel(dateKey)` as written: the key is read as UTC
      midnight, moved to the local midnight of the day it falls on, and the
      gap to today's local midnight is floored. One offset is used for the
      key's day. */
  function PageDayHeader(today: int, key: int, offsetToday: int, offsetKey: int, dateText: string): (r: string)
    ensures exists d :: LocalMidnight(d, offsetKey) <= key * MillisPerDay < LocalMidnight(d + 1, offsetKey)
                        && r == DayHeaderLabel(DiffDaysFloored(today, d, offsetToday, offsetKey), dateText)
  {
    DayHeaderLabel(DiffDaysFloored(today, KeyLocalDay(key, offsetKey), offsetToday, offsetKey), dateText)
  }

  /** East of UTC (or on it) with no daylight-saving change, each group is
      named by its own day. */
  lemma PageDayHeaderEast(today: int, key: int, offset: int, dateText: string)
    requires 0 <= offset < MillisPerDay
    ensures PageDayHeader(today, key, offset, offset, dateText) == DayHeaderLabel(key - today, dateText)
  {
    KeyLocalDayEast(key, offset);
    DiffDaysFlooredSameOffset(today, key, offset);
  }

  /** West of UTC with no daylight-saving change, every group is labelled one
      day early: tomorrow's group reads "Today" and today's reads "In -1
      days". */
  lemma PageDayHeaderWest(today: int, key: int, offset: int, dateText: string)
    requires -MillisPerDay < offset < 0
    ensures PageDayHeader(today, key, offset, offset, dateText) == DayHeaderLabel(key - 1 - today, dateText)
    ensures PageDayHeader(today, today + 1, offset, offset, dateText) == "Today"
  {
    KeyLocalDayWest(key, offset);
    KeyLocalDayWest(today + 1, offset);
    DiffDaysFlooredSameOffset(today, key - 1, offset);
    DiffDaysFlooredSameOffset(today, today, offset);
  }

  /** New York on 11 October 2026 (day 20737 since 1 January 1970, clocks at
      UTC-4): the group keyed 2026-10-12 is headed "Today". */
  lemma NewYorkTomorrowIsToday()
    ensures PageDayHeader(20737, 20738, -4 * MillisPerHour, -4 * MillisPerHour, "") == "Today"
  {
    PageDayHeaderWest(20737, 20738, -4 * MillisPerHour, "");
  }
}
