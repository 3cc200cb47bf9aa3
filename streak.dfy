// The consecutive-day visit counter of hooks/useStreak.ts. The clock, the
// time zone and the Date parser are parameters: `today` is the current
// instant in milliseconds, `todayIso` its `toISOString()` text, `parseDate`
// is `new Date(text)` (`None` for an invalid date) and `normalise` maps an
// instant to the instant of its local midnight. Whether a `window` exists
// is the flag `hasWindow`.

module Streak {
  import opened Opt
  import opened Strings
  import opened WebStorage

  const CountKey := "openbook.streak.count"
  const LastVisitKey := "openbook.streak.lastVisit"

  const HourMs: int := 1000 * 60 * 60
  const DayMs: int := 24 * HourMs

  /** `storedCount || 1`: NaN and 0 count as 1. */
  function OrOne(stored: Option<int>): (r: int)
    ensures stored.Some? && stored.value != 0 ==> r == stored.value
    ensures stored.None? || stored.value == 0 ==> r == 1
  {
    if stored.Some? && stored.value != 0 then stored.value else 1
  }

  /** `Math.floor((todayMidnight - lastVisitMidnight) / 86400000)`: whole
      periods of 24 hours between the two instants, rounded down. */
  function DayDiff(todayMidnight: int, lastMidnight: int): (d: int)
    ensures d * DayMs <= todayMidnight - lastMidnight < (d + 1) * DayMs
  {
    (todayMidnight - lastMidnight) / DayMs
  }

  /** The new count from the stored one and the day difference (`None`
      being NaN, from an unreadable stored date). */
  function NextCount(stored: Option<int>, diff: Option<int>): int
  {
    if diff == Some(0) then OrOne(stored)
    else if diff == Some(1) then OrOne(stored) + 1
    else 1
  }

  /** The stored count as `parseInt` reads it, '0' standing in for a
      missing or empty entry. */
  function StoredCount(items: map<string, string>): Option<int>
  {
    ParseInt(StoredOr(items, CountKey, "0"))
  }

  /** The day difference between the stored visit and today's midnight,
      `None` (NaN) when the stored date does not parse. */
  function StoredDiff(items: map<string, string>, todayMidnight: int,
                      parseDate: string -> Option<int>, normalise: int -> int): Option<int>
    requires LastVisitKey in items
  {
    match parseDate(items[LastVisitKey])
    case None => None
    case Some(t) => Some(DayDiff(todayMidnight, normalise(t)))
  }

  predicate HasStoredVisit(items: map<string, string>)
  {
    LastVisitKey in items && items[LastVisitKey] != ""
  }

  /** `calculateStreak`'s result when a window exists. */
  function StreakFor(items: map<string, string>, todayMidnight: int,
                     parseDate: string -> Option<int>, normalise: int -> int): int
  {
    if !HasStoredVisit(items) then 1
    else NextCount(StoredCount(items), StoredDiff(items, todayMidnight, parseDate, normalise))
  }

  /** The storage after a visit that yields `n`. */
  function AfterVisit(items: map<string, string>, n: int, todayIso: string): map<string, string>
  {
    items[CountKey := IntToString(n)][LastVisitKey := todayIso]
  }

  // ---------------------------------------------------------------------
  // The rules of the counter

  /** The first visit (no stored date) counts 1. */
  lemma FirstVisit(items: map<string, string>, todayMidnight: int,
                   parseDate: string -> Option<int>, normalise: int -> int)
    requires !HasStoredVisit(items)
    ensures StreakFor(items, todayMidnight, parseDate, normalise) == 1
  {
  }

  /** Within 24 hours of the last visit's midnight the count is kept (0 and
      NaN reading as 1). */
  lemma SameDay(items: map<string, string>, todayMidnight: int,
                parseDate: string -> Option<int>, normalise: int -> int, t: int)
    requires HasStoredVisit(items) && parseDate(items[LastVisitKey]) == Some(t)
    requires 0 <= todayMidnight - normalise(t) < DayMs
    ensures StreakFor(items, todayMidnight, parseDate, normalise) == OrOne(StoredCount(items))
  {
    assert DayDiff(todayMidnight, normalise(t)) == 0;
  }

  /** Between 24 and 48 hours later the count goes up by one. */
  lemma NextDay(items: map<string, string>, todayMidnight: int,
                parseDate: string -> Option<int>, normalise: int -> int, t: int)
    requires HasStoredVisit(items) && parseDate(items[LastVisitKey]) == Some(t)
    requires DayMs <= todayMidnight - normalise(t) < 2 * DayMs
    ensures StreakFor(items, todayMidnight, parseDate, normalise) == OrOne(StoredCount(items)) + 1
  {
    assert DayDiff(todayMidnight, normalise(t)) == 1;
  }

  /** A gap of 48 hours or more, a stored date in the future, or an
      unreadable stored date starts again from 1. */
  lemma Reset(items: map<string, string>, todayMidnight: int,
              parseDate: string -> Option<int>, normalise: int -> int)
    requires HasStoredVisit(items)
    requires match parseDate(items[LastVisitKey])
             case None => true
             case Some(t) => todayMidnight - normalise(t) < 0 || todayMidnight - normalise(t) >= 2 * DayMs
    ensures StreakFor(items, todayMidnight, parseDate, normalise) == 1
  {
    match parseDate(items[LastVisitKey])
    case None =>
    case Some(t) =>
      var d := DayDiff(todayMidnight, normalise(t));
      assert d < 0 || d >= 2;
  }

  /** A count the hook could have written (none, or non-negative) gives a
      streak of at least 1. */
  predicate CountReadable(items: map<string, string>)
  {
    StoredCount(items).None? || StoredCount(items).value >= 0
  }

  lemma AtLeastOne(items: map<string, string>, todayMidnight: int,
                   parseDate: string -> Option<int>, normalise: int -> int)
    requires CountReadable(items)
    ensures StreakFor(items, todayMidnight, parseDate, normalise) >= 1
  {
  }

  /** Every visit writes back a count that keeps the storage readable. */
  lemma VisitKeepsCountReadable(items: map<string, string>, todayMidnight: int, todayIso: string,
                                parseDate: string -> Option<int>, normalise: int -> int)
    requires CountReadable(items)
    ensures var n := StreakFor(items, todayMidnight, parseDate, normalise);
            CountReadable(AfterVisit(items, n, todayIso))
            && StoredCount(AfterVisit(items, n, todayIso)) == Some(n)
  {
    var n := StreakFor(items, todayMidnight, parseDate, normalise);
    var after := AfterVisit(items, n, todayIso);
    KeysDiffer();
    assert after[CountKey] == IntToString(n);
    assert StoredOr(after, CountKey, "0") == IntToString(n);
    ParseIntToString(n);
  }

  /** The two storage keys are different, so writing one keeps the other. */
  lemma KeysDiffer()
    ensures CountKey != LastVisitKey
  {
    assert |CountKey| != |LastVisitKey|;
  }

  /** A clock whose ISO text parses back to the same instant. */
  predicate ReadsBack(today: int, todayIso: string, parseDate: string -> Option<int>)
  {
    todayIso != "" && parseDate(todayIso) == Some(today)
  }

  /** A second visit on the same day returns the same streak, whatever the
      time of day. */
  lemma RevisitSameDay(items: map<string, string>, today: int, todayIso: string, later: int,
                       parseDate: string -> Option<int>, normalise: int -> int)
    requires CountReadable(items) && ReadsBack(today, todayIso, parseDate)
    requires normalise(later) == normalise(today)
    ensures var n := StreakFor(items, normalise(today), parseDate, normalise);
            StreakFor(AfterVisit(items, n, todayIso), normalise(later), parseDate, normalise) == n
  {
    var n := StreakFor(items, normalise(today), parseDate, normalise);
    var after := AfterVisit(items, n, todayIso);
    VisitKeepsCountReadable(items, normalise(today), todayIso, parseDate, normalise);
    AtLeastOne(items, normalise(today), parseDate, normalise);
    assert after[LastVisitKey] == todayIso;
    SameDay(after, normalise(later), parseDate, normalise, today);
  }

  /** A visit whose midnight is 24 to 48 hours after the previous visit's
      midnight extends the streak by one. */
  lemma VisitNextDay(items: map<string, string>, today: int, todayIso: string, tomorrow: int,
                     parseDate: string -> Option<int>, normalise: int -> int)
    requires CountReadable(items) && ReadsBack(today, todayIso, parseDate)
    requires DayMs <= normalise(tomorrow) - normalise(today) < 2 * DayMs
    ensures var n := StreakFor(items, normalise(today), parseDate, normalise);
            StreakFor(AfterVisit(items, n, todayIso), normalise(tomorrow), parseDate, normalise) == n + 1
  {
    var n := StreakFor(items, normalise(today), parseDate, normalise);
    var after := AfterVisit(items, n, todayIso);
    VisitKeepsCountReadable(items, normalise(today), todayIso, parseDate, normalise);
    AtLeastOne(items, normalise(today), parseDate, normalise);
    assert after[LastVisitKey] == todayIso;
    NextDay(after, normalise(tomorrow), parseDate, normalise, today);
  }

  // ---------------------------------------------------------------------
  // Days across a daylight-saving change

  /** The instant of local midnight of local day `day` in a zone whose
      offset from UTC is `offset` milliseconds at that moment. */
  function LocalMidnight(day: int, offset: int): int
  {
    day * DayMs - offset
  }

  /** Without a change of offset between the two midnights, the floored
      difference counts calendar days. */
  lemma DayDiffSameOffset(d1: int, d2: int, offset: int)
    ensures DayDiff(LocalMidnight(d2, offset), LocalMidnight(d1, offset)) == d2 - d1
  {
    var q := DayDiff(LocalMidnight(d2, offset), LocalMidnight(d1, offset));
    assert q * DayMs <= (d2 - d1) * DayMs < (q + 1) * DayMs;
  }

  /** When the clocks move forward an hour overnight, the next day's
      midnight is only 23 hours after this one's: the floored difference is
      0, and a visit on the next calendar day keeps the count instead of
      extending it. */
  lemma SpringForwardNotCounted()
    ensures LocalMidnight(1, HourMs) - LocalMidnight(0, 0) == 23 * HourMs
    ensures DayDiff(LocalMidnight(1, HourMs), LocalMidnight(0, 0)) == 0
    ensures NextCount(Some(5), Some(DayDiff(LocalMidnight(1, HourMs), LocalMidnight(0, 0)))) == 5
  {
  }

  /** The calendar-day difference, rounding to the nearest whole day so
      that an offset change of less than 12 hours does not matter. */
  function CalendarDayDiff(todayMidnight: int, lastMidnight: int): (d: int)
    ensures d * DayMs <= todayMidnight - lastMidnight + DayMs / 2 < (d + 1) * DayMs
  {
    (todayMidnight - lastMidnight + DayMs / 2) / DayMs
  }

  /** Between two local midnights, `CalendarDayDiff` is the number of
      calendar days, whatever the two offsets, as long as they differ by
      less than 12 hours. */
  lemma CalendarDayDiffCounts(d1: int, o1: int, d2: int, o2: int)
    requires -DayMs / 2 < o2 - o1 < DayMs / 2
    ensures CalendarDayDiff(LocalMidnight(d2, o2), LocalMidnight(d1, o1)) == d2 - d1
  {
    var q := CalendarDayDiff(LocalMidnight(d2, o2), LocalMidnight(d1, o1));
    assert q * DayMs < (d2 - d1 + 1) * DayMs;
    assert (d2 - d1) * DayMs < (q + 1) * DayMs;
  }

  /** With calendar days, the spring-forward visit extends the streak. */
  lemma SpringForwardCounted()
    ensures NextCount(Some(5), Some(CalendarDayDiff(LocalMidnight(1, HourMs), LocalMidnight(0, 0)))) == 6
  {
    CalendarDayDiffCounts(0, 0, 1, HourMs);
  }

  // ---------------------------------------------------------------------
  // The hook

  /** `calculateStreak`. */
  method CalculateStreak(storage: LocalStorage, hasWindow: bool, today: int, todayIso: string,
                         parseDate: string -> Option<int>, normalise: int -> int)
    returns (n: int)
    modifies storage
    ensures !hasWindow ==> n == 1 && storage.items == old(storage.items)
    ensures hasWindow ==> n == StreakFor(old(storage.items), normalise(today), parseDate, normalise)
    ensures hasWindow ==> storage.items == AfterVisit(old(storage.items), n, todayIso)
  {
    if !hasWindow {
      return 1;
    }
    var todayMidnight := normalise(today);
    var countText := storage.GetItem(CountKey);
    var storedCount := ParseInt(if countText.Some? && countText.value != "" then countText.value else "0");
    var storedDate := storage.GetItem(LastVisitKey);
    if storedDate.None? || storedDate.value == "" {
      assert IntToString(1) == "1";
      storage.SetItem(CountKey, "1");
      storage.SetItem(LastVisitKey, todayIso);
      return 1;
    }
    var lastVisit := parseDate(storedDate.value);
    var diffDays: Option<int> := None;
    if lastVisit.Some? {
      diffDays := Some(DayDiff(todayMidnight, normalise(lastVisit.value)));
    }
    n := OrOne(storedCount);
    if diffDays == Some(0) {
      n := OrOne(storedCount);
    } else if diffDays == Some(1) {
      n := OrOne(storedCount) + 1;
    } else {
      n := 1;
    }
    storage.SetItem(CountKey, IntToString(n));
    storage.SetItem(LastVisitKey, todayIso);
  }

  /** `useStreak`: the streak state, computed on mount and again by the
      once-a-minute timer during the first minute after local midnight. */
  class StreakHook {
    var streak: int

    constructor (storage: LocalStorage, hasWindow: bool, today: int, todayIso: string,
                 parseDate: string -> Option<int>, normalise: int -> int)
      modifies storage
      ensures !hasWindow ==> streak == 1 && storage.items == old(storage.items)
      ensures hasWindow ==> streak == StreakFor(old(storage.items), normalise(today), parseDate, normalise)
      ensures hasWindow ==> storage.items == AfterVisit(old(storage.items), streak, todayIso)
    {
      var n := CalculateStreak(storage, hasWindow, today, todayIso, parseDate, normalise);
      streak := n;
    }

    /** One tick of the timer, at local time `hours`:`minutes`. */
    method Tick(storage: LocalStorage, hasWindow: bool, hours: int, minutes: int, now: int, nowIso: string,
                parseDate: string -> Option<int>, normalise: int -> int)
      modifies this, storage
      ensures !(hours == 0 && minutes == 0) ==> streak == old(streak) && storage.items == old(storage.items)
      ensures hours == 0 && minutes == 0 && hasWindow ==>
                streak == StreakFor(old(storage.items), normalise(now), parseDate, normalise)
                && storage.items == AfterVisit(old(storage.items), streak, nowIso)
    {
      if hours == 0 && minutes == 0 {
        var n := CalculateStreak(storage, hasWindow, now, nowIso, parseDate, normalise);
        streak := n;
      }
    }
  }
}
