/** The single-user generator: one normal eight-hour day of entries per
    working day of a date range. Its daily generator is shared word for
    word with the vacation-aware script. */
module Timetrackings {
  import opened Seqs
  import opened Calendar
  import opened Draws
  import opened Schedule

  /** `2025-05-01` and `2025-11-06` as day numbers, and the one user. */
  const StartDate: Date := 120
  const EndDate: Date := 309
  const UserId := 1

  /** The eight-hour work target of a normal day. */
  const NormalWorkMinutes := 8 * 60

  /** Draws one day takes from its stream: 2 for the start clock, 4 for the
      break pattern, 3 for the first sessions, 4 for the work tasks. */
  const DrawsPerDay: nat := 13

  /** A normal generated day of `userId` on `date`: a well-formed chain of
      5 or 7 entries, 480 work minutes and 30-50 break minutes, starting on
      the 07:00-08:30 grid and ending by 17:20, every session but the last
      30-180 minutes long and the last at least 30. */
  ghost predicate NormalDay(es: seq<Entry>, userId: int, date: Date, pool: seq<int>)
  {
    && WellFormedDay(es, userId, date, pool)
    && (|es| == 5 || |es| == 7)
    && WorkTotal(es) == NormalWorkMinutes
    && 30 <= BreakTotal(es) <= 50
    && OnStartGrid(es[0].start - Midnight(date))
    && es[|es| - 1].end <= Midnight(date) + 17 * 60 + 20
    && (forall j :: 0 <= j < |es| - 1 && j % 2 == 0 ==> 30 <= Duration(es[j]) <= 180)
    && Duration(es[|es| - 1]) >= 30
  }

  /** `generate_daily_timetrackings(date, user_id)`: the start clock on the
      07:00-08:30 grid, two or three breaks, 480 work minutes split into one
      session more than there are breaks, then the entries on a running
      clock. The day ends by 17:20, so it never leaves its date. */
  method GenerateDay(date: Date, userId: int, pool: seq<int>, s: Stream) returns (entries: seq<Entry>)
    requires ValidTaskPool(pool)
    ensures NormalDay(entries, userId, date, pool)
  {
    var startMinute := StartMinute(s(0), s(1));
    var start := Midnight(date) + startMinute;
    var breaks := NormalBreaks(Shift(s, 2));
    entries := SplitAndEmit(date, userId, start, breaks, pool, Shift(s, 6));
  }

  /** The second half of the daily generator: split the 480 work minutes
      into one session more than there are breaks and walk the clock from
      `start`, booking every minute and taking every break. */
  method SplitAndEmit(date: Date, userId: int, start: Time, breaks: seq<int>, pool: seq<int>, s: Stream)
    returns (entries: seq<Entry>)
    requires ValidTaskPool(pool) && 1 <= |breaks| <= 15
    requires forall k :: 0 <= k < |breaks| ==> breaks[k] > 0
    requires Midnight(date) <= start && start + NormalWorkMinutes + Sum(breaks) < Midnight(date) + MinutesPerDay
    ensures WellFormedDay(entries, userId, date, pool)
    ensures |entries| == 2 * |breaks| + 1
    ensures WorkTotal(entries) == NormalWorkMinutes && BreakTotal(entries) == Sum(breaks)
    ensures entries[0].start == start && entries[|entries| - 1].end == start + NormalWorkMinutes + Sum(breaks)
    ensures forall j :: 0 <= j < |entries| - 1 && j % 2 == 0 ==> 30 <= Duration(entries[j]) <= 180
    ensures Duration(entries[|entries| - 1]) >= 30
  {
    var numWorkSessions := |breaks| + 1;
    var works := Partition(NormalWorkMinutes, numWorkSessions, s);
    entries := Emit(userId, start, pool, works, breaks, Shift(s, 3));
    assert breaks[..|works| - 1] == breaks;
    LayoutDay(entries, userId, date, start, pool, works, breaks);
    SessionDurations(entries, works);
  }

  /** The day loop with every date before `upTo` done: the entries are the
      user's, on dates of the range before `upTo` that are working days and
      not in `vacation` (this script has none), in date order, and every
      such date carries one normal day. */
  ghost predicate Covered(all: seq<Entry>, userId: int, startDate: Date, upTo: Date, holidays: set<Date>,
                          vacation: seq<Date>, pool: seq<int>)
  {
    && (forall e :: e in all ==>
          && e.userId == userId
          && startDate <= DayOf(e.start) < upTo
          && IsWorkingDay(DayOf(e.start), holidays) && DayOf(e.start) !in vacation)
    && (forall d :: startDate <= d < upTo && IsWorkingDay(d, holidays) && d !in vacation ==>
          NormalDay(EntriesOn(all, userId, d), userId, d, pool))
    && (forall i, j :: 0 <= i < j < |all| ==> DayOf(all[i].start) <= DayOf(all[j].start))
  }

  /** A date that is skipped adds nothing. */
  lemma CoverSkip(all: seq<Entry>, userId: int, startDate: Date, date: Date, holidays: set<Date>,
                  vacation: seq<Date>, pool: seq<int>)
    requires Covered(all, userId, startDate, date, holidays, vacation, pool)
    requires !IsWorkingDay(date, holidays) || date in vacation
    ensures Covered(all, userId, startDate, date + 1, holidays, vacation, pool)
  {
  }

  /** Appending the normal day generated for the next date books that date
      and keeps every earlier one. */
  lemma CoverDay(all: seq<Entry>, daily: seq<Entry>, userId: int, startDate: Date, date: Date, holidays: set<Date>,
                 vacation: seq<Date>, pool: seq<int>)
    requires Covered(all, userId, startDate, date, holidays, vacation, pool)
    requires startDate <= date && IsWorkingDay(date, holidays) && date !in vacation
    requires NormalDay(daily, userId, date, pool)
    ensures Covered(all + daily, userId, startDate, date + 1, holidays, vacation, pool)
  {
    WellFormedDayOnDate(daily, userId, date, pool);
    AppendDay(all, daily, userId, date);
    AppendDayEntries(all, daily, userId, date, pool);
  }

  /** The main loop: every date from `startDate` to `endDate` that passes
      `is_working_day` gets one generated day, appended in date order. So the
      output is, date by date, one normal day on each working date of the
      range and nothing on any other date. */
  method GenerateRange(startDate: Date, endDate: Date, userId: int, holidays: set<Date>, pool: seq<int>, s: Stream)
    returns (all: seq<Entry>)
    requires ValidTaskPool(pool)
    ensures forall e :: e in all ==>
              && e.userId == userId
              && startDate <= DayOf(e.start) <= endDate
              && IsWorkingDay(DayOf(e.start), holidays)
    ensures forall d :: startDate <= d <= endDate && IsWorkingDay(d, holidays) ==>
              NormalDay(EntriesOn(all, userId, d), userId, d, pool)
    ensures forall i, j :: 0 <= i < j < |all| ==> DayOf(all[i].start) <= DayOf(all[j].start)
  {
    all := [];
    var current := startDate;
    var k: nat := 0;
    while current <= endDate
      invariant startDate <= current <= endDate + 1 || (current == startDate && startDate > endDate)
      invariant Covered(all, userId, startDate, current, holidays, [], pool)
      decreases endDate - current
    {
      if IsWorkingDay(current, holidays) {
        var daily := GenerateDay(current, userId, pool, Shift(s, DrawsPerDay * k));
        CoverDay(all, daily, userId, startDate, current, holidays, [], pool);
        all := all + daily;
      } else {
        CoverSkip(all, userId, startDate, current, holidays, [], pool);
      }
      current := current + 1;
      k := k + 1;
    }
  }

  /** The script's run: 2025-05-01 to 2025-11-06 for user 1 with the
      2025 holidays and the full task list. */
  method Generate(s: Stream) returns (all: seq<Entry>)
    ensures forall e :: e in all ==>
              && e.userId == UserId
              && StartDate <= DayOf(e.start) <= EndDate
              && IsWorkingDay(DayOf(e.start), Holidays2025)
    ensures forall d :: StartDate <= d <= EndDate && IsWorkingDay(d, Holidays2025) ==>
              NormalDay(EntriesOn(all, UserId, d), UserId, d, WorkTaskIds)
    ensures forall i, j :: 0 <= i < j < |all| ==> DayOf(all[i].start) <= DayOf(all[j].start)
  {
    WorkTaskIdsIsValidPool();
    all := GenerateRange(StartDate, EndDate, UserId, Holidays2025, WorkTaskIds, s);
  }
}
