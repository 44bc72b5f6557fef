/** The multi-user generator: the working days of a range, thirty vacation
    days sampled from them and shared out among the users, a few short days
    per user, and one day of entries per user on every working day that is
    not one of that user's vacation days. */
module MultiUserTimetrackings {
  import opened Seqs
  import opened Calendar
  import opened Draws
  import opened Schedule

  /** `2025-04-01` and `2025-06-06` as day numbers, the users and the
      vacation budget shared among them. */
  const StartDate: Date := 90
  const EndDate: Date := 156
  const UserIds: seq<int> := [51, 52, 53]
  const TotalVacationDays: nat := 30

  const NormalWorkMinutes := 8 * 60

  /** Draws one day takes from its stream: 2 for the start clock, 1 for a
      short day's target, 4 for the break pattern, 3 for the first sessions,
      4 for the work tasks. */
  const DrawsPerDay: nat := 14

  /** `get_all_working_days(start_date, end_date)`: the dates of the range
      that are Monday to Friday and not holidays, and nothing else, ascending. */
  method GetAllWorkingDays(startDate: Date, endDate: Date, holidays: set<Date>) returns (workingDays: seq<Date>)
    ensures workingDays == WorkingDaysBetween(startDate, endDate, holidays, [])
    ensures forall d :: d in workingDays <==> startDate <= d <= endDate && IsWorkingDay(d, holidays)
    ensures StrictlyIncreasing(workingDays)
  {
    ghost var found := WorkingDaysBetween(startDate, endDate, holidays, []);
    workingDays := [];
    var current := startDate;
    while current <= endDate
      invariant startDate <= current
      invariant current <= endDate + 1 || current == startDate
      invariant found == workingDays + WorkingDaysBetween(current, endDate, holidays, [])
      decreases endDate - current
    {
      if Weekday(current) < 5 && current !in holidays {
        assert found == (workingDays + [current]) + WorkingDaysBetween(current + 1, endDate, holidays, []);
        workingDays := workingDays + [current];
      }
      current := current + 1;
    }
    WorkingDaysBetweenMembers(startDate, endDate, holidays, []);
  }

  /** The configured range 2025-04-01 to 2025-06-06 holds at least thirty
      working days (it holds 46 in all). */
  lemma ConfiguredRangeHasThirtyWorkingDays()
    ensures |WorkingDaysBetween(StartDate, EndDate, Holidays2025, [])| >= TotalVacationDays
  {
    SixFreeWeeks(StartDate, EndDate, Holidays2025);
  }

  /** A range from `a` to `b` covering 2025-04-07 to 2025-06-06 whose
      only holidays are among 2025-04-21, 2025-05-01 and 2025-05-29 holds
      six weeks free of them (from 2025-04-07, 2025-04-14, 2025-05-05,
      2025-05-12, 2025-05-19 and 2025-06-02): thirty working days. */
  lemma SixFreeWeeks(a: Date, b: Date, holidays: set<Date>)
    requires a <= 96 && 156 <= b
    requires forall d :: d in holidays && a <= d <= b ==> d == 110 || d == 120 || d == 148
    ensures |WorkingDaysBetween(a, b, holidays, [])| >= 30
  {
    assert Weekday(96) == 0 && Weekday(124) == 0 && Weekday(152) == 0;
    WorkingDaysShrink(a, 96, b, holidays, []);
    FreeWeeks(96, 2, b, holidays, []);
    WorkingDaysShrink(110, 124, b, holidays, []);
    FreeWeeks(124, 3, b, holidays, []);
    WorkingDaysShrink(145, 152, b, holidays, []);
    FreeWeeks(152, 1, b, holidays, []);
  }

  /** `generate_vacation_days(working_days, num_days)`: `min(num_days,
      len(working_days))` days sampled from distinct positions, sorted.
      `random.sample` raises for a negative count, which callers rule out. */
  function GenerateVacationDays(workingDays: seq<Date>, numDays: nat, s: Stream): (r: seq<Date>)
    ensures |r| == Min(numDays, |workingDays|)
    ensures multiset(r) <= multiset(workingDays)
    ensures forall d :: d in r ==> d in workingDays
    ensures SortedBy(r, (d: Date) => d)
    ensures Distinct(workingDays) ==> StrictlyIncreasing(r)
  {
    var picked := Sample(workingDays, Min(numDays, |workingDays|), s);
    var r := SortBy(picked, (d: Date) => d);
    SortedSample(workingDays, picked, r);
    r
  }

  /** A sorted rearrangement of a sample holds only members of the
      population, and none twice when the population has no duplicates. */
  lemma SortedSample(population: seq<Date>, picked: seq<Date>, r: seq<Date>)
    requires multiset(picked) <= multiset(population)
    requires multiset(r) == multiset(picked) && SortedBy(r, (d: Date) => d)
    ensures forall d :: d in r ==> d in population
    ensures Distinct(population) ==> StrictlyIncreasing(r)
  {
    forall d | d in r ensures d in population {
      assert d in multiset(r);
      assert d in multiset(population);
    }
    if Distinct(population) {
      DistinctOfSubMultiset(population, r);
      SortedDistinctIsStrictlyIncreasing(r);
    }
  }

  /** `generate_short_days(working_days, vacation_days, num_short_days)`:
      a sorted sample of the working days that are not vacation days, as
      many as asked for or as there are. */
  function GenerateShortDays(workingDays: seq<Date>, vacationDays: seq<Date>, numShortDays: nat, s: Stream): (r: seq<Date>)
    ensures |r| == Min(numShortDays, |Without(workingDays, vacationDays)|)
    ensures forall d :: d in r ==> d in workingDays && d !in vacationDays
    ensures SortedBy(r, (d: Date) => d)
    ensures Distinct(workingDays) ==> StrictlyIncreasing(r)
  {
    var availableDays := Without(workingDays, vacationDays);
    var picked := Sample(availableDays, Min(numShortDays, |availableDays|), s);
    var r := SortBy(picked, (d: Date) => d);
    SortedSample(availableDays, picked, r);
    assert Distinct(workingDays) ==> Distinct(availableDays) by {
      if Distinct(workingDays) { DistinctOfSubMultiset(workingDays, availableDays); }
    }
    r
  }

  /** Break durations of a short day (slot 0 picks one or two breaks): one
      break of 10-20 minutes, or two of 10-15 minutes. */
  function ShortBreaks(s: Stream): (b: seq<int>)
    ensures || (|b| == 1 && 10 <= b[0] <= 20)
            || (|b| == 2 && 10 <= b[0] <= 15 && 10 <= b[1] <= 15)
    ensures 10 <= Sum(b) <= 30
  {
    var numBreaks := Choice([1, 2], s(0));
    var b :=
      if numBreaks == 1 then [RandInt(10, 20, s(1))]
      else [RandInt(10, 15, s(1)), RandInt(10, 15, s(2))];
    SumOfShort(b);
    b
  }

  /** The session split of this script: as in the single-user scripts, but
      when the 30-minute floors of the later sessions leave less than 30
      minutes the upper bound falls back to everything that remains, and
      `randint` raises (`None`) once fewer than 30 minutes remain.
      `clamped` records whether the fallback was ever taken. */
  method PartitionClamped(total: int, sessions: nat, s: Stream) returns (r: Option<seq<int>>, ghost clamped: bool)
    requires sessions >= 1
    ensures r.Some? ==> |r.value| == sessions && Sum(r.value) == total
    ensures r.Some? ==> forall k :: 0 <= k < sessions - 1 ==> r.value[k] >= 30
    ensures total >= 30 * sessions ==> r.Some? && !clamped
    ensures total >= 30 * sessions ==>
              (forall k :: 0 <= k < sessions - 1 ==> 30 <= r.value[k] <= 180) && r.value[sessions - 1] >= 30
    ensures sessions >= 2 && total < 30 ==> r.None?
    ensures sessions >= 2 && r.Some? ==> r.value[sessions - 1] >= 0
    ensures sessions == 2 && total >= 30 ==> r.Some?
    ensures sessions == 2 && 30 <= total < 60 ==> clamped
  {
    var durations: seq<int> := [];
    var remainingWork := total;
    clamped := false;
    for i := 0 to sessions - 1
      invariant |durations| == i
      invariant Sum(durations) + remainingWork == total
      invariant forall k :: 0 <= k < i ==> durations[k] >= 30
      invariant total >= 30 * sessions ==>
                  remainingWork >= 30 * (sessions - i) && !clamped && forall k :: 0 <= k < i ==> durations[k] <= 180
      invariant i > 0 ==> total >= 30 && remainingWork >= 0
      invariant sessions == 2 && 30 <= total < 60 && i > 0 ==> clamped
    {
      var minDuration := 30;
      var maxDuration := Min(180, remainingWork - 30 * (sessions - i - 1));
      if maxDuration < minDuration {
        maxDuration := remainingWork;
        clamped := true;
      }
      if maxDuration < minDuration {
        return None, clamped;
      }
      var duration := RandInt(minDuration, maxDuration, s(i));
      SumAppend(durations, duration);
      durations := durations + [duration];
      remainingWork := remainingWork - duration;
    }
    SumAppend(durations, remainingWork);
    r := Some(durations + [remainingWork]);
  }

  /** Every entry is the user's and every work entry on a task of the pool. */
  ghost predicate Tagged(es: seq<Entry>, userId: int, pool: seq<int>)
  {
    forall e :: e in es ==> e.userId == userId && (IsBreak(e) || e.taskId in pool)
  }

  /** What the guarded walk keeps whatever the sessions: entries of the
      user's, work on tasks of the pool, the first starting at `start` and
      every other where the one before ended. Defined entry by entry. */
  ghost predicate Walked(es: seq<Entry>, userId: int, start: Time, pool: seq<int>)
    decreases |es|
  {
    if es == [] then true
    else
      var j := |es| - 1;
      && Walked(es[..j], userId, start, pool)
      && es[j].userId == userId && (IsBreak(es[j]) || es[j].taskId in pool)
      && (if j == 0 then es[0].start == start else es[j - 1].end == es[j].start)
  }

  lemma {:induction false} WalkedChained(es: seq<Entry>, userId: int, start: Time, pool: seq<int>)
    requires Walked(es, userId, start, pool)
    ensures Chained(es) && Tagged(es, userId, pool) && (es != [] ==> es[0].start == start)
    decreases |es|
  {
    if es != [] {
      var init := es[..|es| - 1];
      var last := es[|es| - 1];
      WalkedChained(init, userId, start, pool);
      assert es == init + [last];
      ChainedAppend(init, last);
      if init != [] { assert es[0] == init[0]; }
    }
  }

  /** Appending an entry of the user's at the running clock keeps the walk's unconditional invariant. */
  lemma TaggedAppend(es: seq<Entry>, e: Entry, userId: int, start: Time, pool: seq<int>)
    requires Walked(es, userId, start, pool)
    requires if es == [] then e.start == start else es[|es| - 1].end == e.start
    requires e.userId == userId && (IsBreak(e) || e.taskId in pool)
    ensures Walked(es + [e], userId, start, pool)
  {
    assert (es + [e])[..|es|] == es;
  }

  /** Every session is positive and there is a break for every gap. */
  ghost predicate Regular(works: seq<int>, breaks: seq<int>)
  {
    |works| >= 1 && |breaks| >= |works| - 1 && forall k :: 0 <= k < |works| ==> works[k] > 0
  }

  /** The entry walk of this script: like the single-user walk, but a
      session of no minutes is skipped together with its break, and a break
      is only taken while break durations remain. With sessions all positive
      and enough breaks neither guard fires and the day is the full layout. */
  method EmitGuarded(userId: int, start: Time, pool: seq<int>, works: seq<int>, breaks: seq<int>, s: Stream)
    returns (entries: seq<Entry>)
    requires ValidTaskPool(pool)
    ensures Chained(entries) && Tagged(entries, userId, pool)
    ensures entries != [] ==> entries[0].start == start
    ensures Regular(works, breaks) ==>
              && Layout(entries, userId, start, pool, works, breaks)
              && WorkTotal(entries) == Sum(works)
              && BreakTotal(entries) == Sum(breaks[..|works| - 1])
  {
    ghost var regular := Regular(works, breaks);
    var n := |works|;
    entries := [];
    var currentTime := start;
    var breakIdx: nat := 0;
    for i := 0 to n
      invariant regular && i < n ==> breakIdx == i
      invariant regular && i == n ==> breakIdx == n - 1
      invariant Guarded(entries, userId, start, pool, works, breaks, regular, i, breakIdx, currentTime)
    {
      var workDuration := works[i];
      if workDuration <= 0 {
        SkipSession(entries, userId, start, pool, works, breaks, regular, i, breakIdx, currentTime);
        continue;
      }
      var taskId := Choice(pool, s(i));
      var work := Entry(userId, taskId, currentTime, currentTime + workDuration);
      GuardedWork(entries, userId, start, pool, works, breaks, regular, i, breakIdx, currentTime, work);
      entries := entries + [work];
      currentTime := currentTime + workDuration;
      if i < n - 1 && breakIdx < |breaks| {
        var breakDuration := breaks[breakIdx];
        var pause := Entry(userId, BreakTask, currentTime, currentTime + breakDuration);
        GuardedBreak(entries, userId, start, pool, works, breaks, regular, i + 1, breakIdx, currentTime, pause);
        entries := entries + [pause];
        currentTime := currentTime + breakDuration;
        breakIdx := breakIdx + 1;
      }
    }
    if regular { assert works[..n] == works; }
    WalkedChained(entries, userId, start, pool);
  }

  /** The guarded walk after `w` sessions and `b` breaks with the clock at
      `t`: always a walk of the user's entries, and on regular input the
      full layout's prefix as well. */
  ghost predicate Guarded(es: seq<Entry>, userId: int, start: Time, pool: seq<int>, works: seq<int>, breaks: seq<int>,
                          regular: bool, w: nat, b: nat, t: Time)
  {
    && Walked(es, userId, start, pool)
    && (if es == [] then t == start else es[|es| - 1].end == t)
    && (regular ==> regular == Regular(works, breaks) && |es| == w + b && Walk(es, userId, start, pool, works, breaks, w, b, t))
  }

  /** A session of no minutes only occurs on irregular input, and is skipped. */
  lemma SkipSession(es: seq<Entry>, userId: int, start: Time, pool: seq<int>, works: seq<int>, breaks: seq<int>,
                    regular: bool, i: nat, b: nat, t: Time)
    requires Guarded(es, userId, start, pool, works, breaks, regular, i, b, t) && i < |works| && works[i] <= 0
    ensures Guarded(es, userId, start, pool, works, breaks, regular, i + 1, b, t)
  {
    assert !Regular(works, breaks);
  }

  /** Booking session `i` at the clock. */
  lemma GuardedWork(es: seq<Entry>, userId: int, start: Time, pool: seq<int>, works: seq<int>, breaks: seq<int>,
                    regular: bool, i: nat, b: nat, t: Time, e: Entry)
    requires Guarded(es, userId, start, pool, works, breaks, regular, i, b, t) && (regular ==> b == i) && i < |works|
    requires ValidTaskPool(pool) && e.userId == userId && e.taskId in pool && e.start == t && Duration(e) == works[i]
    ensures Guarded(es + [e], userId, start, pool, works, breaks, regular, i + 1, b, e.end)
  {
    if regular { AppendWork(es, userId, start, pool, works, breaks, i, t, e); }
    TaggedAppend(es, e, userId, start, pool);
  }

  /** Taking break `b` at the clock after session `w - 1`. */
  lemma GuardedBreak(es: seq<Entry>, userId: int, start: Time, pool: seq<int>, works: seq<int>, breaks: seq<int>,
                     regular: bool, w: nat, b: nat, t: Time, e: Entry)
    requires Guarded(es, userId, start, pool, works, breaks, regular, w, b, t) && (regular ==> w == b + 1) && b < |breaks|
    requires e.userId == userId && e.taskId == BreakTask && e.start == t && Duration(e) == breaks[b]
    ensures Guarded(es + [e], userId, start, pool, works, breaks, regular, w, b + 1, e.end)
  {
    if regular { AppendBreak(es, userId, start, pool, works, breaks, b, t, e); }
    TaggedAppend(es, e, userId, start, pool);
  }


  /** The day's work target and break durations: on a short day
      `randint(120, 300)` minutes (slot 0) and the short break pattern,
      otherwise 480 minutes and the normal pattern. */
  function DayPlan(isShortDay: bool, s: Stream): (plan: (int, seq<int>))
    ensures isShortDay ==> 120 <= plan.0 <= 300 && 1 <= |plan.1| <= 2 && 10 <= Sum(plan.1) <= 30
    ensures !isShortDay ==> plan.0 == NormalWorkMinutes && 2 <= |plan.1| <= 3 && 30 <= Sum(plan.1) <= 50
    ensures forall k :: 0 <= k < |plan.1| ==> plan.1[k] >= 10
  {
    if isShortDay then (RandInt(120, 300, s(0)), ShortBreaks(Shift(s, 1)))
    else (NormalWorkMinutes, NormalBreaks(Shift(s, 1)))
  }

  /** The second half of the daily generator: split `totalWorkMinutes`
      into one session more than there are breaks and walk the clock from
      `start`. A target with room for every 30-minute floor and positive
      breaks give a full layout: all minutes booked, every break taken. */
  method SplitAndEmit(date: Date, userId: int, start: Time, totalWorkMinutes: int, breakDurations: seq<int>,
                      pool: seq<int>, s: Stream)
    returns (entries: seq<Entry>)
    requires ValidTaskPool(pool) && |breakDurations| >= 1
    requires totalWorkMinutes >= 30 * (|breakDurations| + 1)
    requires forall k :: 0 <= k < |breakDurations| ==> breakDurations[k] > 0
    requires Midnight(date) <= start && start + totalWorkMinutes + Sum(breakDurations) < Midnight(date) + MinutesPerDay
    ensures WellFormedDay(entries, userId, date, pool)
    ensures |entries| == 2 * |breakDurations| + 1
    ensures WorkTotal(entries) == totalWorkMinutes && BreakTotal(entries) == Sum(breakDurations)
    ensures entries[0].start == start && entries[|entries| - 1].end == start + totalWorkMinutes + Sum(breakDurations)
    ensures forall j :: 0 <= j < |entries| - 1 && j % 2 == 0 ==> 30 <= Duration(entries[j]) <= 180
    ensures Duration(entries[|entries| - 1]) >= 30
  {
    var numWorkSessions := |breakDurations| + 1;
    var split;
    ghost var clamped;
    split, clamped := PartitionClamped(totalWorkMinutes, numWorkSessions, s);
    var works := split.value;
    assert Regular(works, breakDurations);
    entries := EmitGuarded(userId, start, pool, works, breakDurations, Shift(s, 3));
    assert breakDurations[..|works| - 1] == breakDurations;
    LayoutDay(entries, userId, date, start, pool, works, breakDurations);
    SessionDurations(entries, works);
  }

  /** A day generated for `userId` on `date`: a well-formed chain; on a
      short day 3 or 5 entries with 120-300 work and 10-30 break minutes,
      otherwise 5 or 7 entries with 480 work and 30-50 break minutes;
      starting on the 07:00-08:30 grid and ending by 17:20, every session
      but the last 30-180 minutes long and the last at least 30. */
  ghost predicate UserDay(es: seq<Entry>, userId: int, date: Date, isShortDay: bool, pool: seq<int>)
  {
    && WellFormedDay(es, userId, date, pool)
    && (isShortDay ==> (|es| == 3 || |es| == 5) && 120 <= WorkTotal(es) <= 300 && 10 <= BreakTotal(es) <= 30)
    && (!isShortDay ==> (|es| == 5 || |es| == 7) && WorkTotal(es) == NormalWorkMinutes && 30 <= BreakTotal(es) <= 50)
    && OnStartGrid(es[0].start - Midnight(date))
    && es[|es| - 1].end <= Midnight(date) + 17 * 60 + 20
    && (forall j :: 0 <= j < |es| - 1 && j % 2 == 0 ==> 30 <= Duration(es[j]) <= 180)
    && Duration(es[|es| - 1]) >= 30
  }

  /** `generate_daily_timetrackings(date, user_id, is_short_day)`: the start
      clock on the 07:00-08:30 grid; on a short day a 120-300 minute target
      and one or two breaks, otherwise 480 minutes and two or three breaks;
      then the split and the walk. The split never falls back and no
      session is ever skipped, so the day is a full alternating layout
      ending by 17:20. */
  method GenerateDay(date: Date, userId: int, isShortDay: bool, pool: seq<int>, s: Stream) returns (entries: seq<Entry>)
    requires ValidTaskPool(pool)
    ensures UserDay(entries, userId, date, isShortDay, pool)
  {
    var startMinute := StartMinute(s(0), s(1));
    var start := Midnight(date) + startMinute;
    var plan := DayPlan(isShortDay, Shift(s, 2));
    entries := SplitAndEmit(date, userId, start, plan.0, plan.1, pool, Shift(s, 7));
    assert entries[0].start - Midnight(date) == startMinute;
  }

  /** `days_per_user = total_vacation_days // num_users`: the largest
      count that every user can get. Python raises `ZeroDivisionError` with
      no users. */
  function PerUser(total: nat, numUsers: nat): (r: nat)
    requires numUsers > 0
    ensures r * numUsers <= total < (r + 1) * numUsers
  {
    total / numUsers
  }

  /** `remaining_days = total_vacation_days % num_users`: what is left over
      once every user has `days_per_user`, fewer than there are users. */
  function Extra(total: nat, numUsers: nat): (r: nat)
    requires numUsers > 0
    ensures r < numUsers && PerUser(total, numUsers) * numUsers + r == total
  {
    total % numUsers
  }

  /** `num_days` of user `i` in the fair split: `days_per_user`, plus one
      for the first `remaining_days` users, so no two quotas differ by more
      than one day. */
  function Quota(i: int, perUser: nat, extra: nat): (q: nat)
    ensures perUser <= q <= perUser + 1
  {
    perUser + (if i < extra then 1 else 0)
  }

  /** Where user `i`'s share starts in the shuffled pool: the quotas of
      the users before, that is `i * perUser` days plus one for
      each of them among the first `extra`. */
  function Offset(i: nat, perUser: nat, extra: nat): (o: nat)
    ensures o == i * perUser + Min(i, extra)
  {
    if i == 0 then 0
    else
      assert (i - 1) * perUser + perUser == i * perUser;
      Offset(i - 1, perUser, extra) + Quota(i - 1, perUser, extra)
  }

  /** With `total // numUsers` each and one more for the first
      `total % numUsers` users, the shares add up to the whole budget. */
  lemma SharesCoverBudget(total: nat, numUsers: nat)
    requires numUsers > 0
    ensures Offset(numUsers, total / numUsers, total % numUsers) == total
  {
    assert total == numUsers * (total / numUsers) + total % numUsers;
  }

  lemma {:induction false} OffsetMonotone(i: nat, j: nat, perUser: nat, extra: nat)
    requires i <= j
    ensures Offset(i, perUser, extra) <= Offset(j, perUser, extra)
    decreases j
  {
    if i < j { OffsetMonotone(i, j - 1, perUser, extra); }
  }

  /** User `i`'s slice of the shuffled pool, `vacation_pool[:num_days]`
      after the shares before it are cut off: at most their quota, all from the pool. */
  function Share(pool: seq<Date>, i: nat, perUser: nat, extra: nat): (r: seq<Date>)
    ensures |r| <= Quota(i, perUser, extra)
    ensures forall d :: d in r ==> d in pool
  {
    Slice(pool, Offset(i, perUser, extra), Offset(i + 1, perUser, extra))
  }

  /** The shares of the first `n` users, one after the other: no more
      than their quotas add up to. */
  function Shares(pool: seq<Date>, n: nat, perUser: nat, extra: nat): (r: seq<Date>)
    ensures |r| <= Offset(n, perUser, extra)
  {
    if n == 0 then [] else Shares(pool, n - 1, perUser, extra) + Share(pool, n - 1, perUser, extra)
  }

  /** A pool with room for the whole budget gives every user exactly their quota. */
  lemma ShareSize(pool: seq<Date>, i: nat, total: nat, numUsers: nat)
    requires numUsers > 0 && i < numUsers && |pool| >= total
    ensures |Share(pool, i, total / numUsers, total % numUsers)| == Quota(i, total / numUsers, total % numUsers)
  {
    OffsetMonotone(i + 1, numUsers, total / numUsers, total % numUsers);
    SharesCoverBudget(total, numUsers);
  }

  /** The shares, one after the other, are a prefix of the pool: the first
      `Offset(n)` days, or all of them when the pool is shorter. */
  lemma {:induction false} SharesArePrefix(pool: seq<Date>, n: nat, perUser: nat, extra: nat)
    ensures Shares(pool, n, perUser, extra) == pool[..Min(Offset(n, perUser, extra), |pool|)]
  {
    if n > 0 {
      var a, q := Offset(n - 1, perUser, extra), Quota(n - 1, perUser, extra);
      assert Offset(n, perUser, extra) == a + q;
      assert Share(pool, n - 1, perUser, extra) == Slice(pool, a, a + q);
      SharesArePrefix(pool, n - 1, perUser, extra);
      PrefixThenSlice(pool, a, q);
    }
  }

  /** The first `a` elements followed by the next `q` are the first `a + q`, all clamped. */
  lemma PrefixThenSlice(pool: seq<Date>, a: nat, q: nat)
    ensures pool[..Min(a, |pool|)] + Slice(pool, a, a + q) == pool[..Min(a + q, |pool|)]
  {
    var x, y := Min(a, |pool|), Min(a + q, |pool|);
    assert pool[..y] == pool[..x] + pool[x..y];
  }

  /** In a pool without duplicates, two different users' shares have no day in common. */
  lemma SharesDisjoint(pool: seq<Date>, i: nat, j: nat, perUser: nat, extra: nat)
    requires i < j && Distinct(pool)
    ensures forall d :: d in Share(pool, i, perUser, extra) ==> d !in Share(pool, j, perUser, extra)
  {
    OffsetMonotone(i + 1, j, perUser, extra);
    var a := Share(pool, i, perUser, extra);
    var b := Share(pool, j, perUser, extra);
    var ai := Min(Offset(i, perUser, extra), |pool|);
    var bj := Min(Offset(j, perUser, extra), |pool|);
    forall d | d in a ensures d !in b {
      var p :| 0 <= p < |a| && a[p] == d;
      forall q | 0 <= q < |b| ensures b[q] != d {
        DistinctAt(pool, ai + p, bj + q);
      }
    }
  }

  /** The per-user lists in user order, one after the other. */
  function Joined(m: map<int, seq<Date>>, ids: seq<int>): seq<Date>
    requires forall k :: 0 <= k < |ids| ==> ids[k] in m
  {
    if ids == [] then [] else Joined(m, ids[..|ids| - 1]) + m[ids[|ids| - 1]]
  }

  lemma {:induction false} JoinedShares(m: map<int, seq<Date>>, ids: seq<int>, pool: seq<Date>, n: nat, perUser: nat, extra: nat)
    requires n <= |ids| && forall k :: 0 <= k < |ids| ==> ids[k] in m
    requires forall k :: 0 <= k < n ==> m[ids[k]] == Share(pool, k, perUser, extra)
    ensures Joined(m, ids[..n]) == Shares(pool, n, perUser, extra)
  {
    if n > 0 {
      assert ids[..n][..n - 1] == ids[..n - 1];
      JoinedShares(m, ids, pool, n - 1, perUser, extra);
    }
  }

  /** Python's `s[:b]` then `s[b:]` of the rest is the next slice of the original. */
  lemma DropSlice(pool: seq<Date>, a: nat, q: nat)
    ensures Slice(Drop(pool, a), 0, q) == Slice(pool, a, a + q)
    ensures Drop(Drop(pool, a), q) == Drop(pool, a + q)
  {
  }

  /** Lines 137-147: shuffle a copy of the vacation list and hand each user,
      in order, the next `Quota(i)` days of it. With distinct user ids each
      user's list is their share, the lists one after the other are a prefix
      of the shuffled pool (all of it when it holds the whole budget), and
      when the vacation list has no duplicates no day goes to two users. */
  method SplitVacation(userIds: seq<int>, totalVacationDays: nat, vacationDaysList: seq<Date>, s: Stream)
    returns (userVacationDays: map<int, seq<Date>>)
    requires |userIds| > 0
    ensures forall u :: u in userVacationDays ==> u in userIds
    ensures forall k :: 0 <= k < |userIds| ==> userIds[k] in userVacationDays
    ensures Distinct(userIds) ==> forall i :: 0 <= i < |userIds| ==>
              userVacationDays[userIds[i]] ==
              Share(Shuffle(vacationDaysList, s), i, PerUser(totalVacationDays, |userIds|), Extra(totalVacationDays, |userIds|))
    ensures Distinct(userIds) ==>
              Joined(userVacationDays, userIds) == Shuffle(vacationDaysList, s)[..Min(totalVacationDays, |vacationDaysList|)]
    ensures Distinct(userIds) && |vacationDaysList| <= totalVacationDays ==>
              multiset(Joined(userVacationDays, userIds)) == multiset(vacationDaysList)
    ensures Distinct(userIds) && |vacationDaysList| >= totalVacationDays ==> forall i :: 0 <= i < |userIds| ==>
              |userVacationDays[userIds[i]]| == Quota(i, PerUser(totalVacationDays, |userIds|), Extra(totalVacationDays, |userIds|))
    ensures Distinct(userIds) && Distinct(vacationDaysList) ==>
              forall i, j, d :: 0 <= i < j < |userIds| && d in userVacationDays[userIds[i]] ==> d !in userVacationDays[userIds[j]]
  {
    var numUsers := |userIds|;
    var vacationPool := Shuffle(vacationDaysList, s);
    userVacationDays := HandOut(userIds, PerUser(totalVacationDays, numUsers), Extra(totalVacationDays, numUsers), vacationPool);
    SplitProperties(userVacationDays, userIds, totalVacationDays, vacationDaysList, vacationPool);
  }

  /** Lines 141-147, the hand-out loop: user `i` takes the first `Quota(i)`
      days left in the pool, which with distinct user ids is their share. */
  method HandOut(userIds: seq<int>, daysPerUser: nat, remainingDays: nat, pool: seq<Date>)
    returns (userVacationDays: map<int, seq<Date>>)
    ensures forall u :: u in userVacationDays ==> u in userIds
    ensures forall k :: 0 <= k < |userIds| ==> userIds[k] in userVacationDays
    ensures Distinct(userIds) ==> forall k :: 0 <= k < |userIds| ==>
              userVacationDays[userIds[k]] == Share(pool, k, daysPerUser, remainingDays)
  {
    var vacationPool := pool;
    userVacationDays := map[];
    for i := 0 to |userIds|
      invariant HandedOut(userVacationDays, userIds, i, pool, daysPerUser, remainingDays)
      invariant vacationPool == Drop(pool, Offset(i, daysPerUser, remainingDays))
    {
      var numDays := Quota(i, daysPerUser, remainingDays);
      assert Offset(i + 1, daysPerUser, remainingDays) == Offset(i, daysPerUser, remainingDays) + numDays;
      DropSlice(pool, Offset(i, daysPerUser, remainingDays), numDays);
      var mine := Slice(vacationPool, 0, numDays);
      GiveShare(userVacationDays, userIds, i, mine, pool, daysPerUser, remainingDays);
      userVacationDays := userVacationDays[userIds[i] := mine];
      vacationPool := Drop(vacationPool, numDays);
    }
    assert userIds[..|userIds|] == userIds;
  }

  /** The first `i` users hold their lists, and nobody else holds one. */
  ghost predicate HandedOut(m: map<int, seq<Date>>, userIds: seq<int>, i: nat, pool: seq<Date>, perUser: nat, extra: nat)
    requires i <= |userIds|
  {
    && (forall u :: u in m ==> u in userIds[..i])
    && (forall k :: 0 <= k < i ==> userIds[k] in m)
    && (Distinct(userIds) ==> forall k :: 0 <= k < i ==> m[userIds[k]] == Share(pool, k, perUser, extra))
  }

  /** Recording user `i`'s share keeps the shares of the users before. */
  lemma GiveShare(m: map<int, seq<Date>>, userIds: seq<int>, i: nat, mine: seq<Date>, pool: seq<Date>, perUser: nat, extra: nat)
    requires i < |userIds| && HandedOut(m, userIds, i, pool, perUser, extra)
    requires mine == Share(pool, i, perUser, extra)
    ensures HandedOut(m[userIds[i] := mine], userIds, i + 1, pool, perUser, extra)
  {
    assert userIds[..i + 1] == userIds[..i] + [userIds[i]];
    if Distinct(userIds) {
      forall k | 0 <= k < i ensures userIds[k] != userIds[i] { DistinctAt(userIds, k, i); }
    }
  }

  /** Every day handed out comes from the vacation list, and so from any
      list that holds all of it. */
  lemma SharesWithin(m: map<int, seq<Date>>, userIds: seq<int>, total: nat, list: seq<Date>, shuffled: seq<Date>, days: seq<Date>)
    requires |userIds| > 0 && multiset(shuffled) == multiset(list)
    requires forall d :: d in list ==> d in days
    requires forall u :: u in m ==> u in userIds
    requires forall i :: 0 <= i < |userIds| ==> userIds[i] in m
    requires forall i :: 0 <= i < |userIds| ==> m[userIds[i]] == Share(shuffled, i, PerUser(total, |userIds|), Extra(total, |userIds|))
    ensures forall u, d :: u in m && d in m[u] ==> d in days
  {
    forall u, d | u in m && d in m[u] ensures d in days {
      var k :| 0 <= k < |userIds| && userIds[k] == u;
      var share := m[u];
      var p :| 0 <= p < |share| && share[p] == d;
      assert d in multiset(shuffled);
    }
  }

  /** What the shares give once every user holds theirs. */
  lemma SplitProperties(m: map<int, seq<Date>>, userIds: seq<int>, total: nat, list: seq<Date>, shuffled: seq<Date>)
    requires |userIds| > 0 && |shuffled| == |list| && multiset(shuffled) == multiset(list)
    requires forall k :: 0 <= k < |userIds| ==> userIds[k] in m
    requires Distinct(userIds) ==> forall i :: 0 <= i < |userIds| ==>
               m[userIds[i]] == Share(shuffled, i, PerUser(total, |userIds|), Extra(total, |userIds|))
    ensures Distinct(userIds) ==> Joined(m, userIds) == shuffled[..Min(total, |list|)]
    ensures Distinct(userIds) && |list| <= total ==> multiset(Joined(m, userIds)) == multiset(list)
    ensures Distinct(userIds) && |list| >= total ==> forall i :: 0 <= i < |userIds| ==>
              |m[userIds[i]]| == Quota(i, PerUser(total, |userIds|), Extra(total, |userIds|))
    ensures Distinct(userIds) && Distinct(list) ==>
              forall i, j, d :: 0 <= i < j < |userIds| && d in m[userIds[i]] ==> d !in m[userIds[j]]
  {
    var numUsers := |userIds|;
    var perUser, extra := PerUser(total, numUsers), Extra(total, numUsers);
    if Distinct(userIds) {
      SharesCoverBudget(total, numUsers);
      JoinedShares(m, userIds, shuffled, numUsers, perUser, extra);
      assert userIds[..numUsers] == userIds;
      SharesArePrefix(shuffled, numUsers, perUser, extra);
      if |list| <= total {
        assert shuffled[..|shuffled|] == shuffled;
      }
      if |list| >= total {
        forall i | 0 <= i < numUsers ensures |m[userIds[i]]| == Quota(i, perUser, extra) {
          ShareSize(shuffled, i, total, numUsers);
        }
      }
      if Distinct(list) {
        DistinctOfPermutation(list, shuffled);
        forall i, j | 0 <= i < j < numUsers
          ensures forall d :: d in m[userIds[i]] ==> d !in m[userIds[j]]
        {
          SharesDisjoint(shuffled, i, j, perUser, extra);
        }
      }
    }
  }

  /** Draws each user takes for their short days: one for the count, the
      rest for the sample. */
  const DrawsPerUser: nat := 16

  /** A user's short days: working days outside their vacation, sorted, at
      least 3 and at most 8 of them unless fewer days are available. */
  ghost predicate ShortDaysOf(shortDays: seq<Date>, workingDays: seq<Date>, vacationDays: seq<Date>)
  {
    && (forall d :: d in shortDays ==> d in workingDays && d !in vacationDays)
    && SortedBy(shortDays, (d: Date) => d)
    && Min(3, |Without(workingDays, vacationDays)|) <= |shortDays| <= Min(8, |Without(workingDays, vacationDays)|)
  }

  /** Lines 149-157: for each user `randint(3, 8)` short days sampled from
      the working days outside that user's vacation. */
  method AssignShortDays(userIds: seq<int>, allWorkingDays: seq<Date>, userVacationDays: map<int, seq<Date>>, s: Stream)
    returns (userShortDays: map<int, seq<Date>>)
    requires forall k :: 0 <= k < |userIds| ==> userIds[k] in userVacationDays
    ensures forall u :: u in userShortDays ==> u in userIds && u in userVacationDays
    ensures forall k :: 0 <= k < |userIds| ==> userIds[k] in userShortDays
    ensures forall u :: u in userShortDays ==> ShortDaysOf(userShortDays[u], allWorkingDays, userVacationDays[u])
  {
    userShortDays := map[];
    for i := 0 to |userIds|
      invariant forall u :: u in userShortDays ==> u in userIds && u in userVacationDays
      invariant forall k :: 0 <= k < i ==> userIds[k] in userShortDays
      invariant forall u :: u in userShortDays ==> ShortDaysOf(userShortDays[u], allWorkingDays, userVacationDays[u])
    {
      var userId := userIds[i];
      var draws := Shift(s, DrawsPerUser * i);
      var numShort := RandInt(3, 8, draws(0));
      var shortDays := GenerateShortDays(allWorkingDays, userVacationDays[userId], numShort, Shift(draws, 1));
      RecordShortDays(userShortDays, userIds, i, shortDays, allWorkingDays, userVacationDays);
      userShortDays := userShortDays[userId := shortDays];
    }
  }

  /** Recording user `i`'s short days keeps the loop's invariant. */
  lemma RecordShortDays(m: map<int, seq<Date>>, userIds: seq<int>, i: nat, shortDays: seq<Date>,
                        workingDays: seq<Date>, userVacationDays: map<int, seq<Date>>)
    requires i < |userIds| && userIds[i] in userVacationDays
    requires forall u :: u in m ==> u in userIds && u in userVacationDays
    requires forall k :: 0 <= k < i ==> userIds[k] in m
    requires forall u :: u in m ==> ShortDaysOf(m[u], workingDays, userVacationDays[u])
    requires ShortDaysOf(shortDays, workingDays, userVacationDays[userIds[i]])
    ensures forall u :: u in m[userIds[i] := shortDays] ==> u in userIds && u in userVacationDays
    ensures forall k :: 0 <= k < i + 1 ==> userIds[k] in m[userIds[i] := shortDays]
    ensures forall u :: u in m[userIds[i] := shortDays] ==>
              ShortDaysOf(m[userIds[i] := shortDays][u], workingDays, userVacationDays[u])
  {
  }

  /** Lines 163-183 for one user: every date of the range that is a
      weekday, not a holiday and not one of the user's vacation days gets a
      day of entries, short when the date is one of the user's short days,
      appended in date order. */
  method GenerateUserEntries(userId: int, startDate: Date, endDate: Date, holidays: set<Date>,
                             vacationDays: seq<Date>, shortDays: seq<Date>, pool: seq<int>, s: Stream)
    returns (entries: seq<Entry>)
    requires ValidTaskPool(pool)
    ensures forall e :: e in entries ==>
              && e.userId == userId
              && startDate <= DayOf(e.start) <= endDate
              && IsWorkingDay(DayOf(e.start), holidays)
              && DayOf(e.start) !in vacationDays
    ensures forall d :: startDate <= d <= endDate && IsWorkingDay(d, holidays) && d !in vacationDays ==>
              UserDay(EntriesOn(entries, userId, d), userId, d, d in shortDays, pool)
    ensures forall i, j :: 0 <= i < j < |entries| ==> DayOf(entries[i].start) <= DayOf(entries[j].start)
  {
    entries := [];
    var currentDate := startDate;
    while currentDate <= endDate
      invariant startDate <= currentDate <= endDate + 1 || (currentDate == startDate && startDate > endDate)
      invariant Booked(entries, userId, startDate, currentDate, holidays, vacationDays, shortDays, pool)
      decreases endDate - currentDate
    {
      if Weekday(currentDate) >= 5 || currentDate in holidays {
        SkipDate(entries, userId, startDate, currentDate, holidays, vacationDays, shortDays, pool);
        currentDate := currentDate + 1;
        continue;
      }
      if currentDate in vacationDays {
        SkipDate(entries, userId, startDate, currentDate, holidays, vacationDays, shortDays, pool);
        currentDate := currentDate + 1;
        continue;
      }
      entries := BookDay(entries, userId, startDate, currentDate, holidays, vacationDays, shortDays, pool,
                         Shift(s, DrawsPerDay * (currentDate - startDate)));
      currentDate := currentDate + 1;
    }
  }

  /** The body of the day loop for a working, non-vacation date: generate
      the day, short when the date is a short day, and append it. */
  method BookDay(entries: seq<Entry>, userId: int, startDate: Date, date: Date, holidays: set<Date>,
                 vacationDays: seq<Date>, shortDays: seq<Date>, pool: seq<int>, s: Stream)
    returns (entries': seq<Entry>)
    requires ValidTaskPool(pool) && Booked(entries, userId, startDate, date, holidays, vacationDays, shortDays, pool)
    requires startDate <= date && IsWorkingDay(date, holidays) && date !in vacationDays
    ensures Booked(entries', userId, startDate, date + 1, holidays, vacationDays, shortDays, pool)
    ensures |entries'| > |entries| && entries'[..|entries|] == entries
  {
    var isShort := date in shortDays;
    var daily := GenerateDay(date, userId, isShort, pool, s);
    BookDate(entries, daily, userId, startDate, date, holidays, vacationDays, shortDays, pool);
    entries' := entries + daily;
    assert entries'[..|entries|] == entries;
  }

  /** The loop state of one user's day loop with every date before `upTo`
      done: the entries belong to the user and to working, non-vacation
      dates of the range, every such date carries one generated day, and the
      entries are in date order. */
  ghost predicate Booked(es: seq<Entry>, userId: int, startDate: Date, upTo: Date, holidays: set<Date>,
                         vacationDays: seq<Date>, shortDays: seq<Date>, pool: seq<int>)
  {
    && (forall e :: e in es ==>
          && e.userId == userId
          && startDate <= DayOf(e.start) < upTo
          && IsWorkingDay(DayOf(e.start), holidays)
          && DayOf(e.start) !in vacationDays)
    && (forall d :: startDate <= d < upTo && IsWorkingDay(d, holidays) && d !in vacationDays ==>
          UserDay(EntriesOn(es, userId, d), userId, d, d in shortDays, pool))
    && (forall i, j :: 0 <= i < j < |es| ==> DayOf(es[i].start) <= DayOf(es[j].start))
  }

  /** A weekend, holiday or vacation date is passed over without booking. */
  lemma SkipDate(es: seq<Entry>, userId: int, startDate: Date, date: Date, holidays: set<Date>,
                 vacationDays: seq<Date>, shortDays: seq<Date>, pool: seq<int>)
    requires Booked(es, userId, startDate, date, holidays, vacationDays, shortDays, pool)
    requires !IsWorkingDay(date, holidays) || date in vacationDays
    ensures Booked(es, userId, startDate, date + 1, holidays, vacationDays, shortDays, pool)
  {
  }

  /** Appending the day generated for a working, non-vacation date books
      it as that date's entries and leaves every earlier date as it was. */
  lemma BookDate(es: seq<Entry>, daily: seq<Entry>, userId: int, startDate: Date, date: Date, holidays: set<Date>,
                 vacationDays: seq<Date>, shortDays: seq<Date>, pool: seq<int>)
    requires Booked(es, userId, startDate, date, holidays, vacationDays, shortDays, pool)
    requires startDate <= date && IsWorkingDay(date, holidays) && date !in vacationDays
    requires UserDay(daily, userId, date, date in shortDays, pool)
    ensures Booked(es + daily, userId, startDate, date + 1, holidays, vacationDays, shortDays, pool)
  {
    WellFormedDayOnDate(daily, userId, date, pool);
    AppendDay(es, daily, userId, date);
    AppendDayEntries(es, daily, userId, date, pool);
  }

  /** Every user's generated days, for the users before `i`: their days are
      listed under their own id. */
  ghost predicate UsersDone(all: seq<Entry>, userIds: seq<int>, i: nat, startDate: Date, endDate: Date, holidays: set<Date>,
                            userVacationDays: map<int, seq<Date>>, userShortDays: map<int, seq<Date>>, pool: seq<int>)
    requires i <= |userIds|
    requires forall k :: 0 <= k < |userIds| ==> userIds[k] in userVacationDays && userIds[k] in userShortDays
  {
    && (forall e :: e in all ==>
          && e.userId in userIds[..i] && e.userId in userVacationDays
          && startDate <= DayOf(e.start) <= endDate
          && IsWorkingDay(DayOf(e.start), holidays)
          && DayOf(e.start) !in userVacationDays[e.userId])
    && (Distinct(userIds) ==> forall k, d ::
          0 <= k < i && startDate <= d <= endDate && IsWorkingDay(d, holidays) && d !in userVacationDays[userIds[k]] ==>
          UserDay(EntriesOn(all, userIds[k], d), userIds[k], d, d in userShortDays[userIds[k]], pool))
  }

  /** Lines 160-183: the day loop for every user in turn. With distinct
      user ids each user's entries on each date are the day their own loop
      generated. */
  method GenerateEntries(userIds: seq<int>, startDate: Date, endDate: Date, holidays: set<Date>,
                         userVacationDays: map<int, seq<Date>>, userShortDays: map<int, seq<Date>>,
                         pool: seq<int>, s: Stream)
    returns (all: seq<Entry>)
    requires ValidTaskPool(pool)
    requires forall k :: 0 <= k < |userIds| ==> userIds[k] in userVacationDays && userIds[k] in userShortDays
    ensures forall e :: e in all ==>
              && e.userId in userIds && e.userId in userVacationDays
              && startDate <= DayOf(e.start) <= endDate
              && IsWorkingDay(DayOf(e.start), holidays)
              && DayOf(e.start) !in userVacationDays[e.userId]
    ensures Distinct(userIds) ==> forall k, d ::
              0 <= k < |userIds| && startDate <= d <= endDate && IsWorkingDay(d, holidays) && d !in userVacationDays[userIds[k]] ==>
              UserDay(EntriesOn(all, userIds[k], d), userIds[k], d, d in userShortDays[userIds[k]], pool)
  {
    all := [];
    var span: nat := if endDate >= startDate then endDate - startDate + 1 else 0;
    for i := 0 to |userIds|
      invariant UsersDone(all, userIds, i, startDate, endDate, holidays, userVacationDays, userShortDays, pool)
    {
      var userId := userIds[i];
      var userEntries := GenerateUserEntries(userId, startDate, endDate, holidays, userVacationDays[userId],
                                             userShortDays[userId], pool, Shift(s, DrawsPerDay * span * i));
      AddUser(all, userEntries, userIds, i, startDate, endDate, holidays, userVacationDays, userShortDays, pool);
      all := all + userEntries;
    }
    assert userIds[..|userIds|] == userIds;
  }

  /** Appending one user's entries keeps the other users' days. */
  lemma AddUser(all: seq<Entry>, mine: seq<Entry>, userIds: seq<int>, i: nat, startDate: Date, endDate: Date,
                holidays: set<Date>, userVacationDays: map<int, seq<Date>>, userShortDays: map<int, seq<Date>>, pool: seq<int>)
    requires i < |userIds|
    requires forall k :: 0 <= k < |userIds| ==> userIds[k] in userVacationDays && userIds[k] in userShortDays
    requires UsersDone(all, userIds, i, startDate, endDate, holidays, userVacationDays, userShortDays, pool)
    requires forall e :: e in mine ==>
               && e.userId == userIds[i]
               && startDate <= DayOf(e.start) <= endDate
               && IsWorkingDay(DayOf(e.start), holidays)
               && DayOf(e.start) !in userVacationDays[userIds[i]]
    requires forall d :: startDate <= d <= endDate && IsWorkingDay(d, holidays) && d !in userVacationDays[userIds[i]] ==>
               UserDay(EntriesOn(mine, userIds[i], d), userIds[i], d, d in userShortDays[userIds[i]], pool)
    ensures UsersDone(all + mine, userIds, i + 1, startDate, endDate, holidays, userVacationDays, userShortDays, pool)
  {
    var u := userIds[i];
    assert userIds[..i + 1] == userIds[..i] + [u];
    forall e | e in all + mine ensures e.userId in userIds[..i + 1] {
      if e in mine { assert e.userId == userIds[..i + 1][i]; }
    }
    if Distinct(userIds) {
      forall k, d | 0 <= k < i + 1 && startDate <= d <= endDate && IsWorkingDay(d, holidays) && d !in userVacationDays[userIds[k]]
        ensures UserDay(EntriesOn(all + mine, userIds[k], d), userIds[k], d, d in userShortDays[userIds[k]], pool)
      {
        EntriesOnAfterUser(all, mine, userIds, i, k, d);
      }
    }
  }

  /** Once user `i`'s entries follow those of the users before, each user's
      entries on a date come from their own part only. */
  lemma EntriesOnAfterUser(all: seq<Entry>, mine: seq<Entry>, userIds: seq<int>, i: nat, k: nat, d: Date)
    requires Distinct(userIds) && k <= i < |userIds|
    requires forall e :: e in all ==> e.userId in userIds[..i]
    requires forall e :: e in mine ==> e.userId == userIds[i]
    ensures EntriesOn(all + mine, userIds[k], d) == if k < i then EntriesOn(all, userIds[k], d) else EntriesOn(mine, userIds[i], d)
  {
    EntriesOnConcat(all, mine, userIds[k], d);
    if k < i {
      DistinctAt(userIds, k, i);
      EntriesOnAbsent(mine, userIds[k], d);
    } else {
      forall e | e in all ensures e.userId != userIds[i] {
        var k' :| 0 <= k' < i && userIds[..i][k'] == e.userId;
        DistinctAt(userIds, k', i);
      }
      EntriesOnAbsent(all, userIds[i], d);
    }
  }

  lemma UserIdsAreDistinct()
    ensures Distinct(UserIds)
  {
    assert UserIds[0] < UserIds[1] < UserIds[2];
    StrictlyIncreasingIsDistinct(UserIds);
  }

  /** Lines 131-147 of the script's run: the working days of the range,
      `totalVacationDays` of them sampled as vacation and shared among the
      users. The sample is as large as the budget or the range allows and
      the users' lists, one after the other, hold exactly its days; with
      room for the whole budget every user gets their quota. Every vacation
      day is a working day of the range and no day goes to two users. */
  method PlanVacations(userIds: seq<int>, startDate: Date, endDate: Date, holidays: set<Date>, totalVacationDays: nat, s: Stream)
    returns (allWorkingDays: seq<Date>, vacationDaysList: seq<Date>, userVacationDays: map<int, seq<Date>>)
    requires |userIds| > 0 && Distinct(userIds)
    ensures allWorkingDays == WorkingDaysBetween(startDate, endDate, holidays, [])
    ensures forall d :: d in allWorkingDays <==> startDate <= d <= endDate && IsWorkingDay(d, holidays)
    ensures |vacationDaysList| == Min(totalVacationDays, |allWorkingDays|)
    ensures StrictlyIncreasing(vacationDaysList)
    ensures forall d :: d in vacationDaysList ==> d in allWorkingDays
    ensures forall u :: u in userVacationDays ==> u in userIds
    ensures forall k :: 0 <= k < |userIds| ==> userIds[k] in userVacationDays
    ensures multiset(Joined(userVacationDays, userIds)) == multiset(vacationDaysList)
    ensures |allWorkingDays| >= totalVacationDays ==> forall k :: 0 <= k < |userIds| ==>
              |userVacationDays[userIds[k]]| == Quota(k, PerUser(totalVacationDays, |userIds|), Extra(totalVacationDays, |userIds|))
    ensures forall u, d :: u in userVacationDays && d in userVacationDays[u] ==> d in allWorkingDays
    ensures forall i, j, d :: 0 <= i < j < |userIds| && d in userVacationDays[userIds[i]] ==> d !in userVacationDays[userIds[j]]
  {
    allWorkingDays := GetAllWorkingDays(startDate, endDate, holidays);
    StrictlyIncreasingIsDistinct(allWorkingDays);
    vacationDaysList := GenerateVacationDays(allWorkingDays, totalVacationDays, Evens(s));
    StrictlyIncreasingIsDistinct(vacationDaysList);
    userVacationDays := SplitVacation(userIds, totalVacationDays, vacationDaysList, Odds(s));
    SharesWithin(userVacationDays, userIds, totalVacationDays, vacationDaysList, Shuffle(vacationDaysList, Odds(s)), allWorkingDays);
  }

  /** The run over any distinct users, date range, holidays, vacation
      budget and task pool: the vacation plan, every user's short days, then
      every user's entries, each user's entries on each of their working
      dates forming one generated day. Each stage draws from its own part of
      the stream. */
  method Run(userIds: seq<int>, startDate: Date, endDate: Date, holidays: set<Date>, totalVacationDays: nat,
             pool: seq<int>, s: Stream)
    returns (allWorkingDays: seq<Date>, vacationDaysList: seq<Date>, userVacationDays: map<int, seq<Date>>,
             userShortDays: map<int, seq<Date>>, all: seq<Entry>)
    requires |userIds| > 0 && Distinct(userIds) && ValidTaskPool(pool)
    ensures allWorkingDays == WorkingDaysBetween(startDate, endDate, holidays, [])
    ensures forall d :: d in allWorkingDays <==> startDate <= d <= endDate && IsWorkingDay(d, holidays)
    ensures |vacationDaysList| == Min(totalVacationDays, |allWorkingDays|)
    ensures StrictlyIncreasing(vacationDaysList)
    ensures forall d :: d in vacationDaysList ==> d in allWorkingDays
    ensures forall k :: 0 <= k < |userIds| ==> userIds[k] in userVacationDays && userIds[k] in userShortDays
    ensures multiset(Joined(userVacationDays, userIds)) == multiset(vacationDaysList)
    ensures |allWorkingDays| >= totalVacationDays ==> forall k :: 0 <= k < |userIds| ==>
              |userVacationDays[userIds[k]]| == Quota(k, PerUser(totalVacationDays, |userIds|), Extra(totalVacationDays, |userIds|))
    ensures forall u, d :: u in userVacationDays && d in userVacationDays[u] ==> d in allWorkingDays
    ensures forall i, j, d :: 0 <= i < j < |userIds| && d in userVacationDays[userIds[i]] ==> d !in userVacationDays[userIds[j]]
    ensures forall u :: u in userShortDays ==> u in userVacationDays
    ensures forall u :: u in userShortDays ==> ShortDaysOf(userShortDays[u], allWorkingDays, userVacationDays[u])
    ensures forall e :: e in all ==>
              && e.userId in userIds
              && startDate <= DayOf(e.start) <= endDate
              && IsWorkingDay(DayOf(e.start), holidays)
              && DayOf(e.start) !in userVacationDays[e.userId]
    ensures forall k, d ::
              0 <= k < |userIds| && startDate <= d <= endDate && IsWorkingDay(d, holidays) && d !in userVacationDays[userIds[k]] ==>
              UserDay(EntriesOn(all, userIds[k], d), userIds[k], d, d in userShortDays[userIds[k]], pool)
  {
    allWorkingDays, vacationDaysList, userVacationDays :=
      PlanVacations(userIds, startDate, endDate, holidays, totalVacationDays, Evens(s));
    userShortDays := AssignShortDays(userIds, allWorkingDays, userVacationDays, Evens(Odds(s)));
    all := GenerateEntries(userIds, startDate, endDate, holidays, userVacationDays, userShortDays, pool, Odds(Odds(s)));
  }

  /** The script's run: users 51, 52 and 53 from 2025-04-01 to 2025-06-06
      with the 2025 holidays, 30 vacation days and the full task list. The
      range has room for the whole budget, so all 30 days are taken and
      each user gets exactly 10 of them. */
  method Generate(s: Stream)
    returns (allWorkingDays: seq<Date>, vacationDaysList: seq<Date>, userVacationDays: map<int, seq<Date>>,
             userShortDays: map<int, seq<Date>>, all: seq<Entry>)
    ensures forall d :: d in allWorkingDays <==> StartDate <= d <= EndDate && IsWorkingDay(d, Holidays2025)
    ensures |vacationDaysList| == TotalVacationDays
    ensures StrictlyIncreasing(vacationDaysList)
    ensures forall k :: 0 <= k < |UserIds| ==> UserIds[k] in userVacationDays && UserIds[k] in userShortDays
    ensures multiset(Joined(userVacationDays, UserIds)) == multiset(vacationDaysList)
    ensures forall k :: 0 <= k < |UserIds| ==> |userVacationDays[UserIds[k]]| == 10
    ensures forall u, d :: u in userVacationDays && d in userVacationDays[u] ==> d in allWorkingDays
    ensures forall i, j, d :: 0 <= i < j < |UserIds| && d in userVacationDays[UserIds[i]] ==> d !in userVacationDays[UserIds[j]]
    ensures forall u :: u in userShortDays ==> u in userVacationDays
    ensures forall u :: u in userShortDays ==> ShortDaysOf(userShortDays[u], allWorkingDays, userVacationDays[u])
    ensures forall e :: e in all ==>
              && e.userId in UserIds
              && StartDate <= DayOf(e.start) <= EndDate
              && IsWorkingDay(DayOf(e.start), Holidays2025)
              && DayOf(e.start) !in userVacationDays[e.userId]
    ensures forall k, d ::
              0 <= k < |UserIds| && StartDate <= d <= EndDate && IsWorkingDay(d, Holidays2025) && d !in userVacationDays[UserIds[k]] ==>
              UserDay(EntriesOn(all, UserIds[k], d), UserIds[k], d, d in userShortDays[UserIds[k]], WorkTaskIds)
  {
    UserIdsAreDistinct();
    WorkTaskIdsIsValidPool();
    ConfiguredRangeHasThirtyWorkingDays();
    allWorkingDays, vacationDaysList, userVacationDays, userShortDays, all :=
      Run(UserIds, StartDate, EndDate, Holidays2025, TotalVacationDays, WorkTaskIds, s);
    assert PerUser(TotalVacationDays, |UserIds|) == 10 && Extra(TotalVacationDays, |UserIds|) == 0;
  }
}
