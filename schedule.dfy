/** The daily session partitioner shared by the scripts: the time entry
    record, the start-of-day clock, the normal-day break pattern, the split
    of the work target into sessions and the walk that lays work sessions
    and breaks out on a running clock. */
module Schedule {
  import opened Seqs
  import opened Calendar
  import opened Draws

  /** A clock time, in minutes since 2025-01-01 00:00 (day 0's midnight). */
  type Time = int

  const MinutesPerDay := 1440

  function Midnight(d: Date): Time
  {
    d * MinutesPerDay
  }

  /** The calendar date a clock time falls on. */
  function DayOf(t: Time): Date
  {
    t / MinutesPerDay
  }

  lemma DayOfWithin(d: Date, t: Time)
    requires Midnight(d) <= t < Midnight(d) + MinutesPerDay
    ensures DayOf(t) == d
  {
  }

  /** One output record `{user_id, task_id, start_time, end_time}`; the ids
      are kept as the integers the scripts render with `str`. */
  datatype Entry = Entry(userId: int, taskId: int, start: Time, end: Time)

  /** The task id that marks a break. */
  const BreakTask := 9

  /** `work_task_ids`, the same list in all three scripts. */
  const WorkTaskIds: seq<int> :=
    [4, 6, 7, 65, 76, 114, 116, 131, 136, 62, 77, 80, 83, 86, 108, 112, 126, 142] +
    [71, 73, 79, 90, 91, 102, 109, 120, 133, 134, 139, 146, 150, 60, 74, 78, 84] +
    [88, 100, 117, 119, 128, 130, 147, 158, 162, 72, 75, 96, 98, 103, 110, 111] +
    [121, 123, 143, 144, 145, 149, 152, 161, 64, 81, 85, 89, 93, 99, 104, 125] +
    [140, 63, 69, 70, 95, 105, 107, 113, 115, 156, 159, 66, 67, 68, 87, 97, 124] +
    [127, 129, 141, 148, 154, 160, 94, 101, 106, 118, 122, 132, 135, 138, 61, 82] +
    [92, 137, 151, 153, 155, 157]

  /** The break sentinel is never drawn as a work task. */
  lemma BreakTaskIsNotAWorkTask()
    ensures BreakTask !in WorkTaskIds
  {
    assert BreakTask !in [4, 6, 7, 65, 76, 114, 116, 131, 136, 62, 77, 80, 83, 86, 108, 112, 126, 142];
    assert BreakTask !in [71, 73, 79, 90, 91, 102, 109, 120, 133, 134, 139, 146, 150, 60, 74, 78, 84];
    assert BreakTask !in [88, 100, 117, 119, 128, 130, 147, 158, 162, 72, 75, 96, 98, 103, 110, 111];
    assert BreakTask !in [121, 123, 143, 144, 145, 149, 152, 161, 64, 81, 85, 89, 93, 99, 104, 125];
    assert BreakTask !in [140, 63, 69, 70, 95, 105, 107, 113, 115, 156, 159, 66, 67, 68, 87, 97, 124];
    assert BreakTask !in [127, 129, 141, 148, 154, 160, 94, 101, 106, 118, 122, 132, 135, 138, 61, 82];
    assert BreakTask !in [92, 137, 151, 153, 155, 157];
  }

  /** A pool of work task ids to draw from: non-empty, without the sentinel. */
  predicate ValidTaskPool(pool: seq<int>)
  {
    |pool| > 0 && BreakTask !in pool
  }

  lemma WorkTaskIdsIsValidPool()
    ensures ValidTaskPool(WorkTaskIds)
  {
    BreakTaskIsNotAWorkTask();
  }

  predicate IsBreak(e: Entry)
  {
    e.taskId == BreakTask
  }

  function Duration(e: Entry): int
  {
    e.end - e.start
  }

  /** Minutes of work entries. */
  function WorkTotal(es: seq<Entry>): int
  {
    if es == [] then 0
    else WorkTotal(es[..|es| - 1]) + (if IsBreak(es[|es| - 1]) then 0 else Duration(es[|es| - 1]))
  }

  /** Minutes of break entries. */
  function BreakTotal(es: seq<Entry>): int
  {
    if es == [] then 0
    else BreakTotal(es[..|es| - 1]) + (if IsBreak(es[|es| - 1]) then Duration(es[|es| - 1]) else 0)
  }

  lemma TotalsAppend(es: seq<Entry>, e: Entry)
    ensures WorkTotal(es + [e]) == WorkTotal(es) + (if IsBreak(e) then 0 else Duration(e))
    ensures BreakTotal(es + [e]) == BreakTotal(es) + (if IsBreak(e) then Duration(e) else 0)
  {
    assert (es + [e])[..|es|] == es;
  }

  /** Each entry starts where the previous one ended. */
  ghost predicate Chained(es: seq<Entry>)
  {
    forall j :: 0 < j < |es| ==> es[j - 1].end == es[j].start
  }

  /** Entry `e` at position `j` of a day's layout: a work session (even
      positions) with the duration of session `j / 2`, or a break (odd
      positions) with the duration of break `j / 2`. */
  ghost predicate EntryLaid(e: Entry, j: int, userId: int, pool: seq<int>, works: seq<int>, breaks: seq<int>)
  {
    && e.userId == userId
    && if j % 2 == 0 then 0 <= j / 2 < |works| && e.taskId in pool && Duration(e) == works[j / 2]
       else 0 <= j / 2 < |breaks| && e.taskId == BreakTask && Duration(e) == breaks[j / 2]
  }

  /** `es` is a prefix of the day laid out from `start`: each entry laid at
      its position, the first starting at `start` and every other where the
      one before ended. Defined entry by entry, from the last one back. */
  ghost predicate Laid(es: seq<Entry>, userId: int, start: Time, pool: seq<int>, works: seq<int>, breaks: seq<int>)
    decreases |es|
  {
    if es == [] then true
    else
      var j := |es| - 1;
      && Laid(es[..j], userId, start, pool, works, breaks)
      && EntryLaid(es[j], j, userId, pool, works, breaks)
      && (if j == 0 then es[0].start == start else es[j - 1].end == es[j].start)
  }

  /** What a laid-out prefix says about its entry at position `j`. */
  lemma {:induction false} LaidAt(es: seq<Entry>, userId: int, start: Time, pool: seq<int>, works: seq<int>, breaks: seq<int>, j: int)
    requires Laid(es, userId, start, pool, works, breaks) && 0 <= j < |es|
    ensures EntryLaid(es[j], j, userId, pool, works, breaks)
    ensures j == 0 ==> es[0].start == start
    ensures j > 0 ==> es[j - 1].end == es[j].start
    decreases |es|
  {
    if j < |es| - 1 {
      var init := es[..|es| - 1];
      LaidAt(init, userId, start, pool, works, breaks, j);
      assert init[j] == es[j];
      if j > 0 { assert init[j - 1] == es[j - 1]; }
    }
  }

  /** A laid-out prefix is a chain from `start` with every entry laid at its position. */
  lemma LaidChained(es: seq<Entry>, userId: int, start: Time, pool: seq<int>, works: seq<int>, breaks: seq<int>)
    requires Laid(es, userId, start, pool, works, breaks)
    ensures Chained(es) && (|es| > 0 ==> es[0].start == start)
    ensures forall j :: 0 <= j < |es| ==> EntryLaid(es[j], j, userId, pool, works, breaks)
  {
    forall j | 0 <= j < |es| ensures EntryLaid(es[j], j, userId, pool, works, breaks) {
      LaidAt(es, userId, start, pool, works, breaks, j);
    }
    forall j | 0 < j < |es| ensures es[j - 1].end == es[j].start {
      LaidAt(es, userId, start, pool, works, breaks, j);
    }
    if |es| > 0 { LaidAt(es, userId, start, pool, works, breaks, 0); }
  }

  /** The whole day: every session and the break after every session but the last. */
  ghost predicate Layout(es: seq<Entry>, userId: int, start: Time, pool: seq<int>, works: seq<int>, breaks: seq<int>)
  {
    |es| == 2 * |works| - 1 && Laid(es, userId, start, pool, works, breaks)
  }

  /** What every generated day satisfies: entries of one user, alternating
      work, break, ..., work, each of positive length, each starting where the
      previous ended, breaks tagged with the sentinel and work entries with a
      task of `pool`, all within the calendar date `date`. */
  ghost predicate WellFormedDay(es: seq<Entry>, userId: int, date: Date, pool: seq<int>)
  {
    && |es| % 2 == 1
    && Chained(es)
    && forall j :: 0 <= j < |es| ==>
         && es[j].userId == userId
         && es[j].start < es[j].end
         && Midnight(date) <= es[j].start && es[j].end < Midnight(date) + MinutesPerDay
         && (IsBreak(es[j]) <==> j % 2 == 1)
         && (j % 2 == 0 ==> es[j].taskId in pool)
  }

  /** A chain spans exactly the sum of its entries' durations. */
  lemma {:induction false} ChainSpan(es: seq<Entry>)
    requires Chained(es) && |es| > 0
    ensures es[|es| - 1].end == es[0].start + WorkTotal(es) + BreakTotal(es)
  {
    var init := es[..|es| - 1];
    TotalsAppend(init, es[|es| - 1]);
    assert init + [es[|es| - 1]] == es;
    if |init| > 0 {
      assert Chained(init);
      ChainSpan(init);
    }
  }

  /** In a chain of positive-length entries every entry lies between the
      first start and the last end. */
  lemma {:induction false} ChainBounds(es: seq<Entry>)
    requires Chained(es) && |es| > 0
    requires forall j :: 0 <= j < |es| ==> es[j].start < es[j].end
    ensures forall j :: 0 <= j < |es| ==> es[0].start <= es[j].start && es[j].end <= es[|es| - 1].end
  {
    if |es| > 1 {
      var init := es[..|es| - 1];
      assert Chained(init);
      ChainBounds(init);
      assert es[|es| - 2].end == es[|es| - 1].start;
    }
  }

  /** A complete layout of positive durations that fits in one calendar date
      is a well-formed day, ending after the sum of all durations. */
  lemma LayoutIsWellFormedDay(es: seq<Entry>, userId: int, date: Date, start: Time, pool: seq<int>, works: seq<int>, breaks: seq<int>)
    requires ValidTaskPool(pool)
    requires |works| >= 1 && |breaks| >= |works| - 1 && Layout(es, userId, start, pool, works, breaks)
    requires forall k :: 0 <= k < |works| ==> works[k] > 0
    requires forall k :: 0 <= k < |works| - 1 ==> breaks[k] > 0
    requires Midnight(date) <= start
    requires start + WorkTotal(es) + BreakTotal(es) < Midnight(date) + MinutesPerDay
    ensures WellFormedDay(es, userId, date, pool)
    ensures es[|es| - 1].end == start + WorkTotal(es) + BreakTotal(es)
  {
    LaidChained(es, userId, start, pool, works, breaks);
    forall j | 0 <= j < |es| ensures es[j].start < es[j].end {
      assert EntryLaid(es[j], j, userId, pool, works, breaks);
      if j % 2 == 0 { assert works[j / 2] > 0; } else { assert breaks[j / 2] > 0; }
    }
    ChainSpan(es);
    ChainBounds(es);
    forall j | 0 <= j < |es|
      ensures Midnight(date) <= es[j].start && es[j].end < Midnight(date) + MinutesPerDay
      ensures IsBreak(es[j]) <==> j % 2 == 1
      ensures j % 2 == 0 ==> es[j].taskId in pool
    {
      assert EntryLaid(es[j], j, userId, pool, works, breaks);
    }
  }

  /** A complete day laid out from every session and break: well formed,
      ending after all its minutes, each work entry as long as its session. */
  lemma LayoutDay(es: seq<Entry>, userId: int, date: Date, start: Time, pool: seq<int>, works: seq<int>, breaks: seq<int>)
    requires ValidTaskPool(pool) && |works| >= 1 && |breaks| == |works| - 1
    requires Layout(es, userId, start, pool, works, breaks)
    requires WorkTotal(es) == Sum(works) && BreakTotal(es) == Sum(breaks)
    requires forall k :: 0 <= k < |works| ==> works[k] > 0
    requires forall k :: 0 <= k < |breaks| ==> breaks[k] > 0
    requires Midnight(date) <= start && start + Sum(works) + Sum(breaks) < Midnight(date) + MinutesPerDay
    ensures WellFormedDay(es, userId, date, pool)
    ensures es[0].start == start && es[|es| - 1].end == start + Sum(works) + Sum(breaks)
    ensures forall j :: 0 <= j < |es| && j % 2 == 0 ==> Duration(es[j]) == works[j / 2]
  {
    LayoutIsWellFormedDay(es, userId, date, start, pool, works, breaks);
    LaidChained(es, userId, start, pool, works, breaks);
    forall j | 0 <= j < |es| && j % 2 == 0
      ensures Duration(es[j]) == works[j / 2]
    {
      assert EntryLaid(es[j], j, userId, pool, works, breaks);
    }
  }

  /** Session bounds carry over to the work entries of a layout: every one
      but the last lasts 30 to 180 minutes, the last at least 30. */
  lemma SessionDurations(es: seq<Entry>, works: seq<int>)
    requires |works| >= 1 && |es| == 2 * |works| - 1
    requires forall j :: 0 <= j < |es| && j % 2 == 0 ==> Duration(es[j]) == works[j / 2]
    requires forall k :: 0 <= k < |works| - 1 ==> 30 <= works[k] <= 180
    requires works[|works| - 1] >= 30
    ensures forall j :: 0 <= j < |es| - 1 && j % 2 == 0 ==> 30 <= Duration(es[j]) <= 180
    ensures Duration(es[|es| - 1]) >= 30
  {
    forall j | 0 <= j < |es| - 1 && j % 2 == 0 ensures 30 <= Duration(es[j]) <= 180 {
      assert j / 2 < |works| - 1;
    }
    assert (|es| - 1) / 2 == |works| - 1;
  }

  /** Appending an entry that starts where the last one ends keeps the chain. */
  lemma ChainedAppend(es: seq<Entry>, e: Entry)
    requires Chained(es) && (|es| > 0 ==> es[|es| - 1].end == e.start)
    ensures Chained(es + [e])
  {
    var es' := es + [e];
    forall j | 0 < j < |es'| ensures es'[j - 1].end == es'[j].start {
      if j < |es| { assert es'[j - 1] == es[j - 1] && es'[j] == es[j]; }
    }
  }

  /** Appending the next entry of the layout keeps it laid out. */
  lemma LaidAppend(es: seq<Entry>, userId: int, start: Time, pool: seq<int>, works: seq<int>, breaks: seq<int>, e: Entry)
    requires Laid(es, userId, start, pool, works, breaks)
    requires if |es| == 0 then e.start == start else es[|es| - 1].end == e.start
    requires EntryLaid(e, |es|, userId, pool, works, breaks)
    ensures Laid(es + [e], userId, start, pool, works, breaks)
  {
    assert (es + [e])[..|es|] == es;
  }

  /** The start-of-day clock: 07:00, 07:15, ..., 08:30. */
  predicate OnStartGrid(m: int)
  {
    m in {7 * 60, 7 * 60 + 15, 7 * 60 + 30, 7 * 60 + 45, 8 * 60, 8 * 60 + 15, 8 * 60 + 30}
  }

  /** Minutes after midnight at which the day starts: `randint(7, 8)` hours,
      then minutes from [0, 15, 30, 45] at 7 and from [0, 15, 30] at 8. */
  function StartMinute(hourDraw: nat, minuteDraw: nat): (m: int)
    ensures OnStartGrid(m)
  {
    var hour := RandInt(7, 8, hourDraw);
    var minute := if hour == 7 then Choice([0, 15, 30, 45], minuteDraw) else Choice([0, 15, 30], minuteDraw);
    hour * 60 + minute
  }

  /** Every grid time from 07:00 to 08:30 can start a day. */
  lemma StartMinuteCovers(m: int)
    requires OnStartGrid(m)
    ensures exists h: nat, k: nat :: StartMinute(h, k) == m
  {
    if m < 8 * 60 {
      var k: nat := (m - 7 * 60) / 15;
      assert StartMinute(0, k) == m;
    } else {
      var k: nat := (m - 8 * 60) / 15;
      assert StartMinute(1, k) == m;
    }
  }

  /** Break durations of a normal day (slot 0 picks two or three breaks):
      two breaks of 10-20 and 20-30 minutes, or three of 10-15 minutes. */
  function NormalBreaks(s: Stream): (b: seq<int>)
    ensures || (|b| == 2 && 10 <= b[0] <= 20 && 20 <= b[1] <= 30)
            || (|b| == 3 && forall k :: 0 <= k < 3 ==> 10 <= b[k] <= 15)
    ensures 30 <= Sum(b) <= 50
  {
    var numBreaks := Choice([2, 3], s(0));
    var b :=
      if numBreaks == 2 then [RandInt(10, 20, s(1)), RandInt(20, 30, s(2))]
      else [RandInt(10, 15, s(1)), RandInt(10, 15, s(2)), RandInt(10, 15, s(3))];
    SumOfShort(b);
    b
  }

  /** Split `total` work minutes into `sessions` sessions: each session but
      the last draws `randint(30, min(180, remaining - 30 * sessions_left))`,
      the last takes what remains. The caller's target leaves room for the
      30-minute floor of every session, so the upper bound never falls below
      30 and `randint` never raises. */
  method Partition(total: int, sessions: nat, s: Stream) returns (durations: seq<int>)
    requires sessions >= 1 && total >= 30 * sessions
    ensures |durations| == sessions
    ensures Sum(durations) == total
    ensures forall k :: 0 <= k < sessions - 1 ==> 30 <= durations[k] <= 180
    ensures durations[sessions - 1] >= 30
  {
    durations := [];
    var remainingWork := total;
    for i := 0 to sessions - 1
      invariant |durations| == i
      invariant Sum(durations) + remainingWork == total
      invariant remainingWork >= 30 * (sessions - i)
      invariant forall k :: 0 <= k < i ==> 30 <= durations[k] <= 180
    {
      var minDuration := 30;
      var maxDuration := Min(180, remainingWork - 30 * (sessions - i - 1));
      var duration := RandInt(minDuration, maxDuration, s(i));
      SumAppend(durations, duration);
      durations := durations + [duration];
      remainingWork := remainingWork - duration;
    }
    SumAppend(durations, remainingWork);
    durations := durations + [remainingWork];
  }

  /** The walk after `w` sessions and `b` breaks: a laid-out prefix whose
      clock stands at `t`, holding the minutes of those sessions and breaks. */
  ghost predicate Walk(es: seq<Entry>, userId: int, start: Time, pool: seq<int>, works: seq<int>, breaks: seq<int>,
                       w: nat, b: nat, t: Time)
  {
    && w <= |works| && b <= |breaks|
    && Laid(es, userId, start, pool, works, breaks)
    && (if |es| == 0 then t == start else es[|es| - 1].end == t)
    && WorkTotal(es) == Sum(works[..w])
    && BreakTotal(es) == Sum(breaks[..b])
  }

  /** Appending work session `i` to a walk that ended with break `i - 1`. */
  lemma AppendWork(es: seq<Entry>, userId: int, start: Time, pool: seq<int>, works: seq<int>, breaks: seq<int>, i: nat, t: Time, e: Entry)
    requires Walk(es, userId, start, pool, works, breaks, i, i, t) && |es| == 2 * i && i < |works|
    requires e.userId == userId && e.taskId in pool && BreakTask !in pool && e.start == t && Duration(e) == works[i]
    ensures Walk(es + [e], userId, start, pool, works, breaks, i + 1, i, e.end)
  {
    TotalsAppend(es, e);
    assert (2 * i) % 2 == 0 && (2 * i) / 2 == i;
    assert EntryLaid(e, |es|, userId, pool, works, breaks);
    LaidAppend(es, userId, start, pool, works, breaks, e);
    SumPrefixStep(works, i);
  }

  /** Appending break `i` to a walk that ended with work session `i`. */
  lemma AppendBreak(es: seq<Entry>, userId: int, start: Time, pool: seq<int>, works: seq<int>, breaks: seq<int>, i: nat, t: Time, e: Entry)
    requires Walk(es, userId, start, pool, works, breaks, i + 1, i, t) && |es| == 2 * i + 1 && i < |breaks|
    requires e.userId == userId && e.taskId == BreakTask && e.start == t && Duration(e) == breaks[i]
    ensures Walk(es + [e], userId, start, pool, works, breaks, i + 1, i + 1, e.end)
  {
    TotalsAppend(es, e);
    assert (2 * i + 1) % 2 == 1 && (2 * i + 1) / 2 == i;
    assert EntryLaid(e, |es|, userId, pool, works, breaks);
    LaidAppend(es, userId, start, pool, works, breaks, e);
    SumPrefixStep(breaks, i);
  }

  /** Walk the running clock from `start`: a work entry per session with a
      task drawn from `pool` (the scripts pass `WorkTaskIds`), and after every session but the last a
      break entry tagged `BreakTask` taking the next break duration. The
      break index stays below `|breaks|` at every access. */
  method Emit(userId: int, start: Time, pool: seq<int>, works: seq<int>, breaks: seq<int>, s: Stream) returns (entries: seq<Entry>)
    requires ValidTaskPool(pool) && |works| >= 1 && |breaks| >= |works| - 1
    ensures Layout(entries, userId, start, pool, works, breaks)
    ensures WorkTotal(entries) == Sum(works)
    ensures BreakTotal(entries) == Sum(breaks[..|works| - 1])
  {
    var n := |works|;
    entries := [];
    var currentTime := start;
    var breakIdx := 0;
    for i := 0 to n
      invariant i < n ==> |entries| == 2 * i && breakIdx == i
      invariant i == n ==> |entries| == 2 * n - 1 && breakIdx == n - 1
      invariant Walk(entries, userId, start, pool, works, breaks, i, breakIdx, currentTime)
    {
      var workDuration := works[i];
      var taskId := Choice(pool, s(i));
      var work := Entry(userId, taskId, currentTime, currentTime + workDuration);
      AppendWork(entries, userId, start, pool, works, breaks, i, currentTime, work);
      entries := entries + [work];
      currentTime := currentTime + workDuration;
      if i < n - 1 {
        var breakDuration := breaks[breakIdx];
        var pause := Entry(userId, BreakTask, currentTime, currentTime + breakDuration);
        AppendBreak(entries, userId, start, pool, works, breaks, breakIdx, currentTime, pause);
        entries := entries + [pause];
        currentTime := currentTime + breakDuration;
        breakIdx := breakIdx + 1;
      }
    }
    assert works[..n] == works;
  }

  /** The entries of `userId` that start on `date`, in their order: what a
      reader of the output file sees of that user on that day. */
  function EntriesOn(es: seq<Entry>, userId: int, date: Date): seq<Entry>
  {
    if es == [] then []
    else
      var e := es[|es| - 1];
      EntriesOn(es[..|es| - 1], userId, date) + (if e.userId == userId && DayOf(e.start) == date then [e] else [])
  }

  /** A user's entries on a date gather over the parts of a concatenation, in order. */
  lemma {:induction false} EntriesOnConcat(a: seq<Entry>, b: seq<Entry>, userId: int, date: Date)
    ensures EntriesOn(a + b, userId, date) == EntriesOn(a, userId, date) + EntriesOn(b, userId, date)
  {
    if b != [] {
      var b' := b[..|b| - 1];
      assert (a + b)[..|a + b| - 1] == a + b';
      assert (a + b)[|a + b| - 1] == b[|b| - 1];
      EntriesOnConcat(a, b', userId, date);
    } else {
      assert a + b == a;
    }
  }

  /** A block of entries of one user on one date is all of that user's
      entries on that date, and nothing on any other user or date. */
  lemma {:induction false} EntriesOnOneDay(es: seq<Entry>, u: int, d: Date, userId: int, date: Date)
    requires forall e :: e in es ==> e.userId == u && DayOf(e.start) == d
    ensures EntriesOn(es, userId, date) == if userId == u && date == d then es else []
  {
    if es != [] {
      var init, last := es[..|es| - 1], es[|es| - 1];
      assert last in es;
      assert forall e :: e in init ==> e in es;
      EntriesOnOneDay(init, u, d, userId, date);
      if userId == u && date == d {
        assert es == init + [last];
      }
    }
  }

  /** Nothing is listed for a user on a date none of the entries belongs to. */
  lemma {:induction false} EntriesOnAbsent(es: seq<Entry>, userId: int, date: Date)
    requires forall e :: e in es ==> e.userId != userId || DayOf(e.start) != date
    ensures EntriesOn(es, userId, date) == []
  {
    if es != [] {
      var init := es[..|es| - 1];
      assert forall e :: e in init ==> e in es;
      EntriesOnAbsent(init, userId, date);
    }
  }

  /** Appending the day generated for `date` after entries of earlier dates:
      the earlier dates keep their entries and the day is all of `date`'s. */
  lemma AppendDayEntries(all: seq<Entry>, daily: seq<Entry>, userId: int, date: Date, pool: seq<int>)
    requires forall e :: e in all ==> DayOf(e.start) < date
    requires WellFormedDay(daily, userId, date, pool)
    ensures forall d :: d < date ==> EntriesOn(all + daily, userId, d) == EntriesOn(all, userId, d)
    ensures EntriesOn(all + daily, userId, date) == daily
  {
    WellFormedDayOnDate(daily, userId, date, pool);
    forall d | d <= date
      ensures EntriesOn(all + daily, userId, d) == if d == date then daily else EntriesOn(all, userId, d)
    {
      EntriesOnConcat(all, daily, userId, d);
      EntriesOnOneDay(daily, userId, date, userId, d);
      if d == date { EntriesOnAbsent(all, userId, d); }
    }
  }

  /** Every entry of a well-formed day starts and ends on its date. */
  lemma WellFormedDayOnDate(es: seq<Entry>, userId: int, date: Date, pool: seq<int>)
    requires WellFormedDay(es, userId, date, pool)
    ensures forall e :: e in es ==> e.userId == userId && DayOf(e.start) == date && DayOf(e.end) == date
  {
    forall e | e in es ensures e.userId == userId && DayOf(e.start) == date && DayOf(e.end) == date {
      var j :| 0 <= j < |es| && es[j] == e;
      DayOfWithin(date, e.start);
      DayOfWithin(date, e.end);
    }
  }

  /** Appending the entries of a later date keeps the date order. */
  lemma AppendDay(all: seq<Entry>, daily: seq<Entry>, userId: int, date: Date)
    requires forall e :: e in all ==> DayOf(e.start) < date
    requires forall e :: e in daily ==> DayOf(e.start) == date
    requires forall i, j :: 0 <= i < j < |all| ==> DayOf(all[i].start) <= DayOf(all[j].start)
    ensures forall i, j :: 0 <= i < j < |all + daily| ==> DayOf((all + daily)[i].start) <= DayOf((all + daily)[j].start)
  {
    var r := all + daily;
    forall i, j | 0 <= i < j < |r| ensures DayOf(r[i].start) <= DayOf(r[j].start) {
      if j < |all| {
        assert r[i] == all[i] && r[j] == all[j];
      } else if i < |all| {
        assert r[i] == all[i] && r[i] in all;
        assert r[j] == daily[j - |all|] && r[j] in daily;
      } else {
        assert r[i] == daily[i - |all|] && r[i] in daily;
        assert r[j] == daily[j - |all|] && r[j] in daily;
      }
    }
  }
}
