/** The single-user generator with vacation: fifteen vacation days placed
    as runs of consecutive free working days, then one normal day of
    entries on every date that is neither a weekend, a holiday nor a
    vacation day. */
module VacationTimetrackings {
  import opened Seqs
  import opened Calendar
  import opened Draws
  import opened Schedule
  import Timetrackings

  /** `2025-05-01` and `2025-11-06` as day numbers, and the one user. */
  const StartDate: Date := 120
  const EndDate: Date := 309
  const UserId := 1

  /** Vacation days to place, attempts per period, longest period. */
  const VacationTarget := 15
  const MaxAttempts := 100
  const MaxPeriodLength := 5

  /** `is_working_day(date, vacation_days)`: not a weekend, not a holiday,
      not a vacation day. */
  predicate IsWorkingDayExcept(d: Date, holidays: set<Date>, vacation: seq<Date>): (w: bool)
    ensures w <==> IsWorkingDay(d, holidays) && d !in vacation
  {
    if Weekday(d) >= 5 then false
    else if d in holidays then false
    else if d in vacation then false
    else true
  }

  /** The test fails exactly on weekends, holidays and vacation days, and
      it is the plain working-day test with the vacation days removed. */
  lemma NotWorkingIffWeekendHolidayOrVacation(d: Date, holidays: set<Date>, vacation: seq<Date>)
    ensures !IsWorkingDayExcept(d, holidays, vacation) <==> IsWeekend(d) || d in holidays || d in vacation
    ensures IsWorkingDayExcept(d, holidays, vacation) <==> IsWorkingDay(d, holidays) && d !in vacation
  {
  }

  /** One vacation period `(period_dates[0], period_dates[-1], period_length)`. */
  datatype Period = Period(first: Date, last: Date, length: int)

  /** The allocator's result: the sorted vacation dates and the periods
      sorted by their first date. */
  datatype Allocation = Allocation(days: seq<Date>, periods: seq<Period>)

  function TotalLength(ps: seq<Period>): int
  {
    SumBy(ps, (p: Period) => p.length)
  }

  /** The length of the next period: 3-5 while at least five days remain,
      2 up to what remains when three or four remain, else all that remains. */
  function PeriodLength(remaining: int, r: nat): (len: int)
    requires remaining > 0
    ensures 1 <= len <= MaxPeriodLength && len <= remaining
    ensures remaining >= 5 ==> 3 <= len
    ensures 3 <= remaining < 5 ==> 2 <= len
    ensures remaining < 3 ==> len == remaining
  {
    if remaining >= 5 then RandInt(3, 5, r)
    else if remaining >= 3 then RandInt(2, remaining, r)
    else remaining
  }

  /** Every period length can be drawn: 3, 4 or 5 while five or more
      days remain, anything from 2 up to the rest when three or four remain. */
  lemma PeriodLengthCovers(remaining: int, len: int)
    requires (remaining >= 5 && 3 <= len <= 5) || (3 <= remaining < 5 && 2 <= len <= remaining)
    ensures PeriodLength(remaining, (len - if remaining >= 5 then 3 else 2) as nat) == len
  {
  }

  /** The walk for one attempt: from `vacationStart`, collect free working
      days (not a weekend, a holiday or a vacation day already taken) until
      `periodLength` are found or `endDate` is passed. Weekends, holidays and
      taken days inside the stretch are stepped over, not a reason to stop.
      The run is the first `periodLength` free days of the stretch, or all of
      them when there are fewer. */
  method WalkRun(vacationStart: Date, endDate: Date, periodLength: nat, holidays: set<Date>, taken: seq<Date>)
    returns (run: seq<Date>)
    ensures var free := WorkingDaysBetween(vacationStart, endDate, holidays, taken);
            run == free[..Min(periodLength, |free|)]
    ensures |run| <= periodLength
    ensures StrictlyIncreasing(run)
    ensures forall d :: d in run ==> vacationStart <= d <= endDate && IsWorkingDayExcept(d, holidays, taken) && d !in taken
  {
    ghost var free := WorkingDaysBetween(vacationStart, endDate, holidays, taken);
    run := [];
    var current := vacationStart;
    var workingDaysFound := 0;
    while workingDaysFound < periodLength && current <= endDate
      invariant workingDaysFound == |run| <= periodLength
      invariant vacationStart <= current
      invariant current <= endDate + 1 || current == vacationStart
      invariant free == run + WorkingDaysBetween(current, endDate, holidays, taken)
      decreases endDate - current
    {
      WalkStep(current, endDate, holidays, taken);
      if IsWorkingDayExcept(current, holidays, taken) {
        assert free == (run + [current]) + WorkingDaysBetween(current + 1, endDate, holidays, taken);
        run := run + [current];
        workingDaysFound := workingDaysFound + 1;
      }
      current := current + 1;
    }
    WalkDone(free, run, WorkingDaysBetween(current, endDate, holidays, taken), periodLength);
    FreePrefix(run, vacationStart, endDate, holidays, taken);
  }

  /** The walk stops with the whole run found or nothing left: either way the
      run is the free days up to the period's length. */
  lemma WalkDone(free: seq<Date>, run: seq<Date>, rest: seq<Date>, periodLength: nat)
    requires free == run + rest && |run| <= periodLength
    requires |run| == periodLength || rest == []
    ensures run == free[..Min(periodLength, |free|)] && run == free[..|run|]
  {
    assert free[..|run|] == run;
  }

  /** One step of the walk: the free days from `current` on are `current`,
      when it is free, and then the free days after it. */
  lemma WalkStep(current: Date, endDate: Date, holidays: set<Date>, taken: seq<Date>)
    requires current <= endDate
    ensures WorkingDaysBetween(current, endDate, holidays, taken)
            == (if IsWorkingDayExcept(current, holidays, taken) then [current] else [])
               + WorkingDaysBetween(current + 1, endDate, holidays, taken)
  {
    NotWorkingIffWeekendHolidayOrVacation(current, holidays, taken);
  }

  /** A prefix of the free days of a stretch is ascending and holds only
      free working days of it. */
  lemma FreePrefix(run: seq<Date>, vacationStart: Date, endDate: Date, holidays: set<Date>, taken: seq<Date>)
    requires var free := WorkingDaysBetween(vacationStart, endDate, holidays, taken);
             |run| <= |free| && run == free[..|run|]
    ensures StrictlyIncreasing(run)
    ensures forall d :: d in run ==> vacationStart <= d <= endDate && IsWorkingDayExcept(d, holidays, taken) && d !in taken
  {
    var free := WorkingDaysBetween(vacationStart, endDate, holidays, taken);
    WorkingDaysBetweenMembers(vacationStart, endDate, holidays, taken);
    forall i, j | 0 <= i < j < |run| ensures run[i] < run[j] { assert run[i] == free[i] && run[j] == free[j]; }
    forall d | d in run ensures d in free && IsWorkingDayExcept(d, holidays, taken) {
      var k :| 0 <= k < |run| && run[k] == d;
      assert free[k] == d;
      NotWorkingIffWeekendHolidayOrVacation(d, holidays, taken);
    }
  }

  /** What the allocator keeps true: the vacation days are distinct free
      working days of the range, as many as the periods' lengths add up to,
      and every period is 1-5 days long, inside the range, and starts and
      ends on a vacation day. */
  ghost predicate Allocated(days: seq<Date>, periods: seq<Period>, startDate: Date, endDate: Date, holidays: set<Date>)
  {
    && |days| == TotalLength(periods)
    && (forall d :: d in days ==> startDate <= d <= endDate && IsWorkingDay(d, holidays))
    && (forall p :: p in periods ==>
          1 <= p.length <= MaxPeriodLength && startDate <= p.first <= p.last <= endDate && p.first in days && p.last in days)
  }

  /** A valid result: at most fifteen days, strictly ascending, periods sorted by first date. */
  ghost predicate ValidAllocation(a: Allocation, startDate: Date, endDate: Date, holidays: set<Date>)
  {
    && |a.days| <= VacationTarget
    && StrictlyIncreasing(a.days)
    && Allocated(a.days, a.periods, startDate, endDate, holidays)
    && SortedBy(a.periods, (p: Period) => p.first)
  }

  /** Accepting a complete run keeps the allocation invariant and the days distinct. */
  lemma AcceptRun(days: seq<Date>, periods: seq<Period>, run: seq<Date>, startDate: Date, endDate: Date, holidays: set<Date>)
    requires Allocated(days, periods, startDate, endDate, holidays) && Distinct(days)
    requires 1 <= |run| <= MaxPeriodLength && StrictlyIncreasing(run)
    requires forall d :: d in run ==> startDate <= d <= endDate && IsWorkingDayExcept(d, holidays, days)
    ensures Distinct(days + run)
    ensures Allocated(days + run, periods + [Period(run[0], run[|run| - 1], |run|)], startDate, endDate, holidays)
  {
    var p := Period(run[0], run[|run| - 1], |run|);
    StrictlyIncreasingIsDistinct(run);
    DistinctConcat(days, run);
    SumByConcat(periods, [p], (q: Period) => q.length);
    assert [p][..0] == [];
    assert run[0] in run && run[|run| - 1] in run;
    forall d | d in days + run ensures startDate <= d <= endDate && IsWorkingDay(d, holidays) {
      if d in run { NotWorkingIffWeekendHolidayOrVacation(d, holidays, days); }
    }
  }

  /** Sorting distinct days keeps the same days, now strictly ascending. */
  lemma SortedDays(days: seq<Date>)
    requires Distinct(days)
    ensures StrictlyIncreasing(SortBy(days, (d: Date) => d))
    ensures forall d :: d in SortBy(days, (d: Date) => d) <==> d in days
  {
    var sd := SortBy(days, (d: Date) => d);
    DistinctOfPermutation(days, sd);
    SortedDistinctIsStrictlyIncreasing(sd);
    forall d | d in sd ensures d in days { assert d in multiset(sd); }
    forall d | d in days ensures d in sd { assert d in multiset(days); }
  }

  /** Sorting the periods by first date keeps the same periods and their total length. */
  lemma SortedPeriods(periods: seq<Period>)
    ensures TotalLength(SortBy(periods, (p: Period) => p.first)) == TotalLength(periods)
    ensures multiset(SortBy(periods, (p: Period) => p.first)) == multiset(periods)
    ensures forall p :: p in SortBy(periods, (p: Period) => p.first) ==> p in periods
  {
    var sp := SortBy(periods, (p: Period) => p.first);
    SumByPermutation(periods, sp, (p: Period) => p.length);
    forall p | p in sp ensures p in periods { assert p in multiset(sp); }
  }

  /** Sorting the days and the periods keeps everything but the order and
      makes the days strictly ascending. */
  lemma SortedAllocation(days: seq<Date>, periods: seq<Period>, startDate: Date, endDate: Date, holidays: set<Date>)
    requires Allocated(days, periods, startDate, endDate, holidays) && Distinct(days) && |days| <= VacationTarget
    ensures ValidAllocation(Allocation(SortBy(days, (d: Date) => d), SortBy(periods, (p: Period) => p.first)), startDate, endDate, holidays)
  {
    var sd := SortBy(days, (d: Date) => d);
    var sp := SortBy(periods, (p: Period) => p.first);
    SortedDays(days);
    SortedPeriods(periods);
    AllocatedOfSameElements(days, periods, sd, sp, startDate, endDate, holidays);
  }

  /** The allocation invariant depends only on which days and periods there
      are, on how many days there are and on the periods' total length. */
  lemma AllocatedOfSameElements(days: seq<Date>, periods: seq<Period>, days': seq<Date>, periods': seq<Period>,
                                startDate: Date, endDate: Date, holidays: set<Date>)
    requires Allocated(days, periods, startDate, endDate, holidays)
    requires |days'| == |days| && TotalLength(periods') == TotalLength(periods)
    requires forall d :: d in days' <==> d in days
    requires forall p :: p in periods' ==> p in periods
    ensures Allocated(days', periods', startDate, endDate, holidays)
  {
  }

  /** A start draw `r` fails for a period of `len` days with `taken` placed:
      from the start it picks, fewer than `len` free days remain up to `endDate`. */
  ghost predicate StartFails(startDate: Date, endDate: Date, holidays: set<Date>, taken: seq<Date>, len: int, r: nat)
    requires len <= endDate - startDate
  {
    |WorkingDaysBetween(startDate + RandInt(0, endDate - startDate - len, r), endDate, holidays, taken)| < len
  }

  /** How the attempts for one period end: `randint` raised, a run was
      placed, or every attempt failed. */
  datatype Placement = Raised | Placed(run: seq<Date>) | GaveUp

  /** The attempts from attempt `a` on, as a function of the start draws
      `t`: the first whose draw does not fail places the first `len` free
      days from its start, and past the hundredth the period is given up. */
  ghost function Attempts(startDate: Date, endDate: Date, holidays: set<Date>, taken: seq<Date>, len: nat, t: Stream, a: nat): (p: Placement)
    requires len <= endDate - startDate
    ensures !p.Raised?
    ensures p.Placed? ==> |p.run| == len
    decreases MaxAttempts - a
  {
    if a >= MaxAttempts then GaveUp
    else if !StartFails(startDate, endDate, holidays, taken, len, t(a)) then
      Placed(WorkingDaysBetween(startDate + RandInt(0, endDate - startDate - len, t(a)), endDate, holidays, taken)[..len])
    else Attempts(startDate, endDate, holidays, taken, len, t, a + 1)
  }

  /** The attempts from `a` on give up exactly when every draw from `a` to
      the hundredth fails. */
  lemma {:induction false} AttemptsGaveUp(startDate: Date, endDate: Date, holidays: set<Date>, taken: seq<Date>, len: nat, t: Stream, a: nat)
    requires len <= endDate - startDate
    ensures Attempts(startDate, endDate, holidays, taken, len, t, a).GaveUp? <==>
              forall b: nat :: a <= b < MaxAttempts ==> StartFails(startDate, endDate, holidays, taken, len, t(b))
    decreases MaxAttempts - a
  {
    if a < MaxAttempts {
      AttemptsGaveUp(startDate, endDate, holidays, taken, len, t, a + 1);
    }
  }

  /** When the draws from `a` up to `c` fail and draw `c` does not, the
      attempts from `a` on place the walk from attempt `c`. */
  lemma {:induction false} AttemptsFirstSuccess(startDate: Date, endDate: Date, holidays: set<Date>, taken: seq<Date>, len: nat, t: Stream,
                                                a: nat, c: nat, run: seq<Date>)
    requires len <= endDate - startDate && a <= c < MaxAttempts
    requires forall b: nat :: a <= b < c ==> StartFails(startDate, endDate, holidays, taken, len, t(b))
    requires !StartFails(startDate, endDate, holidays, taken, len, t(c))
    requires run == WorkingDaysBetween(startDate + RandInt(0, endDate - startDate - len, t(c)), endDate, holidays, taken)[..len]
    ensures Attempts(startDate, endDate, holidays, taken, len, t, a) == Placed(run)
    decreases c - a
  {
    if a < c {
      assert StartFails(startDate, endDate, holidays, taken, len, t(a));
      AttemptsFirstSuccess(startDate, endDate, holidays, taken, len, t, a + 1, c, run);
    } else {
      assert t(a) == t(c);
    }
  }

  /** An attempt whose walk is complete, after attempts that all failed,
      is the one the attempts from the first place. */
  lemma AttemptWins(startDate: Date, endDate: Date, holidays: set<Date>, taken: seq<Date>, len: nat, t: Stream, c: nat, run: seq<Date>)
    requires len <= endDate - startDate && c < MaxAttempts
    requires forall b: nat :: b < c ==> StartFails(startDate, endDate, holidays, taken, len, t(b))
    requires var free := WorkingDaysBetween(startDate + RandInt(0, endDate - startDate - len, t(c)), endDate, holidays, taken);
             run == free[..Min(len, |free|)] && |run| == len
    ensures Attempts(startDate, endDate, holidays, taken, len, t, 0) == Placed(run)
  {
    AttemptsFirstSuccess(startDate, endDate, holidays, taken, len, t, 0, c, run);
  }

  /** An attempt whose walk falls short of the period fails. */
  lemma AttemptFails(startDate: Date, endDate: Date, holidays: set<Date>, taken: seq<Date>, len: nat, r: nat, run: seq<Date>)
    requires len <= endDate - startDate
    requires var free := WorkingDaysBetween(startDate + RandInt(0, endDate - startDate - len, r), endDate, holidays, taken);
             run == free[..Min(len, |free|)] && |run| != len
    ensures StartFails(startDate, endDate, holidays, taken, len, r)
  {
  }

  /** Lines 60-88, the attempts for one period: attempt `a` draws its start
      from slot `a`, walks, and keeps the run when it is complete and shares
      no day with the vacation so far. The first complete run wins. */
  method PlacePeriod(startDate: Date, endDate: Date, periodLength: nat, holidays: set<Date>, taken: seq<Date>, s: Stream)
    returns (p: Placement)
    ensures p.Raised? <==> endDate - startDate < periodLength
    ensures p.Placed? ==> |p.run| == periodLength && StrictlyIncreasing(p.run)
    ensures p.Placed? ==> forall d :: d in p.run ==> startDate <= d <= endDate && IsWorkingDayExcept(d, holidays, taken)
    ensures endDate - startDate >= periodLength ==> p == Attempts(startDate, endDate, holidays, taken, periodLength, s, 0)
    ensures p.GaveUp? ==> forall a: nat :: a < MaxAttempts ==> StartFails(startDate, endDate, holidays, taken, periodLength, s(a))
  {
    var attempts: nat := 0;
    while attempts < MaxAttempts
      invariant attempts <= MaxAttempts
      invariant endDate - startDate >= periodLength || attempts == 0
      invariant forall b: nat :: b < attempts ==> StartFails(startDate, endDate, holidays, taken, periodLength, s(b))
      decreases MaxAttempts - attempts
    {
      var daysBetween := endDate - startDate;
      if daysBetween - periodLength < 0 {
        return Raised;
      }
      var randomDays := RandInt(0, daysBetween - periodLength, s(attempts));
      var vacationStart := startDate + randomDays;
      var periodDates := WalkRun(vacationStart, endDate, periodLength, holidays, taken);
      if |periodDates| == periodLength {
        if !(exists d :: d in periodDates && d in taken) {
          AttemptWins(startDate, endDate, holidays, taken, periodLength, s, attempts, periodDates);
          return Placed(periodDates);
        }
        // the walk collects no day already taken
        assert false;
      }
      AttemptFails(startDate, endDate, holidays, taken, periodLength, s(attempts), periodDates);
      attempts := attempts + 1;
    }
    AttemptsGaveUp(startDate, endDate, holidays, taken, periodLength, s, 0);
    return GaveUp;
  }

  /** Draws one period takes: one for its length, one per attempt. */
  const DrawsPerPeriod: nat := 1 + MaxAttempts

  /** The allocator gives up on period `j` with `taken` placed: the draw at
      the period's first slot `p` sets its length, and all `MaxAttempts`
      start draws after it fail. */
  ghost predicate Exhausted(startDate: Date, endDate: Date, holidays: set<Date>, taken: seq<Date>, s: Stream, j: nat)
  {
    && |taken| < VacationTarget
    && var p := DrawsPerPeriod * j;
       var len := PeriodLength(VacationTarget - |taken|, s(p));
       && len <= endDate - startDate
       && forall q: nat :: p < q <= p + MaxAttempts ==> StartFails(startDate, endDate, holidays, taken, len, s(q))
  }

  /** Giving up depends only on which days are taken. */
  lemma ExhaustedSameTaken(startDate: Date, endDate: Date, holidays: set<Date>, taken: seq<Date>, taken': seq<Date>, s: Stream, j: nat)
    requires Exhausted(startDate, endDate, holidays, taken, s, j)
    requires |taken'| == |taken| && forall d :: d in taken <==> d in taken'
    ensures Exhausted(startDate, endDate, holidays, taken', s, j)
  {
    var p := DrawsPerPeriod * j;
    var len := PeriodLength(VacationTarget - |taken|, s(p));
    forall q: nat | p < q <= p + MaxAttempts ensures StartFails(startDate, endDate, holidays, taken', len, s(q)) {
      WorkingDaysSameExcluded(startDate + RandInt(0, endDate - startDate - len, s(q)), endDate, holidays, taken, taken');
    }
  }

  /** The period whose length is drawn at slot `at` was placed as `run`
      with `taken` placed before it: among the 100 start draws after that
      slot, an attempt whose predecessors all failed and which did not. */
  ghost predicate PlacedAt(startDate: Date, endDate: Date, holidays: set<Date>, taken: seq<Date>, s: Stream, at: nat, run: seq<Date>)
  {
    && |taken| < VacationTarget
    && var len := PeriodLength(VacationTarget - |taken|, s(at));
       && len <= endDate - startDate
       && Attempts(startDate, endDate, holidays, taken, len, Shift(s, at + 1), 0) == Placed(run)
  }

  /** One period of the placement order: the days taken before it and the
      run placed for it. */
  datatype Step = Step(before: seq<Date>, run: seq<Date>, period: Period)

  /** The days a placement order has taken: those before its last period
      and that period's run. */
  function TrailDays(trail: seq<Step>): seq<Date>
  {
    if trail == [] then [] else trail[|trail| - 1].before + trail[|trail| - 1].run
  }

  /** The periods a placement order has recorded, one per step, in order. */
  function TrailPeriods(trail: seq<Step>): (periods: seq<Period>)
    ensures |periods| == |trail|
  {
    if trail == [] then [] else TrailPeriods(trail[..|trail| - 1]) + [trail[|trail| - 1].period]
  }

  /** A step's period runs from the first day of its run to the last and
      is as long as the run, as line 83 records it. */
  ghost predicate RunRecorded(step: Step)
  {
    |step.run| > 0 && step.period == Period(step.run[0], step.run[|step.run| - 1], |step.run|)
  }

  /** Every step's period is recorded from its run. */
  ghost predicate Recorded(trail: seq<Step>)
  {
    forall k {:trigger RunRecorded(trail[k])} :: 0 <= k < |trail| ==> RunRecorded(trail[k])
  }

  /** A step whose period is its run's keeps the trail recorded. */
  lemma RecordedAppend(trail: seq<Step>, step: Step)
    requires Recorded(trail) && RunRecorded(step)
    ensures Recorded(trail + [step])
  {
    forall k | 0 <= k < |trail| + 1 ensures RunRecorded((trail + [step])[k]) {
      if k < |trail| {
        assert RunRecorded(trail[k]);
        assert (trail + [step])[k] == trail[k];
      }
    }
  }

  /** Appending a step records its period after the others. */
  lemma TrailPeriodsAppend(trail: seq<Step>, step: Step)
    ensures TrailPeriods(trail + [step]) == TrailPeriods(trail) + [step.period]
  {
    assert (trail + [step])[..|trail|] == trail;
  }

  /** Step `k` of `trail` is period `k` placed against the days before it,
      which are those of step `k - 1` and its run, or none for the first. */
  ghost predicate PlacedStep(startDate: Date, endDate: Date, holidays: set<Date>, s: Stream, trail: seq<Step>, k: nat)
    requires k < |trail|
  {
    && (if k == 0 then trail[k].before == [] else trail[k].before == trail[k - 1].before + trail[k - 1].run)
    && PlacedAt(startDate, endDate, holidays, trail[k].before, s, DrawsPerPeriod * k, trail[k].run)
  }

  /** `trail` is the placement order: every step is placed in turn. */
  ghost predicate PlacedInOrder(startDate: Date, endDate: Date, holidays: set<Date>, s: Stream, trail: seq<Step>)
  {
    forall k: nat :: k < |trail| ==> PlacedStep(startDate, endDate, holidays, s, trail, k)
  }

  /** Placing period `|trail|` as `run` against the days of the trail
      extends the placement order. */
  lemma PlacedInOrderStep(startDate: Date, endDate: Date, holidays: set<Date>, s: Stream, trail: seq<Step>, run: seq<Date>, period: Period)
    requires PlacedInOrder(startDate, endDate, holidays, s, trail)
    requires PlacedAt(startDate, endDate, holidays, TrailDays(trail), s, DrawsPerPeriod * |trail|, run)
    ensures PlacedInOrder(startDate, endDate, holidays, s, trail + [Step(TrailDays(trail), run, period)])
  {
    var step := Step(TrailDays(trail), run, period);
    PlacedStepsKept(startDate, endDate, holidays, s, trail, step);
    PlacedStepNew(startDate, endDate, holidays, s, trail, run, period);
    PlacedInOrderJoin(startDate, endDate, holidays, s, trail, trail + [step]);
  }

  /** Appending a step keeps all of the trail's steps placed. */
  lemma PlacedStepsKept(startDate: Date, endDate: Date, holidays: set<Date>, s: Stream, trail: seq<Step>, step: Step)
    requires PlacedInOrder(startDate, endDate, holidays, s, trail)
    ensures forall k: nat :: k < |trail| ==> PlacedStep(startDate, endDate, holidays, s, trail + [step], k)
  {
    var next := trail + [step];
    assert next[..|trail|] == trail;
    forall k: nat | k < |trail| {
      PlacedStepKept(startDate, endDate, holidays, s, trail, next, k);
    }
  }

  /** A trail one step longer whose steps are all placed, the last one
      included, is in placement order. */
  lemma PlacedInOrderJoin(startDate: Date, endDate: Date, holidays: set<Date>, s: Stream, trail: seq<Step>, next: seq<Step>)
    requires |next| == |trail| + 1
    requires forall k: nat :: k < |trail| ==> PlacedStep(startDate, endDate, holidays, s, next, k)
    requires PlacedStep(startDate, endDate, holidays, s, next, |trail|)
    ensures PlacedInOrder(startDate, endDate, holidays, s, next)
  {
  }

  /** A step stays placed when it and the step before it are kept. */
  lemma PlacedStepKept(startDate: Date, endDate: Date, holidays: set<Date>, s: Stream, trail: seq<Step>, next: seq<Step>, k: nat)
    requires PlacedInOrder(startDate, endDate, holidays, s, trail)
    requires k < |trail| < |next| && next[..|trail|] == trail
    ensures PlacedStep(startDate, endDate, holidays, s, next, k)
  {
    assert PlacedStep(startDate, endDate, holidays, s, trail, k);
    assert next[k] == trail[k];
    if k > 0 { assert next[k - 1] == trail[k - 1]; }
  }

  /** The step appended after the last is placed when its run is period
      `|trail|` placed against the days of the trail. */
  lemma PlacedStepNew(startDate: Date, endDate: Date, holidays: set<Date>, s: Stream, trail: seq<Step>, run: seq<Date>, period: Period)
    requires PlacedAt(startDate, endDate, holidays, TrailDays(trail), s, DrawsPerPeriod * |trail|, run)
    ensures PlacedStep(startDate, endDate, holidays, s, trail + [Step(TrailDays(trail), run, period)], |trail|)
  {
    var next := trail + [Step(TrailDays(trail), run, period)];
    assert next[|trail|] == Step(TrailDays(trail), run, period);
    if |trail| > 0 { assert next[|trail| - 1] == trail[|trail| - 1]; }
  }

  /** The run the attempts place from the slots after the length draw at
      slot `at` is that period's placement. */
  lemma PlacedAtOf(startDate: Date, endDate: Date, holidays: set<Date>, taken: seq<Date>, s: Stream,
                   at: nat, len: nat, t: Stream, run: seq<Date>)
    requires |taken| < VacationTarget
    requires len == PeriodLength(VacationTarget - |taken|, s(at)) && len <= endDate - startDate
    requires t == Shift(s, at + 1)
    requires Attempts(startDate, endDate, holidays, taken, len, t, 0) == Placed(run)
    ensures PlacedAt(startDate, endDate, holidays, taken, s, at, run)
  {
  }

  /** The state of the loop over periods: the days placed so far are a
      distinct allocation, the days of the placement order and its
      periods, one per step. */
  ghost predicate Placing(startDate: Date, endDate: Date, holidays: set<Date>, s: Stream,
                          days: seq<Date>, periods: seq<Period>, trail: seq<Step>)
  {
    && Allocated(days, periods, startDate, endDate, holidays) && Distinct(days)
    && periods == TrailPeriods(trail) && Recorded(trail) && days == TrailDays(trail)
    && PlacedInOrder(startDate, endDate, holidays, s, trail)
  }

  /** Lines 80-84: accepting the run found for the next period keeps the
      loop state. */
  lemma AcceptPeriod(startDate: Date, endDate: Date, holidays: set<Date>, s: Stream,
                     days: seq<Date>, periods: seq<Period>, trail: seq<Step>,
                     at: nat, len: nat, t: Stream, run: seq<Date>)
    requires Placing(startDate, endDate, holidays, s, days, periods, trail)
    requires |days| < VacationTarget && at == DrawsPerPeriod * |trail|
    requires len == PeriodLength(VacationTarget - |days|, s(at)) && len <= endDate - startDate
    requires t == Shift(s, at + 1)
    requires |run| == len && StrictlyIncreasing(run)
    requires forall d :: d in run ==> startDate <= d <= endDate && IsWorkingDayExcept(d, holidays, days)
    requires Attempts(startDate, endDate, holidays, days, len, t, 0) == Placed(run)
    ensures Placing(startDate, endDate, holidays, s, days + run, periods + [Period(run[0], run[|run| - 1], len)],
                    trail + [Step(days, run, Period(run[0], run[|run| - 1], len))])
  {
    AcceptRun(days, periods, run, startDate, endDate, holidays);
    PlacedAtOf(startDate, endDate, holidays, days, s, at, len, t, run);
    var step := Step(days, run, Period(run[0], run[|run| - 1], len));
    PlacedInOrderStep(startDate, endDate, holidays, s, trail, run, step.period);
    TrailPeriodsAppend(trail, step);
    RecordedAppend(trail, step);
  }

  /** Lines 51-91, the loop over periods, before the sort: period after
      period, up to 100 attempts each, stopping at the first period whose
      attempts run out. `raised` is the `ValueError` of `randint` when the
      range is shorter than the period. The overlap check before accepting
      a run never fails, because the walk only collects days not yet taken.
      The ghost `trail` is the placement order: period `k` draws from slots
      `101 * k` on, and when fewer than fifteen days are placed, period
      `|trail|`, the one after the last placed, gave up. */
  method PlacePeriods(startDate: Date, endDate: Date, holidays: set<Date>, s: Stream)
    returns (raised: bool, vacationDays: seq<Date>, vacationPeriods: seq<Period>, ghost trail: seq<Step>)
    ensures endDate - startDate >= MaxPeriodLength ==> !raised
    ensures endDate - startDate < 3 ==> raised
    ensures !raised ==> Allocated(vacationDays, vacationPeriods, startDate, endDate, holidays) && Distinct(vacationDays)
    ensures !raised ==> |vacationDays| <= VacationTarget
    ensures !raised ==> PlacedInOrder(startDate, endDate, holidays, s, trail) && vacationDays == TrailDays(trail)
    ensures !raised ==> vacationPeriods == TrailPeriods(trail) && Recorded(trail) && |vacationPeriods| == |trail|
    ensures !raised && |vacationDays| < VacationTarget ==> Exhausted(startDate, endDate, holidays, vacationDays, s, |trail|)
  {
    vacationDays := [];
    vacationPeriods := [];
    var remainingDays := VacationTarget;
    var period: nat := 0;
    var at: nat := 0;
    trail := [];
    while remainingDays > 0
      invariant 0 <= remainingDays <= VacationTarget
      invariant |vacationDays| == VacationTarget - remainingDays
      invariant endDate - startDate >= 3 || remainingDays == VacationTarget
      invariant period == |trail| && at == DrawsPerPeriod * period
      invariant Placing(startDate, endDate, holidays, s, vacationDays, vacationPeriods, trail)
      decreases remainingDays
    {
      var periodLength := PeriodLength(remainingDays, s(at));
      var starts := Shift(s, at + 1);
      var placement := PlacePeriod(startDate, endDate, periodLength, holidays, vacationDays, starts);
      if placement.Raised? {
        return true, vacationDays, vacationPeriods, trail;
      }
      if placement.GaveUp? {
        GaveUpAt(startDate, endDate, holidays, vacationDays, s, period, at, periodLength, starts);
        break;
      }
      var periodDates := placement.run;
      AcceptPeriod(startDate, endDate, holidays, s, vacationDays, vacationPeriods, trail, at, periodLength, starts, periodDates);
      trail := trail + [Step(vacationDays, periodDates, Period(periodDates[0], periodDates[|periodDates| - 1], periodLength))];
      vacationDays := vacationDays + periodDates;
      vacationPeriods := vacationPeriods + [Period(periodDates[0], periodDates[|periodDates| - 1], periodLength)];
      remainingDays := remainingDays - periodLength;
      NextSlot(period);
      period := period + 1;
      at := at + DrawsPerPeriod;
    }
    raised := false;
  }

  /** `generate_vacation_days(start_date, end_date)`: the periods, then the
      days and the periods sorted. `None` is the `ValueError`. Fewer than
      fifteen days come back only when the period after the last one
      placed gave up; `trail` keeps the placement order the sort forgets. */
  method GenerateVacationDays(startDate: Date, endDate: Date, holidays: set<Date>, s: Stream)
    returns (r: Option<Allocation>, ghost trail: seq<Step>)
    ensures endDate - startDate >= MaxPeriodLength ==> r.Some?
    ensures endDate - startDate < 3 ==> r.None?
    ensures r.Some? ==> ValidAllocation(r.value, startDate, endDate, holidays)
    ensures r.Some? ==> multiset(r.value.days) == multiset(TrailDays(trail)) && |r.value.periods| == |trail|
    ensures r.Some? ==> multiset(r.value.periods) == multiset(TrailPeriods(trail)) && Recorded(trail)
    ensures r.Some? ==> PlacedInOrder(startDate, endDate, holidays, s, trail)
    ensures r.Some? && |r.value.days| < VacationTarget ==>
              Exhausted(startDate, endDate, holidays, r.value.days, s, |trail|)
  {
    var raised, vacationDays, vacationPeriods;
    raised, vacationDays, vacationPeriods, trail := PlacePeriods(startDate, endDate, holidays, s);
    if raised {
      return None, trail;
    }
    SortedOutcome(startDate, endDate, holidays, s, vacationDays, vacationPeriods, |trail|);
    r := Some(Allocation(SortBy(vacationDays, (d: Date) => d), SortBy(vacationPeriods, (p: Period) => p.first)));
  }

  /** What the allocator returns once the loop ends: the sorted days and
      periods, the days unchanged as a multiset, and, when they fall short,
      the period `j` after the last placed still gave up. */
  lemma SortedOutcome(startDate: Date, endDate: Date, holidays: set<Date>, s: Stream,
                      days: seq<Date>, periods: seq<Period>, j: nat)
    requires Allocated(days, periods, startDate, endDate, holidays) && Distinct(days) && |days| <= VacationTarget
    requires |days| < VacationTarget ==> Exhausted(startDate, endDate, holidays, days, s, j)
    ensures var a := Allocation(SortBy(days, (d: Date) => d), SortBy(periods, (p: Period) => p.first));
            && ValidAllocation(a, startDate, endDate, holidays)
            && multiset(a.days) == multiset(days) && |a.periods| == |periods| && multiset(a.periods) == multiset(periods)
            && (|a.days| < VacationTarget ==> Exhausted(startDate, endDate, holidays, a.days, s, j))
  {
    SortedAllocation(days, periods, startDate, endDate, holidays);
    var sortedDays := SortBy(days, (d: Date) => d);
    SortedDays(days);
    if |days| < VacationTarget { ExhaustedSameTaken(startDate, endDate, holidays, days, sortedDays, s, j); }
  }

  /** Period `j + 1` draws right after period `j`'s last attempt. */
  lemma NextSlot(j: nat)
    ensures DrawsPerPeriod * (j + 1) == DrawsPerPeriod * j + DrawsPerPeriod
  {
  }

  /** All attempts of period `j`, whose start draws `t` follows its length
      draw, failed: the allocator gives up there. */
  lemma GaveUpAt(startDate: Date, endDate: Date, holidays: set<Date>, taken: seq<Date>, s: Stream, j: nat, at: nat, len: nat, t: Stream)
    requires at == DrawsPerPeriod * j
    requires 0 < VacationTarget - |taken| && len == PeriodLength(VacationTarget - |taken|, s(at))
    requires len <= endDate - startDate
    requires t == Shift(s, at + 1)
    requires forall a: nat :: a < MaxAttempts ==> StartFails(startDate, endDate, holidays, taken, len, t(a))
    ensures Exhausted(startDate, endDate, holidays, taken, s, j)
  {
    forall q: nat | at < q <= at + MaxAttempts ensures StartFails(startDate, endDate, holidays, taken, len, s(q)) {
      var a: nat := q - at - 1;
      assert t(a) == s(q);
    }
  }

  /** The main loop: one normal day of entries on every date of the range
      that passes `is_working_day(date, vacation_days)`, in date order, and
      nothing on any other date. */
  method GenerateRange(startDate: Date, endDate: Date, userId: int, holidays: set<Date>, vacation: seq<Date>,
                       pool: seq<int>, s: Stream)
    returns (all: seq<Entry>)
    requires ValidTaskPool(pool)
    ensures forall e :: e in all ==>
              && e.userId == userId
              && startDate <= DayOf(e.start) <= endDate
              && IsWorkingDayExcept(DayOf(e.start), holidays, vacation)
    ensures forall d :: startDate <= d <= endDate && IsWorkingDayExcept(d, holidays, vacation) ==>
              Timetrackings.NormalDay(EntriesOn(all, userId, d), userId, d, pool)
    ensures forall e :: e in all ==> DayOf(e.start) !in vacation
    ensures forall i, j :: 0 <= i < j < |all| ==> DayOf(all[i].start) <= DayOf(all[j].start)
  {
    all := [];
    var current := startDate;
    var k: nat := 0;
    while current <= endDate
      invariant startDate <= current <= endDate + 1 || (current == startDate && startDate > endDate)
      invariant Timetrackings.Covered(all, userId, startDate, current, holidays, vacation, pool)
      decreases endDate - current
    {
      NotWorkingIffWeekendHolidayOrVacation(current, holidays, vacation);
      if IsWorkingDayExcept(current, holidays, vacation) {
        var daily := Timetrackings.GenerateDay(current, userId, pool, Shift(s, Timetrackings.DrawsPerDay * k));
        Timetrackings.CoverDay(all, daily, userId, startDate, current, holidays, vacation, pool);
        all := all + daily;
      } else {
        Timetrackings.CoverSkip(all, userId, startDate, current, holidays, vacation, pool);
      }
      current := current + 1;
      k := k + 1;
    }
    forall d ensures IsWorkingDayExcept(d, holidays, vacation) <==> IsWorkingDay(d, holidays) && d !in vacation {
      NotWorkingIffWeekendHolidayOrVacation(d, holidays, vacation);
    }
  }

  /** The script's run: vacation for 2025-05-01 to 2025-11-06 from the even
      draws, then the entries of user 1 from the odd draws. The range is
      long enough that the allocator never raises. */
  method Generate(s: Stream) returns (vacation: Allocation, all: seq<Entry>, ghost trail: seq<Step>)
    ensures ValidAllocation(vacation, StartDate, EndDate, Holidays2025)
    ensures multiset(vacation.days) == multiset(TrailDays(trail)) && |vacation.periods| == |trail|
    ensures multiset(vacation.periods) == multiset(TrailPeriods(trail)) && Recorded(trail)
    ensures PlacedInOrder(StartDate, EndDate, Holidays2025, Evens(s), trail)
    ensures |vacation.days| < VacationTarget ==>
              Exhausted(StartDate, EndDate, Holidays2025, vacation.days, Evens(s), |trail|)
    ensures forall e :: e in all ==>
              && e.userId == UserId
              && StartDate <= DayOf(e.start) <= EndDate
              && IsWorkingDayExcept(DayOf(e.start), Holidays2025, vacation.days)
    ensures forall d :: StartDate <= d <= EndDate && IsWorkingDayExcept(d, Holidays2025, vacation.days) ==>
              Timetrackings.NormalDay(EntriesOn(all, UserId, d), UserId, d, WorkTaskIds)
    ensures forall i, j :: 0 <= i < j < |all| ==> DayOf(all[i].start) <= DayOf(all[j].start)
  {
    var r;
    r, trail := GenerateVacationDays(StartDate, EndDate, Holidays2025, Evens(s));
    vacation := r.value;
    WorkTaskIdsIsValidPool();
    all := GenerateRange(StartDate, EndDate, UserId, Holidays2025, vacation.days, WorkTaskIds, Odds(s));
  }
}
