/** Dates as day numbers, the weekday function, the 2025 Austrian public
    holidays all three scripts share, and the weekend/holiday test of
    `is_working_day(date)`. */
module Calendar {
  import opened Seqs

  /** A calendar date as a day number; day 0 is 2025-01-01, a Wednesday. */
  type Date = int

  /** `date.weekday()`: Monday is 0, Saturday 5, Sunday 6. */
  function Weekday(d: Date): (w: int)
    ensures 0 <= w < 7
  {
    (d + 2) % 7
  }

  /** `austrian_holidays_2025` as day numbers: Jan 1, Jan 6, Apr 21, May 1,
      May 29, Jun 9, Jun 19, Aug 15, Oct 26, Nov 1, Dec 8, Dec 25, Dec 26. */
  const Holidays2025: set<Date> := {0, 5, 110, 120, 148, 159, 169, 226, 298, 304, 341, 358, 359}

  /** `is_working_day(date)`: not a Saturday or Sunday, and not a holiday. */
  predicate IsWorkingDay(d: Date, holidays: set<Date>): (w: bool)
    ensures w <==> !IsWeekend(d) && d !in holidays
  {
    if Weekday(d) >= 5 then false
    else if d in holidays then false
    else true
  }

  predicate IsWeekend(d: Date)
  {
    Weekday(d) == 5 || Weekday(d) == 6
  }

  /** The working-day test fails exactly on Saturdays, Sundays and holidays. */
  lemma NotWorkingIffWeekendOrHoliday(d: Date, holidays: set<Date>)
    ensures !IsWorkingDay(d, holidays) <==> IsWeekend(d) || d in holidays
  {
  }

  /** The dates named as examples of the working-day filter: 2025-01-01 is a
      holiday, 2025-01-04 a Saturday, 2025-01-02 a working day. */
  lemma WorkingDayExamples2025()
    ensures !IsWorkingDay(0, Holidays2025)
    ensures !IsWorkingDay(3, Holidays2025) && IsWeekend(3)
    ensures IsWorkingDay(1, Holidays2025)
  {
  }

  /** The dates from `a` to `b` that are working days and not in
      `excluded`, ascending: what a day-by-day walk over the range collects. */
  function WorkingDaysBetween(a: Date, b: Date, holidays: set<Date>, excluded: seq<Date>): seq<Date>
    decreases b - a
  {
    if a > b then []
    else (if IsWorkingDay(a, holidays) && a !in excluded then [a] else []) + WorkingDaysBetween(a + 1, b, holidays, excluded)
  }

  /** The walk collects exactly the working, non-excluded dates of the range, ascending. */
  lemma {:induction false} WorkingDaysBetweenMembers(a: Date, b: Date, holidays: set<Date>, excluded: seq<Date>)
    ensures forall d :: d in WorkingDaysBetween(a, b, holidays, excluded) <==>
              a <= d <= b && IsWorkingDay(d, holidays) && d !in excluded
    ensures StrictlyIncreasing(WorkingDaysBetween(a, b, holidays, excluded))
    decreases b - a
  {
    if a <= b {
      var rest := WorkingDaysBetween(a + 1, b, holidays, excluded);
      WorkingDaysBetweenMembers(a + 1, b, holidays, excluded);
      var head: seq<Date> := if IsWorkingDay(a, holidays) && a !in excluded then [a] else [];
      var all := head + rest;
      assert all == WorkingDaysBetween(a, b, holidays, excluded);
      forall i, j | 0 <= i < j < |all| ensures all[i] < all[j] {
        if i < |head| {
          assert all[j] == rest[j - |head|] && all[j] in rest;
        } else {
          assert all[i] == rest[i - |head|] && all[j] == rest[j - |head|];
        }
      }
    }
  }

  /** Only which dates are excluded matters, not their order or repetitions. */
  lemma {:induction false} WorkingDaysSameExcluded(a: Date, b: Date, holidays: set<Date>, excluded: seq<Date>, excluded': seq<Date>)
    requires forall d :: d in excluded <==> d in excluded'
    ensures WorkingDaysBetween(a, b, holidays, excluded) == WorkingDaysBetween(a, b, holidays, excluded')
    decreases b - a
  {
    if a <= b { WorkingDaysSameExcluded(a + 1, b, holidays, excluded, excluded'); }
  }

  /** Starting later never finds more dates. */
  lemma {:induction false} WorkingDaysShrink(a: Date, c: Date, b: Date, holidays: set<Date>, excluded: seq<Date>)
    requires a <= c
    ensures |WorkingDaysBetween(a, b, holidays, excluded)| >= |WorkingDaysBetween(c, b, holidays, excluded)|
    decreases c - a
  {
    if a < c && a <= b { WorkingDaysShrink(a + 1, c, b, holidays, excluded); }
  }

  /** A Monday-to-Friday week with no holiday and nothing excluded adds its five dates. */
  lemma FullWeek(m: Date, b: Date, holidays: set<Date>, excluded: seq<Date>)
    requires Weekday(m) == 0
    requires m + 4 <= b
    requires m !in holidays && m + 1 !in holidays && m + 2 !in holidays && m + 3 !in holidays && m + 4 !in holidays
    requires m !in excluded && m + 1 !in excluded && m + 2 !in excluded && m + 3 !in excluded && m + 4 !in excluded
    ensures |WorkingDaysBetween(m, b, holidays, excluded)| >= 5 + |WorkingDaysBetween(m + 7, b, holidays, excluded)|
  {
    forall d | m <= d <= m + 4 ensures IsWorkingDay(d, holidays) && d !in excluded {
      assert Weekday(d) == d - m;
    }
    var w := WorkingDaysBetween(m + 5, b, holidays, excluded);
    assert WorkingDaysBetween(m + 4, b, holidays, excluded) == [m + 4] + w;
    assert WorkingDaysBetween(m + 3, b, holidays, excluded) == [m + 3] + ([m + 4] + w);
    assert WorkingDaysBetween(m + 2, b, holidays, excluded) == [m + 2] + ([m + 3] + ([m + 4] + w));
    assert WorkingDaysBetween(m + 1, b, holidays, excluded) == [m + 1] + ([m + 2] + ([m + 3] + ([m + 4] + w)));
    assert WorkingDaysBetween(m, b, holidays, excluded) == [m] + ([m + 1] + ([m + 2] + ([m + 3] + ([m + 4] + w))));
    WorkingDaysShrink(m + 5, m + 7, b, holidays, excluded);
  }

  /** `k` weeks from Monday `m`, up to the last one's Friday, with no
      holiday and no excluded date among them hold five working days each. */
  lemma {:induction false} FreeWeeks(m: Date, k: nat, b: Date, holidays: set<Date>, excluded: seq<Date>)
    requires Weekday(m) == 0 && (k == 0 || m + 7 * k - 3 <= b)
    requires forall d :: d in holidays ==> d < m || d > m + 7 * k - 3
    requires forall d :: d in excluded ==> d < m || d > m + 7 * k - 3
    ensures |WorkingDaysBetween(m, b, holidays, excluded)| >= 5 * k + |WorkingDaysBetween(m + 7 * k, b, holidays, excluded)|
    decreases k
  {
    if k > 0 {
      assert Weekday(m + 7) == 0;
      FullWeek(m, b, holidays, excluded);
      FreeWeeks(m + 7, k - 1, b, holidays, excluded);
    }
  }
}
