# Timetracking generators, modelled in Dafny

Three scripts generate fake timetracking records: one normal working day of
entries per working day of a date range (`generate_timetrackings.py`), the
same with a randomly placed 15-day vacation left out
(`generate_timetrackings_with_vacation.py`), and several users sharing a
vacation budget, each with a few short days (`generate_multi_user_timetrackings.py`).
A day is a chain of entries of work, break, work, ..., work on a running
clock; breaks carry the task id 9, work entries a task from a fixed list.

The model has these pieces:

- **Dates and times.** A date is a day number, with day 0 = 2025-01-01, a
  Wednesday. `Calendar.Weekday` gives Monday = 0 ... Sunday = 6, and the 2025
  holidays are a set of day numbers. A time is an absolute minute,
  `date * 1440 + minute of day`. An entry keeps its user id, task id, start
  minute and end minute.
- **Randomness.** Every random draw is an arbitrary natural number taken from
  a stream, a function `nat -> nat` passed in by the caller.
  `randint(lo, hi)` becomes `lo + r % (hi - lo + 1)`, a choice becomes
  `xs[r % |xs|]`, and `sample` and `shuffle` pick items in turn. Because every
  draw is arbitrary, each property below holds for every run of the scripts.
  `RandIntCovers`, `ChoiceCovers`, `StartMinuteCovers` and
  `PeriodLengthCovers` show that every value those draws can yield in
  Python is reachable. No such lemma is proved for `sample`, `shuffle`,
  the break patterns or the partition.
- **Placement order.** `generate_vacation_days` sorts its result, which
  forgets the order in which the periods were placed. The model returns
  that order as a ghost `trail`. Step `k` of it holds the days taken before
  period `k`, the run placed for it and the period recorded for it. The run
  is what `Attempts` gives for the length drawn at slot `101 * k` and the 100
  start draws after it. The period runs from the run's first day to its last,
  and its length is the run's length.
- **Modules.** They follow the scripts:
  - `Seqs`: `sum`, `sorted`, slicing and list comprehensions.
  - `Calendar`: `is_working_day`.
  - `Draws`: the random draws.
  - `Schedule`: the daily generator, which the two single-user scripts share
    word for word. `generate_timetrackings_with_vacation.py:95-164` is the same
    text as `generate_timetrackings.py:39-108`, so the rows below cite the
    latter.
  - `Timetrackings`, `VacationTimetrackings` and `MultiUserTimetrackings`: one
    per script, with its configuration and its main loop.
- **Code style.** Loops in the scripts are `while`/`for` methods with
  invariants. `generate_vacation_days` and `generate_short_days` of the
  multi-user script are pure functions. Each method's `ensures` states what
  the loop computes, and lemmas prove the properties of the functions it is
  specified by.
- **Errors.** `randint` raising `ValueError` becomes `None` where it can
  happen: the placement of a vacation period in a range shorter than the
  period, and the clamped partition of the multi-user script. The model shows
  that neither happens in the scripts' own runs. The `ZeroDivisionError` of
  the multi-user script with an empty user list is not modelled: the
  vacation split requires at least one user (see "Left out").

## Model

| member | source | states |
|---|---|---|
| Calendar.NotWorkingIffWeekendOrHoliday | generate_timetrackings.py:31-37 | a date is not a working day iff it is a Saturday or Sunday or a listed holiday |
| Calendar.IsWorkingDay | generate_timetrackings.py:31-37 | a date is a working day exactly when it is neither a Saturday nor a Sunday and not a listed holiday |
| Calendar.WorkingDayExamples2025 | generate_timetrackings.py:14-37 | New Year's Day 2025 is not a working day, 2025-01-04 is a Saturday and not a working day, 2025-01-02 is a working day |
| Calendar.Weekday | generate_timetrackings.py:33 | the weekday of a day number is one of the seven values 0..6 |
| Calendar.WorkingDaysBetweenMembers | generate_multi_user_timetrackings.py:23-31 | the day-by-day walk over a range collects exactly the dates of the range that are working days and not excluded, strictly ascending |
| Calendar.WorkingDaysSameExcluded | generate_timetrackings_with_vacation.py:72-76 | the walk depends only on which dates are excluded, not on their order in the list |
| Calendar.WorkingDaysShrink | generate_multi_user_timetrackings.py:23-31 | starting the walk later never finds more working days |
| Calendar.FullWeek | generate_multi_user_timetrackings.py:23-31 | a Monday-to-Friday week with no holiday and no excluded date adds five working days to the walk |
| Calendar.FreeWeeks | generate_multi_user_timetrackings.py:23-31 | `k` consecutive such weeks add `5 * k` working days |
| Draws.RandInt | generate_timetrackings.py:44 | a `randint(lo, hi)` draw lies in `[lo, hi]` |
| Draws.RandIntCovers | generate_timetrackings.py:44 | every value of `[lo, hi]` is the result of some draw |
| Draws.Choice | generate_timetrackings.py:45 | `random.choice` returns a member of the list |
| Draws.ChoiceCovers | generate_timetrackings.py:45 | every member of the list is the result of some draw |
| Draws.Sample | generate_multi_user_timetrackings.py:35 | `random.sample(xs, k)` returns `k` items, a sub-multiset of `xs`, and all of `xs` when `k` is its length |
| Draws.Shuffle | generate_multi_user_timetrackings.py:141-142 | the shuffled copy has the same length and the same elements with the same multiplicities |
| Seqs.SortBy | generate_timetrackings_with_vacation.py:93 | `sorted(s, key=...)` has the same length and elements as `s` and is ordered by the key |
| Seqs.InsertSorted | generate_timetrackings_with_vacation.py:93 | inserting into a sorted list keeps it sorted, with the new item or the old head first |
| Seqs.Without | generate_multi_user_timetrackings.py:39 | the comprehension keeps exactly the items of `s` not in `excluded`, never more of them than `s` has, and keeps an ascending list ascending |
| Seqs.Slice | generate_multi_user_timetrackings.py:146 | `s[a:b]` has `min(b, len) - min(a, len)` items, those of `s` from the clamped start |
| Seqs.Drop | generate_multi_user_timetrackings.py:147 | `s[a:]` has `len - min(a, len)` items, those of `s` from the clamped start |
| Seqs.SumByPermutation | generate_timetrackings_with_vacation.py:93 | reordering a list does not change the sum of a function over it |
| Schedule.BreakTaskIsNotAWorkTask | generate_timetrackings.py:5-12 | the break task 9 is not in `work_task_ids` |
| Schedule.WorkTaskIdsIsValidPool | generate_timetrackings.py:5-12 | `work_task_ids` is non-empty and free of the break task |
| Schedule.DayOfWithin | generate_timetrackings.py:47 | a minute between a date's midnight and the next belongs to that date |
| Schedule.StartMinute | generate_timetrackings.py:44-45 | the start clock is on the 15-minute grid from 07:00 to 08:30 |
| Schedule.StartMinuteCovers | generate_timetrackings.py:44-45 | every grid time from 07:00 to 08:30 is a possible start |
| Schedule.NormalBreaks | generate_timetrackings.py:50-54 | two breaks of 10-20 and 20-30 minutes or three of 10-15, 30-50 minutes in total |
| Schedule.Partition | generate_timetrackings.py:60-73 | when the target leaves 30 minutes per session, the durations are one per session, sum exactly to the target, each but the last is in [30, 180] and the last is at least 30 |
| Schedule.Emit | generate_timetrackings.py:75-108 | the entries are the layout of the sessions and breaks: work at even and break at odd positions with their durations in order, work tasks from the pool, breaks tagged 9, each starting where the previous ended; work and break totals are the sums of what was booked |
| Schedule.AppendWork | generate_timetrackings.py:79-91 | appending work session `i` at the clock extends the layout walk and its work total by that session |
| Schedule.AppendBreak | generate_timetrackings.py:93-106 | appending break `i` after session `i` extends the layout walk and its break total by that break |
| Schedule.LaidChained | generate_timetrackings.py:75-108 | a laid-out prefix starts at the start clock, is chained, and every entry sits at its position |
| Schedule.LaidAt | generate_timetrackings.py:75-108 | the entry at position `j` of a laid-out prefix is the work session or break of that position and starts where entry `j - 1` ended |
| Schedule.ChainSpan | generate_timetrackings.py:83-97 | a chain ends at its start plus its work and break minutes |
| Schedule.ChainBounds | generate_timetrackings.py:83-97 | every entry of a chain of positive-length entries lies between the chain's first start and last end |
| Schedule.LayoutIsWellFormedDay | generate_timetrackings.py:75-108 | a layout of positive durations that ends before the next midnight is a well-formed day of that date |
| Schedule.LayoutDay | generate_timetrackings.py:75-108 | the whole day is well formed, starts at the start clock, ends after all work and breaks, and session `k` is entry `2k` |
| Schedule.SessionDurations | generate_timetrackings.py:65-73 | the session bounds carry over to the work entries: each but the last lasts 30-180 minutes and the last at least 30 |
| Schedule.EntriesOnConcat | generate_timetrackings.py:121 | a user's entries on a date in two lists one after the other are those of the first list followed by those of the second |
| Schedule.EntriesOnOneDay | generate_timetrackings.py:120-121 | a block of entries of one user on one date is all of that user's entries on that date, and nothing for any other user or date |
| Schedule.EntriesOnAbsent | generate_timetrackings.py:118-122 | entries of other users or other dates list nothing for a user on a date |
| Schedule.WellFormedDayOnDate | generate_timetrackings.py:39-108 | every entry of a well-formed day belongs to its user and starts and ends on its date |
| Schedule.AppendDay | generate_timetrackings.py:121 | appending a later date's entries keeps the list in date order |
| Schedule.AppendDayEntries | generate_timetrackings.py:119-121 | appending a well-formed day after entries of earlier dates leaves every earlier date's entries as they were, and the day is all of its date's entries |
| Timetrackings.GenerateDay | generate_timetrackings.py:39-108 | a well-formed day of 5 or 7 entries, 480 work minutes, 30-50 break minutes, the start on the 07:00-08:30 grid, the end by 17:20, work entries of 30-180 minutes except the last, which lasts at least 30 |
| Timetrackings.SplitAndEmit | generate_timetrackings.py:56-108 | for 1 to 15 positive breaks (at 15 the 480 minutes still leave 30 per session) and a start on the date whose 480 work minutes and breaks end before the next midnight, a well-formed day with `2 * len(breaks) + 1` entries, exactly 480 work minutes and all break minutes, from the start clock to its end |
| Timetrackings.CoverDay | generate_timetrackings.py:119-121 | appending a normal day for the next working date keeps the loop state: earlier dates keep their days, that date gets this one, date order holds |
| Timetrackings.CoverSkip | generate_timetrackings.py:118-122 | a date that is not a working day, or is a vacation day, is passed over with the loop state kept |
| Timetrackings.GenerateRange | generate_timetrackings.py:115-122 | entries only for the user on working days of the range; on each working day the user's entries are exactly one normal day: well formed, 5 or 7 entries, 480 work and 30-50 break minutes, the start on the 07:00-08:30 grid, the end by 17:20, work entries of 30-180 minutes except the last, which lasts at least 30; all in date order |
| Timetrackings.Generate | generate_timetrackings.py:110-122 | the script's run for user 1 from 2025-05-01 to 2025-11-06: entries on working days only, exactly one normal day on each, in date order |
| VacationTimetrackings.NotWorkingIffWeekendHolidayOrVacation | generate_timetrackings_with_vacation.py:31-39 | a date is not a working day iff it is a weekend, a holiday or a vacation day; it is one iff it is a plain working day and not a vacation day |
| VacationTimetrackings.IsWorkingDayExcept | generate_timetrackings_with_vacation.py:31-39 | the vacation script's test is the plain working-day test with the vacation days also excluded |
| VacationTimetrackings.PeriodLength | generate_timetrackings_with_vacation.py:52-57 | the period length is in [1, 5] and at most what remains; at least 3 while five or more remain, at least 2 when three or four remain, all of it when fewer than three remain |
| VacationTimetrackings.PeriodLengthCovers | generate_timetrackings_with_vacation.py:52-57 | every length the `randint` calls allow can be drawn |
| VacationTimetrackings.WalkRun | generate_timetrackings_with_vacation.py:67-76 | the run is exactly the first `period_length` free working days (not a weekend, a holiday or a day already taken) from the random start to the end date, or all of them when there are fewer; it is strictly ascending |
| VacationTimetrackings.FreePrefix | generate_timetrackings_with_vacation.py:72-76 | a prefix of a stretch's free days is strictly ascending and holds only free working days of the stretch |
| VacationTimetrackings.Attempts | generate_timetrackings_with_vacation.py:60-87 | the attempts as a function of the start draws: the first draw whose walk has `period_length` free days places those days, and after 100 failures the period is given up; it never raises, and a placed run has the period's length |
| VacationTimetrackings.AttemptsGaveUp | generate_timetrackings_with_vacation.py:61-91 | the attempts from `a` on give up exactly when every start draw from `a` to the hundredth fails, in both directions |
| VacationTimetrackings.AttemptsFirstSuccess | generate_timetrackings_with_vacation.py:61-85 | when the draws from `a` up to `c` all fail and draw `c` does not, the attempts from `a` on place the walk from draw `c` |
| VacationTimetrackings.AttemptWins | generate_timetrackings_with_vacation.py:79-85 | a complete walk at attempt `c`, after attempts that all failed, is the run the attempts from the first place |
| VacationTimetrackings.PlacePeriod | generate_timetrackings_with_vacation.py:59-87 | `randint` raises exactly when the range is shorter than the period; a placed run is `period_length` days long, strictly ascending, free and inside the range; otherwise the outcome is `Attempts` from attempt 0, so a placed run is the walk from the first of the up to 100 start draws whose walk is long enough, all earlier ones having failed; giving up means all 100 start draws failed |
| VacationTimetrackings.AcceptRun | generate_timetrackings_with_vacation.py:79-84 | accepting a full run keeps the vacation days duplicate-free and inside the range, its days the periods' total length, and records a period of 1-5 days from its first to its last date |
| VacationTimetrackings.SortedDays | generate_timetrackings_with_vacation.py:93 | sorting the duplicate-free vacation days keeps exactly the same days and makes them strictly ascending |
| VacationTimetrackings.SortedPeriods | generate_timetrackings_with_vacation.py:93 | sorting the periods by first date keeps exactly the same periods as a multiset, and so their total length |
| VacationTimetrackings.SortedAllocation | generate_timetrackings_with_vacation.py:93 | the sorted result is a valid allocation: at most 15 strictly ascending working days of the range, periods sorted by first date adding up to the day count, each period 1-5 days starting and ending on vacation days |
| VacationTimetrackings.AllocatedOfSameElements | generate_timetrackings_with_vacation.py:93 | the allocation invariant survives any reordering that keeps the days, the day count and the periods' total length |
| VacationTimetrackings.PlacePeriods | generate_timetrackings_with_vacation.py:48-91 | the loop over periods: the days placed are a distinct allocation of at most 15 days and are the days of the placement trail; the periods are the trail's recorded periods in placement order, each from the first to the last day of its step's run and as long as the run; step `k` of the trail is period `k`, placed from its length draw at slot `101 * k` and the `Attempts` after it, against the days of the steps before it; fewer than 15 days means period `|trail|`, the one right after the last placed, gave up, so the loop stops at the first give-up; the range being five days or longer rules out the `ValueError`, and one shorter than three days always raises it |
| VacationTimetrackings.PlacedInOrderStep | generate_timetrackings_with_vacation.py:80-84 | placing period `|trail|` against the trail's days extends the trail by a step that records those days and the run |
| VacationTimetrackings.TrailPeriodsAppend | generate_timetrackings_with_vacation.py:83 | appending a step to the trail appends its period after the periods recorded so far |
| VacationTimetrackings.AcceptPeriod | generate_timetrackings_with_vacation.py:79-84 | accepting the run the attempts found for period `|trail|` keeps the loop state: a distinct allocation equal to the trail's days, the periods equal to the steps' recorded periods, each step's period from the first to the last day of its run with the run's length, every step placed in order |
| VacationTimetrackings.SortedOutcome | generate_timetrackings_with_vacation.py:93 | sorting the days and periods gives a valid allocation with the same days and the same periods as multisets, and a shortfall still names the same period as the one that gave up |
| VacationTimetrackings.GenerateVacationDays | generate_timetrackings_with_vacation.py:41-93 | the result is a valid allocation whose days are, as a multiset, those of the placement trail and whose periods are, as a multiset, the steps' recorded periods, each from the first to the last day of its run and as long as the run, each step period `k` placed from slot `101 * k` against the steps before it; it has fewer than 15 days only when the allocator gave up on period `|trail|`, the one after the last placed: its length draw fits the range and all 100 start draws after it fail; the range being five days or longer rules out the `ValueError`, and one shorter than three days always raises it |
| VacationTimetrackings.GaveUpAt | generate_timetrackings_with_vacation.py:87-91 | when all 100 start draws of a period fail, the allocator has given up on that period |
| VacationTimetrackings.ExhaustedSameTaken | generate_timetrackings_with_vacation.py:89-93 | giving up depends only on which days are taken, so it carries over to the sorted days |
| VacationTimetrackings.GenerateRange | generate_timetrackings_with_vacation.py:173-181 | entries only for the user on dates of the range that pass `is_working_day(date, vacation_days)`, none on a vacation day; on each such date exactly one normal day (as for the first script); all in date order |
| VacationTimetrackings.Generate | generate_timetrackings_with_vacation.py:166-181 | the script's run: a valid vacation allocation for 2025-05-01 to 2025-11-06 from the even draws, its days those of a placement trail laid out period by period and its periods, as a multiset, the trail's periods, each spanning its run from first to last day, short of 15 days only when the allocator gave up on period `|trail|`, the one after the last placed; entries for user 1 on exactly its non-vacation working days, one normal day on each, in date order |
| MultiUserTimetrackings.GetAllWorkingDays | generate_multi_user_timetrackings.py:23-31 | the list is the day-by-day walk over the range: every Monday-to-Friday non-holiday date of the range and nothing else, strictly ascending |
| MultiUserTimetrackings.ConfiguredRangeHasThirtyWorkingDays | generate_multi_user_timetrackings.py:123-134 | the configured range 2025-04-01 to 2025-06-06 with the 2025 holidays holds at least the 30 working days of the vacation budget |
| MultiUserTimetrackings.SixFreeWeeks | generate_multi_user_timetrackings.py:123-131 | a range covering 2025-04-07 to 2025-06-06 whose only holidays are among 2025-04-21, 2025-05-01 and 2025-05-29 holds at least 30 working days |
| MultiUserTimetrackings.GenerateVacationDays | generate_multi_user_timetrackings.py:33-35 | `min(num_days, len(working_days))` days drawn from the working days without repetition, sorted, strictly ascending when the working days are distinct |
| MultiUserTimetrackings.SortedSample | generate_multi_user_timetrackings.py:35 | a sorted sample of a duplicate-free list draws only from it and is strictly ascending |
| MultiUserTimetrackings.GenerateShortDays | generate_multi_user_timetrackings.py:37-40 | `min(num_short_days, number of working days outside the vacation)` working days, none of them a vacation day, sorted, strictly ascending when the working days are distinct |
| MultiUserTimetrackings.ShortBreaks | generate_multi_user_timetrackings.py:55-59 | one break of 10-20 minutes or two of 10-15, 10-30 minutes in total |
| MultiUserTimetrackings.DayPlan | generate_multi_user_timetrackings.py:51-68 | a short day targets 120-300 work minutes with 1-2 breaks of 10-30 minutes in total; a normal day 480 with 2-3 breaks of 30-50 minutes; every break lasts at least 10 |
| MultiUserTimetrackings.PartitionClamped | generate_multi_user_timetrackings.py:70-84 | durations, when no `randint` raises, sum to the target with every session but the last at least 30; whenever the target leaves 30 minutes per session the clamp never fires, each but the last is in [30, 180] and the last at least 30; with two or more sessions and a target under 30 it always raises; with two or more sessions the last duration is never negative; with two sessions any target of 30 or more succeeds, and from 30 to 59 minutes only because the fallback to `remaining_work` is taken |
| MultiUserTimetrackings.EmitGuarded | generate_multi_user_timetrackings.py:86-120 | the entries are always a chain from the start clock, work tagged from the pool and breaks with 9; when every session is positive and there are enough breaks, no session is skipped and the entries are exactly the layout of the plan with its work and break totals |
| MultiUserTimetrackings.SkipSession | generate_multi_user_timetrackings.py:89-91 | skipping a non-positive session only happens off the regular plan and leaves the walk as it was |
| MultiUserTimetrackings.GuardedWork | generate_multi_user_timetrackings.py:89-103 | appending a work session keeps the chain and, on the regular plan, extends the layout walk |
| MultiUserTimetrackings.GuardedBreak | generate_multi_user_timetrackings.py:105-118 | appending the next break keeps the chain and, on the regular plan, extends the layout walk |
| MultiUserTimetrackings.WalkedChained | generate_multi_user_timetrackings.py:86-120 | what was walked is chained, starts at the start clock and is tagged |
| MultiUserTimetrackings.TaggedAppend | generate_multi_user_timetrackings.py:93-117 | appending a tagged entry at the clock extends the walk |
| MultiUserTimetrackings.SplitAndEmit | generate_multi_user_timetrackings.py:70-120 | for at least one break, every break positive, a target leaving 30 minutes per session and a start on the date whose target and breaks end before the next midnight, a well-formed day of `2 * len(breaks) + 1` entries with exactly the target work and all break minutes, sessions of 30-180 minutes except the last, which lasts at least 30 |
| MultiUserTimetrackings.GenerateDay | generate_multi_user_timetrackings.py:42-120 | a well-formed day; short: 3 or 5 entries, 120-300 work and 10-30 break minutes; normal: 5 or 7 entries, 480 work and 30-50 break minutes; the start on the 07:00-08:30 grid, the end by 17:20, work entries of 30-180 minutes except the last, which lasts at least 30 |
| MultiUserTimetrackings.PerUser | generate_multi_user_timetrackings.py:138 | `days_per_user` is the largest count every user can get: that many for each user fits in the budget, one more does not |
| MultiUserTimetrackings.Extra | generate_multi_user_timetrackings.py:139 | `remaining_days` is fewer than the users, and with `days_per_user` for each user it makes up the budget exactly |
| MultiUserTimetrackings.Quota | generate_multi_user_timetrackings.py:145 | `num_days` of a user is `days_per_user` or one more |
| MultiUserTimetrackings.Offset | generate_multi_user_timetrackings.py:141-147 | user `i`'s share starts after `i * days_per_user + min(i, remaining_days)` days of the shuffled pool |
| MultiUserTimetrackings.Share | generate_multi_user_timetrackings.py:146 | `vacation_pool[:num_days]` of the rest holds at most the user's quota, all of it from the pool |
| MultiUserTimetrackings.Shares | generate_multi_user_timetrackings.py:144-147 | the first `n` users' lists together hold no more than their quotas add up to |
| MultiUserTimetrackings.SharesCoverBudget | generate_multi_user_timetrackings.py:138-147 | all users' quotas add up to exactly `total_vacation_days` |
| MultiUserTimetrackings.OffsetMonotone | generate_multi_user_timetrackings.py:144-147 | later users' shares start no earlier in the pool |
| MultiUserTimetrackings.ShareSize | generate_multi_user_timetrackings.py:145-146 | with the whole budget in the pool, user `i` gets exactly `days_per_user + (1 if i < remaining_days else 0)` days |
| MultiUserTimetrackings.SharesArePrefix | generate_multi_user_timetrackings.py:144-147 | the first `n` shares one after the other are the pool's prefix up to their combined size |
| MultiUserTimetrackings.PrefixThenSlice | generate_multi_user_timetrackings.py:146-147 | a clamped prefix followed by the next clamped slice is the longer clamped prefix |
| MultiUserTimetrackings.SharesDisjoint | generate_multi_user_timetrackings.py:144-147 | in a duplicate-free pool no day is in two users' shares |
| MultiUserTimetrackings.JoinedShares | generate_multi_user_timetrackings.py:144-147 | the lists of the first `n` users, joined, are the first `n` shares |
| MultiUserTimetrackings.DropSlice | generate_multi_user_timetrackings.py:146-147 | taking `q` days after cutting `a` is the slice from `a` to `a + q`, and cutting twice is cutting the sum |
| MultiUserTimetrackings.HandOut | generate_multi_user_timetrackings.py:144-147 | every user gets a list and nobody else does; with distinct ids user `i`'s list is its share of the pool |
| MultiUserTimetrackings.GiveShare | generate_multi_user_timetrackings.py:145-146 | recording user `i`'s share keeps the lists of the users before |
| MultiUserTimetrackings.SplitVacation | generate_multi_user_timetrackings.py:137-147 | every user gets a list and nobody else does; with distinct ids each list is the user's share, the lists joined are a prefix of the shuffled pool, as a multiset exactly the vacation days when they fit the budget, every user has exactly their quota when the days fill it, and no day goes to two users when the days are distinct |
| MultiUserTimetrackings.SplitProperties | generate_multi_user_timetrackings.py:137-147 | the shares joined are the pool's prefix as long as the budget, the whole vacation list as a multiset when it fits the budget, exactly each quota when it fills the budget, and pairwise disjoint for a duplicate-free list |
| MultiUserTimetrackings.SharesWithin | generate_multi_user_timetrackings.py:141-147 | every day handed out is one of the vacation days, so one of any list holding them |
| MultiUserTimetrackings.AssignShortDays | generate_multi_user_timetrackings.py:149-157 | every user gets short days and nobody else does, each user's short days being working days outside their vacation, sorted, between 3 and 8 unless fewer are available |
| MultiUserTimetrackings.RecordShortDays | generate_multi_user_timetrackings.py:155-156 | recording user `i`'s short days keeps the loop's invariant |
| MultiUserTimetrackings.GenerateUserEntries | generate_multi_user_timetrackings.py:163-183 | entries only for the user on working days of the range outside their vacation; on each such date the user's entries are exactly one generated day, short (120-300 work minutes, 10-30 of breaks, 3 or 5 entries) on a short day and normal (480, 30-50, 5 or 7) otherwise, well formed, on the start grid and ending by 17:20; all in date order |
| MultiUserTimetrackings.BookDay | generate_multi_user_timetrackings.py:176-181 | generating and appending the day of a working non-vacation date keeps the earlier entries and makes that day the date's entries |
| MultiUserTimetrackings.SkipDate | generate_multi_user_timetrackings.py:166-174 | passing over a weekend, holiday or vacation date books nothing |
| MultiUserTimetrackings.BookDate | generate_multi_user_timetrackings.py:177-181 | appending a generated day of the right kind makes it its date's entries and changes no earlier date |
| MultiUserTimetrackings.GenerateEntries | generate_multi_user_timetrackings.py:160-183 | every entry belongs to a user on a working day of the range outside that user's vacation; with distinct ids each user's entries on each such date are one generated day, short on their short days and normal otherwise |
| MultiUserTimetrackings.AddUser | generate_multi_user_timetrackings.py:162-183 | adding the next user's entries keeps the earlier users' days and adds that user's own |
| MultiUserTimetrackings.EntriesOnAfterUser | generate_multi_user_timetrackings.py:162-183 | after appending user `i`'s entries, an earlier user's entries on a date are unchanged and user `i`'s are what their own loop generated |
| MultiUserTimetrackings.UserIdsAreDistinct | generate_multi_user_timetrackings.py:125 | the configured user ids 51, 52, 53 are distinct |
| MultiUserTimetrackings.PlanVacations | generate_multi_user_timetrackings.py:129-147 | the working days are the walk over the range; `min(total, working days)` of them are sampled, strictly ascending; every user gets a list and nobody else does; the lists joined are, as a multiset, exactly the sampled days; with working days for the whole budget every user gets exactly their quota; no day goes to two users |
| MultiUserTimetrackings.Run | generate_multi_user_timetrackings.py:129-183 | for any distinct users, everything `PlanVacations` states, the short days (working, non-vacation, sorted, 3-8), and entries on exactly the users' non-vacation working days, one generated day per user and date, short on the user's short days |
| MultiUserTimetrackings.Generate | generate_multi_user_timetrackings.py:122-183 | the script's run for users 51, 52, 53 from 2025-04-01 to 2025-06-06: all 30 vacation days are sampled, strictly ascending, and shared out so that each user gets exactly 10 and no day twice; with everything `Run` states for the configured values |

## Left out

- Writing the JSON file, all `print` output, and the `strftime` and `str()` formatting of times and ids. Entries keep ids as integers and times as minutes.
- The distribution of the random draws. Only the range of every draw is modelled, and how a stream's draws are laid out over days and users is a choice of the model.
- The comments "between 7:30 and 9:00" and "30-60 min total". The code gives a start from 07:00 to 08:30 and 30-50 break minutes, and the model follows the code.
- The unused `available_days` (multi-user script, line 153), `total_break_minutes`, and `all_short_days` (lines 151 and 157). Nothing downstream reads them.
- The holiday list is a set of day numbers and the weekday is computed from the day number. The real Gregorian calendar is not modelled; the 2025 holidays were converted by hand.
- `random.sample` of more items than there are, and the other error paths of Python's random module that the scripts never reach.
- MultiUserTimetrackings.SplitVacation: the per-user shares, the prefix and the disjointness are stated only for distinct user ids. With duplicate ids a later user's list overwrites an earlier one in the dictionary.
- MultiUserTimetrackings.GenerateEntries: the per-user work totals are stated only for distinct user ids, for the same reason.
- MultiUserTimetrackings.PlanVacations: requires distinct user ids, as the configured list has, and at least one user.
- MultiUserTimetrackings.SplitVacation: requires at least one user. With an empty list Python raises `ZeroDivisionError` at `total_vacation_days // num_users` (line 138); the model does not return that error.
- MultiUserTimetrackings.Run: requires distinct user ids and at least one user, for the same two reasons.
- VacationTimetrackings.GenerateVacationDays: period `j` draws its length at slot `101 * j` of the stream and its start attempts at the 100 slots after it. The length slot is taken even when fewer than three days remain and no `randint` is called. This does not change the results.
- VacationTimetrackings.WalkRun: the walk steps over days already taken, so a new period can straddle an earlier one. The periods' date ranges can then interleave even though their days stay disjoint. The model states the disjointness and does not claim that the ranges are separate.
