# Shift organizer allocation engine, in Dafny

This project models the core of a weekly shift-roster generator. A team (a
"shift") has a roster of people. For every day of a week, a greedy allocator
staffs a DAY shift and a NIGHT shift and gives everyone else the day OFF.
Each person's state is carried from day to day and from week to week: their
streaks, their last assignment, their working streak and a cooldown after
nights. A week is rejected when someone's OFF count falls outside
[min_days_off, max_days_off]. A pattern of N weeks is built week by week, and
a search tries pattern lengths from 2 upwards.

Two versions of the engine exist:

- **Current** (`src/models.py`, `src/scheduling.py`, `src/config.py`). It has a
  unified cap on consecutive working days, and a cooldown of
  min_days_off_after_night_streak OFF days after a night streak.
- **Legacy** (`scheduler.py`). It has separate caps on DAY and NIGHT streaks
  and no cooldown.

The two allocators are otherwise the same code. The model therefore has one
engine, `Scheduling`, parameterised by a `StateMachines.Machine`:

- `Unified(rules)` for the current engine;
- `PerType(rules)` for the legacy one.

Everything about `Scheduling.AllocateWeekPattern`,
`Scheduling.FindSmallestValidPattern` and their lemmas holds for both. So does
`Scheduling.TargetDailyStaffCount`: scheduler.py:305-313 and
src/scheduling.py:18-22 are the same rule.

## Modules

| Module | File | What it holds |
|---|---|---|
| `Shifts` | shifts.dfy | The values shared by both engines: assignments, the per-person state, DayPlan/WeekPlan, the team, and the name order used as the ranking tie-break. |
| `Models` | models.dfy | The current `PersonState`: `CanAssign`, the pure `Step`, and the class whose `Apply` method updates its fields in place. |
| `LegacyModels` | legacy_models.dfy | The same for the legacy record. |
| `StateMachines` | machine.dfy | The `Machine` dispatch, the cooldown pre-set, and the per-person invariant each engine keeps. |
| `Ranking` | ranking.dfy | The `rank_candidates` / `rank_night` closures: filtering, (score, name) key, insertion sort. |
| `Scheduling` | scheduling.dfy | The daily target, the specification functions of a day, a week and an attempt, and the imperative methods proved equal to them, up to the search. |
| `SchedulingProofs` | scheduling_proofs.dfy | What a day, a week and an allocation guarantee. |
| `History` | history.dfy | Rules that hold over the whole generated pattern, across day and week boundaries. |
| `Config` | config.dfy | The current defaulting and validation. |
| `Legacy` | legacy.dfy | The legacy validation, and the lcm fold that gives the total number of weeks. |

Some facts follow from the model and are proved:

- The state map is created once per call. So an allocation of n weeks is a
  prefix of every longer one, and a failure at n repeats at every longer
  length (`Scheduling.AllocPrefix`).
- As a result, `find_smallest_valid_pattern` either returns a 2-week pattern
  or fails at every length it tries (`Scheduling.FindSmallestValidPattern`).
- The Friday priority term is added to the score. It therefore ranks
  priority names later, not earlier (`Ranking.PriorityRanksLater`). The model
  follows the code here.

Scores are kept as integers in half-units, that is, multiplied by 2. Names are
compared in code-point order, which is how Python compares the tuple
`(score, name)`.

## Model

| member | source | states |
|---|---|---|
| Shifts.NameLessTransitive | src/scheduling.py:50 | The name part of the sort key is transitive. |
| Shifts.NameLessTotal | src/scheduling.py:50 | Two different names are always ordered one way or the other. |
| Shifts.NameLessAsymmetric | src/scheduling.py:50 | Name order is asymmetric. Together with the two rows above, the tie-break is a strict total order. |
| Models.CanAssign | src/models.py:60-71 | OFF is always allowed. An allowed DAY or NIGHT has no running cooldown and a working streak below max_shifts_in_row. An allowed DAY is never right after a NIGHT when no_day_after_night is on. |
| Models.CanAssignRules | src/models.py:60-71 | OFF is always allowed. A running cooldown blocks DAY and NIGHT. A working streak at the cap blocks DAY and NIGHT. With no_day_after_night, DAY is blocked after a NIGHT. NIGHT is allowed exactly when there is no cooldown and the streak is below the cap, and DAY exactly when, in addition, the day-after-night rule does not apply. |
| Models.PersonState.constructor | src/models.py:51-58 | A new record holds the default field values: no streak, no last or previous assignment, zero counters. |
| Models.Step | src/models.py:73-100 | `apply` makes the assignment the last one and the streak type, moves the old last one to previous, grows the working streak on DAY/NIGHT and resets it to 0 on OFF. Without rules the cooldown is unchanged. |
| Models.PersonState.Apply | src/models.py:73-100 | After `apply`, the record's fields are exactly the pure `Step` of their old values. |
| Models.StepStreak | src/models.py:75-90 | `apply` records the old last assignment as previous and makes `a` the last one. The streak grows on the same type and restarts at 1 otherwise. The working streak grows on DAY/NIGHT and resets to 0 on OFF. |
| Models.WorkingStreakCapped | src/models.py:60-90 | An `apply` preceded by a successful `can_assign` keeps the working streak within max_shifts_in_row. |
| Models.CooldownBookkeeping | src/models.py:93-100 | OFF right after NIGHT with no cooldown arms K and, in the same call, counts it down to K-1 when K > 0 and leaves it at K otherwise. A later OFF decrements a positive cooldown. DAY/NIGHT leave it alone. It never goes negative for K >= 0. Without rules it is unchanged. |
| LegacyModels.CanAssignRules | scheduler.py:261-274 | OFF is always allowed. NIGHT is allowed exactly when the current streak is not a NIGHT streak at its cap, so a NIGHT streak below max_night_in_row may continue. DAY is allowed exactly when the current streak is not a DAY streak at its cap and, with no_day_after_night, the last assignment was not NIGHT. |
| LegacyModels.CanAssign | scheduler.py:261-274 | OFF is always allowed, and so is NIGHT when the current streak is not a NIGHT streak. An allowed DAY is never right after a NIGHT when no_day_after_night is on. |
| LegacyModels.PersonState.constructor | scheduler.py:254-259 | A new legacy record has no streak and no last assignment. |
| LegacyModels.Step | scheduler.py:276-282 | The legacy `apply` makes the assignment the last one and the streak type, sets the streak to 1 or one more than before, and leaves the cooldown, working streak and previous assignment alone. |
| LegacyModels.PersonState.Apply | scheduler.py:276-282 | After the legacy `apply`, the record is the legacy `Step` of its old value. |
| LegacyModels.StepStreak | scheduler.py:276-282 | The legacy `apply` changes only streak type, streak length and last assignment (same type: +1, otherwise 1). The cooldown, working streak and previous assignment are untouched. |
| LegacyModels.StreakCapsHold | scheduler.py:261-282 | After an eligible `apply`, a DAY streak stays within max_day_in_row and a NIGHT streak within max_night_in_row. |
| StateMachines.PresetIsRedundant | src/scheduling.py:76-83 | Pre-setting the cooldown before the OFF `apply` gives the same state as `apply` alone: no double arming. |
| StateMachines.FreshStateOk | src/models.py:51-58 | A fresh record satisfies each engine's invariant. |
| StateMachines.AdvanceKeepsStateOk | src/models.py:60-100 | Under rules that validation accepts, an OFF or an eligible update keeps each engine's per-person invariant: current engine, working streak in [0, cap] and a non-negative cooldown; legacy engine, each same-type streak within its cap. |
| StateMachines.DayEligibleNotAfterNight | src/models.py:69-70 | With the rule on, whoever may take DAY did not just work a NIGHT, in either engine. |
| StateMachines.AdvanceRecordsLast | src/models.py:84 | An update records the assignment as the last one. The cooldown pre-set does not touch it. |
| Ranking.ScoreMeaning | src/scheduling.py:47-49 | The half point is present exactly when the last assignment was the same type. With no same-type streak and no half point the score is 0. The priority term adds 2 (4 half-units). |
| Ranking.PriorityRanksLater | src/scheduling.py:48-50 | Of two people in the same state, the one on the priority list ranks after the one who is not. |
| Ranking.KeyLessTransitive | src/scheduling.py:50 | The (score, name) key order is transitive. |
| Ranking.KeyLessTotal | src/scheduling.py:50 | Two entries for different names are always ordered one way or the other. |
| Ranking.InsertSorted | src/scheduling.py:50 | Inserting into a sorted list keeps it sorted and adds exactly that entry. |
| Ranking.SortByKey | src/scheduling.py:50 | The sort yields a sorted permutation of its input. |
| Ranking.SortNoDup | src/scheduling.py:50 | Sorting a list without repeats gives a list without repeats. |
| Ranking.Scored | src/scheduling.py:42-49 | The scored list holds only eligible candidates, and holds every eligible candidate with its key. |
| Ranking.RankMembers | src/scheduling.py:41-51 | A name is in the ranking exactly when it is a candidate eligible for the assignment. |
| Ranking.RankOrdered | src/scheduling.py:50-51 | The ranking ascends by (score, name). Over distinct candidates it has no repeats and the order is strict. |
| Ranking.RankCandidates | src/scheduling.py:41-51 | The filter-and-score loop, then the sort, returns exactly the specified ranking. The same method serves `rank_night` (src/scheduling.py:59-68). |
| Scheduling.ComputeMinPatternWeeks | src/scheduling.py:13-15 | The minimal pattern length is 2 weeks whatever the team size. The legacy twin at scheduler.py:294-304 returns the same. |
| Scheduling.TargetDailyStaffCount | src/scheduling.py:18-22 | The target is at least the preferred count (2 with prefer-two, else 1), so at least 1. On Wednesday with a positive overfill it is the larger of the two. On every other day it is the preferred count. The same target staffs DAY and NIGHT. |
| Scheduling.NightPick | src/scheduling.py:57-70 | NIGHT members are on the roster and never on that day's DAY list. |
| Scheduling.ApplyEach | src/scheduling.py:54-55 | The loop over members applying one assignment gives the specified fold. |
| Scheduling.PresetCooldowns | src/scheduling.py:76-81 | The pre-set loop over OFF members gives the specified per-member pre-set. |
| Scheduling.PrepareAllLegacy | scheduler.py:382-385 | The legacy engine has no pre-set. Its OFF handling is the OFF `apply` alone. |
| Scheduling.OffEach | src/scheduling.py:82-84 | The OFF loop applies OFF and counts one OFF day per OFF member. |
| Scheduling.AllocateDay | src/scheduling.py:34-89 | One day of the allocator yields the specified plan, new states and new OFF counter. |
| Scheduling.FirstViolation | src/scheduling.py:91-96 | There is no violation exactly when every roster member's OFF count is within bounds. A reported violation names a roster member with their out-of-bounds count, and every member before them in roster order is within bounds, so it is the first one. |
| Scheduling.CheckOffCounts | src/scheduling.py:91-96 | The weekly check loop returns the first violation in roster order. |
| Scheduling.AllocateWeek | src/scheduling.py:30-98 | One week yields the specified outcome: its plan and states, or the violation. |
| Scheduling.Alloc | src/scheduling.py:25-100 | An allocation of n weeks succeeds exactly when the week-by-week run is still running after n weeks, and then holds exactly n weeks. |
| Scheduling.AllocateWeekPattern | src/scheduling.py:25-100 | The nested week/day loops return exactly the specified allocation of `patternWeeks` weeks. Given the PerType machine it is also the legacy allocator of scheduler.py:315-401. |
| Scheduling.RunPrefix | src/scheduling.py:27-98 | A failed attempt stays failed with the same error at every longer length. A running attempt of length k extends the attempt of length n <= k. |
| Scheduling.AllocPrefix | src/scheduling.py:27-100 | For n <= k, an error at n is the error at k, and a success at k restricted to n weeks is the success at n. |
| Scheduling.AllocAfterFailure | src/scheduling.py:91-96 | A week that fails makes every longer allocation fail with that week's violation. |
| Scheduling.FindSmallestValidPattern | src/scheduling.py:103-112 | The search succeeds exactly when max_try_weeks >= 2 and a 2-week allocation succeeds. It then returns that 2-week pattern, and otherwise reports the exhausted search. This also models scheduler.py:403-413. |
| SchedulingProofs.ApplyAllAt | src/scheduling.py:54-55 | Over distinct members, each member gets exactly one update and everyone else is unchanged. |
| SchedulingProofs.TallyAt | src/scheduling.py:84 | Over distinct members, each OFF member's count rises by one and the others stay the same. |
| SchedulingProofs.TopK | src/scheduling.py:53 | Taking the first k of a ranking gives at most k distinct eligible candidates. It takes everyone eligible when short, and each pick ranks strictly ahead of every eligible person left out. |
| SchedulingProofs.DayPartition | src/scheduling.py:53-89 | Over a roster without repeated names, every day's DAY, NIGHT and OFF lists are disjoint and together are exactly the roster. DAY and NIGHT each stay within the day's target, and the plan carries its weekday. |
| SchedulingProofs.DayChoice | src/scheduling.py:41-55 | DAY members were eligible for DAY on the morning state. A short DAY list holds everyone eligible. DAY members rank ahead of every eligible person left off. |
| SchedulingProofs.NightChoice | src/scheduling.py:57-72 | NIGHT members are not on DAY and were eligible for NIGHT on the morning state. A short NIGHT list holds everyone eligible not on DAY. NIGHT members rank, without the priority term, ahead of every such person left off. |
| SchedulingProofs.DayStates | src/scheduling.py:53-84 | After a day, a DAY member has had one DAY update, a NIGHT member one NIGHT update, and an OFF member the pre-set plus one OFF update. Anyone else is unchanged. |
| SchedulingProofs.DayCounts | src/scheduling.py:82-84 | After a day, an OFF member's count rises by one and every other count is unchanged. |
| SchedulingProofs.DaysPartition | src/scheduling.py:34-89 | The first d days are numbered 0..d-1. Each splits the roster and stays within its targets. |
| SchedulingProofs.DaysOffCounts | src/scheduling.py:32-84 | After d days, each person's counter equals the number of those days on which they were OFF. |
| SchedulingProofs.WeekValidation | src/scheduling.py:32-98 | A week fails exactly when some roster member's OFF count over its seven days is out of bounds, and names such a member with that count. A passing week is numbered w and has seven days numbered 0..6 that split the roster, with every OFF count in bounds. |
| SchedulingProofs.AllocWeeks | src/scheduling.py:25-100 | A successful allocation has exactly n weeks, each numbered, partitioned, with DAY and NIGHT each within the day's target, and within the OFF bounds. |
| SchedulingProofs.AllocFailure | src/scheduling.py:91-96 | A failed allocation names a roster member whose weekly OFF count is out of bounds. |
| History.TracksStep | src/models.py:73-100 | One day's update keeps a person's state equal to what their assignment history implies: last assignment, trailing streak, and, in the current engine, the trailing working run and the remaining cooldown. |
| History.CapFromState | src/models.py:64-67 | A state within its engine's invariant that records a history shows the streak caps hold on that history. |
| History.DayKeepsConsistent | src/scheduling.py:53-84 | A day keeps every roster member's state in step with the extended history and within the invariant. |
| History.DayKeepsHistory | src/scheduling.py:53-89 | A day keeps the whole-history rules: NIGHT lists off DAY lists, no DAY after NIGHT, the caps, and the cooldown rest. |
| History.DaysKeepHistory | src/scheduling.py:34-89 | The same over the days of a week. |
| History.RunKeepsHistory | src/scheduling.py:27-98 | The same over every week of an attempt, including week boundaries, because the state map is carried across weeks. |
| History.AllocHistory | src/scheduling.py:25-100 | A returned pattern obeys, over all its days: NIGHT members are not on that day's DAY list; with no_day_after_night, nobody works DAY the day after a NIGHT; the streak caps hold after every day; and, in the current engine, a NIGHT followed by an OFF is followed by OFF days up to min_days_off_after_night_streak days after the NIGHT. |
| History.AllocWorkStreak | src/models.py:64-67 | In a returned pattern, nobody works more than max_shifts_in_row days in a row. |
| History.AllocTypeStreak | scheduler.py:261-270 | In a legacy pattern, nobody works more than max_day_in_row DAYs or max_night_in_row NIGHTs in a row. |
| Config.ShiftErrorIff | src/config.py:64-80 | A shift passes its checks exactly when its roster is non-empty, its four times are valid and 0 <= min <= max <= roster size for DAY and NIGHT. |
| Config.ValidateConfig | src/config.py:60-96 | An empty shift list is the "no shifts" error. An accepted configuration has a shift and rules that pass the rules checks, so max_shifts_in_row is positive and the cooldown is not negative. |
| Config.ShiftsErrorFirst | src/config.py:64-80 | The shift loop fails exactly when some shift is malformed, and reports the error of the first malformed shift. |
| Config.ValidateIff | src/config.py:60-96 | A configuration is accepted exactly when it has a shift, every shift is well formed, 0 <= min_days_off <= max_days_off, max_shifts_in_row > 0, the cooldown is >= 0 and 0 <= hours min <= hours max. |
| Config.ValidateOrder | src/config.py:60-96 | No shifts is reported first. Otherwise the first malformed shift's first failing check is reported before any rules error. Rules errors are reported only when every shift passes. |
| Config.AcceptedRulesOk | src/config.py:83-90 | Accepted rules meet the current engine's requirements: positive cap, non-negative cooldown, ordered OFF bounds. |
| Config.ShiftDefaults | src/config.py:16-29 | Without explicit bounds, both minima are the inferred minimum (2 with prefer-two, else 1). Both maxima are max(inferred, roster size). A missing roster is empty. |
| Config.ParseShift | src/config.py:14-40 | The name, roster, timezone and both time ranges are kept (a missing roster is empty). Each staffing bound is defaulted on its own, whatever the others are. A given minimum or maximum for DAY or NIGHT is kept as given. A missing minimum is the inferred minimum (2 with prefer-two, else 1). A missing maximum is the larger of the inferred minimum and the roster size. |
| Config.DefaultedShiftAccepted | src/config.py:17-29 | A defaulted shift with a non-empty roster and valid times is accepted exactly unless it prefers two and has fewer than two people. A one-person prefer-two shift fails the roster-size check (src/config.py:79-80). |
| Config.ShortPreferTwoRejected | src/config.py:16-29 | A prefer-two shift with fewer than two people is rejected whenever its DAY or its NIGHT maximum is defaulted, whatever other bounds are given (the checks of src/config.py:65-80). |
| Config.RuleDefaults | src/config.py:42-53 | The rule defaults are 5, 2, 1, true, [], 0, 40, 48, true, and they pass validation. require_equal_hours (default false) is not part of the model. |
| Config.ParseRules | src/config.py:41-53 | Each of the nine modelled rule fields is defaulted on its own, whatever the others are. A given field is kept as given. A missing one takes its default: max_shifts_in_row 5, max_days_off 2, min_days_off 1, no_day_after_night true, no priority names, cooldown 0, hours 40 and 48, auto-adjust true. |
| Config.ParseConfig | src/config.py:13-57 | The parse loop defaults each shift and the rules. It returns the configuration exactly when it is well formed, and otherwise the validator's first error. |
| Legacy.ShiftsErrorFirst | scheduler.py:220-229 | The legacy shift loop fails exactly when some shift is malformed (empty roster, negative overfill, bad time), reporting the first one. |
| Legacy.ValidateIff | scheduler.py:217-237 | A legacy configuration is accepted exactly when it has a shift, every shift is well formed, 0 <= min_days_off <= max_days_off and both caps are positive. The per-type engine's requirements then hold. |
| Legacy.ValidateConfig | scheduler.py:217-237 | An empty shift list is the "no shifts" error. An accepted legacy configuration has a shift and rules that pass the rules checks, so both streak caps are positive. |
| Legacy.ValidateOrder | scheduler.py:217-237 | No shifts is reported first, then the first malformed shift's first failing check, then rules errors. |
| Legacy.GcdFacts | scheduler.py:59-60 | The gcd divides both arguments and is an integer combination of them (Bezout). |
| Legacy.LcmFacts | scheduler.py:59-60 | The lcm of two positive lengths is positive, a multiple of both, and divides every common multiple. |
| Legacy.Lcm | scheduler.py:59-60 | The lcm is 0 when either argument is 0, and the lcm of a with 1 is a. |
| Legacy.LcmAllFacts | scheduler.py:66-68 | Folding lcm over positive pattern lengths gives their least common multiple: positive, a multiple of every length, and a divisor of every common multiple. |
| Legacy.LcmAll | scheduler.py:60-68 | A zero length anywhere in the list makes the fold 0 (the helper's `if a and b` guard). |
| Legacy.TotalWeeks | scheduler.py:62-71 | A requested week count is used as given. Otherwise an empty list of lengths is the "no shifts" error, and a non-empty one gives the fold of lcm from left to right. |

## Left out

- File and console I/O: JSON reading, CSV/XLSX writing, argument parsing, printing, dates and calendars. These are not modelled.
- `_validate_time` (the `strptime("%H:%M")` call) is the `validTime` parameter of the validators. It is not modelled as a parser.
- require_equal_hours (src/config.py:52, default false) is dropped: neither the raw rules nor `Models.Rules` has the field, because nothing in the engine or the validator reads it.
- The weekend and Wednesday staffing overrides (src/config.py:31-39) are dropped for the same reason.
- Fields the engine does not consume are only carried: the weekly hour targets (read by the validator alone), auto-adjust, the timezone, and the min/max staff counts, which the allocator ignores.
- Config.ParseConfig: raw fields arrive already typed (`Option<int>`, `Option<bool>`). The `int(...)` and `bool(...)` conversions and a missing required key (name, timezone, times) are not modelled.
- Constructor mismatches in the source are not reproduced, because they would only raise a Python TypeError or AttributeError. src/config.py passes fields `ShiftConfig` lacks, and the allocator reads `prefer_two_or_more_in_shift`, which the class lacks. The engine instead takes a `Team` with an explicit prefer-two flag and overfill count.
- The legacy `parse_config` defaulting (scheduler.py:187-215) is not modelled. Only the legacy validator is.
- The person-state dictionary is a `map` of state values. The classes `Models.PersonState` and `LegacyModels.PersonState` model the in-place `apply`, and their `Apply` is proved equal to the `Step` function the engine uses, so aliasing between dictionary entries is not modelled.
- Shifts.Lower: the case-insensitive "shift 2" test lowers ASCII letters only. No character outside ASCII lowers to a single character of "shift 2", so the comparison result is the same.
- The guarantees about partitions and per-person effects assume a roster without repeated names. The engine itself runs on any roster, as the source does.
- Pattern lengths in the lcm fold are natural numbers, as `len(...)` returns. `abs` on negative products is not modelled.
