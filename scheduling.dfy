/** The allocation engine of src/scheduling.py (and of its legacy copy in
    scheduler.py, which differs only in the state machine): daily staffing
    targets, the greedy day allocator, the weekly OFF-count validation, the
    pattern built week by week with one state map carried across weeks, and
    the outer search over pattern lengths.

    Each step is first stated as a function (the specification) and then
    performed by a method with the loops of the source, proved equal to it. */
module Scheduling {
  import opened Shifts
  import opened StateMachines
  import opened Ranking

  /** `compute_min_pattern_weeks`: the search always starts at two weeks. */
  function ComputeMinPatternWeeks(peopleCount: int): (r: int)
    ensures r == 2
  {
    2
  }

  /** One person per shift, or two when the team prefers two or more. */
  function PreferredStaff(team: Team): int
  {
    if team.preferTwo then 2 else 1
  }

  /** `target_daily_staff_count`: the preferred headcount, raised to the
      overfill count on Wednesday (weekday 2) when that count is positive. The
      allocator uses it for DAY and for NIGHT alike. */
  function TargetDailyStaffCount(team: Team, weekdayIndex: int): (n: int)
    ensures n >= PreferredStaff(team) >= 1
    ensures weekdayIndex == 2 && team.overfillCount > 0 ==>
      n >= team.overfillCount && (n == team.overfillCount || n == PreferredStaff(team))
    ensures !(weekdayIndex == 2 && team.overfillCount > 0) ==> n == PreferredStaff(team)
  {
    if weekdayIndex == 2 && team.overfillCount > 0 then
      (if PreferredStaff(team) >= team.overfillCount then PreferredStaff(team) else team.overfillCount)
    else PreferredStaff(team)
  }

  /** The names that get the priority score term when ranking for DAY: the
      Friday priority list, on Friday (weekday 4) and for the team named
      "shift 2" (in any case) only. */
  function DayBonusNames(m: Machine, team: Team, weekdayIndex: int): seq<string>
  {
    if weekdayIndex == 4 && IsShiftTwo(team.name) then m.PriorityNames() else []
  }

  /** `for p in members: person_states[p].apply(a, ...)` */
  function ApplyAll(m: Machine, states: map<string, State>, members: seq<string>, a: Assignment): (r: map<string, State>)
    requires forall p :: p in members ==> p in states
    ensures r.Keys == states.Keys
    decreases |members|
  {
    if members == [] then states
    else
      var init := members[..|members| - 1];
      var p := members[|members| - 1];
      assert forall q :: q in init ==> q in members;
      var r := ApplyAll(m, states, init, a);
      r[p := m.Advance(r[p], a)]
  }

  /** The cooldown pre-set loop over the OFF members (identity for the legacy
      engine, which has no such loop). */
  function PrepareAll(m: Machine, states: map<string, State>, members: seq<string>): (r: map<string, State>)
    requires forall p :: p in members ==> p in states
    ensures r.Keys == states.Keys
    decreases |members|
  {
    if members == [] then states
    else
      var init := members[..|members| - 1];
      var p := members[|members| - 1];
      assert forall q :: q in init ==> q in members;
      var r := PrepareAll(m, states, init);
      r[p := m.PrepareOff(r[p])]
  }

  /** `for p in members: off_counter[p] += 1` */
  function Tally(counter: map<string, int>, members: seq<string>): (r: map<string, int>)
    requires forall p :: p in members ==> p in counter
    ensures r.Keys == counter.Keys
    decreases |members|
  {
    if members == [] then counter
    else
      var init := members[..|members| - 1];
      var p := members[|members| - 1];
      assert forall q :: q in init ==> q in members;
      var r := Tally(counter, init);
      r[p := r[p] + 1]
  }

  /** One more OFF member: their state takes the OFF update and their count
      goes up by one. */
  lemma OffStep(m: Machine, states: map<string, State>, counter: map<string, int>, members: seq<string>, i: nat)
    requires i < |members| && forall p :: p in members ==> p in states && p in counter
    ensures var r, p := ApplyAll(m, states, members[..i], Off), members[i];
      ApplyAll(m, states, members[..i + 1], Off) == r[p := m.Advance(r[p], Off)]
    ensures var c, p := Tally(counter, members[..i]), members[i];
      Tally(counter, members[..i + 1]) == c[p := c[p] + 1]
  {
    assert members[..i + 1][..i] == members[..i];
  }

  /** The DAY list: the first k names of the DAY ranking of the roster. */
  function DayPick(m: Machine, team: Team, d: int, states: map<string, State>): (r: seq<string>)
    requires forall p :: p in team.people ==> p in states
    ensures forall p :: p in r ==> p in team.people
  {
    RankMembers(m, team.people, states, Day, DayBonusNames(m, team, d));
    Take(Rank(m, team.people, states, Day, DayBonusNames(m, team, d)), TargetDailyStaffCount(team, d))
  }

  /** The states once the DAY members have taken their DAY update. */
  function AfterDay(m: Machine, team: Team, d: int, states: map<string, State>): (r: map<string, State>)
    requires forall p :: p in team.people ==> p in states
    ensures r.Keys == states.Keys
  {
    ApplyAll(m, states, DayPick(m, team, d, states), Day)
  }

  /** The NIGHT list: the first k names of the NIGHT ranking of the roster
      members not on DAY, ranked on the states after the DAY updates. */
  function NightPick(m: Machine, team: Team, d: int, states: map<string, State>): (r: seq<string>)
    requires forall p :: p in team.people ==> p in states
    ensures forall p :: p in r ==> p in team.people && p !in DayPick(m, team, d, states)
  {
    var nightCands := Exclude(team.people, DayPick(m, team, d, states));
    RankMembers(m, nightCands, AfterDay(m, team, d, states), Night, []);
    Take(Rank(m, nightCands, AfterDay(m, team, d, states), Night, []), TargetDailyStaffCount(team, d))
  }

  /** The OFF list: the roster members on neither shift, in roster order. */
  function OffPick(m: Machine, team: Team, d: int, states: map<string, State>): seq<string>
    requires forall p :: p in team.people ==> p in states
  {
    Exclude(team.people, DayPick(m, team, d, states) + NightPick(m, team, d, states))
  }

  datatype DayResult = DayResult(plan: DayPlan, states: map<string, State>, offCounter: map<string, int>)

  /** One iteration of the day loop: rank for DAY and take the top k, apply
      DAY; rank the rest for NIGHT and take the top k, apply NIGHT; everyone
      else is OFF (cooldown pre-set, apply OFF, count the OFF day). */
  function AllocateDaySpec(m: Machine, team: Team, d: int, states: map<string, State>, offCounter: map<string, int>): (r: DayResult)
    requires forall p :: p in team.people ==> p in states && p in offCounter
    ensures r.states.Keys == states.Keys && r.offCounter.Keys == offCounter.Keys
  {
    var dayMembers := DayPick(m, team, d, states);
    var nightMembers := NightPick(m, team, d, states);
    var offMembers := OffPick(m, team, d, states);
    var s2 := ApplyAll(m, AfterDay(m, team, d, states), nightMembers, Night);
    var s3 := PrepareAll(m, s2, offMembers);
    DayResult(DayPlan(d, dayMembers, nightMembers, offMembers), ApplyAll(m, s3, offMembers, Off), Tally(offCounter, offMembers))
  }

  datatype WeekProgress = WeekProgress(states: map<string, State>, days: seq<DayPlan>, offCounter: map<string, int>)

  /** `{p: 0 for p in people}` */
  function ZeroCounter(people: seq<string>): (r: map<string, int>)
    ensures forall p :: p in r <==> p in people
  {
    map p | p in people :: 0
  }

  /** The first d days of a week that starts from the given states. */
  function DaysSoFar(m: Machine, team: Team, start: map<string, State>, d: nat): (r: WeekProgress)
    requires d <= 7
    requires forall p :: p in team.people ==> p in start
    ensures r.states.Keys == start.Keys && r.offCounter.Keys == ZeroCounter(team.people).Keys
    ensures |r.days| == d
  {
    if d == 0 then WeekProgress(start, [], ZeroCounter(team.people))
    else
      var prev := DaysSoFar(m, team, start, d - 1);
      var day := AllocateDaySpec(m, team, d - 1, prev.states, prev.offCounter);
      WeekProgress(day.states, prev.days + [day.plan], day.offCounter)
  }

  /** One more day of the week loop. */
  lemma DaysSoFarNext(m: Machine, team: Team, start: map<string, State>, d: nat, prev: WeekProgress, day: DayResult)
    requires d < 7 && forall p :: p in team.people ==> p in start
    requires prev == DaysSoFar(m, team, start, d)
    requires forall p :: p in team.people ==> p in prev.states && p in prev.offCounter
    requires day == AllocateDaySpec(m, team, d, prev.states, prev.offCounter)
    ensures DaysSoFar(m, team, start, d + 1) == WeekProgress(day.states, prev.days + [day.plan], day.offCounter)
    ensures forall p :: p in team.people ==> p in day.states && p in day.offCounter
  {
  }

  /** The ValueError a week raises: whose OFF count, and what it was. */
  datatype Violation = Violation(person: string, offDays: int)

  /** The weekly check: the first person, in roster order, whose OFF count
      is outside [lo, hi]. */
  function FirstViolation(people: seq<string>, counter: map<string, int>, lo: int, hi: int): (r: Option<Violation>)
    requires forall p :: p in people ==> p in counter
    ensures r.None? <==> forall p :: p in people ==> lo <= counter[p] <= hi
    ensures r.Some? ==> r.value.person in people && r.value.offDays == counter[r.value.person]
                        && (r.value.offDays < lo || r.value.offDays > hi)
    ensures r.Some? ==> exists i :: (0 <= i < |people| && people[i] == r.value.person
                                     && forall j :: 0 <= j < i ==> lo <= counter[people[j]] <= hi)
  {
    if people == [] then None
    else if counter[people[0]] < lo || counter[people[0]] > hi then Some(Violation(people[0], counter[people[0]]))
    else FirstViolation(people[1..], counter, lo, hi)
  }

  datatype WeekOutcome = WeekOutcome(states: map<string, State>, plan: WeekPlan)

  /** One iteration of the week loop: seven days, then the OFF-count check. */
  function WeekSpec(m: Machine, team: Team, start: map<string, State>, w: int): (r: Result<WeekOutcome, Violation>)
    requires forall p :: p in team.people ==> p in start
    ensures r.Ok? ==> r.value.states.Keys == start.Keys
  {
    var progress := DaysSoFar(m, team, start, 7);
    match FirstViolation(team.people, progress.offCounter, m.MinDaysOff(), m.MaxDaysOff())
    case Some(v) => Err(v)
    case None => Ok(WeekOutcome(progress.states, WeekPlan(w, progress.days)))
  }

  /** The state of an allocation attempt after some weeks. */
  datatype Attempt = Running(states: map<string, State>, weeks: seq<WeekPlan>) | Failed(violation: Violation)

  /** `{p: PersonState(name=p) for p in people}` */
  function InitialStates(people: seq<string>): (r: map<string, State>)
    ensures forall p :: p in r <==> p in people
  {
    map p | p in people :: FreshState()
  }

  /** The first n weeks of an attempt: the state map is created once and
      threaded through every week; the first failing week ends the attempt. */
  function Run(m: Machine, team: Team, n: nat): (r: Attempt)
    ensures r.Running? ==> r.states.Keys == InitialStates(team.people).Keys && |r.weeks| == n
  {
    if n == 0 then Running(InitialStates(team.people), [])
    else
      match Run(m, team, n - 1)
      case Failed(v) => Failed(v)
      case Running(st, ws) =>
        match WeekSpec(m, team, st, n - 1)
        case Err(v) => Failed(v)
        case Ok(o) => Running(o.states, ws + [o.plan])
  }

  /** `allocate_week_pattern(shift, rules, n)`: the weeks, or the first
      violation. */
  function Alloc(m: Machine, team: Team, n: nat): (r: Result<seq<WeekPlan>, Violation>)
    ensures r.Ok? <==> Run(m, team, n).Running?
    ensures r.Ok? ==> |r.value| == n
  {
    match Run(m, team, n)
    case Running(_, ws) => Ok(ws)
    case Failed(v) => Err(v)
  }

  /** Failure is final: an attempt that failed within n weeks has failed,
      with the same violation, within any longer length; one still running
      after m weeks was running after every n <= m weeks with the first n of
      those weeks. */
  lemma {:induction false} RunPrefix(m: Machine, team: Team, n: nat, k: nat)
    requires n <= k
    ensures Run(m, team, n).Failed? ==> Run(m, team, k) == Run(m, team, n)
    ensures Run(m, team, k).Running? ==>
      Run(m, team, n).Running? && Run(m, team, n).weeks == Run(m, team, k).weeks[..n]
    decreases k, 1
  {
    if n < k {
      PrefixBelow(m, team, n, k - 1);
      RunBack(m, team, k);
      if Run(m, team, k).Running? {
        PrefixChain(Run(m, team, n).weeks, Run(m, team, k - 1).weeks, Run(m, team, k).weeks, n, k - 1);
      }
    } else if Run(m, team, k).Running? {
      assert Run(m, team, k).weeks[..n] == Run(m, team, k).weeks;
    }
  }

  /** The prefix property up to week j, one week short of the caller's k. */
  lemma PrefixBelow(m: Machine, team: Team, n: nat, j: nat)
    requires n <= j
    ensures Run(m, team, n).Failed? ==> Run(m, team, j) == Run(m, team, n)
    ensures Run(m, team, j).Running? ==>
      Run(m, team, n).Running? && Run(m, team, n).weeks == Run(m, team, j).weeks[..n]
    decreases j + 1, 0
  {
    RunPrefix(m, team, n, j);
  }

  /** Week k of an attempt keeps a failure and extends a running attempt. */
  lemma RunBack(m: Machine, team: Team, k: nat)
    requires k > 0
    ensures Run(m, team, k - 1).Failed? ==> Run(m, team, k) == Run(m, team, k - 1)
    ensures Run(m, team, k).Running? ==>
      Run(m, team, k - 1).Running? && Run(m, team, k - 1).weeks == Run(m, team, k).weeks[..k - 1]
  {
  }

  /** The prefix property of attempts: for n <= k, a failure at n is the
      same failure at k, and a success at k extends the success at n. */
  lemma AllocPrefix(m: Machine, team: Team, n: nat, k: nat)
    requires n <= k
    ensures Alloc(m, team, n).Err? ==> Alloc(m, team, k) == Alloc(m, team, n)
    ensures Alloc(m, team, k).Ok? ==>
      Alloc(m, team, n).Ok? && Alloc(m, team, n).value == Alloc(m, team, k).value[..n]
  {
    RunPrefix(m, team, n, k);
  }

  /** One more week of a running attempt is that week's outcome. */
  lemma RunNext(m: Machine, team: Team, w: nat)
    requires Run(m, team, w).Running?
    ensures forall p :: p in team.people ==> p in Run(m, team, w).states
    ensures var prev := Run(m, team, w);
      Run(m, team, w + 1) ==
        match WeekSpec(m, team, prev.states, w)
        case Err(v) => Failed(v)
        case Ok(o) => Running(o.states, prev.weeks + [o.plan])
  {
  }

  /** A week that fails ends every longer attempt with its violation. */
  lemma AllocAfterFailure(m: Machine, team: Team, w: nat, n: nat)
    requires w < n && Run(m, team, w).Running?
    requires forall p :: p in team.people ==> p in Run(m, team, w).states
    requires WeekSpec(m, team, Run(m, team, w).states, w).Err?
    ensures Alloc(m, team, n) == Err(WeekSpec(m, team, Run(m, team, w).states, w).error)
  {
    RunNext(m, team, w);
    RunPrefix(m, team, w + 1, n);
  }

  /** `for p in members: person_states[p].apply(a, ...)` */
  method ApplyEach(m: Machine, states: map<string, State>, members: seq<string>, a: Assignment)
    returns (r: map<string, State>)
    requires forall p :: p in members ==> p in states
    ensures r == ApplyAll(m, states, members, a)
  {
    r := states;
    for i := 0 to |members|
      invariant r == ApplyAll(m, states, members[..i], a)
    {
      assert members[..i + 1][..i] == members[..i];
      var p := members[i];
      r := r[p := m.Advance(r[p], a)];
    }
    assert members[..|members|] == members;
  }

  /** The cooldown pre-set loop of src/scheduling.py over the OFF members. */
  method PresetCooldowns(rules: Models.Rules, states: map<string, State>, offMembers: seq<string>)
    returns (r: map<string, State>)
    requires forall p :: p in offMembers ==> p in states
    ensures r == PrepareAll(Unified(rules), states, offMembers)
  {
    r := states;
    for i := 0 to |offMembers|
      invariant r == PrepareAll(Unified(rules), states, offMembers[..i])
    {
      assert offMembers[..i + 1][..i] == offMembers[..i];
      var p := offMembers[i];
      var st := r[p];
      if st.lastAssignment == Some(Night) && st.nightCooldownRemaining == 0
         && rules.minDaysOffAfterNightStreak > 0 {
        r := r[p := st.(nightCooldownRemaining := rules.minDaysOffAfterNightStreak)];
      } else {
        r := r[p := st];
      }
    }
    assert offMembers[..|offMembers|] == offMembers;
  }

  lemma {:induction false} PrepareAllLegacy(r: LegacyModels.Rules, states: map<string, State>, members: seq<string>)
    requires forall p :: p in members ==> p in states
    ensures PrepareAll(PerType(r), states, members) == states
    decreases |members|
  {
    if members != [] {
      var init := members[..|members| - 1];
      assert forall q :: q in init ==> q in members;
      PrepareAllLegacy(r, states, init);
    }
  }

  /** `for p in off_members: apply(OFF); off_counter[p] += 1` */
  method OffEach(m: Machine, states: map<string, State>, counter: map<string, int>, offMembers: seq<string>)
    returns (r: map<string, State>, c: map<string, int>)
    requires forall p :: p in offMembers ==> p in states && p in counter
    ensures r == ApplyAll(m, states, offMembers, Off) && c == Tally(counter, offMembers)
  {
    r, c := states, counter;
    for i := 0 to |offMembers|
      invariant r == ApplyAll(m, states, offMembers[..i], Off)
      invariant c == Tally(counter, offMembers[..i])
    {
      OffStep(m, states, counter, offMembers, i);
      var p := offMembers[i];
      r := r[p := m.Advance(r[p], Off)];
      c := c[p := c[p] + 1];
    }
    assert offMembers[..|offMembers|] == offMembers;
  }

  /** One day of `allocate_week_pattern`. */
  method AllocateDay(m: Machine, team: Team, d: int, states: map<string, State>, offCounter: map<string, int>)
    returns (plan: DayPlan, newStates: map<string, State>, newCounter: map<string, int>)
    requires forall p :: p in team.people ==> p in states && p in offCounter
    ensures DayResult(plan, newStates, newCounter) == AllocateDaySpec(m, team, d, states, offCounter)
  {
    var people := team.people;
    var dayCount := TargetDailyStaffCount(team, d);
    var nightCount := TargetDailyStaffCount(team, d);
    var priorityNames := if IsShiftTwo(team.name) then m.PriorityNames() else [];
    var bonusNames := if d == 4 then priorityNames else [];

    var dayRanked := RankCandidates(m, people, states, Day, bonusNames);
    RankMembers(m, people, states, Day, bonusNames);
    var dayMembers := Take(dayRanked, dayCount);
    var s := ApplyEach(m, states, dayMembers, Day);

    var nightCandidates := Exclude(people, dayMembers);
    var nightRanked := RankCandidates(m, nightCandidates, s, Night, []);
    RankMembers(m, nightCandidates, s, Night, []);
    var nightMembers := Take(nightRanked, nightCount);
    s := ApplyEach(m, s, nightMembers, Night);

    var offMembers := Exclude(people, dayMembers + nightMembers);
    if m.Unified? {
      s := PresetCooldowns(m.rules, s, offMembers);
    } else {
      PrepareAllLegacy(m.legacyRules, s, offMembers);
    }
    newStates, newCounter := OffEach(m, s, offCounter, offMembers);
    plan := DayPlan(d, dayMembers, nightMembers, offMembers);
  }

  /** The weekly OFF-count check of `allocate_week_pattern`. */
  method CheckOffCounts(people: seq<string>, counter: map<string, int>, lo: int, hi: int)
    returns (v: Option<Violation>)
    requires forall p :: p in people ==> p in counter
    ensures v == FirstViolation(people, counter, lo, hi)
  {
    for i := 0 to |people|
      invariant FirstViolation(people, counter, lo, hi) == FirstViolation(people[i..], counter, lo, hi)
    {
      assert people[i..][1..] == people[i + 1..];
      var offDays := counter[people[i]];
      if offDays < lo || offDays > hi {
        return Some(Violation(people[i], offDays));
      }
    }
    v := None;
  }

  /** One week of `allocate_week_pattern`: the seven days, then the OFF-count
      check. */
  method AllocateWeek(m: Machine, team: Team, w: int, weekStart: map<string, State>)
    returns (r: Result<WeekOutcome, Violation>)
    requires forall p :: p in team.people ==> p in weekStart
    ensures r == WeekSpec(m, team, weekStart, w)
  {
    var personStates, days, offCounter := WeekDays(m, team, weekStart);
    var violation := CheckOffCounts(team.people, offCounter, m.MinDaysOff(), m.MaxDaysOff());
    if violation.Some? {
      return Err(violation.value);
    }
    r := Ok(WeekOutcome(personStates, WeekPlan(w, days)));
  }

  /** The seven-day loop of one week, from the week's starting states and
      zero OFF counters. */
  method WeekDays(m: Machine, team: Team, weekStart: map<string, State>)
    returns (personStates: map<string, State>, days: seq<DayPlan>, offCounter: map<string, int>)
    requires forall p :: p in team.people ==> p in weekStart
    ensures DaysSoFar(m, team, weekStart, 7) == WeekProgress(personStates, days, offCounter)
  {
    personStates, days, offCounter := weekStart, [], ZeroCounter(team.people);
    for d := 0 to 7
      invariant DaysSoFar(m, team, weekStart, d) == WeekProgress(personStates, days, offCounter)
      invariant forall p :: p in team.people ==> p in personStates && p in offCounter
    {
      ghost var prev := WeekProgress(personStates, days, offCounter);
      var plan;
      plan, personStates, offCounter := AllocateDay(m, team, d, personStates, offCounter);
      DaysSoFarNext(m, team, weekStart, d, prev, DayResult(plan, personStates, offCounter));
      days := days + [plan];
    }
  }


  /** `allocate_week_pattern`: the week loop over one state map created at
      the start; the first failing week raises. */
  method AllocateWeekPattern(m: Machine, team: Team, patternWeeks: nat)
    returns (r: Result<seq<WeekPlan>, Violation>)
    ensures r == Alloc(m, team, patternWeeks)
  {
    var personStates := InitialStates(team.people);
    var weekPatterns: seq<WeekPlan> := [];
    for w := 0 to patternWeeks
      invariant Run(m, team, w) == Running(personStates, weekPatterns)
      invariant forall p :: p in team.people ==> p in personStates
    {
      var week := AllocateWeek(m, team, w, personStates);
      if week.Err? {
        AllocAfterFailure(m, team, w, patternWeeks);
        return Err(week.error);
      }
      RunNext(m, team, w);
      personStates := week.value.states;
      weekPatterns := weekPatterns + [week.value.plan];
    }
    r := Ok(weekPatterns);
  }

  /** Every attempt of length 2 up to, but not including, w has failed. */
  ghost predicate FailBelow(m: Machine, team: Team, w: int)
  {
    forall v: nat :: 2 <= v < w ==> Alloc(m, team, v).Err?
  }

  lemma FailBelowStep(m: Machine, team: Team, w: nat)
    requires FailBelow(m, team, w) && Alloc(m, team, w).Err?
    ensures FailBelow(m, team, w + 1)
  {
  }

  lemma FailBelowAt(m: Machine, team: Team, w: int, v: nat)
    requires FailBelow(m, team, w) && 2 <= v < w
    ensures Alloc(m, team, v).Err?
  {
  }

  /** The RuntimeError of the search. */
  datatype SearchExhausted = SearchExhausted(maxTryWeeks: int)

  /** `find_smallest_valid_pattern`: try lengths from 2 up to max_try_weeks
      and return the first that allocates. Because attempts are prefixes of
      one another, the search succeeds exactly when the two-week attempt does,
      and then returns that two-week pattern. */
  method FindSmallestValidPattern(m: Machine, team: Team, maxTryWeeks: int)
    returns (r: Result<seq<WeekPlan>, SearchExhausted>)
    ensures r.Ok? <==> maxTryWeeks >= 2 && Alloc(m, team, 2).Ok?
    ensures r.Ok? ==> r.value == Alloc(m, team, 2).value && |r.value| == 2
    ensures r.Err? ==> r.error == SearchExhausted(maxTryWeeks)
  {
    var start := ComputeMinPatternWeeks(|team.people|);
    var w := start;
    while w <= maxTryWeeks
      invariant 2 <= w && (w > 2 ==> w <= maxTryWeeks + 1)
      invariant FailBelow(m, team, w)
    {
      var attempt := AllocateWeekPattern(m, team, w);
      if attempt.Ok? {
        assert w == 2 by {
          if w > 2 {
            FailBelowAt(m, team, w, 2);
            AllocPrefix(m, team, 2, w);
          }
        }
        return Ok(attempt.value);
      }
      FailBelowStep(m, team, w);
      w := w + 1;
    }
    if maxTryWeeks >= 2 {
      assert Alloc(m, team, 2).Err? by { FailBelowAt(m, team, w, 2); }
    }
    r := Err(SearchExhausted(maxTryWeeks));
  }
}
