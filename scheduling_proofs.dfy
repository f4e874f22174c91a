/** What the allocation engine guarantees about one day, one week and a
    whole pattern, for a roster without repeated names. */
module SchedulingProofs {
  import opened Shifts
  import opened StateMachines
  import opened Ranking
  import opened Scheduling

  /** A sequence without repeats minus its last element has no repeats and
      does not contain that element. */
  lemma LastNotInInit<T>(s: seq<T>)
    requires NoDup(s) && s != []
    ensures NoDup(s[..|s| - 1]) && s[|s| - 1] !in s[..|s| - 1]
  {
    var t := s[..|s| - 1];
    PrefixNoDup(s, t);
    NoDupIndex(s);
    forall i | 0 <= i < |t| ensures t[i] != s[|s| - 1] {
      assert t[i] == s[i];
    }
  }

  /** In a sequence without repeats every element occurs once. */
  lemma {:induction false} NoDupCount<T>(s: seq<T>, x: T)
    requires NoDup(s)
    ensures multiset(s)[x] == if x in s then 1 else 0
    decreases |s|
  {
    if s != [] {
      var init := s[..|s| - 1];
      LastNotInInit(s);
      NoDupCount(init, x);
      assert s == init + [s[|s| - 1]];
    }
  }

  /** Applying one assignment to every listed person changes exactly their
      states, each by one update. */
  lemma {:induction false} ApplyAllAt(m: Machine, states: map<string, State>, members: seq<string>, a: Assignment, p: string)
    requires forall q :: q in members ==> q in states
    requires NoDup(members) && p in states
    ensures ApplyAll(m, states, members, a)[p] == if p in members then m.Advance(states[p], a) else states[p]
    decreases |members|
  {
    if members != [] {
      var init := members[..|members| - 1];
      assert forall q :: q in init ==> q in members;
      LastNotInInit(members);
      ApplyAllAt(m, states, init, a, p);
      assert members == init + [members[|members| - 1]];
    }
  }

  /** The cooldown pre-set changes exactly the listed people's states. */
  lemma {:induction false} PrepareAllAt(m: Machine, states: map<string, State>, members: seq<string>, p: string)
    requires forall q :: q in members ==> q in states
    requires NoDup(members) && p in states
    ensures PrepareAll(m, states, members)[p] == if p in members then m.PrepareOff(states[p]) else states[p]
    decreases |members|
  {
    if members != [] {
      var init := members[..|members| - 1];
      assert forall q :: q in init ==> q in members;
      LastNotInInit(members);
      PrepareAllAt(m, states, init, p);
      assert members == init + [members[|members| - 1]];
    }
  }

  /** Counting OFF days adds one for each listed person and nothing for
      anyone else. */
  lemma {:induction false} TallyAt(counter: map<string, int>, members: seq<string>, p: string)
    requires forall q :: q in members ==> q in counter
    requires NoDup(members) && p in counter
    ensures Tally(counter, members)[p] == counter[p] + if p in members then 1 else 0
    decreases |members|
  {
    if members != [] {
      var init := members[..|members| - 1];
      assert forall q :: q in init ==> q in members;
      LastNotInInit(members);
      TallyAt(counter, init, p);
      assert members == init + [members[|members| - 1]];
    }
  }

  /** Taking the first k of a ranking picks eligible candidates only, at most
      k of them, all of them when fewer than k are eligible, and each picked
      one ranks strictly ahead of every eligible one left out. */
  lemma TopK(m: Machine, cands: seq<string>, states: map<string, State>, a: Assignment, bonusNames: seq<string>, k: nat)
    requires forall p :: p in cands ==> p in states
    requires NoDup(cands)
    ensures var chosen := Take(Rank(m, cands, states, a, bonusNames), k);
      && NoDup(chosen) && |chosen| <= k
      && (forall p :: p in chosen ==> p in cands && m.Eligible(states[p], a))
      && (|chosen| < k ==> forall p :: p in cands && m.Eligible(states[p], a) ==> p in chosen)
      && (forall p, q :: p in chosen && q in cands && m.Eligible(states[q], a) && q !in chosen ==>
            KeyLess(KeyOf(states, a, bonusNames, p), KeyOf(states, a, bonusNames, q)))
  {
    var r := Rank(m, cands, states, a, bonusNames);
    RankMembers(m, cands, states, a, bonusNames);
    RankOrdered(m, cands, states, a, bonusNames);
    var chosen := Take(r, k);
    PrefixNoDup(r, chosen);
    forall p, q | p in chosen && q in cands && m.Eligible(states[q], a) && q !in chosen
      ensures KeyLess(KeyOf(states, a, bonusNames, p), KeyOf(states, a, bonusNames, q))
    {
      var i :| 0 <= i < |chosen| && chosen[i] == p;
      var j :| 0 <= j < |r| && r[j] == q;
      PrefixAt(r, chosen, i);
      if j < |chosen| {
        PrefixAt(r, chosen, j);
      }
      assert r[i] == p && j >= |chosen|;
    }
  }

  /** Each person of the roster is in exactly one of the day's three lists. */
  ghost predicate Partitions(plan: DayPlan, people: seq<string>)
  {
    && NoDup(plan.day) && NoDup(plan.night) && NoDup(plan.off)
    && (forall p :: p in people <==> p in plan.day || p in plan.night || p in plan.off)
    && (forall p :: p in plan.day ==> p !in plan.night && p !in plan.off)
    && (forall p :: p in plan.night ==> p !in plan.off)
  }

  /** The DAY, NIGHT and OFF lists together are a rearrangement of the
      roster. */
  predicate SplitsRoster(plan: DayPlan, people: seq<string>)
  {
    multiset(plan.day) + multiset(plan.night) + multiset(plan.off) == multiset(people)
  }

  /** A day splits the roster into DAY, NIGHT and OFF lists without repeats
      or overlaps, and staffs each shift with at most the day's target. */
  lemma DayPartition(m: Machine, team: Team, d: int, states: map<string, State>, counter: map<string, int>)
    requires forall p :: p in team.people ==> p in states && p in counter
    requires NoDup(team.people)
    ensures var plan := AllocateDaySpec(m, team, d, states, counter).plan;
      && plan.weekdayIndex == d
      && Partitions(plan, team.people)
      && SplitsRoster(plan, team.people)
      && |plan.day| <= TargetDailyStaffCount(team, d)
      && |plan.night| <= TargetDailyStaffCount(team, d)
  {
    var k := TargetDailyStaffCount(team, d);
    var day := DayPick(m, team, d, states);
    var night := NightPick(m, team, d, states);
    var off := OffPick(m, team, d, states);
    TopK(m, team.people, states, Day, DayBonusNames(m, team, d), k);
    ExcludeNoDup(team.people, day);
    TopK(m, Exclude(team.people, day), AfterDay(m, team, d, states), Night, [], k);
    ThreeWaySplit(team.people, DayPlan(d, day, night, off));
  }

  /** Two disjoint repeat-free picks from a repeat-free roster, plus the
      roster members on neither, rearrange the roster. */
  lemma ThreeWaySplit(people: seq<string>, plan: DayPlan)
    requires NoDup(people) && NoDup(plan.day) && NoDup(plan.night)
    requires forall p :: p in plan.day ==> p in people
    requires forall p :: p in plan.night ==> p in people && p !in plan.day
    requires plan.off == Exclude(people, plan.day + plan.night)
    ensures Partitions(plan, people) && SplitsRoster(plan, people)
  {
    var day, night, off := plan.day, plan.night, plan.off;
    ExcludeNoDup(people, day + night);
    forall x ensures (multiset(day) + multiset(night) + multiset(off))[x] == multiset(people)[x] {
      NoDupCount(day, x);
      NoDupCount(night, x);
      NoDupCount(off, x);
      NoDupCount(people, x);
    }
  }

  /** The DAY list, judged on the states the day starts from: everyone on it
      was eligible for DAY; when it is short of the target it holds every
      eligible person; and everyone on it ranks ahead of every eligible
      person left off it. */
  lemma DayChoice(m: Machine, team: Team, d: int, states: map<string, State>, counter: map<string, int>)
    requires forall p :: p in team.people ==> p in states && p in counter
    requires NoDup(team.people)
    ensures var day := AllocateDaySpec(m, team, d, states, counter).plan.day;
      var bonus := DayBonusNames(m, team, d);
      && (forall p :: p in day ==> m.Eligible(states[p], Day))
      && (|day| < TargetDailyStaffCount(team, d) ==>
            forall p :: p in team.people && m.Eligible(states[p], Day) ==> p in day)
      && (forall p, q :: p in day && q in team.people && m.Eligible(states[q], Day) && q !in day ==>
            KeyLess(KeyOf(states, Day, bonus, p), KeyOf(states, Day, bonus, q)))
  {
    TopK(m, team.people, states, Day, DayBonusNames(m, team, d), TargetDailyStaffCount(team, d));
  }

  /** The states of everyone not on DAY are unchanged by the DAY updates. */
  lemma AfterDayOthers(m: Machine, team: Team, d: int, states: map<string, State>)
    requires forall p :: p in team.people ==> p in states
    requires NoDup(team.people)
    ensures forall p :: p in states && p !in DayPick(m, team, d, states) ==> AfterDay(m, team, d, states)[p] == states[p]
  {
    TopK(m, team.people, states, Day, DayBonusNames(m, team, d), TargetDailyStaffCount(team, d));
    forall p | p in states && p !in DayPick(m, team, d, states) ensures AfterDay(m, team, d, states)[p] == states[p] {
      ApplyAllAt(m, states, DayPick(m, team, d, states), Day, p);
    }
  }

  /** The NIGHT list, judged on the states the day starts from: everyone on
      it was eligible for NIGHT and is not on DAY; when it is short of the
      target it holds every eligible person not on DAY; and everyone on it
      ranks ahead of every eligible person not on DAY left off it. */
  lemma NightChoice(m: Machine, team: Team, d: int, states: map<string, State>, counter: map<string, int>)
    requires forall p :: p in team.people ==> p in states && p in counter
    requires NoDup(team.people)
    ensures var plan := AllocateDaySpec(m, team, d, states, counter).plan;
      && (forall p :: p in plan.night ==> p !in plan.day && m.Eligible(states[p], Night))
      && (|plan.night| < TargetDailyStaffCount(team, d) ==>
            forall p :: p in team.people && p !in plan.day && m.Eligible(states[p], Night) ==> p in plan.night)
      && (forall p, q :: p in plan.night && q in team.people && q !in plan.day && m.Eligible(states[q], Night) && q !in plan.night ==>
            KeyLess(KeyOf(states, Night, [], p), KeyOf(states, Night, [], q)))
  {
    var day := DayPick(m, team, d, states);
    ExcludeNoDup(team.people, day);
    TopK(m, Exclude(team.people, day), AfterDay(m, team, d, states), Night, [], TargetDailyStaffCount(team, d));
    AfterDayOthers(m, team, d, states);
  }

  /** The states after a day: DAY and NIGHT members take one update of their
      shift, OFF members the cooldown pre-set and one OFF update, and
      everyone else is untouched. */
  lemma DayStates(m: Machine, team: Team, d: int, states: map<string, State>, counter: map<string, int>)
    requires forall p :: p in team.people ==> p in states && p in counter
    requires NoDup(team.people)
    ensures var r := AllocateDaySpec(m, team, d, states, counter);
      forall p :: p in states ==>
        r.states[p] ==
          if p in r.plan.day then m.Advance(states[p], Day)
          else if p in r.plan.night then m.Advance(states[p], Night)
          else if p in r.plan.off then m.Advance(m.PrepareOff(states[p]), Off)
          else states[p]
  {
    DayPartition(m, team, d, states, counter);
    var r := AllocateDaySpec(m, team, d, states, counter);
    var plan := r.plan;
    var s1 := AfterDay(m, team, d, states);
    var s2 := ApplyAll(m, s1, plan.night, Night);
    var s3 := PrepareAll(m, s2, plan.off);
    forall p | p in states
      ensures r.states[p] ==
            if p in plan.day then m.Advance(states[p], Day)
            else if p in plan.night then m.Advance(states[p], Night)
            else if p in plan.off then m.Advance(m.PrepareOff(states[p]), Off)
            else states[p]
    {
      ApplyAllAt(m, states, plan.day, Day, p);
      ApplyAllAt(m, s1, plan.night, Night, p);
      PrepareAllAt(m, s2, plan.off, p);
      ApplyAllAt(m, s3, plan.off, Off, p);
    }
  }

  /** A day adds one to the OFF count of each OFF member and nothing to
      anyone else's. */
  lemma DayCounts(m: Machine, team: Team, d: int, states: map<string, State>, counter: map<string, int>)
    requires forall p :: p in team.people ==> p in states && p in counter
    requires NoDup(team.people)
    ensures var r := AllocateDaySpec(m, team, d, states, counter);
      forall p :: p in counter ==> r.offCounter[p] == counter[p] + if p in r.plan.off then 1 else 0
  {
    ExcludeNoDup(team.people, DayPick(m, team, d, states) + NightPick(m, team, d, states));
    var off := OffPick(m, team, d, states);
    forall p | p in counter ensures Tally(counter, off)[p] == counter[p] + if p in off then 1 else 0 {
      TallyAt(counter, off, p);
    }
  }

  /** The number of the given days on which p is OFF. */
  function OffCount(days: seq<DayPlan>, p: string): (n: nat)
    ensures n <= |days|
  {
    if days == [] then 0
    else OffCount(days[..|days| - 1], p) + if p in days[|days| - 1].off then 1 else 0
  }

  /** Every roster member keeps a state and an OFF count through the week. */
  lemma DaysSoFarCovers(m: Machine, team: Team, start: map<string, State>, d: nat)
    requires d <= 7
    requires forall p :: p in team.people ==> p in start
    ensures var r := DaysSoFar(m, team, start, d);
      forall p :: p in team.people ==> p in r.states && p in r.offCounter
  {
    var r := DaysSoFar(m, team, start, d);
    forall p | p in team.people ensures p in r.states && p in r.offCounter {
      assert p in ZeroCounter(team.people);
    }
  }

  /** Day i of a week: numbered i, splitting the roster, each shift within
      the day's target. */
  ghost predicate DayShaped(team: Team, plan: DayPlan, i: int)
  {
    && plan.weekdayIndex == i && SplitsRoster(plan, team.people)
    && |plan.day| <= TargetDailyStaffCount(team, i)
    && |plan.night| <= TargetDailyStaffCount(team, i)
  }

  ghost predicate DaysShaped(team: Team, days: seq<DayPlan>)
  {
    forall i :: 0 <= i < |days| ==> DayShaped(team, days[i], i)
  }

  /** Allocating day e after e well-shaped days gives e + 1 well-shaped days. */
  lemma ShapedStep(m: Machine, team: Team, e: int, prev: WeekProgress, days: seq<DayPlan>)
    requires forall p :: p in team.people ==> p in prev.states && p in prev.offCounter
    requires NoDup(team.people) && |prev.days| == e && DaysShaped(team, prev.days)
    requires days == prev.days + [AllocateDaySpec(m, team, e, prev.states, prev.offCounter).plan]
    ensures DaysShaped(team, days)
  {
    DayPartition(m, team, e, prev.states, prev.offCounter);
    forall i | 0 <= i < |days| ensures DayShaped(team, days[i], i) {
      if i < e {
        assert days[i] == prev.days[i];
      }
    }
  }

  /** Day d - 1 keeps the days so far well shaped. */
  lemma ShapedAt(m: Machine, team: Team, start: map<string, State>, d: nat)
    requires 0 < d <= 7
    requires forall p :: p in team.people ==> p in start
    requires NoDup(team.people) && DaysShaped(team, DaysSoFar(m, team, start, d - 1).days)
    ensures DaysShaped(team, DaysSoFar(m, team, start, d).days)
  {
    DaysSoFarCovers(m, team, start, d - 1);
    ShapedStep(m, team, d - 1, DaysSoFar(m, team, start, d - 1), DaysSoFar(m, team, start, d).days);
  }

  /** The first d days of a week are numbered 0 to d - 1, each splits the
      roster and each is staffed within its target. */
  lemma {:induction false} DaysPartition(m: Machine, team: Team, start: map<string, State>, d: nat)
    requires d <= 7
    requires forall p :: p in team.people ==> p in start
    requires NoDup(team.people)
    ensures var days := DaysSoFar(m, team, start, d).days;
      forall i :: 0 <= i < d ==>
        && days[i].weekdayIndex == i && SplitsRoster(days[i], team.people)
        && |days[i].day| <= TargetDailyStaffCount(team, i)
        && |days[i].night| <= TargetDailyStaffCount(team, i)
  {
    DaysAllShaped(m, team, start, d);
    var days := DaysSoFar(m, team, start, d).days;
    forall i | 0 <= i < d
      ensures && days[i].weekdayIndex == i && SplitsRoster(days[i], team.people)
              && |days[i].day| <= TargetDailyStaffCount(team, i)
              && |days[i].night| <= TargetDailyStaffCount(team, i)
    {
      assert DayShaped(team, days[i], i);
    }
  }

  lemma {:induction false} DaysAllShaped(m: Machine, team: Team, start: map<string, State>, d: nat)
    requires d <= 7
    requires forall p :: p in team.people ==> p in start
    requires NoDup(team.people)
    ensures DaysShaped(team, DaysSoFar(m, team, start, d).days)
    decreases d, 1
  {
    if d > 0 {
      ShapedBelow(m, team, start, d);
      ShapedAt(m, team, start, d);
    }
  }

  lemma ShapedBelow(m: Machine, team: Team, start: map<string, State>, d: nat)
    requires 0 < d <= 7
    requires forall p :: p in team.people ==> p in start
    requires NoDup(team.people)
    ensures DaysShaped(team, DaysSoFar(m, team, start, d - 1).days)
    decreases d, 0
  {
    DaysAllShaped(m, team, start, d - 1);
  }

  /** After the days so far, each roster member's OFF counter is the number
      of those days on which they were OFF. */
  ghost predicate CountsTrack(team: Team, r: WeekProgress)
  {
    forall p :: p in team.people ==> p in r.offCounter && r.offCounter[p] == OffCount(r.days, p)
  }

  /** Appending a day whose OFF list moved the counters by one keeps the
      counters in step with the days. */
  lemma CountsStep(team: Team, prev: WeekProgress, plan: DayPlan, next: WeekProgress)
    requires CountsTrack(team, prev)
    requires forall p :: p in team.people ==> p in prev.offCounter && p in next.offCounter
    requires forall p :: p in prev.offCounter ==> p in next.offCounter && next.offCounter[p] == prev.offCounter[p] + if p in plan.off then 1 else 0
    requires next.days == prev.days + [plan]
    ensures CountsTrack(team, next)
  {
    assert next.days[..|next.days| - 1] == prev.days;
    forall p | p in team.people ensures p in next.offCounter && next.offCounter[p] == OffCount(next.days, p) {
      assert OffCount(next.days, p) == OffCount(prev.days, p) + if p in plan.off then 1 else 0;
    }
  }

  lemma CountsNext(m: Machine, team: Team, start: map<string, State>, e: nat, prev: WeekProgress, next: WeekProgress)
    requires e < 7
    requires forall p :: p in team.people ==> p in start
    requires prev == DaysSoFar(m, team, start, e) && next == DaysSoFar(m, team, start, e + 1)
    requires NoDup(team.people) && CountsTrack(team, prev)
    ensures CountsTrack(team, next)
  {
    DaysSoFarCovers(m, team, start, e);
    DayCounts(m, team, e, prev.states, prev.offCounter);
    CountsStep(team, prev, AllocateDaySpec(m, team, e, prev.states, prev.offCounter).plan, next);
  }

  /** Within a week the OFF counter holds, for each person, the number of
      days so far on which that person was OFF. */
  lemma {:induction false} DaysOffCounts(m: Machine, team: Team, start: map<string, State>, d: nat)
    requires d <= 7
    requires forall p :: p in team.people ==> p in start
    requires NoDup(team.people)
    ensures CountsTrack(team, DaysSoFar(m, team, start, d))
  {
    if d > 0 {
      DaysOffCounts(m, team, start, d - 1);
      CountsNext(m, team, start, d - 1, DaysSoFar(m, team, start, d - 1), DaysSoFar(m, team, start, d));
    } else {
      forall p | p in team.people ensures p in ZeroCounter(team.people) && ZeroCounter(team.people)[p] == 0 {
        assert p in ZeroCounter(team.people);
      }
    }
  }

  /** The weekly check fails exactly when some person's OFF count over the
      seven days is outside [min_days_off, max_days_off], and then names such
      a person with that count; a week that passes is numbered, holds seven
      days numbered 0 to 6 that split the roster, and keeps every count within
      the bounds. */
  lemma WeekValidation(m: Machine, team: Team, start: map<string, State>, w: int)
    requires forall p :: p in team.people ==> p in start
    requires NoDup(team.people)
    ensures var days := DaysSoFar(m, team, start, 7).days;
      var r := WeekSpec(m, team, start, w);
      && (r.Err? <==> exists p :: p in team.people && (OffCount(days, p) < m.MinDaysOff() || OffCount(days, p) > m.MaxDaysOff()))
      && (r.Err? ==> r.error.person in team.people && r.error.offDays == OffCount(days, r.error.person)
                     && (r.error.offDays < m.MinDaysOff() || r.error.offDays > m.MaxDaysOff()))
      && (r.Ok? ==> r.value.plan == WeekPlan(w, days) && |days| == 7
                    && (forall i :: 0 <= i < 7 ==> days[i].weekdayIndex == i && SplitsRoster(days[i], team.people))
                    && (forall p :: p in team.people ==> m.MinDaysOff() <= OffCount(days, p) <= m.MaxDaysOff()))
  {
    var progress := DaysSoFar(m, team, start, 7);
    DaysAllShaped(m, team, start, 7);
    DaysOffCounts(m, team, start, 7);
    var lo, hi := m.MinDaysOff(), m.MaxDaysOff();
    CheckOf(m, team, progress, w, FirstViolation(team.people, progress.offCounter, lo, hi), WeekSpec(m, team, start, w));
  }

  /** The weekly check on a finished week, stated on its parts. */
  lemma CheckOf(m: Machine, team: Team, progress: WeekProgress, w: int, v: Option<Violation>, r: Result<WeekOutcome, Violation>)
    requires |progress.days| == 7 && DaysShaped(team, progress.days) && CountsTrack(team, progress)
    requires v == FirstViolation(team.people, progress.offCounter, m.MinDaysOff(), m.MaxDaysOff())
    requires r == match v case Some(e) => Err(e) case None => Ok(WeekOutcome(progress.states, WeekPlan(w, progress.days)))
    ensures var days := progress.days;
      && (r.Err? <==> exists p :: p in team.people && (OffCount(days, p) < m.MinDaysOff() || OffCount(days, p) > m.MaxDaysOff()))
      && (r.Err? ==> r.error.person in team.people && r.error.offDays == OffCount(days, r.error.person)
                     && (r.error.offDays < m.MinDaysOff() || r.error.offDays > m.MaxDaysOff()))
      && (r.Ok? ==> r.value.plan == WeekPlan(w, days) && |days| == 7
                    && (forall i :: 0 <= i < 7 ==> days[i].weekdayIndex == i && SplitsRoster(days[i], team.people))
                    && (forall p :: p in team.people ==> m.MinDaysOff() <= OffCount(days, p) <= m.MaxDaysOff()))
  {
    var days := progress.days;
    if r.Ok? {
      forall i | 0 <= i < 7 ensures days[i].weekdayIndex == i && SplitsRoster(days[i], team.people) {
        assert DayShaped(team, days[i], i);
      }
    }
  }

  /** A week that passes the check, as the pattern records it: numbered,
      seven days that split the roster with each shift within the day's
      target, and every OFF count within bounds. */
  ghost predicate GoodWeek(m: Machine, team: Team, week: WeekPlan, w: int)
  {
    && week.weekIndex == w && |week.days| == 7
    && (forall i :: 0 <= i < 7 ==>
          && week.days[i].weekdayIndex == i && SplitsRoster(week.days[i], team.people)
          && |week.days[i].day| <= TargetDailyStaffCount(team, i)
          && |week.days[i].night| <= TargetDailyStaffCount(team, i))
    && (forall p :: p in team.people ==> m.MinDaysOff() <= OffCount(week.days, p) <= m.MaxDaysOff())
  }

  /** A week that validates is a good week. */
  lemma WeekGood(m: Machine, team: Team, start: map<string, State>, w: int)
    requires forall p :: p in team.people ==> p in start
    requires NoDup(team.people)
    ensures var r := WeekSpec(m, team, start, w);
      r.Ok? ==> GoodWeek(m, team, r.value.plan, w)
  {
    WeekValidation(m, team, start, w);
    DaysPartition(m, team, start, 7);
  }

  /** Every week of ws is good, numbered by its position. */
  ghost predicate GoodWeeks(m: Machine, team: Team, ws: seq<WeekPlan>)
  {
    forall w :: 0 <= w < |ws| ==> GoodWeek(m, team, ws[w], w)
  }

  lemma GoodWeeksAppend(m: Machine, team: Team, ws: seq<WeekPlan>, week: WeekPlan, ws': seq<WeekPlan>)
    requires GoodWeeks(m, team, ws) && GoodWeek(m, team, week, |ws|)
    requires ws' == ws + [week]
    ensures GoodWeeks(m, team, ws')
  {
    forall w | 0 <= w < |ws'| ensures GoodWeek(m, team, ws'[w], w) {
      if w < |ws| {
        assert ws'[w] == ws[w];
      }
    }
  }

  /** An allocation that succeeds returns exactly the requested number of
      weeks, numbered from 0, each with seven days numbered 0 to 6 that split
      the roster, and each keeping every OFF count within the bounds. */
  lemma AllocWeeks(m: Machine, team: Team, n: nat)
    requires NoDup(team.people)
    ensures var r := Alloc(m, team, n);
      r.Ok? ==> |r.value| == n && forall w :: 0 <= w < n ==> GoodWeek(m, team, r.value[w], w)
  {
    RunWeeks(m, team, n);
  }

  lemma {:induction false} RunWeeks(m: Machine, team: Team, n: nat)
    requires NoDup(team.people)
    ensures Run(m, team, n).Running? ==> GoodWeeks(m, team, Run(m, team, n).weeks)
    decreases n, 1
  {
    if n > 0 && Run(m, team, n).Running? {
      RunLast(m, team, n);
      WeeksBefore(m, team, n);
      var prev := Run(m, team, n - 1);
      WeekGood(m, team, prev.states, n - 1);
      GoodWeeksAppend(m, team, prev.weeks, WeekSpec(m, team, prev.states, n - 1).value.plan, Run(m, team, n).weeks);
    }
  }

  lemma WeeksBefore(m: Machine, team: Team, n: nat)
    requires n > 0 && NoDup(team.people)
    ensures Run(m, team, n - 1).Running? ==> GoodWeeks(m, team, Run(m, team, n - 1).weeks)
    decreases n, 0
  {
    RunWeeks(m, team, n - 1);
  }

  /** An attempt running after n > 0 weeks was running after n - 1 and
      appended one validated week. */
  lemma RunLast(m: Machine, team: Team, n: nat)
    requires n > 0 && Run(m, team, n).Running?
    ensures Run(m, team, n - 1).Running? && (forall p :: p in team.people ==> p in Run(m, team, n - 1).states)
    ensures WeekSpec(m, team, Run(m, team, n - 1).states, n - 1).Ok?
    ensures Run(m, team, n).weeks == Run(m, team, n - 1).weeks + [WeekSpec(m, team, Run(m, team, n - 1).states, n - 1).value.plan]
    ensures Run(m, team, n).states == WeekSpec(m, team, Run(m, team, n - 1).states, n - 1).value.states
  {
  }

  /** An allocation that fails names a roster member whose OFF count in the
      failing week broke the bounds. */
  lemma AllocFailure(m: Machine, team: Team, n: nat)
    requires NoDup(team.people)
    ensures var r := Alloc(m, team, n);
      r.Err? ==> r.error.person in team.people && (r.error.offDays < m.MinDaysOff() || r.error.offDays > m.MaxDaysOff())
  {
    RunFailure(m, team, n);
  }

  /** The violation names a roster member whose OFF count broke the bounds. */
  ghost predicate OutOfBounds(m: Machine, team: Team, v: Violation)
  {
    v.person in team.people && (v.offDays < m.MinDaysOff() || v.offDays > m.MaxDaysOff())
  }

  lemma {:induction false} RunFailure(m: Machine, team: Team, n: nat)
    requires NoDup(team.people)
    ensures Run(m, team, n).Failed? ==> OutOfBounds(m, team, Run(m, team, n).violation)
  {
    if n > 0 && Run(m, team, n).Failed? {
      var k: nat := n - 1;
      var prev := Run(m, team, k);
      if prev.Running? {
        FailureNew(m, team, n);
        WeekOutOfBounds(m, team, prev.states, k);
      } else {
        FailureKept(m, team, n);
        RunFailure(m, team, k);
      }
    }
  }

  /** An attempt that failed after n > 0 weeks either had failed already,
      with the same violation, ... */
  lemma FailureKept(m: Machine, team: Team, n: nat)
    requires n > 0 && Run(m, team, n - 1).Failed?
    ensures Run(m, team, n) == Run(m, team, n - 1)
  {
  }

  /** ... or failed on week n - 1 with that week's violation. */
  lemma FailureNew(m: Machine, team: Team, n: nat)
    requires n > 0 && Run(m, team, n).Failed? && Run(m, team, n - 1).Running?
    ensures forall p :: p in team.people ==> p in Run(m, team, n - 1).states
    ensures WeekSpec(m, team, Run(m, team, n - 1).states, n - 1).Err?
    ensures Run(m, team, n).violation == WeekSpec(m, team, Run(m, team, n - 1).states, n - 1).error
  {
  }

  lemma WeekOutOfBounds(m: Machine, team: Team, start: map<string, State>, w: int)
    requires forall p :: p in team.people ==> p in start
    requires NoDup(team.people)
    ensures WeekSpec(m, team, start, w).Err? ==> OutOfBounds(m, team, WeekSpec(m, team, start, w).error)
  {
    WeekValidation(m, team, start, w);
  }
}
