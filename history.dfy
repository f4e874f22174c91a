/** Guarantees about the whole pattern read as one sequence of days. The
    allocator keeps one state per person for the whole attempt, so the rules
    hold across week boundaries too: no DAY right after a NIGHT, no run of
    shifts longer than the caps, and (current engine) the rest days after a
    night streak. The link is that each state records the person's history:
    the last assignment, the trailing same-type run, the trailing working
    run and the cooldown still to serve. */
module History {
  import opened Shifts
  import opened StateMachines
  import opened Scheduling
  import opened SchedulingProofs
  import Models
  import LegacyModels

  /** The assignment a day gives p: OFF for anyone on neither shift list. */
  function AssignmentOf(plan: DayPlan, p: string): Assignment
  {
    if p in plan.day then Day else if p in plan.night then Night else Off
  }

  /** The number of trailing days of h on which p had assignment a. */
  function Trailing(h: seq<DayPlan>, p: string, a: Assignment): (n: nat)
    ensures n <= |h|
  {
    if h == [] then 0
    else if AssignmentOf(h[|h| - 1], p) == a then Trailing(h[..|h| - 1], p, a) + 1
    else 0
  }

  /** The number of trailing days of h on which p worked (DAY or NIGHT). */
  function TrailingWork(h: seq<DayPlan>, p: string): (n: nat)
    ensures n <= |h|
  {
    if h == [] then 0
    else if AssignmentOf(h[|h| - 1], p) != Off then TrailingWork(h[..|h| - 1], p) + 1
    else 0
  }

  /** The cooldown p still has to serve after h: K - j when h ends with j >= 1
      OFF days right after a NIGHT (never below zero), and none otherwise. */
  function ExpectedCooldown(h: seq<DayPlan>, p: string, k: int): int
  {
    var j := Trailing(h, p, Off);
    if 1 <= j < |h| && AssignmentOf(h[|h| - 1 - j], p) == Night then
      (if k - j > 0 then k - j else 0)
    else 0
  }

  /** The streak fields of s describe p's history h. */
  predicate StreakTracks(s: State, h: seq<DayPlan>, p: string)
  {
    if h == [] then s.lastAssignment == None && s.streakType == None
    else
      var a := AssignmentOf(h[|h| - 1], p);
      s.lastAssignment == Some(a) && s.streakType == Some(a) && s.streakLen == Trailing(h, p, a)
  }

  /** s describes p's history h: the streak fields always, and in the current
      engine the working streak and the cooldown too. */
  predicate Tracks(m: Machine, s: State, h: seq<DayPlan>, p: string)
  {
    && StreakTracks(s, h, p)
    && (m.Unified? ==>
          s.workingStreakLen == TrailingWork(h, p)
          && s.nightCooldownRemaining == ExpectedCooldown(h, p, m.rules.minDaysOffAfterNightStreak))
  }

  /** A person's state after a day that gave them a: one update for a shift,
      or the cooldown pre-set and one OFF update. */
  function Settle(m: Machine, s: State, a: Assignment): State
  {
    if a == Off then m.Advance(m.PrepareOff(s), Off) else m.Advance(s, a)
  }

  /** The fresh state describes the empty history. */
  lemma TracksFresh(m: Machine, p: string)
    ensures Tracks(m, FreshState(), [], p)
  {
  }

  lemma AppendAssoc(h: seq<DayPlan>, days: seq<DayPlan>, plan: DayPlan)
    ensures h + (days + [plan]) == (h + days) + [plan]
  {
  }

  lemma AppendLast(h: seq<DayPlan>, plan: DayPlan)
    ensures (h + [plan])[..|h|] == h && (h + [plan])[|h|] == plan
  {
  }

  /** One day moves the streak fields along with the history. */
  lemma StreakStep(m: Machine, s: State, h: seq<DayPlan>, p: string, plan: DayPlan)
    requires StreakTracks(s, h, p)
    ensures StreakTracks(Settle(m, s, AssignmentOf(plan, p)), h + [plan], p)
  {
    AppendLast(h, plan);
  }

  /** One day moves the working streak along with the history. */
  lemma WorkStep(r: Models.Rules, s: State, h: seq<DayPlan>, p: string, plan: DayPlan)
    requires s.workingStreakLen == TrailingWork(h, p)
    ensures Settle(Unified(r), s, AssignmentOf(plan, p)).workingStreakLen == TrailingWork(h + [plan], p)
  {
    AppendLast(h, plan);
  }

  /** One day moves the cooldown along with the history, for a person who
      works only when eligible: a shift needs a cooldown of zero and keeps
      it; the first OFF after a NIGHT arms K and serves one day of it; every
      later OFF serves one more. */
  lemma CooldownStep(r: Models.Rules, s: State, h: seq<DayPlan>, p: string, plan: DayPlan)
    requires r.minDaysOffAfterNightStreak >= 0
    requires StreakTracks(s, h, p)
    requires s.nightCooldownRemaining == ExpectedCooldown(h, p, r.minDaysOffAfterNightStreak)
    requires AssignmentOf(plan, p) == Off || Models.CanAssign(s, AssignmentOf(plan, p), r)
    ensures Settle(Unified(r), s, AssignmentOf(plan, p)).nightCooldownRemaining
            == ExpectedCooldown(h + [plan], p, r.minDaysOffAfterNightStreak)
  {
    var k := r.minDaysOffAfterNightStreak;
    var a := AssignmentOf(plan, p);
    var h' := h + [plan];
    AppendLast(h, plan);
    var j := Trailing(h, p, Off);
    if a == Off {
      PresetIsRedundant(s, r);
      assert Trailing(h', p, Off) == j + 1;
      if j < |h| {
        assert h'[|h'| - 1 - (j + 1)] == h[|h| - 1 - j];
      }
    } else {
      assert Trailing(h', p, Off) == 0;
    }
  }

  /** One day keeps the whole record in step with the history. */
  lemma TracksStep(m: Machine, s: State, h: seq<DayPlan>, p: string, plan: DayPlan)
    requires m.RulesOk() && Tracks(m, s, h, p)
    requires AssignmentOf(plan, p) == Off || m.Eligible(s, AssignmentOf(plan, p))
    ensures Tracks(m, Settle(m, s, AssignmentOf(plan, p)), h + [plan], p)
  {
    StreakStep(m, s, h, p, plan);
    if m.Unified? {
      WorkStep(m.rules, s, h, p, plan);
      CooldownStep(m.rules, s, h, p, plan);
    }
  }

  /** The streak caps, read off the history: the trailing working run within
      max_shifts_in_row (current engine), or the trailing DAY and NIGHT runs
      within their caps (legacy engine). */
  predicate CapOk(m: Machine, h: seq<DayPlan>, p: string)
  {
    match m
    case Unified(r) => TrailingWork(h, p) <= r.maxShiftsInRow
    case PerType(r) => Trailing(h, p, Day) <= r.maxDayInRow && Trailing(h, p, Night) <= r.maxNightInRow
  }

  /** A state within its engine's invariant that records h shows the caps
      hold on h. */
  lemma CapFromState(m: Machine, s: State, h: seq<DayPlan>, p: string)
    requires m.RulesOk() && m.StateOk(s) && Tracks(m, s, h, p)
    ensures CapOk(m, h, p)
  {
  }

  /** Every roster member's state is present, within its engine's invariant
      and records that member's history h. */
  ghost predicate Consistent(m: Machine, team: Team, states: map<string, State>, h: seq<DayPlan>)
  {
    forall p {:trigger PersonConsistent(m, states, h, p)} :: p in team.people ==> PersonConsistent(m, states, h, p)
  }

  /** p's state is present, within its engine's invariant and records h. */
  predicate PersonConsistent(m: Machine, states: map<string, State>, h: seq<DayPlan>, p: string)
  {
    p in states && Tracks(m, states[p], h, p) && m.StateOk(states[p])
  }

  /** Everyone on a NIGHT list is on the roster and not on that day's DAY list. */
  ghost predicate NightListsOk(team: Team, h: seq<DayPlan>)
  {
    forall i, p :: 0 <= i < |h| && p in h[i].night ==> p in team.people && p !in h[i].day
  }

  /** With the rule on, nobody works DAY on the day after a NIGHT. */
  ghost predicate NoDayAfterNightIn(m: Machine, team: Team, h: seq<DayPlan>)
  {
    m.NoDayAfterNight() ==>
      forall i, p :: 1 <= i < |h| && p in team.people && AssignmentOf(h[i - 1], p) == Night ==> AssignmentOf(h[i], p) != Day
  }

  /** The caps hold after every day of h. */
  ghost predicate CapsIn(m: Machine, team: Team, h: seq<DayPlan>)
  {
    forall i, p :: 0 <= i <= |h| && p in team.people ==> CapOk(m, h[..i], p)
  }

  /** Current engine: a NIGHT followed by an OFF is followed by OFF days up to
      K days after the NIGHT (min_days_off_after_night_streak). */
  ghost predicate RestIn(m: Machine, team: Team, h: seq<DayPlan>)
  {
    m.Unified? ==>
      forall t, u, p :: 0 <= t < u < |h| && u - t <= m.rules.minDaysOffAfterNightStreak && p in team.people
                        && AssignmentOf(h[t], p) == Night && AssignmentOf(h[t + 1], p) == Off
                        ==> AssignmentOf(h[u], p) == Off
  }

  ghost predicate HistoryOk(m: Machine, team: Team, h: seq<DayPlan>)
  {
    NightListsOk(team, h) && NoDayAfterNightIn(m, team, h) && CapsIn(m, team, h) && RestIn(m, team, h)
  }

  /** The state after one day is Settle of the morning state, for everyone on
      the roster. */
  lemma DaySettles(m: Machine, team: Team, d: int, states: map<string, State>, counter: map<string, int>)
    requires forall p :: p in team.people ==> p in states && p in counter
    requires NoDup(team.people)
    ensures var r := AllocateDaySpec(m, team, d, states, counter);
      && (forall p :: p in r.plan.night ==> p in team.people && p !in r.plan.day)
      && (forall p :: p in team.people ==> r.states[p] == Settle(m, states[p], AssignmentOf(r.plan, p)))
  {
    DayPartition(m, team, d, states, counter);
    DayStates(m, team, d, states, counter);
  }

  /** Settling one person's state on a day they could be given keeps that
      person consistent with the history extended by the day. */
  lemma PersonSettles(m: Machine, states: map<string, State>, h: seq<DayPlan>, p: string, plan: DayPlan, next: map<string, State>)
    requires m.RulesOk() && PersonConsistent(m, states, h, p)
    requires AssignmentOf(plan, p) == Off || m.Eligible(states[p], AssignmentOf(plan, p))
    requires p in next && next[p] == Settle(m, states[p], AssignmentOf(plan, p))
    ensures PersonConsistent(m, next, h + [plan], p)
  {
    TracksStep(m, states[p], h, p, plan);
    AdvanceKeepsStateOk(m, states[p], AssignmentOf(plan, p));
    AdvanceKeepsStateOk(m, m.PrepareOff(states[p]), Off);
  }

  /** One day of the allocator keeps every roster member's state in step with
      the history and within its engine's invariant, and the day it adds
      respects the day-after-night rule and the post-night cooldown. */
  lemma DayKeepsConsistent(m: Machine, team: Team, d: int, states: map<string, State>, counter: map<string, int>, h: seq<DayPlan>)
    requires forall p :: p in team.people ==> p in states && p in counter
    requires NoDup(team.people) && m.RulesOk() && Consistent(m, team, states, h)
    ensures var r := AllocateDaySpec(m, team, d, states, counter);
      && Consistent(m, team, r.states, h + [r.plan])
      && (h != [] && m.NoDayAfterNight() ==>
            forall p :: p in team.people && AssignmentOf(h[|h| - 1], p) == Night ==> AssignmentOf(r.plan, p) != Day)
      && (m.Unified? ==>
            forall p :: p in team.people && ExpectedCooldown(h, p, m.rules.minDaysOffAfterNightStreak) > 0 ==>
              AssignmentOf(r.plan, p) == Off)
  {
    DayStaysConsistent(m, team, d, states, counter, h);
    DayNotAfterNight(m, team, d, states, counter, h);
    DayCooldownOff(m, team, d, states, counter, h);
  }

  lemma DayStaysConsistent(m: Machine, team: Team, d: int, states: map<string, State>, counter: map<string, int>, h: seq<DayPlan>)
    requires forall p :: p in team.people ==> p in states && p in counter
    requires NoDup(team.people) && m.RulesOk() && Consistent(m, team, states, h)
    ensures var r := AllocateDaySpec(m, team, d, states, counter);
      Consistent(m, team, r.states, h + [r.plan])
  {
    var r := AllocateDaySpec(m, team, d, states, counter);
    DaySettles(m, team, d, states, counter);
    DayChoice(m, team, d, states, counter);
    NightChoice(m, team, d, states, counter);
    forall p | p in team.people ensures PersonConsistent(m, r.states, h + [r.plan], p) {
      assert PersonConsistent(m, states, h, p);
      PersonSettles(m, states, h, p, r.plan, r.states);
    }
  }

  lemma DayNotAfterNight(m: Machine, team: Team, d: int, states: map<string, State>, counter: map<string, int>, h: seq<DayPlan>)
    requires forall p :: p in team.people ==> p in states && p in counter
    requires NoDup(team.people) && Consistent(m, team, states, h)
    ensures h != [] && m.NoDayAfterNight() ==>
      forall p :: p in team.people && AssignmentOf(h[|h| - 1], p) == Night ==>
        AssignmentOf(AllocateDaySpec(m, team, d, states, counter).plan, p) != Day
  {
    var r := AllocateDaySpec(m, team, d, states, counter);
    DayChoice(m, team, d, states, counter);
    if h != [] && m.NoDayAfterNight() {
      forall p | p in team.people && AssignmentOf(h[|h| - 1], p) == Night ensures AssignmentOf(r.plan, p) != Day {
        if p in r.plan.day {
          assert PersonConsistent(m, states, h, p);
          DayEligibleNotAfterNight(m, states[p]);
        }
      }
    }
  }

  lemma DayCooldownOff(m: Machine, team: Team, d: int, states: map<string, State>, counter: map<string, int>, h: seq<DayPlan>)
    requires forall p :: p in team.people ==> p in states && p in counter
    requires NoDup(team.people) && Consistent(m, team, states, h)
    ensures m.Unified? ==>
      forall p :: p in team.people && ExpectedCooldown(h, p, m.rules.minDaysOffAfterNightStreak) > 0 ==>
        AssignmentOf(AllocateDaySpec(m, team, d, states, counter).plan, p) == Off
  {
    var r := AllocateDaySpec(m, team, d, states, counter);
    DayChoice(m, team, d, states, counter);
    NightChoice(m, team, d, states, counter);
    if m.Unified? {
      forall p | p in team.people && ExpectedCooldown(h, p, m.rules.minDaysOffAfterNightStreak) > 0
        ensures AssignmentOf(r.plan, p) == Off
      {
        assert PersonConsistent(m, states, h, p);
      }
    }
  }

  /** The last days of h being the first day of a trailing run. */
  lemma {:induction false} TrailingExact(h: seq<DayPlan>, p: string, t: int)
    requires 0 <= t < |h| && AssignmentOf(h[t], p) != Off
    requires forall u :: t < u < |h| ==> AssignmentOf(h[u], p) == Off
    ensures Trailing(h, p, Off) == |h| - 1 - t
    decreases |h|
  {
    if t < |h| - 1 {
      var init := h[..|h| - 1];
      assert forall u :: t < u < |init| ==> init[u] == h[u];
      TrailingExact(init, p, t);
    }
  }

  lemma NightListsAppend(team: Team, h: seq<DayPlan>, plan: DayPlan)
    requires NightListsOk(team, h)
    requires forall p :: p in plan.night ==> p in team.people && p !in plan.day
    ensures NightListsOk(team, h + [plan])
  {
    AppendLast(h, plan);
    forall i, p | 0 <= i < |h| + 1 && p in (h + [plan])[i].night
      ensures p in team.people && p !in (h + [plan])[i].day
    {
      if i < |h| {
        assert (h + [plan])[i] == h[i];
      }
    }
  }

  lemma NoDayAfterNightAppend(m: Machine, team: Team, h: seq<DayPlan>, plan: DayPlan)
    requires NoDayAfterNightIn(m, team, h)
    requires h != [] && m.NoDayAfterNight() ==>
      forall p :: p in team.people && AssignmentOf(h[|h| - 1], p) == Night ==> AssignmentOf(plan, p) != Day
    ensures NoDayAfterNightIn(m, team, h + [plan])
  {
    AppendLast(h, plan);
    if m.NoDayAfterNight() {
      var h' := h + [plan];
      forall i, p | 1 <= i < |h'| && p in team.people && AssignmentOf(h'[i - 1], p) == Night
        ensures AssignmentOf(h'[i], p) != Day
      {
        assert h'[i - 1] == h[i - 1];
        if i < |h| {
          assert h'[i] == h[i];
        }
      }
    }
  }

  lemma CapsAppend(m: Machine, team: Team, h: seq<DayPlan>, plan: DayPlan)
    requires CapsIn(m, team, h)
    requires forall p :: p in team.people ==> CapOk(m, h + [plan], p)
    ensures CapsIn(m, team, h + [plan])
  {
    var h' := h + [plan];
    forall i, p | 0 <= i <= |h'| && p in team.people ensures CapOk(m, h'[..i], p) {
      if i <= |h| {
        assert h'[..i] == h[..i];
      } else {
        assert h'[..i] == h';
      }
    }
  }

  lemma RestAppend(m: Machine, team: Team, h: seq<DayPlan>, plan: DayPlan)
    requires RestIn(m, team, h)
    requires m.Unified? ==>
      forall p :: p in team.people && ExpectedCooldown(h, p, m.rules.minDaysOffAfterNightStreak) > 0 ==>
        AssignmentOf(plan, p) == Off
    ensures RestIn(m, team, h + [plan])
  {
    if m.Unified? {
      var h' := h + [plan];
      forall t, u, p | 0 <= t < u < |h'| && u - t <= m.rules.minDaysOffAfterNightStreak && p in team.people
                       && AssignmentOf(h'[t], p) == Night && AssignmentOf(h'[t + 1], p) == Off
        ensures AssignmentOf(h'[u], p) == Off
      {
        RestAt(m, team, h, plan, t, u, p);
      }
    }
  }

  /** One rest obligation of the extended history. */
  lemma RestAt(m: Machine, team: Team, h: seq<DayPlan>, plan: DayPlan, t: int, u: int, p: string)
    requires m.Unified? && RestIn(m, team, h) && p in team.people
    requires ExpectedCooldown(h, p, m.rules.minDaysOffAfterNightStreak) > 0 ==> AssignmentOf(plan, p) == Off
    requires 0 <= t < u <= |h| && u - t <= m.rules.minDaysOffAfterNightStreak
    requires AssignmentOf((h + [plan])[t], p) == Night && AssignmentOf((h + [plan])[t + 1], p) == Off
    ensures AssignmentOf((h + [plan])[u], p) == Off
  {
    var k := m.rules.minDaysOffAfterNightStreak;
    var h' := h + [plan];
    AppendLast(h, plan);
    assert h'[t] == h[t];
    if u < |h| {
      assert h'[t + 1] == h[t + 1] && h'[u] == h[u];
    } else if t + 1 < |h| {
      assert h'[t + 1] == h[t + 1];
      forall v | t < v < |h| ensures AssignmentOf(h[v], p) == Off {
        assert AssignmentOf(h[t + 1], p) == Off;
      }
      TrailingExact(h, p, t);
      assert ExpectedCooldown(h, p, k) == k - (|h| - 1 - t);
    }
  }

  /** One day extends a consistent history to a consistent history. */
  lemma DayKeepsHistory(m: Machine, team: Team, d: int, states: map<string, State>, counter: map<string, int>, h: seq<DayPlan>)
    requires forall p :: p in team.people ==> p in states && p in counter
    requires NoDup(team.people) && m.RulesOk() && Consistent(m, team, states, h) && HistoryOk(m, team, h)
    ensures var r := AllocateDaySpec(m, team, d, states, counter);
      Consistent(m, team, r.states, h + [r.plan]) && HistoryOk(m, team, h + [r.plan])
  {
    var r := AllocateDaySpec(m, team, d, states, counter);
    DaySettles(m, team, d, states, counter);
    DayKeepsConsistent(m, team, d, states, counter, h);
    NightListsAppend(team, h, r.plan);
    NoDayAfterNightAppend(m, team, h, r.plan);
    forall p | p in team.people ensures CapOk(m, h + [r.plan], p) {
      assert PersonConsistent(m, r.states, h + [r.plan], p);
      CapFromState(m, r.states[p], h + [r.plan], p);
    }
    CapsAppend(m, team, h, r.plan);
    RestAppend(m, team, h, r.plan);
  }

  lemma HistoryRewrite(m: Machine, team: Team, s1: map<string, State>, h1: seq<DayPlan>, s2: map<string, State>, h2: seq<DayPlan>)
    requires s1 == s2 && h1 == h2
    requires Consistent(m, team, s1, h1) && HistoryOk(m, team, h1)
    ensures Consistent(m, team, s2, h2) && HistoryOk(m, team, h2)
  {
  }

  /** One more day extends the history of the days before it. */
  lemma ProgressStep(m: Machine, team: Team, d: int, prev: WeekProgress, day: DayResult, h: seq<DayPlan>, next: WeekProgress)
    requires forall p :: p in team.people ==> p in prev.states && p in prev.offCounter
    requires NoDup(team.people) && m.RulesOk()
    requires Consistent(m, team, prev.states, h + prev.days) && HistoryOk(m, team, h + prev.days)
    requires day == AllocateDaySpec(m, team, d, prev.states, prev.offCounter)
    requires next.states == day.states && next.days == prev.days + [day.plan]
    ensures Consistent(m, team, next.states, h + next.days) && HistoryOk(m, team, h + next.days)
  {
    DayKeepsHistory(m, team, d, prev.states, prev.offCounter, h + prev.days);
    AppendAssoc(h, prev.days, day.plan);
    HistoryRewrite(m, team, day.states, (h + prev.days) + [day.plan], next.states, h + next.days);
  }

  /** Day d of a week (the one after day e) extends the history of the days
      before it. */
  lemma DaysStep(m: Machine, team: Team, start: map<string, State>, h: seq<DayPlan>, e: nat, prev: WeekProgress, next: WeekProgress)
    requires e < 7
    requires forall p :: p in team.people ==> p in start
    requires prev == DaysSoFar(m, team, start, e) && next == DaysSoFar(m, team, start, e + 1)
    requires NoDup(team.people) && m.RulesOk()
    requires Consistent(m, team, prev.states, h + prev.days) && HistoryOk(m, team, h + prev.days)
    ensures Consistent(m, team, next.states, h + next.days) && HistoryOk(m, team, h + next.days)
  {
    DaysSoFarCovers(m, team, start, e);
    ProgressStep(m, team, e, prev, AllocateDaySpec(m, team, e, prev.states, prev.offCounter), h, next);
  }

  /** The days of a week extend a consistent history to a consistent
      history. */
  lemma {:induction false} DaysKeepHistory(m: Machine, team: Team, start: map<string, State>, h: seq<DayPlan>, d: nat)
    requires d <= 7
    requires forall p :: p in team.people ==> p in start
    requires NoDup(team.people) && m.RulesOk() && Consistent(m, team, start, h) && HistoryOk(m, team, h)
    ensures Consistent(m, team, DaysSoFar(m, team, start, d).states, h + DaysSoFar(m, team, start, d).days)
    ensures HistoryOk(m, team, h + DaysSoFar(m, team, start, d).days)
  {
    if d > 0 {
      DaysKeepHistory(m, team, start, h, d - 1);
      DaysStep(m, team, start, h, d - 1, DaysSoFar(m, team, start, d - 1), DaysSoFar(m, team, start, d));
    } else {
      assert h + DaysSoFar(m, team, start, 0).days == h;
    }
  }

  /** The pattern's weeks as one sequence of days. */
  function Flatten(weeks: seq<WeekPlan>): (h: seq<DayPlan>)
  {
    if weeks == [] then [] else Flatten(weeks[..|weeks| - 1]) + weeks[|weeks| - 1].days
  }

  lemma FlattenAppend(weeks: seq<WeekPlan>, week: WeekPlan)
    ensures Flatten(weeks + [week]) == Flatten(weeks) + week.days
  {
    assert (weeks + [week])[..|weeks|] == weeks;
  }

  /** Every running attempt keeps its states in step with the whole history
      of the attempt, week boundaries included. */
  lemma {:induction false} RunKeepsHistory(m: Machine, team: Team, n: nat)
    requires NoDup(team.people) && m.RulesOk()
    ensures Run(m, team, n).Running? ==> Consistent(m, team, Run(m, team, n).states, Flatten(Run(m, team, n).weeks))
    ensures Run(m, team, n).Running? ==> HistoryOk(m, team, Flatten(Run(m, team, n).weeks))
    decreases n, 1
  {
    if n == 0 {
      forall p | p in team.people ensures m.StateOk(FreshState()) {
        FreshStateOk(m);
      }
    } else if Run(m, team, n).Running? {
      RunLast(m, team, n);
      var prev := Run(m, team, n - 1);
      PrevKeepsHistory(m, team, n);
      var week := DaysSoFar(m, team, prev.states, 7);
      DaysKeepHistory(m, team, prev.states, Flatten(prev.weeks), 7);
      FlattenAppend(prev.weeks, WeekPlan(n - 1, week.days));
      HistoryRewrite(m, team, week.states, Flatten(prev.weeks) + week.days, Run(m, team, n).states, Flatten(Run(m, team, n).weeks));
    }
  }

  /** RunKeepsHistory for the attempt one week shorter. */
  lemma PrevKeepsHistory(m: Machine, team: Team, n: nat)
    requires n > 0 && NoDup(team.people) && m.RulesOk()
    ensures Run(m, team, n - 1).Running? ==> Consistent(m, team, Run(m, team, n - 1).states, Flatten(Run(m, team, n - 1).weeks))
    ensures Run(m, team, n - 1).Running? ==> HistoryOk(m, team, Flatten(Run(m, team, n - 1).weeks))
    decreases n, 0
  {
    RunKeepsHistory(m, team, n - 1);
  }

  /** The rules hold over the whole pattern an allocation returns: NIGHT
      lists stay off the same day's DAY list; with no_day_after_night set,
      nobody on NIGHT one day is on DAY the next, including from the last day
      of a week to the first day of the next; the streak caps hold after every
      day; and in the current engine a NIGHT followed by an OFF is followed by
      OFF days until min_days_off_after_night_streak days after the NIGHT. */
  lemma AllocHistory(m: Machine, team: Team, n: nat)
    requires NoDup(team.people) && m.RulesOk()
    ensures Alloc(m, team, n).Ok? ==> HistoryOk(m, team, Flatten(Alloc(m, team, n).value))
  {
    RunKeepsHistory(m, team, n);
  }

  /** A run of len days on which p works ending at day e gives a trailing
      working run of at least len. */
  lemma {:induction false} TrailingWorkAtLeast(h: seq<DayPlan>, p: string, len: nat)
    requires len <= |h|
    requires forall j :: |h| - len <= j < |h| ==> AssignmentOf(h[j], p) != Off
    ensures TrailingWork(h, p) >= len
    decreases len
  {
    if len > 0 {
      var init := h[..|h| - 1];
      assert forall j :: |init| - (len - 1) <= j < |init| ==> init[j] == h[j];
      TrailingWorkAtLeast(init, p, len - 1);
    }
  }

  /** A run of len days on which p has assignment a gives a trailing run of a
      of at least len. */
  lemma {:induction false} TrailingAtLeast(h: seq<DayPlan>, p: string, a: Assignment, len: nat)
    requires len <= |h|
    requires forall j :: |h| - len <= j < |h| ==> AssignmentOf(h[j], p) == a
    ensures Trailing(h, p, a) >= len
    decreases len
  {
    if len > 0 {
      var init := h[..|h| - 1];
      assert forall j :: |init| - (len - 1) <= j < |init| ==> init[j] == h[j];
      TrailingAtLeast(init, p, a, len - 1);
    }
  }

  /** Current engine: in the pattern an allocation returns, nobody on the
      roster works more than max_shifts_in_row days in a row. */
  lemma AllocWorkStreak(r: Models.Rules, team: Team, n: nat, p: string, start: nat, len: nat)
    requires NoDup(team.people) && Unified(r).RulesOk() && p in team.people
    requires Alloc(Unified(r), team, n).Ok?
    requires var h := Flatten(Alloc(Unified(r), team, n).value);
      start + len <= |h| && forall j :: start <= j < start + len ==> AssignmentOf(h[j], p) != Off
    ensures len <= r.maxShiftsInRow
  {
    var h := Flatten(Alloc(Unified(r), team, n).value);
    AllocHistory(Unified(r), team, n);
    var prefix := h[..start + len];
    assert CapOk(Unified(r), prefix, p);
    assert forall j :: |prefix| - len <= j < |prefix| ==> prefix[j] == h[j];
    TrailingWorkAtLeast(prefix, p, len);
  }

  /** Legacy engine: in the pattern an allocation returns, nobody on the
      roster works more than max_day_in_row DAYs or max_night_in_row NIGHTs
      in a row. */
  lemma AllocTypeStreak(r: LegacyModels.Rules, team: Team, n: nat, p: string, a: Assignment, start: nat, len: nat)
    requires NoDup(team.people) && PerType(r).RulesOk() && p in team.people && a != Off
    requires Alloc(PerType(r), team, n).Ok?
    requires var h := Flatten(Alloc(PerType(r), team, n).value);
      start + len <= |h| && forall j :: start <= j < start + len ==> AssignmentOf(h[j], p) == a
    ensures len <= if a == Day then r.maxDayInRow else r.maxNightInRow
  {
    var h := Flatten(Alloc(PerType(r), team, n).value);
    AllocHistory(PerType(r), team, n);
    var prefix := h[..start + len];
    assert CapOk(PerType(r), prefix, p);
    assert forall j :: |prefix| - len <= j < |prefix| ==> prefix[j] == h[j];
    TrailingAtLeast(prefix, p, a, len);
  }
}
