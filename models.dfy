/** The current per-person state machine (src/models.py): the rules it reads,
    the eligibility test `can_assign`, the state update `apply` as a pure step
    on a State value, and the PersonState record whose `Apply` method performs
    that update in place. */
module Models {
  import opened Shifts

  /** The fields of RulesConfig that the allocator and validator read. */
  datatype Rules = Rules(
    maxShiftsInRow: int,
    maxDaysOff: int,
    minDaysOff: int,
    noDayAfterNight: bool,
    fridayShift2PriorityNames: seq<string>,
    minDaysOffAfterNightStreak: int,
    targetWeeklyHoursMin: int,
    targetWeeklyHoursMax: int,
    enableAutoAdjust: bool)

  /** `PersonState.can_assign`: OFF is always allowed; DAY and NIGHT are refused
      during a post-night cooldown and once the unified working streak has
      reached the cap; DAY is refused right after a NIGHT when the
      day-after-night rule is on. */
  predicate CanAssign(s: State, a: Assignment, r: Rules): (ok: bool)
    ensures a == Off ==> ok
    ensures ok && a != Off ==> s.nightCooldownRemaining <= 0 && s.workingStreakLen < r.maxShiftsInRow
    ensures ok && a == Day && r.noDayAfterNight ==> s.lastAssignment != Some(Night)
  {
    if s.nightCooldownRemaining > 0 && a != Off then false
    else if a != Off && s.workingStreakLen >= r.maxShiftsInRow then false
    else if a == Day && r.noDayAfterNight && s.lastAssignment == Some(Night) then false
    else true
  }

  /** The cooldown after the update, given the new previous assignment: armed
      on the NIGHT-to-OFF edge when it is zero, then counted down on OFF. */
  function NextCooldown(cooldown: int, a: Assignment, previous: Option<Assignment>, k: int): int
  {
    var armed := if a == Off && previous == Some(Night) && cooldown == 0 then k else cooldown;
    if a == Off && armed > 0 then armed - 1 else armed
  }

  /** `PersonState.apply(a, rules)` as a function of the old state. */
  function Step(s: State, a: Assignment, rules: Option<Rules>): (r: State)
    ensures r.lastAssignment == Some(a) && r.streakType == Some(a) && r.previousAssignment == s.lastAssignment
    ensures r.workingStreakLen == if a == Off then 0 else s.workingStreakLen + 1
    ensures rules.None? ==> r.nightCooldownRemaining == s.nightCooldownRemaining
  {
    var previous := s.lastAssignment;
    var (streakType, streakLen) :=
      if s.streakType == Some(a) then (s.streakType, s.streakLen + 1) else (Some(a), 1);
    var working := if a != Off then s.workingStreakLen + 1 else 0;
    var cooldown :=
      if rules.Some? then NextCooldown(s.nightCooldownRemaining, a, previous, rules.value.minDaysOffAfterNightStreak)
      else s.nightCooldownRemaining;
    State(Some(a), streakLen, Some(a), cooldown, working, previous)
  }

  /** The mutable PersonState record of one person. */
  class PersonState {
    const name: string
    var streakType: Option<Assignment>
    var streakLen: int
    var lastAssignment: Option<Assignment>
    var nightCooldownRemaining: int
    var workingStreakLen: int
    var previousAssignment: Option<Assignment>

    function Snapshot(): State
      reads this
    {
      State(streakType, streakLen, lastAssignment, nightCooldownRemaining, workingStreakLen, previousAssignment)
    }

    constructor (name: string)
      ensures this.name == name && Snapshot() == FreshState()
    {
      this.name := name;
      streakType, streakLen, lastAssignment := None, 0, None;
      nightCooldownRemaining, workingStreakLen, previousAssignment := 0, 0, None;
    }

    /** `apply`: the fields are updated in the order of the source, and the
        result is the pure Step of the old state. */
    method Apply(a: Assignment, rules: Option<Rules>)
      modifies this
      ensures Snapshot() == Step(old(Snapshot()), a, rules)
    {
      previousAssignment := lastAssignment;
      if streakType == Some(a) {
        streakLen := streakLen + 1;
      } else {
        streakType := Some(a);
        streakLen := 1;
      }
      lastAssignment := Some(a);
      if a != Off {
        workingStreakLen := workingStreakLen + 1;
      } else {
        workingStreakLen := 0;
      }
      if rules.Some? {
        if a == Off && previousAssignment == Some(Night) && nightCooldownRemaining == 0 {
          nightCooldownRemaining := rules.value.minDaysOffAfterNightStreak;
        }
        if a == Off && nightCooldownRemaining > 0 {
          nightCooldownRemaining := nightCooldownRemaining - 1;
        }
      }
    }
  }

  /** Eligibility, rule by rule: OFF always; no work during a cooldown; no work
      once the working streak reached the cap; DAY (and only DAY) is barred
      after a NIGHT when the rule is on; otherwise allowed. */
  lemma CanAssignRules(s: State, a: Assignment, r: Rules)
    ensures CanAssign(s, Off, r)
    ensures s.nightCooldownRemaining > 0 ==> !CanAssign(s, Day, r) && !CanAssign(s, Night, r)
    ensures s.workingStreakLen >= r.maxShiftsInRow ==> !CanAssign(s, Day, r) && !CanAssign(s, Night, r)
    ensures r.noDayAfterNight && s.lastAssignment == Some(Night) ==> !CanAssign(s, Day, r)
    ensures CanAssign(s, Night, r) <==> s.nightCooldownRemaining <= 0 && s.workingStreakLen < r.maxShiftsInRow
    ensures CanAssign(s, Day, r) <==>
      CanAssign(s, Night, r) && !(r.noDayAfterNight && s.lastAssignment == Some(Night))
  {
  }

  /** The streak bookkeeping of `apply`: the previous assignment is the old
      last one, the last one is the new one, and the same-type streak grows by
      one when it continues and restarts at one otherwise. */
  lemma StepStreak(s: State, a: Assignment, rules: Option<Rules>)
    ensures Step(s, a, rules).previousAssignment == s.lastAssignment
    ensures Step(s, a, rules).lastAssignment == Some(a) && Step(s, a, rules).streakType == Some(a)
    ensures s.streakType == Some(a) ==> Step(s, a, rules).streakLen == s.streakLen + 1
    ensures s.streakType != Some(a) ==> Step(s, a, rules).streakLen == 1
    ensures a == Off ==> Step(s, a, rules).workingStreakLen == 0
    ensures a != Off ==> Step(s, a, rules).workingStreakLen == s.workingStreakLen + 1
  {
  }

  /** An `apply` that follows a successful `can_assign` keeps the working
      streak within the configured maximum. */
  lemma WorkingStreakCapped(s: State, a: Assignment, r: Rules)
    requires CanAssign(s, a, r) && r.maxShiftsInRow >= 0
    ensures Step(s, a, Some(r)).workingStreakLen <= r.maxShiftsInRow
  {
  }

  /** Cooldown bookkeeping with rules given: armed at K on the NIGHT-to-OFF
      edge and counted down in the same call; counted down on every later OFF;
      untouched by work; never negative when K is not. Without rules it is
      left alone. */
  lemma CooldownBookkeeping(s: State, a: Assignment, r: Rules)
    ensures var k := r.minDaysOffAfterNightStreak;
      s.lastAssignment == Some(Night) && s.nightCooldownRemaining == 0 ==>
        Step(s, Off, Some(r)).nightCooldownRemaining == (if k > 0 then k - 1 else k)
    ensures s.nightCooldownRemaining > 0 ==>
      Step(s, Off, Some(r)).nightCooldownRemaining == s.nightCooldownRemaining - 1
    ensures a != Off ==> Step(s, a, Some(r)).nightCooldownRemaining == s.nightCooldownRemaining
    ensures s.lastAssignment != Some(Night) && s.nightCooldownRemaining <= 0 ==>
      Step(s, Off, Some(r)).nightCooldownRemaining == s.nightCooldownRemaining
    ensures s.nightCooldownRemaining >= 0 && r.minDaysOffAfterNightStreak >= 0 ==>
      Step(s, a, Some(r)).nightCooldownRemaining >= 0
    ensures Step(s, a, None).nightCooldownRemaining == s.nightCooldownRemaining
  {
  }
}
