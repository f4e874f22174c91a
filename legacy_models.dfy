/** The legacy per-person state machine (scheduler.py): separate caps on DAY
    and NIGHT streaks, the day-after-night rule, and no cooldown or unified
    working streak. */
module LegacyModels {
  import opened Shifts

  /** The legacy RulesConfig. */
  datatype Rules = Rules(
    maxDayInRow: int,
    maxNightInRow: int,
    maxDaysOff: int,
    minDaysOff: int,
    noDayAfterNight: bool,
    fridayShift2PriorityNames: seq<string>,
    wednesdayDayOverfill: bool)

  /** Legacy `can_assign`: DAY is refused when the current DAY streak reached
      its cap or, with the rule on, right after a NIGHT; NIGHT is refused when
      the current NIGHT streak reached its cap; OFF is always allowed. */
  predicate CanAssign(s: State, a: Assignment, r: Rules): (ok: bool)
    ensures a == Off ==> ok
    ensures a == Night && s.streakType != Some(Night) ==> ok
    ensures a == Day && ok ==> !(r.noDayAfterNight && s.lastAssignment == Some(Night))
  {
    match a
    case Day =>
      !(s.streakType == Some(Day) && s.streakLen >= r.maxDayInRow)
      && !(r.noDayAfterNight && s.lastAssignment == Some(Night))
    case Night =>
      !(s.streakType == Some(Night) && s.streakLen >= r.maxNightInRow)
    case Off => true
  }

  /** Legacy `apply`: only the streak and the last assignment change. */
  function Step(s: State, a: Assignment): (r: State)
    ensures r.streakType == Some(a) && r.lastAssignment == Some(a)
    ensures r.streakLen == 1 || r.streakLen == s.streakLen + 1
    ensures r.nightCooldownRemaining == s.nightCooldownRemaining && r.workingStreakLen == s.workingStreakLen
    ensures r.previousAssignment == s.previousAssignment
  {
    if s.streakType == Some(a) then s.(streakLen := s.streakLen + 1, lastAssignment := Some(a))
    else s.(streakType := Some(a), streakLen := 1, lastAssignment := Some(a))
  }

  /** The legacy PersonState record: a name and three mutable fields. */
  class PersonState {
    const name: string
    var streakType: Option<Assignment>
    var streakLen: int
    var lastAssignment: Option<Assignment>

    /** The record as an engine State; the fields the legacy record lacks
        keep their initial values. */
    function Snapshot(): State
      reads this
    {
      State(streakType, streakLen, lastAssignment, 0, 0, None)
    }

    constructor (name: string)
      ensures this.name == name && Snapshot() == FreshState()
    {
      this.name := name;
      streakType, streakLen, lastAssignment := None, 0, None;
    }

    method Apply(a: Assignment)
      modifies this
      ensures Snapshot() == Step(old(Snapshot()), a)
    {
      if streakType == Some(a) {
        streakLen := streakLen + 1;
      } else {
        streakType := Some(a);
        streakLen := 1;
      }
      lastAssignment := Some(a);
    }
  }

  /** Eligibility, rule by rule: OFF always; NIGHT exactly when the current
      streak is not a NIGHT streak at its cap (so a NIGHT streak below the cap
      may continue); DAY exactly when the current streak is not a DAY streak
      at its cap and, with the rule on, the last assignment was not NIGHT. */
  lemma CanAssignRules(s: State, r: Rules)
    ensures CanAssign(s, Off, r)
    ensures s.streakType == Some(Day) && s.streakLen >= r.maxDayInRow ==> !CanAssign(s, Day, r)
    ensures r.noDayAfterNight && s.lastAssignment == Some(Night) ==> !CanAssign(s, Day, r)
    ensures s.streakType == Some(Night) && s.streakLen >= r.maxNightInRow ==> !CanAssign(s, Night, r)
    ensures s.streakType != Some(Night) ==> CanAssign(s, Night, r)
    ensures s.streakType == Some(Night) && s.streakLen < r.maxNightInRow ==> CanAssign(s, Night, r)
    ensures CanAssign(s, Night, r) <==> !(s.streakType == Some(Night) && s.streakLen >= r.maxNightInRow)
    ensures CanAssign(s, Day, r) <==>
      !(s.streakType == Some(Day) && s.streakLen >= r.maxDayInRow) && !(r.noDayAfterNight && s.lastAssignment == Some(Night))
  {
  }

  /** After an eligible `apply`, a DAY streak stays within max_day_in_row and
      a NIGHT streak within max_night_in_row (caps of at least one). */
  lemma StreakCapsHold(s: State, a: Assignment, r: Rules)
    requires CanAssign(s, a, r) && r.maxDayInRow >= 1 && r.maxNightInRow >= 1
    ensures a == Day ==> Step(s, a).streakLen <= r.maxDayInRow
    ensures a == Night ==> Step(s, a).streakLen <= r.maxNightInRow
  {
  }

  /** Legacy `apply` touches only the streak and the last assignment. */
  lemma StepStreak(s: State, a: Assignment)
    ensures Step(s, a).streakType == Some(a) && Step(s, a).lastAssignment == Some(a)
    ensures Step(s, a).streakLen == if s.streakType == Some(a) then s.streakLen + 1 else 1
    ensures Step(s, a).nightCooldownRemaining == s.nightCooldownRemaining
    ensures Step(s, a).workingStreakLen == s.workingStreakLen
    ensures Step(s, a).previousAssignment == s.previousAssignment
  {
  }
}
