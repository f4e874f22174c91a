/** The two allocation engines share every step except the per-person state
    machine: src/scheduling.py drives the current one (unified working streak,
    post-night cooldown) and scheduler.py the legacy one (per-type caps). A
    Machine names which one, with its rules. */
module StateMachines {
  import opened Shifts
  import Models
  import LegacyModels

  datatype Machine = Unified(rules: Models.Rules) | PerType(legacyRules: LegacyModels.Rules)
  {
    /** `st.can_assign(a, rules)` */
    predicate Eligible(s: State, a: Assignment)
    {
      match this
      case Unified(r) => Models.CanAssign(s, a, r)
      case PerType(r) => LegacyModels.CanAssign(s, a, r)
    }

    /** `person_states[p].apply(a, rules)` (current) or `.apply(a)` (legacy). */
    function Advance(s: State, a: Assignment): State
    {
      match this
      case Unified(r) => Models.Step(s, a, Some(r))
      case PerType(_) => LegacyModels.Step(s, a)
    }

    /** What happens to an OFF member's state before its OFF `apply`: the
        current engine pre-arms the cooldown, the legacy engine does nothing. */
    function PrepareOff(s: State): State
    {
      match this
      case Unified(r) => PresetCooldown(s, r)
      case PerType(_) => s
    }

    function MinDaysOff(): int
    {
      match this
      case Unified(r) => r.minDaysOff
      case PerType(r) => r.minDaysOff
    }

    function MaxDaysOff(): int
    {
      match this
      case Unified(r) => r.maxDaysOff
      case PerType(r) => r.maxDaysOff
    }

    function PriorityNames(): seq<string>
    {
      match this
      case Unified(r) => r.fridayShift2PriorityNames
      case PerType(r) => r.fridayShift2PriorityNames
    }

    predicate NoDayAfterNight()
    {
      match this
      case Unified(r) => r.noDayAfterNight
      case PerType(r) => r.noDayAfterNight
    }

    /** The per-person invariant each engine keeps for eligible updates: the
        working streak within max_shifts_in_row and a non-negative cooldown
        (current), or each same-type streak within its cap (legacy). */
    predicate StateOk(s: State)
    {
      match this
      case Unified(r) =>
        0 <= s.workingStreakLen <= r.maxShiftsInRow && s.nightCooldownRemaining >= 0
      case PerType(r) =>
        (s.streakType == Some(Day) ==> s.streakLen <= r.maxDayInRow)
        && (s.streakType == Some(Night) ==> s.streakLen <= r.maxNightInRow)
    }

    /** The rule bounds under which StateOk is kept (what validation accepts). */
    predicate RulesOk()
    {
      match this
      case Unified(r) => r.maxShiftsInRow > 0 && r.minDaysOffAfterNightStreak >= 0
      case PerType(r) => r.maxDayInRow > 0 && r.maxNightInRow > 0
    }
  }

  /** The cooldown pre-set of src/scheduling.py: an OFF member whose last
      assignment was NIGHT, with no cooldown running and a positive K, gets
      its cooldown set to K before the OFF `apply`. */
  function PresetCooldown(s: State, r: Models.Rules): State
  {
    if s.lastAssignment == Some(Night) && s.nightCooldownRemaining == 0 && r.minDaysOffAfterNightStreak > 0
    then s.(nightCooldownRemaining := r.minDaysOffAfterNightStreak)
    else s
  }

  /** The pre-set does not double the cooldown: `apply(OFF)` after it ends in
      exactly the state `apply(OFF)` alone gives (the cooldown at K - 1). */
  lemma PresetIsRedundant(s: State, r: Models.Rules)
    ensures Models.Step(PresetCooldown(s, r), Off, Some(r)) == Models.Step(s, Off, Some(r))
  {
  }

  /** The fresh state satisfies each engine's invariant when its rules are
      valid. */
  lemma FreshStateOk(m: Machine)
    requires m.RulesOk()
    ensures m.StateOk(FreshState())
  {
  }

  /** Eligible updates, OFF updates and the pre-set keep the invariant. */
  lemma AdvanceKeepsStateOk(m: Machine, s: State, a: Assignment)
    requires m.RulesOk() && m.StateOk(s)
    requires a == Off || m.Eligible(s, a)
    ensures m.StateOk(m.Advance(s, a))
    ensures m.StateOk(m.PrepareOff(s))
  {
    match m
    case Unified(r) =>
      Models.WorkingStreakCapped(s, a, r);
      Models.CooldownBookkeeping(s, a, r);
    case PerType(r) =>
      if a != Off {
        LegacyModels.StreakCapsHold(s, a, r);
      }
  }

  /** In both engines, with the rule on, a DAY-eligible person was not on
      NIGHT the day before. */
  lemma DayEligibleNotAfterNight(m: Machine, s: State)
    requires m.NoDayAfterNight() && m.Eligible(s, Day)
    ensures s.lastAssignment != Some(Night)
  {
  }

  /** In both engines an update records its assignment as the last one, and
      the pre-set leaves the last assignment alone. */
  lemma AdvanceRecordsLast(m: Machine, s: State, a: Assignment)
    ensures m.Advance(s, a).lastAssignment == Some(a)
    ensures m.PrepareOff(s).lastAssignment == s.lastAssignment
  {
  }
}
