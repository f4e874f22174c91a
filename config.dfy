/** Configuration of the current version (src/config.py): the defaulting that
    turns already-parsed raw fields into a configuration, and the validator
    that returns the first failing check. Time strings are checked by a
    caller-supplied `validTime` predicate standing for the "HH:MM" parse. */
module Config {
  import opened Shifts
  import opened StateMachines
  import Models

  datatype TimeRange = TimeRange(start: string, end: string)

  /** The fields of one shift as read from the file; a missing optional
      field is None (people is None also when it is not a list). */
  datatype RawShift = RawShift(
    name: string,
    people: Option<seq<string>>,
    timezone: string,
    dayShift: TimeRange,
    nightShift: TimeRange,
    preferTwo: Option<bool>,
    minDayStaff: Option<int>,
    maxDayStaff: Option<int>,
    minNightStaff: Option<int>,
    maxNightStaff: Option<int>)

  /** The rules fields as read from the file; a missing field is None. */
  datatype RawRules = RawRules(
    maxShiftsInRow: Option<int>,
    maxDaysOff: Option<int>,
    minDaysOff: Option<int>,
    noDayAfterNight: Option<bool>,
    fridayShift2PriorityNames: Option<seq<string>>,
    minDaysOffAfterNightStreak: Option<int>,
    targetWeeklyHoursMin: Option<int>,
    targetWeeklyHoursMax: Option<int>,
    enableAutoAdjust: Option<bool>)

  datatype RawConfig = RawConfig(shifts: Option<seq<RawShift>>, rules: Option<RawRules>)

  /** One shift after defaulting. */
  datatype ShiftConfig = ShiftConfig(
    name: string,
    people: seq<string>,
    timezone: string,
    dayShift: TimeRange,
    nightShift: TimeRange,
    minDayStaff: int,
    maxDayStaff: int,
    minNightStaff: int,
    maxNightStaff: int)

  datatype Configuration = Configuration(shifts: seq<ShiftConfig>, rules: Models.Rules)

  function GetOr<T>(o: Option<T>, default: T): T
  {
    if o.Some? then o.value else default
  }

  /** The staffing minimum inferred from the prefer-two flag. */
  function InferredMin(preferTwo: bool): int
  {
    if preferTwo then 2 else 1
  }

  /** The defaulting of one shift: minima default to the inferred minimum,
      maxima to the larger of the inferred minimum and the roster size. */
  function ParseShift(raw: RawShift): (s: ShiftConfig)
    ensures s.name == raw.name && s.people == GetOr(raw.people, [])
    ensures raw.minDayStaff.Some? ==> s.minDayStaff == raw.minDayStaff.value
    ensures raw.maxDayStaff.Some? ==> s.maxDayStaff == raw.maxDayStaff.value
    ensures raw.minNightStaff.Some? ==> s.minNightStaff == raw.minNightStaff.value
    ensures raw.maxNightStaff.Some? ==> s.maxNightStaff == raw.maxNightStaff.value
    ensures raw.maxDayStaff.None? ==> s.maxDayStaff >= |s.people|
    ensures raw.maxNightStaff.None? ==> s.maxNightStaff >= |s.people|
    ensures s.timezone == raw.timezone && s.dayShift == raw.dayShift && s.nightShift == raw.nightShift
    // each missing bound is defaulted on its own, whatever the others are
    ensures raw.minDayStaff.None? ==> s.minDayStaff == (if raw.preferTwo == Some(true) then 2 else 1)
    ensures raw.minNightStaff.None? ==> s.minNightStaff == (if raw.preferTwo == Some(true) then 2 else 1)
    ensures raw.maxDayStaff.None? ==>
      && s.maxDayStaff >= (if raw.preferTwo == Some(true) then 2 else 1)
      && (s.maxDayStaff == (if raw.preferTwo == Some(true) then 2 else 1) || s.maxDayStaff == |s.people|)
    ensures raw.maxNightStaff.None? ==>
      && s.maxNightStaff >= (if raw.preferTwo == Some(true) then 2 else 1)
      && (s.maxNightStaff == (if raw.preferTwo == Some(true) then 2 else 1) || s.maxNightStaff == |s.people|)
  {
    var inferred := InferredMin(GetOr(raw.preferTwo, false));
    var people := GetOr(raw.people, []);
    var defaultMax := if inferred >= |people| then inferred else |people|;
    ShiftConfig(
      raw.name, people, raw.timezone, raw.dayShift, raw.nightShift,
      GetOr(raw.minDayStaff, inferred), GetOr(raw.maxDayStaff, defaultMax),
      GetOr(raw.minNightStaff, inferred), GetOr(raw.maxNightStaff, defaultMax))
  }

  /** The defaulting of the rules. */
  function ParseRules(raw: RawRules): (r: Models.Rules)
    ensures raw.maxShiftsInRow.Some? ==> r.maxShiftsInRow == raw.maxShiftsInRow.value
    ensures raw.maxDaysOff.Some? ==> r.maxDaysOff == raw.maxDaysOff.value
    ensures raw.minDaysOff.Some? ==> r.minDaysOff == raw.minDaysOff.value
    ensures raw.noDayAfterNight.Some? ==> r.noDayAfterNight == raw.noDayAfterNight.value
    ensures raw.minDaysOffAfterNightStreak.Some? ==> r.minDaysOffAfterNightStreak == raw.minDaysOffAfterNightStreak.value
    ensures raw.fridayShift2PriorityNames.Some? ==> r.fridayShift2PriorityNames == raw.fridayShift2PriorityNames.value
    ensures raw.targetWeeklyHoursMin.Some? ==> r.targetWeeklyHoursMin == raw.targetWeeklyHoursMin.value
    ensures raw.targetWeeklyHoursMax.Some? ==> r.targetWeeklyHoursMax == raw.targetWeeklyHoursMax.value
    ensures raw.enableAutoAdjust.Some? ==> r.enableAutoAdjust == raw.enableAutoAdjust.value
    // each missing field takes its own default, whatever the others are
    ensures raw.maxShiftsInRow.None? ==> r.maxShiftsInRow == 5
    ensures raw.maxDaysOff.None? ==> r.maxDaysOff == 2
    ensures raw.minDaysOff.None? ==> r.minDaysOff == 1
    ensures raw.noDayAfterNight.None? ==> r.noDayAfterNight
    ensures raw.fridayShift2PriorityNames.None? ==> r.fridayShift2PriorityNames == []
    ensures raw.minDaysOffAfterNightStreak.None? ==> r.minDaysOffAfterNightStreak == 0
    ensures raw.targetWeeklyHoursMin.None? ==> r.targetWeeklyHoursMin == 40
    ensures raw.targetWeeklyHoursMax.None? ==> r.targetWeeklyHoursMax == 48
    ensures raw.enableAutoAdjust.None? ==> r.enableAutoAdjust
  {
    Models.Rules(
      GetOr(raw.maxShiftsInRow, 5), GetOr(raw.maxDaysOff, 2), GetOr(raw.minDaysOff, 1),
      GetOr(raw.noDayAfterNight, true), GetOr(raw.fridayShift2PriorityNames, []),
      GetOr(raw.minDaysOffAfterNightStreak, 0), GetOr(raw.targetWeeklyHoursMin, 40),
      GetOr(raw.targetWeeklyHoursMax, 48), GetOr(raw.enableAutoAdjust, true))
  }

  const NoRules := RawRules(None, None, None, None, None, None, None, None, None)

  datatype ConfigError =
    | NoShifts
    | EmptyRoster(shift: string)
    | BadTime(time: string)
    | NegativeMinStaff(shift: string)
    | DayMaxBelowMin(shift: string)
    | NightMaxBelowMin(shift: string)
    | MaxExceedsRoster(shift: string)
    | NegativeDaysOff
    | MinDaysOffExceedsMax
    | NonPositiveMaxShiftsInRow
    | NegativeNightCooldown
    | NegativeHoursMin
    | NegativeHoursMax
    | HoursMinExceedsMax

  /** The checks of one shift, in the order the validator runs them. */
  function ShiftError(s: ShiftConfig, validTime: string -> bool): Option<ConfigError>
  {
    if |s.people| == 0 then Some(EmptyRoster(s.name))
    else if !validTime(s.dayShift.start) then Some(BadTime(s.dayShift.start))
    else if !validTime(s.dayShift.end) then Some(BadTime(s.dayShift.end))
    else if !validTime(s.nightShift.start) then Some(BadTime(s.nightShift.start))
    else if !validTime(s.nightShift.end) then Some(BadTime(s.nightShift.end))
    else if s.minDayStaff < 0 || s.minNightStaff < 0 then Some(NegativeMinStaff(s.name))
    else if s.maxDayStaff < s.minDayStaff then Some(DayMaxBelowMin(s.name))
    else if s.maxNightStaff < s.minNightStaff then Some(NightMaxBelowMin(s.name))
    else if s.maxDayStaff > |s.people| || s.maxNightStaff > |s.people| then Some(MaxExceedsRoster(s.name))
    else None
  }

  /** The first failing shift's error, in list order. */
  function ShiftsError(shifts: seq<ShiftConfig>, validTime: string -> bool): Option<ConfigError>
  {
    if shifts == [] then None
    else if ShiftError(shifts[0], validTime).Some? then ShiftError(shifts[0], validTime)
    else ShiftsError(shifts[1..], validTime)
  }

  /** The checks of the rules, in the order the validator runs them. */
  function RulesError(r: Models.Rules): Option<ConfigError>
  {
    if r.minDaysOff < 0 || r.maxDaysOff < 0 then Some(NegativeDaysOff)
    else if r.minDaysOff > r.maxDaysOff then Some(MinDaysOffExceedsMax)
    else if r.maxShiftsInRow <= 0 then Some(NonPositiveMaxShiftsInRow)
    else if r.minDaysOffAfterNightStreak < 0 then Some(NegativeNightCooldown)
    else if r.targetWeeklyHoursMin < 0 then Some(NegativeHoursMin)
    else if r.targetWeeklyHoursMax < 0 then Some(NegativeHoursMax)
    else if r.targetWeeklyHoursMin > r.targetWeeklyHoursMax then Some(HoursMinExceedsMax)
    else None
  }

  /** `validate_config`: None when the configuration is accepted, otherwise
      the error of the first failing check. */
  function ValidateConfig(cfg: Configuration, validTime: string -> bool): (r: Option<ConfigError>)
    ensures cfg.shifts == [] ==> r == Some(NoShifts)
    ensures r.None? ==> cfg.shifts != [] && RulesError(cfg.rules).None?
    ensures r.None? ==> cfg.rules.maxShiftsInRow > 0 && cfg.rules.minDaysOffAfterNightStreak >= 0
  {
    if cfg.shifts == [] then Some(NoShifts)
    else if ShiftsError(cfg.shifts, validTime).Some? then ShiftsError(cfg.shifts, validTime)
    else RulesError(cfg.rules)
  }

  /** What an accepted shift looks like, stated independently of the check
      order. */
  predicate ShiftWellFormed(s: ShiftConfig, validTime: string -> bool)
  {
    && |s.people| > 0
    && validTime(s.dayShift.start) && validTime(s.dayShift.end)
    && validTime(s.nightShift.start) && validTime(s.nightShift.end)
    && 0 <= s.minDayStaff <= s.maxDayStaff <= |s.people|
    && 0 <= s.minNightStaff <= s.maxNightStaff <= |s.people|
  }

  /** What accepted rules look like. */
  predicate RulesWellFormed(r: Models.Rules)
  {
    && 0 <= r.minDaysOff <= r.maxDaysOff
    && r.maxShiftsInRow > 0
    && r.minDaysOffAfterNightStreak >= 0
    && 0 <= r.targetWeeklyHoursMin <= r.targetWeeklyHoursMax
  }

  predicate WellFormed(cfg: Configuration, validTime: string -> bool)
  {
    && |cfg.shifts| > 0
    && (forall i :: 0 <= i < |cfg.shifts| ==> ShiftWellFormed(cfg.shifts[i], validTime))
    && RulesWellFormed(cfg.rules)
  }

  lemma ShiftErrorIff(s: ShiftConfig, validTime: string -> bool)
    ensures ShiftError(s, validTime).None? <==> ShiftWellFormed(s, validTime)
  {
  }

  /** The shift loop finds an error exactly when some shift is malformed, and
      then it is the error of the first malformed shift. */
  lemma {:induction false} ShiftsErrorFirst(shifts: seq<ShiftConfig>, validTime: string -> bool)
    ensures ShiftsError(shifts, validTime).None? <==>
      forall i :: 0 <= i < |shifts| ==> ShiftWellFormed(shifts[i], validTime)
    ensures ShiftsError(shifts, validTime).Some? ==>
      exists i :: 0 <= i < |shifts| && ShiftError(shifts[i], validTime) == ShiftsError(shifts, validTime)
        && forall j :: 0 <= j < i ==> ShiftWellFormed(shifts[j], validTime)
  {
    if shifts != [] {
      ShiftErrorIff(shifts[0], validTime);
      ShiftsErrorFirst(shifts[1..], validTime);
      if ShiftsError(shifts, validTime).Some? {
        if ShiftError(shifts[0], validTime).Some? {
          assert ShiftError(shifts[0], validTime) == ShiftsError(shifts, validTime);
        } else {
          var i :| 0 <= i < |shifts[1..]| && ShiftError(shifts[1..][i], validTime) == ShiftsError(shifts[1..], validTime)
            && forall j :: 0 <= j < i ==> ShiftWellFormed(shifts[1..][j], validTime);
          assert ShiftError(shifts[i + 1], validTime) == ShiftsError(shifts, validTime);
          forall j | 0 <= j < i + 1 ensures ShiftWellFormed(shifts[j], validTime) {
            if j > 0 {
              assert shifts[j] == shifts[1..][j - 1];
            }
          }
        }
      } else {
        forall i | 0 <= i < |shifts| ensures ShiftWellFormed(shifts[i], validTime) {
          if i > 0 {
            assert shifts[i] == shifts[1..][i - 1];
          }
        }
      }
      if forall i :: 0 <= i < |shifts| ==> ShiftWellFormed(shifts[i], validTime) {
        forall i | 0 <= i < |shifts[1..]| ensures ShiftWellFormed(shifts[1..][i], validTime) {
          assert shifts[1..][i] == shifts[i + 1];
        }
      }
    }
  }

  /** A configuration is accepted exactly when it is well formed. */
  lemma ValidateIff(cfg: Configuration, validTime: string -> bool)
    ensures ValidateConfig(cfg, validTime).None? <==> WellFormed(cfg, validTime)
  {
    ShiftsErrorFirst(cfg.shifts, validTime);
  }

  /** The checks run in a fixed order: no shifts is reported before anything
      else; otherwise the first malformed shift's first failing check is
      reported before any rules error; the rules are reported only when
      every shift passes. */
  lemma ValidateOrder(cfg: Configuration, validTime: string -> bool)
    ensures cfg.shifts == [] ==> ValidateConfig(cfg, validTime) == Some(NoShifts)
    ensures forall i :: (0 <= i < |cfg.shifts| && !ShiftWellFormed(cfg.shifts[i], validTime)
      && forall j :: 0 <= j < i ==> ShiftWellFormed(cfg.shifts[j], validTime)) ==>
      ValidateConfig(cfg, validTime) == ShiftError(cfg.shifts[i], validTime)
    ensures (cfg.shifts != [] && forall i :: 0 <= i < |cfg.shifts| ==> ShiftWellFormed(cfg.shifts[i], validTime)) ==>
      ValidateConfig(cfg, validTime) == RulesError(cfg.rules)
  {
    ShiftsErrorFirst(cfg.shifts, validTime);
    forall i | 0 <= i < |cfg.shifts| && !ShiftWellFormed(cfg.shifts[i], validTime)
              && (forall j :: 0 <= j < i ==> ShiftWellFormed(cfg.shifts[j], validTime))
      ensures ValidateConfig(cfg, validTime) == ShiftError(cfg.shifts[i], validTime)
    {
      ShiftErrorIff(cfg.shifts[i], validTime);
      var k :| 0 <= k < |cfg.shifts| && ShiftError(cfg.shifts[k], validTime) == ShiftsError(cfg.shifts, validTime)
        && forall j :: 0 <= j < k ==> ShiftWellFormed(cfg.shifts[j], validTime);
      ShiftErrorIff(cfg.shifts[k], validTime);
      assert k == i;
    }
  }

  /** An accepted configuration gives the current engine the rule bounds its
      per-person invariant needs. */
  lemma AcceptedRulesOk(cfg: Configuration, validTime: string -> bool)
    requires ValidateConfig(cfg, validTime).None?
    ensures Unified(cfg.rules).RulesOk()
    ensures 0 <= cfg.rules.minDaysOff <= cfg.rules.maxDaysOff
  {
    ValidateIff(cfg, validTime);
  }

  /** Defaults of a shift that gives no staffing bounds: both minima are the
      inferred minimum, both maxima are the larger of it and the roster size,
      and a missing roster is empty. */
  lemma ShiftDefaults(raw: RawShift)
    requires raw.minDayStaff.None? && raw.maxDayStaff.None? && raw.minNightStaff.None? && raw.maxNightStaff.None?
    ensures var s := ParseShift(raw);
      var inferred := if raw.preferTwo == Some(true) then 2 else 1;
      && s.minDayStaff == inferred && s.minNightStaff == inferred
      && s.maxDayStaff == s.maxNightStaff && s.maxDayStaff >= inferred && s.maxDayStaff >= |s.people|
      && (s.maxDayStaff == inferred || s.maxDayStaff == |s.people|)
      && (raw.people.None? ==> s.people == [])
  {
  }

  /** A shift that gives no staffing bounds passes its bound checks exactly
      unless it prefers two people and has fewer than two: a one-person shift
      with the prefer-two flag is rejected because its default maximum of 2
      exceeds the roster. */
  lemma DefaultedShiftAccepted(raw: RawShift, validTime: string -> bool)
    requires raw.minDayStaff.None? && raw.maxDayStaff.None? && raw.minNightStaff.None? && raw.maxNightStaff.None?
    requires raw.people.Some? && |raw.people.value| > 0
    requires validTime(raw.dayShift.start) && validTime(raw.dayShift.end)
    requires validTime(raw.nightShift.start) && validTime(raw.nightShift.end)
    ensures ShiftError(ParseShift(raw), validTime).None? <==> !(raw.preferTwo == Some(true) && |raw.people.value| < 2)
    ensures raw.preferTwo == Some(true) && |raw.people.value| == 1 ==>
      ShiftError(ParseShift(raw), validTime) == Some(MaxExceedsRoster(raw.name))
  {
  }

  /** A prefer-two shift with fewer than two people is rejected as soon as
      either of its maxima is defaulted, whatever bounds are given: an empty
      roster fails first, and a one-person roster gets a default maximum of 2
      that either falls below a given minimum or exceeds the roster. */
  lemma ShortPreferTwoRejected(raw: RawShift, validTime: string -> bool)
    requires raw.preferTwo == Some(true) && |GetOr(raw.people, [])| < 2
    requires raw.maxDayStaff.None? || raw.maxNightStaff.None?
    ensures ShiftError(ParseShift(raw), validTime).Some?
  {
  }

  /** The rule defaults, and that they are accepted. */
  lemma RuleDefaults()
    ensures var r := ParseRules(NoRules);
      && r.maxShiftsInRow == 5 && r.maxDaysOff == 2 && r.minDaysOff == 1 && r.noDayAfterNight
      && r.fridayShift2PriorityNames == [] && r.minDaysOffAfterNightStreak == 0
      && r.targetWeeklyHoursMin == 40 && r.targetWeeklyHoursMax == 48 && r.enableAutoAdjust
      && RulesError(r).None?
  {
  }

  /** The configuration parse_config builds from raw fields. */
  function BuildConfig(raw: RawConfig): Configuration
  {
    var shifts := GetOr(raw.shifts, []);
    Configuration(seq(|shifts|, i requires 0 <= i < |shifts| => ParseShift(shifts[i])), ParseRules(GetOr(raw.rules, NoRules)))
  }

  /** `parse_config` after the file is read: the shift loop, the rules, then
      validation. */
  method ParseConfig(raw: RawConfig, validTime: string -> bool) returns (r: Result<Configuration, ConfigError>)
    ensures r.Ok? <==> WellFormed(BuildConfig(raw), validTime)
    ensures r.Ok? ==> r.value == BuildConfig(raw)
    ensures r.Err? ==> Some(r.error) == ValidateConfig(BuildConfig(raw), validTime)
  {
    var rawShifts := GetOr(raw.shifts, []);
    var shifts: seq<ShiftConfig> := [];
    for i := 0 to |rawShifts|
      invariant |shifts| == i && forall j :: 0 <= j < i ==> shifts[j] == ParseShift(rawShifts[j])
    {
      shifts := shifts + [ParseShift(rawShifts[i])];
    }
    var cfg := Configuration(shifts, ParseRules(GetOr(raw.rules, NoRules)));
    assert cfg == BuildConfig(raw);
    ValidateIff(cfg, validTime);
    var error := ValidateConfig(cfg, validTime);
    if error.Some? {
      return Err(error.value);
    }
    r := Ok(cfg);
  }
}
