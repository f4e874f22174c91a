/** The legacy entry points of scheduler.py that the shared engine does not
    cover: its configuration validator, and the repeat-cycle length, the
    least common multiple of every shift's pattern length. */
module Legacy {
  import opened Shifts
  import opened StateMachines
  import LegacyModels
  import Config

  /** The legacy ShiftConfig. */
  datatype LegacyShift = LegacyShift(
    name: string,
    people: seq<string>,
    timezone: string,
    dayShift: Config.TimeRange,
    nightShift: Config.TimeRange,
    wednesdayDayOverfillCount: int,
    preferTwo: bool)

  datatype LegacyConfig = LegacyConfig(shifts: seq<LegacyShift>, rules: LegacyModels.Rules)

  /** The shift as the allocation engine sees it. */
  function TeamOf(s: LegacyShift): (t: Team)
    ensures t.name == s.name && t.people == s.people
    ensures t.overfillCount == s.wednesdayDayOverfillCount && t.preferTwo == s.preferTwo
  {
    Team(s.name, s.people, s.wednesdayDayOverfillCount, s.preferTwo)
  }

  datatype LegacyError =
    | NoShifts
    | EmptyRoster(shift: string)
    | NegativeOverfill(shift: string)
    | BadTime(time: string)
    | NegativeDaysOff
    | MinDaysOffExceedsMax
    | NonPositiveStreakCap

  /** The checks of one shift, in the order the validator runs them. */
  function ShiftError(s: LegacyShift, validTime: string -> bool): Option<LegacyError>
  {
    if |s.people| == 0 then Some(EmptyRoster(s.name))
    else if s.wednesdayDayOverfillCount < 0 then Some(NegativeOverfill(s.name))
    else if !validTime(s.dayShift.start) then Some(BadTime(s.dayShift.start))
    else if !validTime(s.dayShift.end) then Some(BadTime(s.dayShift.end))
    else if !validTime(s.nightShift.start) then Some(BadTime(s.nightShift.start))
    else if !validTime(s.nightShift.end) then Some(BadTime(s.nightShift.end))
    else None
  }

  /** The first failing shift's error, in list order. */
  function ShiftsError(shifts: seq<LegacyShift>, validTime: string -> bool): Option<LegacyError>
  {
    if shifts == [] then None
    else if ShiftError(shifts[0], validTime).Some? then ShiftError(shifts[0], validTime)
    else ShiftsError(shifts[1..], validTime)
  }

  function RulesError(r: LegacyModels.Rules): Option<LegacyError>
  {
    if r.minDaysOff < 0 || r.maxDaysOff < 0 then Some(NegativeDaysOff)
    else if r.minDaysOff > r.maxDaysOff then Some(MinDaysOffExceedsMax)
    else if r.maxDayInRow <= 0 || r.maxNightInRow <= 0 then Some(NonPositiveStreakCap)
    else None
  }

  /** Legacy `validate_config`: None when accepted, otherwise the error of the
      first failing check. */
  function ValidateConfig(cfg: LegacyConfig, validTime: string -> bool): (r: Option<LegacyError>)
    ensures cfg.shifts == [] ==> r == Some(NoShifts)
    ensures r.None? ==> cfg.shifts != [] && RulesError(cfg.rules).None?
    ensures r.None? ==> cfg.rules.maxDayInRow > 0 && cfg.rules.maxNightInRow > 0
  {
    if cfg.shifts == [] then Some(NoShifts)
    else if ShiftsError(cfg.shifts, validTime).Some? then ShiftsError(cfg.shifts, validTime)
    else RulesError(cfg.rules)
  }

  predicate ShiftWellFormed(s: LegacyShift, validTime: string -> bool)
  {
    && |s.people| > 0
    && s.wednesdayDayOverfillCount >= 0
    && validTime(s.dayShift.start) && validTime(s.dayShift.end)
    && validTime(s.nightShift.start) && validTime(s.nightShift.end)
  }

  predicate WellFormed(cfg: LegacyConfig, validTime: string -> bool)
  {
    && |cfg.shifts| > 0
    && (forall i :: 0 <= i < |cfg.shifts| ==> ShiftWellFormed(cfg.shifts[i], validTime))
    && 0 <= cfg.rules.minDaysOff <= cfg.rules.maxDaysOff
    && cfg.rules.maxDayInRow > 0 && cfg.rules.maxNightInRow > 0
  }

  /** The shift loop finds an error exactly when some shift is malformed, and
      then it is the error of the first malformed shift. */
  lemma {:induction false} ShiftsErrorFirst(shifts: seq<LegacyShift>, validTime: string -> bool)
    ensures ShiftsError(shifts, validTime).None? <==>
      forall i :: 0 <= i < |shifts| ==> ShiftWellFormed(shifts[i], validTime)
    ensures ShiftsError(shifts, validTime).Some? ==>
      exists i :: 0 <= i < |shifts| && ShiftError(shifts[i], validTime) == ShiftsError(shifts, validTime)
        && forall j :: 0 <= j < i ==> ShiftWellFormed(shifts[j], validTime)
  {
    if shifts != [] {
      ShiftsErrorFirst(shifts[1..], validTime);
      if ShiftsError(shifts, validTime).Some? {
        if ShiftError(shifts[0], validTime).Some? {
          assert ShiftError(shifts[0], validTime) == ShiftsError(shifts, validTime);
        } else {
          var i :| 0 <= i < |shifts[1..]| && ShiftError(shifts[1..][i], validTime) == ShiftsError(shifts[1..], validTime)
            && forall j :: 0 <= j < i ==> ShiftWellFormed(shifts[1..][j], validTime);
          assert ShiftError(shifts[i + 1], validTime) == ShiftsError(shifts, validTime);
          forall j | 0 <= j < i + 1 ensures ShiftWellFormed(shifts[j], validTime) {
            if j > 0 {
              assert shifts[j] == shifts[1..][j - 1];
            }
          }
        }
      } else {
        forall i | 0 <= i < |shifts| ensures ShiftWellFormed(shifts[i], validTime) {
          if i > 0 {
            assert shifts[i] == shifts[1..][i - 1];
          }
        }
      }
      if forall i :: 0 <= i < |shifts| ==> ShiftWellFormed(shifts[i], validTime) {
        forall i | 0 <= i < |shifts[1..]| ensures ShiftWellFormed(shifts[1..][i], validTime) {
          assert shifts[1..][i] == shifts[i + 1];
        }
      }
    }
  }

  /** A legacy configuration is accepted exactly when it is well formed, and
      then the per-type engine's caps are positive. */
  lemma ValidateIff(cfg: LegacyConfig, validTime: string -> bool)
    ensures ValidateConfig(cfg, validTime).None? <==> WellFormed(cfg, validTime)
    ensures ValidateConfig(cfg, validTime).None? ==> PerType(cfg.rules).RulesOk()
  {
    ShiftsErrorFirst(cfg.shifts, validTime);
  }

  /** Shift checks come first: a malformed shift is reported even when the
      rules are malformed too, and the rules are reported only when every
      shift passes. */
  lemma ValidateOrder(cfg: LegacyConfig, validTime: string -> bool)
    ensures cfg.shifts == [] ==> ValidateConfig(cfg, validTime) == Some(NoShifts)
    ensures forall i :: (0 <= i < |cfg.shifts| && !ShiftWellFormed(cfg.shifts[i], validTime)
      && forall j :: 0 <= j < i ==> ShiftWellFormed(cfg.shifts[j], validTime)) ==>
      ValidateConfig(cfg, validTime) == ShiftError(cfg.shifts[i], validTime)
    ensures (cfg.shifts != [] && forall i :: 0 <= i < |cfg.shifts| ==> ShiftWellFormed(cfg.shifts[i], validTime)) ==>
      ValidateConfig(cfg, validTime) == RulesError(cfg.rules)
  {
    ShiftsErrorFirst(cfg.shifts, validTime);
    forall i | 0 <= i < |cfg.shifts| && !ShiftWellFormed(cfg.shifts[i], validTime)
              && (forall j :: 0 <= j < i ==> ShiftWellFormed(cfg.shifts[j], validTime))
      ensures ValidateConfig(cfg, validTime) == ShiftError(cfg.shifts[i], validTime)
    {
      var k :| 0 <= k < |cfg.shifts| && ShiftError(cfg.shifts[k], validTime) == ShiftsError(cfg.shifts, validTime)
        && forall j :: 0 <= j < k ==> ShiftWellFormed(cfg.shifts[j], validTime);
      assert k == i;
    }
  }

  // ---------------------------------------------------------------------
  // The repeat-cycle length

  /** Euclid's algorithm, as math.gcd on non-negative arguments. */
  function Gcd(a: nat, b: nat): nat
    decreases b
  {
    if b == 0 then a else Gcd(b, a % b)
  }

  /** The `lcm` helper: a*b // gcd(a, b), and 0 when either argument is 0. */
  function Lcm(a: nat, b: nat): (r: nat)
    ensures a == 0 || b == 0 ==> r == 0
    ensures b == 1 ==> r == a
  {
    if a != 0 && b != 0 && Gcd(a, b) != 0 then a * b / Gcd(a, b) else 0
  }

  lemma {:induction false} MulAtLeast(d: int, e: int)
    requires d > 0 && e >= 1
    ensures d * e >= d
  {
    if e > 1 {
      MulAtLeast(d, e - 1);
      assert d * e == d * (e - 1) + d;
    }
  }

  /** A product is a multiple of each positive factor, and dividing it by one
      gives the other back. */
  lemma MulMod(d: int, k: int)
    requires d > 0
    ensures (d * k) % d == 0 && (d * k) / d == k
  {
    var q, m := (d * k) / d, (d * k) % d;
    assert d * k == d * q + m && 0 <= m < d;
    assert d * (k - q) == m;
    assert k == q by {
      if k - q >= 1 {
        MulAtLeast(d, k - q);
      } else if k - q <= -1 {
        MulAtLeast(d, q - k);
      }
    }
  }

  lemma Distrib(g: int, u: int, q: int, v: int)
    ensures (g * u) * q + g * v == g * (u * q + v)
  {
  }

  lemma BezoutStep(a: int, b: int, q: int, r: int, x: int, y: int)
    requires a == b * q + r
    ensures a * y + b * (x - q * y) == b * x + r * y
  {
  }

  /** Gcd(a, b) divides both arguments (witnesses ka, kb) and is an integer
      combination of them (Bezout coefficients x, y). */
  lemma {:induction false} GcdFacts(a: nat, b: nat) returns (ka: nat, kb: nat, x: int, y: int)
    decreases b
    ensures a == Gcd(a, b) * ka && b == Gcd(a, b) * kb
    ensures a * x + b * y == Gcd(a, b)
  {
    if b == 0 {
      ka, kb, x, y := 1, 0, 1, 0;
    } else {
      var q, r := a / b, a % b;
      assert a == b * q + r;
      var ka', kb', x', y' := GcdFacts(b, r);
      var g := Gcd(b, r);
      assert g == Gcd(a, b);
      ka, kb := ka' * q + kb', ka';
      Distrib(g, ka', q, kb');
      x, y := y', x' - q * y';
      BezoutStep(a, b, q, r, x', y');
    }
  }

  lemma GcdPositive(a: nat, b: nat)
    requires a > 0
    ensures Gcd(a, b) > 0
  {
    var ka, kb, x, y := GcdFacts(a, b);
  }

  lemma Rearrange(g: int, u: int, v: int)
    ensures u * (g * v) == (g * u) * v && (g * u) * v == g * (u * v)
  {
  }

  /** For positive arguments the lcm is a*b/g = ka*b = a*kb, where a = g*ka
      and b = g*kb. */
  lemma LcmValue(a: nat, b: nat) returns (ka: nat, kb: nat, x: int, y: int)
    requires a > 0 && b > 0
    ensures Gcd(a, b) > 0 && a == Gcd(a, b) * ka && b == Gcd(a, b) * kb && a * x + b * y == Gcd(a, b)
    ensures Lcm(a, b) == ka * b == a * kb && a * b == Gcd(a, b) * Lcm(a, b)
  {
    ka, kb, x, y := GcdFacts(a, b);
    var g := Gcd(a, b);
    GcdPositive(a, b);
    Rearrange(g, ka, b);
    MulMod(g, ka * b);
    Rearrange(g, ka, kb);
  }

  lemma LeastStep(a: int, b: int, x: int, y: int, s: int, t: int, m: int, g: int, l: int)
    requires a * x + b * y == g && m == a * s && m == b * t && a * b == g * l
    ensures g * m == g * (l * (x * t + y * s))
  {
    calc {
      g * m;
      (a * x + b * y) * m;
      a * x * m + b * y * m;
      a * x * (b * t) + b * y * (a * s);
      (a * b) * (x * t + y * s);
      (g * l) * (x * t + y * s);
      g * (l * (x * t + y * s));
    }
  }

  /** The lcm of two positive lengths is positive, a multiple of both, and
      divides every common multiple of the two. */
  lemma LcmFacts(a: nat, b: nat)
    requires a > 0 && b > 0
    ensures Lcm(a, b) > 0 && Lcm(a, b) % a == 0 && Lcm(a, b) % b == 0
    ensures forall m: int :: m % a == 0 && m % b == 0 ==> m % Lcm(a, b) == 0
  {
    LcmMultiple(a, b);
    forall m: int | m % a == 0 && m % b == 0 ensures m % Lcm(a, b) == 0 {
      LcmDivides(a, b, m);
    }
  }

  lemma LcmMultiple(a: nat, b: nat)
    requires a > 0 && b > 0
    ensures Lcm(a, b) > 0 && Lcm(a, b) % a == 0 && Lcm(a, b) % b == 0
  {
    var ka, kb, x, y := LcmValue(a, b);
    assert ka > 0;
    MulAtLeast(b, ka);
    MulMod(b, ka);
    MulMod(a, kb);
  }

  lemma LcmDivides(a: nat, b: nat, m: int)
    requires a > 0 && b > 0 && m % a == 0 && m % b == 0
    ensures Lcm(a, b) > 0 && m % Lcm(a, b) == 0
  {
    var ka, kb, x, y := LcmValue(a, b);
    LcmMultiple(a, b);
    CombinationDivides(a, b, x, y, Gcd(a, b), Lcm(a, b), m);
  }

  /** If g = a*x + b*y is positive and a*b = g*l, every common multiple of a
      and b is a multiple of l. */
  lemma CombinationDivides(a: int, b: int, x: int, y: int, g: int, l: int, m: int)
    requires a > 0 && b > 0 && g > 0 && l > 0
    requires a * x + b * y == g && a * b == g * l && m % a == 0 && m % b == 0
    ensures m % l == 0
  {
    var s, t := m / a, m / b;
    assert m == a * s && m == b * t;
    LeastStep(a, b, x, y, s, t, m, g, l);
    Cancel(g, m, l * (x * t + y * s));
    MulMod(l, x * t + y * s);
  }

  lemma Cancel(g: int, m: int, n: int)
    requires g > 0 && g * m == g * n
    ensures m == n
  {
    assert g * (m - n) == 0;
  }

  /** The running lcm of the folding loop, over the first |lengths| entries. */
  function LcmAll(lengths: seq<nat>): (r: nat)
    requires |lengths| > 0
    ensures (exists i :: 0 <= i < |lengths| && lengths[i] == 0) ==> r == 0
  {
    if |lengths| == 1 then lengths[0]
    else
      var init := lengths[..|lengths| - 1];
      assert forall i :: 0 <= i < |init| ==> init[i] == lengths[i];
      Lcm(LcmAll(init), lengths[|lengths| - 1])
  }

  lemma DividesTrans(a: int, b: int, c: int)
    requires a > 0 && b > 0 && b % a == 0 && c % b == 0
    ensures c % a == 0
  {
    var k1, k2 := b / a, c / b;
    assert c == a * (k1 * k2) by {
      assert c == b * k2 && b == a * k1;
    }
    MulMod(a, k1 * k2);
  }

  /** With positive lengths, the fold is the least common multiple of all of
      them: positive, a multiple of every length, and a divisor of every
      common multiple, so every shift's pattern repeats an exact number of
      times within it and no shorter cycle ends all patterns together. */
  lemma {:induction false} LcmAllFacts(lengths: seq<nat>)
    requires |lengths| > 0 && forall i :: 0 <= i < |lengths| ==> lengths[i] > 0
    ensures LcmAll(lengths) > 0
    ensures forall i :: 0 <= i < |lengths| ==> LcmAll(lengths) % lengths[i] == 0
    ensures forall m: int :: (forall i :: 0 <= i < |lengths| ==> m % lengths[i] == 0) ==> m % LcmAll(lengths) == 0
  {
    var n := |lengths|;
    if n == 1 {
      MulMod(lengths[0], 1);
    } else {
      var init := lengths[..n - 1];
      LcmAllFacts(init);
      var p, last := LcmAll(init), lengths[n - 1];
      LcmFacts(p, last);
      forall i | 0 <= i < n ensures LcmAll(lengths) % lengths[i] == 0 {
        if i < n - 1 {
          assert init[i] == lengths[i];
          DividesTrans(lengths[i], p, LcmAll(lengths));
        }
      }
      forall m: int | forall i :: 0 <= i < n ==> m % lengths[i] == 0
        ensures m % LcmAll(lengths) == 0
      {
        forall i | 0 <= i < n - 1 ensures m % init[i] == 0 {
          assert init[i] == lengths[i];
        }
        assert m % last == 0;
      }
    }
  }

  /** The total number of weeks to emit: the requested count when one is
      given, otherwise the lcm of the pattern lengths, folded left to right;
      None is the "no shifts configured" error. */
  method TotalWeeks(requested: Option<int>, lengths: seq<nat>) returns (total: Option<int>)
    ensures requested.Some? ==> total == requested
    ensures requested.None? ==> (total.None? <==> lengths == [])
    ensures requested.None? && lengths != [] ==> total == Some(LcmAll(lengths) as int)
  {
    if requested.Some? {
      return requested;
    }
    if |lengths| == 0 {
      return None;
    }
    var t := lengths[0];
    for i := 1 to |lengths|
      invariant t == LcmAll(lengths[..i])
    {
      assert lengths[..i + 1][..i] == lengths[..i];
      t := Lcm(t, lengths[i]);
    }
    assert lengths[..|lengths|] == lengths;
    total := Some(t);
  }
}
