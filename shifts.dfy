/** Shared vocabulary of the roster engine: assignment kinds, the per-person
    state record, the shapes of one roster day and one roster week, the team
    settings the allocator reads, and the ordering of person names that breaks
    ties between equally scored candidates. */
module Shifts {

  datatype Option<+T> = None | Some(value: T)

  datatype Result<+T, +E> = Ok(value: T) | Err(error: E)

  /** What a person is given on one day. */
  datatype Assignment = Day | Night | Off

  /** The fields of a PersonState record, as a value. The legacy state machine
      uses only the first three; the current one uses all of them. */
  datatype State = State(
    streakType: Option<Assignment>,
    streakLen: int,
    lastAssignment: Option<Assignment>,
    nightCooldownRemaining: int,
    workingStreakLen: int,
    previousAssignment: Option<Assignment>)

  /** The state of every person when an allocation attempt starts. */
  function FreshState(): State
  {
    State(None, 0, None, 0, 0, None)
  }

  /** One day of the roster: who works DAY, who works NIGHT, who is OFF. */
  datatype DayPlan = DayPlan(weekdayIndex: int, day: seq<string>, night: seq<string>, off: seq<string>)
  {
    function Members(a: Assignment): seq<string>
    {
      match a
      case Day => day
      case Night => night
      case Off => off
    }
  }

  /** One week of the repeating pattern. */
  datatype WeekPlan = WeekPlan(weekIndex: int, days: seq<DayPlan>)

  /** The team settings the allocator reads: the team name (which decides the
      Friday priority rule), its ordered roster, the Wednesday overfill count
      and the prefer-two-or-more flag. */
  datatype Team = Team(name: string, people: seq<string>, overfillCount: int, preferTwo: bool)

  /** No element occurs twice. The quantifier fires only on `Differ` terms,
      so a roster known to be duplicate-free does not make every pair of its
      positions a proof obligation; `NoDupIndex` gives the positional form. */
  predicate NoDup<T(==)>(s: seq<T>)
  {
    forall i, j {:trigger Differ(s, i, j)} :: 0 <= i < j < |s| ==> Differ(s, i, j)
  }

  /** Positions i and j of s hold different elements. */
  predicate Differ<T(==)>(s: seq<T>, i: int, j: int)
  {
    0 <= i < |s| && 0 <= j < |s| && s[i] != s[j]
  }

  lemma NoDupIndex<T>(s: seq<T>)
    ensures NoDup(s) <==> forall i, j :: 0 <= i < j < |s| ==> s[i] != s[j]
  {
    if NoDup(s) {
      forall i, j | 0 <= i < j < |s| ensures s[i] != s[j] {
        assert Differ(s, i, j);
      }
    }
  }

  /** `[x for x in xs if x not in ys]` */
  function Exclude<T(==,!new)>(xs: seq<T>, ys: seq<T>): (r: seq<T>)
    ensures forall x :: x in r <==> x in xs && x !in ys
    ensures |r| <= |xs|
  {
    if xs == [] then []
    else if xs[0] in ys then Exclude(xs[1..], ys)
    else [xs[0]] + Exclude(xs[1..], ys)
  }

  lemma {:induction false} ExcludeNoDup<T(!new)>(xs: seq<T>, ys: seq<T>)
    requires NoDup(xs)
    ensures NoDup(Exclude(xs, ys))
  {
    if xs != [] {
      NoDupIndex(xs);
      assert NoDup(xs[1..]) by {
        forall i, j | 0 <= i < j < |xs| - 1 ensures xs[1..][i] != xs[1..][j] {
          assert xs[1..][i] == xs[i + 1] && xs[1..][j] == xs[j + 1];
        }
        NoDupIndex(xs[1..]);
      }
      ExcludeNoDup(xs[1..], ys);
      var rest := Exclude(xs[1..], ys);
      if xs[0] !in ys {
        assert xs[0] !in xs[1..];
        NoDupIndex(rest);
        var r := [xs[0]] + rest;
        forall i, j | 0 <= i < j < |r| ensures r[i] != r[j] {
          if i == 0 {
            assert r[j] == rest[j - 1];
          } else {
            assert r[i] == rest[i - 1] && r[j] == rest[j - 1];
          }
        }
        NoDupIndex(r);
      }
    }
  }

  /** `lst[:k]` for a non-negative k. */
  function Take<T>(s: seq<T>, k: nat): (r: seq<T>)
    ensures |r| == if k <= |s| then k else |s|
    ensures r <= s
  {
    if k <= |s| then s[..k] else s
  }

  /** A prefix of a prefix is a prefix. */
  lemma PrefixChain<T>(a: seq<T>, b: seq<T>, c: seq<T>, n: nat, j: nat)
    requires n <= j <= |c| && b == c[..j] && a == b[..n]
    ensures a == c[..n]
  {
  }

  lemma PrefixAt<T>(s: seq<T>, r: seq<T>, i: int)
    requires r <= s && 0 <= i < |r|
    ensures r[i] == s[i]
  {
  }

  lemma PrefixNoDup<T>(s: seq<T>, r: seq<T>)
    requires NoDup(s) && r <= s
    ensures NoDup(r)
  {
    NoDupIndex(s);
    forall i, j | 0 <= i < j < |r| ensures r[i] != r[j] {
      assert r[i] == s[i] && r[j] == s[j];
    }
    NoDupIndex(r);
  }

  /** Python's `<` on str: lexicographic by code point, a proper prefix first. */
  predicate NameLess(a: string, b: string)
    decreases |a|
  {
    if |a| == 0 then |b| > 0
    else if |b| == 0 then false
    else if a[0] != b[0] then a[0] < b[0]
    else NameLess(a[1..], b[1..])
  }

  lemma {:induction false} NameLessIrreflexive(a: string)
    ensures !NameLess(a, a)
    decreases |a|
  {
    if |a| > 0 {
      NameLessIrreflexive(a[1..]);
    }
  }

  lemma {:induction false} NameLessTransitive(a: string, b: string, c: string)
    requires NameLess(a, b) && NameLess(b, c)
    ensures NameLess(a, c)
    decreases |a|
  {
    if |a| > 0 && a[0] == b[0] && b[0] == c[0] {
      NameLessTransitive(a[1..], b[1..], c[1..]);
    }
  }

  lemma {:induction false} NameLessTotal(a: string, b: string)
    ensures a == b || NameLess(a, b) || NameLess(b, a)
    decreases |a|
  {
    if |a| > 0 && |b| > 0 && a[0] == b[0] {
      NameLessTotal(a[1..], b[1..]);
      if a[1..] == b[1..] {
        assert a == [a[0]] + a[1..] && b == [b[0]] + b[1..];
      }
    }
  }

  lemma {:induction false} NameLessAsymmetric(a: string, b: string)
    requires NameLess(a, b)
    ensures !NameLess(b, a)
  {
    if NameLess(b, a) {
      NameLessTransitive(a, b, a);
      NameLessIrreflexive(a);
    }
  }

  /** ASCII lower-casing. Python's `str.lower` maps more characters, but no
      character outside ASCII lowers to a single character of "shift 2", so the
      comparison in IsShiftTwo is the same either way. */
  function LowerChar(c: char): char
  {
    if 'A' <= c <= 'Z' then (c as int - 'A' as int + 'a' as int) as char else c
  }

  function Lower(s: string): (r: string)
    ensures |r| == |s|
    ensures forall i :: 0 <= i < |s| ==> r[i] == LowerChar(s[i])
  {
    if s == [] then [] else [LowerChar(s[0])] + Lower(s[1..])
  }

  /** `shift.name.lower() == "shift 2"`: the team to which the Friday priority
      list applies. */
  predicate IsShiftTwo(name: string)
  {
    Lower(name) == "shift 2"
  }
}
