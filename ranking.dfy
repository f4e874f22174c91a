/** Candidate ranking, the `rank_candidates` and `rank_night` closures of
    `allocate_week_pattern`: keep the people who may take the assignment,
    score each one, and order them by (score, name) ascending.

    Scores are kept in half-units so that they are integers: the same-type
    streak counts 2 per day, having had the same assignment last time counts
    1 (the source's 0.5), and the Friday priority bonus counts 4 (the source
    subtracts a bonus of -2, so priority names are ranked later). */
module Ranking {
  import opened Shifts
  import opened StateMachines

  datatype Candidate = Candidate(name: string, score: int)

  /** The sort key `(score, name)`, compared as Python compares tuples. */
  predicate KeyLess(c: Candidate, d: Candidate)
  {
    c.score < d.score || (c.score == d.score && NameLess(c.name, d.name))
  }

  predicate Sorted(s: seq<Candidate>)
  {
    forall i, j :: 0 <= i < j < |s| ==> !KeyLess(s[j], s[i])
  }

  lemma KeyLessTransitive(c: Candidate, d: Candidate, e: Candidate)
    requires KeyLess(c, d) && KeyLess(d, e)
    ensures KeyLess(c, e)
  {
    if c.score == d.score && d.score == e.score {
      NameLessTransitive(c.name, d.name, e.name);
    }
  }

  lemma KeyLessTotal(c: Candidate, d: Candidate)
    requires c.name != d.name
    ensures KeyLess(c, d) || KeyLess(d, c)
  {
    NameLessTotal(c.name, d.name);
  }

  /** Twice the source's score of a candidate for assignment `a`. */
  function Score(s: State, a: Assignment, priority: bool): int
  {
    2 * (if s.streakType == Some(a) then s.streakLen else 0)
    + (if s.lastAssignment == Some(a) then 1 else 0)
    + (if priority then 4 else 0)
  }

  /** The scored entry the source builds for person `p`. */
  function KeyOf(states: map<string, State>, a: Assignment, bonusNames: seq<string>, p: string): Candidate
    requires p in states
  {
    Candidate(p, Score(states[p], a, p in bonusNames))
  }

  /** What the score means: the half point is there exactly when the last
      assignment was the same type; without that and without a same-type
      streak the score is 0; and the priority term only adds. */
  lemma ScoreMeaning(s: State, a: Assignment, priority: bool)
    ensures Score(s, a, priority) % 2 == 1 <==> s.lastAssignment == Some(a)
    ensures s.streakType != Some(a) && s.lastAssignment != Some(a) && !priority ==> Score(s, a, priority) == 0
    ensures Score(s, a, true) == Score(s, a, false) + 4
  {
  }

  /** Of two people in the same state, the one on the priority list ranks
      after the one who is not: the bonus pushes priority names later. */
  lemma PriorityRanksLater(states: map<string, State>, a: Assignment, bonusNames: seq<string>, p: string, q: string)
    requires p in states && q in states && states[p] == states[q]
    requires p in bonusNames && q !in bonusNames
    ensures KeyLess(KeyOf(states, a, bonusNames, q), KeyOf(states, a, bonusNames, p))
  {
  }

  function Insert(c: Candidate, s: seq<Candidate>): seq<Candidate>
  {
    if s == [] then [c]
    else if KeyLess(c, s[0]) then [c] + s
    else [s[0]] + Insert(c, s[1..])
  }

  /** Putting an entry that no entry of a sorted list precedes in front of
      it keeps the list sorted. */
  lemma ConsSorted(x: Candidate, u: seq<Candidate>)
    requires Sorted(u)
    requires forall k :: 0 <= k < |u| ==> !KeyLess(u[k], x)
    ensures Sorted([x] + u)
  {
    var r := [x] + u;
    forall i, j | 0 <= i < j < |r| ensures !KeyLess(r[j], r[i]) {
      assert r[j] == u[j - 1];
      if i > 0 {
        assert r[i] == u[i - 1];
      }
    }
  }

  lemma SortedTail(s: seq<Candidate>)
    requires Sorted(s) && s != []
    ensures Sorted(s[1..]) && forall k :: 0 <= k < |s| ==> !KeyLess(s[k], s[0])
  {
    var t := s[1..];
    forall i, j | 0 <= i < j < |t| ensures !KeyLess(t[j], t[i]) {
      assert t[i] == s[i + 1] && t[j] == s[j + 1];
    }
    NameLessIrreflexive(s[0].name);
  }

  lemma {:induction false} InsertSorted(c: Candidate, s: seq<Candidate>)
    requires Sorted(s)
    ensures Sorted(Insert(c, s))
    ensures multiset(Insert(c, s)) == multiset(s) + multiset{c}
  {
    InsertCount(c, s);
    if s == [] {
    } else {
      SortedTail(s);
      if KeyLess(c, s[0]) {
        forall k | 0 <= k < |s| ensures !KeyLess(s[k], c) {
          if KeyLess(s[k], c) {
            KeyLessTransitive(s[k], c, s[0]);
          }
        }
        ConsSorted(c, s);
      } else {
        var t := s[1..];
        InsertSorted(c, t);
        var u := Insert(c, t);
        forall k | 0 <= k < |u| ensures !KeyLess(u[k], s[0]) {
          var x := u[k];
          assert x in multiset(u);
          if x != c {
            assert x in multiset(t);
            var i :| 0 <= i < |t| && t[i] == x;
            assert s[i + 1] == x;
          }
        }
        ConsSorted(s[0], u);
      }
    }
  }

  lemma MultisetCons(xs: seq<Candidate>)
    requires xs != []
    ensures multiset(xs) == multiset(xs[1..]) + multiset{xs[0]}
  {
    assert xs == [xs[0]] + xs[1..];
  }

  /** `scored.sort(key=lambda x: (x[1], x[0]))`: the result is ordered by the
      key and is a permutation of the input. */
  function SortByKey(xs: seq<Candidate>): (r: seq<Candidate>)
    ensures Sorted(r)
    ensures multiset(r) == multiset(xs)
    decreases |xs|
  {
    if xs == [] then []
    else
      var rest := SortByKey(xs[1..]);
      InsertSorted(xs[0], rest);
      MultisetCons(xs);
      Insert(xs[0], rest)
  }

  lemma {:induction false} InsertNoDup(c: Candidate, s: seq<Candidate>)
    requires NoDup(s) && c !in s
    ensures NoDup(Insert(c, s))
  {
    NoDupIndex(s);
    if s != [] && !KeyLess(c, s[0]) {
      var t := s[1..];
      assert NoDup(t) by {
        forall i, j | 0 <= i < j < |t| ensures t[i] != t[j] {
          assert t[i] == s[i + 1] && t[j] == s[j + 1];
        }
        NoDupIndex(t);
      }
      InsertNoDup(c, t);
      InsertSorted(c, []);
      var u := Insert(c, t);
      assert multiset(u) == multiset(t) + multiset{c} by {
        InsertCount(c, t);
      }
      assert s[0] !in u by {
        assert s[0] !in t;
        assert s[0] != c;
        assert s[0] !in multiset(u);
      }
      NoDupIndex(u);
      var r := [s[0]] + u;
      forall i, j | 0 <= i < j < |r| ensures r[i] != r[j] {
        if i == 0 {
          assert r[j] == u[j - 1];
        } else {
          assert r[i] == u[i - 1] && r[j] == u[j - 1];
        }
      }
      NoDupIndex(r);
    } else if s != [] {
      var r := [c] + s;
      forall i, j | 0 <= i < j < |r| ensures r[i] != r[j] {
        if i == 0 {
          assert r[j] == s[j - 1];
        } else {
          assert r[i] == s[i - 1] && r[j] == s[j - 1];
        }
      }
      NoDupIndex(r);
    } else {
      NoDupIndex([c]);
    }
  }

  lemma {:induction false} InsertCount(c: Candidate, s: seq<Candidate>)
    ensures multiset(Insert(c, s)) == multiset(s) + multiset{c}
  {
    if s != [] && !KeyLess(c, s[0]) {
      InsertCount(c, s[1..]);
      assert s == [s[0]] + s[1..];
    }
  }

  lemma {:induction false} SortNoDup(xs: seq<Candidate>)
    requires NoDup(xs)
    ensures NoDup(SortByKey(xs))
    decreases |xs|
  {
    if xs != [] {
      var t := xs[1..];
      NoDupIndex(xs);
      assert NoDup(t) by {
        forall i, j | 0 <= i < j < |t| ensures t[i] != t[j] {
          assert t[i] == xs[i + 1] && t[j] == xs[j + 1];
        }
        NoDupIndex(t);
      }
      SortNoDup(t);
      assert xs[0] !in t;
      assert xs[0] !in SortByKey(t) by {
        assert xs[0] !in multiset(SortByKey(t));
      }
      InsertNoDup(xs[0], SortByKey(t));
    }
  }

  /** The loop of the closures that keeps eligible candidates and scores
      them, over a prefix of the candidate list. */
  function Scored(m: Machine, cands: seq<string>, states: map<string, State>, a: Assignment, bonusNames: seq<string>): (r: seq<Candidate>)
    requires forall p :: p in cands ==> p in states
    ensures forall c :: c in r ==> c.name in cands && c.name in states && m.Eligible(states[c.name], a)
                                   && c == KeyOf(states, a, bonusNames, c.name)
    ensures forall p :: p in cands && m.Eligible(states[p], a) ==> KeyOf(states, a, bonusNames, p) in r
    decreases |cands|
  {
    if cands == [] then []
    else
      var init := cands[..|cands| - 1];
      var p := cands[|cands| - 1];
      assert forall q :: q in cands <==> q in init || q == p;
      var rest := Scored(m, init, states, a, bonusNames);
      if m.Eligible(states[p], a) then rest + [KeyOf(states, a, bonusNames, p)] else rest
  }

  lemma {:induction false} ScoredNoDup(m: Machine, cands: seq<string>, states: map<string, State>, a: Assignment, bonusNames: seq<string>)
    requires forall p :: p in cands ==> p in states
    requires NoDup(cands)
    ensures NoDup(Scored(m, cands, states, a, bonusNames))
    decreases |cands|
  {
    if cands != [] {
      var init := cands[..|cands| - 1];
      var p := cands[|cands| - 1];
      NoDupIndex(cands);
      assert NoDup(init) by {
        forall i, j | 0 <= i < j < |init| ensures init[i] != init[j] {
          assert init[i] == cands[i] && init[j] == cands[j];
        }
        NoDupIndex(init);
      }
      assert p !in init;
      ScoredNoDup(m, init, states, a, bonusNames);
      var rest := Scored(m, init, states, a, bonusNames);
      if m.Eligible(states[p], a) {
        var r := rest + [KeyOf(states, a, bonusNames, p)];
        NoDupIndex(rest);
        forall i, j | 0 <= i < j < |r| ensures r[i] != r[j] {
          if j == |r| - 1 {
            assert r[i] in rest;
          } else {
            assert r[i] == rest[i] && r[j] == rest[j];
          }
        }
        NoDupIndex(r);
      }
    }
  }

  function Names(s: seq<Candidate>): (r: seq<string>)
    ensures |r| == |s| && forall i :: 0 <= i < |s| ==> r[i] == s[i].name
  {
    seq(|s|, i requires 0 <= i < |s| => s[i].name)
  }

  /** The ranked names: the eligible candidates ordered by (score, name). */
  function Rank(m: Machine, cands: seq<string>, states: map<string, State>, a: Assignment, bonusNames: seq<string>): seq<string>
    requires forall p :: p in cands ==> p in states
  {
    Names(SortByKey(Scored(m, cands, states, a, bonusNames)))
  }

  /** Position i of the ranking carries the key at position i of the sorted
      scored list. */
  lemma RankEntries(m: Machine, cands: seq<string>, states: map<string, State>, a: Assignment, bonusNames: seq<string>)
    requires forall p :: p in cands ==> p in states
    ensures var sorted := SortByKey(Scored(m, cands, states, a, bonusNames));
      var r := Rank(m, cands, states, a, bonusNames);
      |r| == |sorted| && forall i :: 0 <= i < |r| ==> r[i] in states && sorted[i] == KeyOf(states, a, bonusNames, r[i])
  {
    var scored := Scored(m, cands, states, a, bonusNames);
    var sorted := SortByKey(scored);
    forall i | 0 <= i < |sorted| ensures sorted[i].name in states && sorted[i] == KeyOf(states, a, bonusNames, sorted[i].name) {
      assert sorted[i] in multiset(scored);
      assert sorted[i] in scored;
    }
  }

  /** The ranking holds exactly the eligible candidates. */
  lemma RankMembers(m: Machine, cands: seq<string>, states: map<string, State>, a: Assignment, bonusNames: seq<string>)
    requires forall p :: p in cands ==> p in states
    ensures forall p :: p in Rank(m, cands, states, a, bonusNames) <==> p in cands && m.Eligible(states[p], a)
  {
    var scored := Scored(m, cands, states, a, bonusNames);
    var sorted := SortByKey(scored);
    var r := Names(sorted);
    RankEntries(m, cands, states, a, bonusNames);
    forall p ensures p in r <==> p in cands && m.Eligible(states[p], a) {
      if p in r {
        var i :| 0 <= i < |r| && r[i] == p;
        assert sorted[i] in multiset(scored);
        assert sorted[i] in scored;
      }
      if p in cands && m.Eligible(states[p], a) {
        var c := KeyOf(states, a, bonusNames, p);
        assert c in scored;
        assert c in multiset(sorted);
        var i :| 0 <= i < |sorted| && sorted[i] == c;
        assert r[i] == p;
      }
    }
  }

  /** The ranking is in ascending order of the (score, name) key; over a
      roster without repeated names it repeats no one and the order is
      strict. */
  lemma RankOrdered(m: Machine, cands: seq<string>, states: map<string, State>, a: Assignment, bonusNames: seq<string>)
    requires forall p :: p in cands ==> p in states
    ensures var r := Rank(m, cands, states, a, bonusNames);
      && (forall p :: p in r ==> p in states)
      && (forall i, j :: 0 <= i < j < |r| ==>
            !KeyLess(KeyOf(states, a, bonusNames, r[j]), KeyOf(states, a, bonusNames, r[i])))
      && (NoDup(cands) ==> NoDup(r))
      && (NoDup(cands) ==> forall i, j :: 0 <= i < j < |r| ==>
            KeyLess(KeyOf(states, a, bonusNames, r[i]), KeyOf(states, a, bonusNames, r[j])))
  {
    var scored := Scored(m, cands, states, a, bonusNames);
    var sorted := SortByKey(scored);
    var r := Names(sorted);
    RankEntries(m, cands, states, a, bonusNames);
    if NoDup(cands) {
      ScoredNoDup(m, cands, states, a, bonusNames);
      SortNoDup(scored);
      NoDupIndex(sorted);
      forall i, j | 0 <= i < j < |r| ensures r[i] != r[j] && KeyLess(sorted[i], sorted[j]) {
        assert sorted[i] != sorted[j];
        KeyLessTotal(sorted[i], sorted[j]);
      }
      NoDupIndex(r);
    }
  }

  /** `rank_candidates` / `rank_night`: the loop that filters and scores,
      then the sort, then the names. */
  method RankCandidates(m: Machine, cands: seq<string>, states: map<string, State>, a: Assignment, bonusNames: seq<string>)
    returns (ranked: seq<string>)
    requires forall p :: p in cands ==> p in states
    ensures ranked == Rank(m, cands, states, a, bonusNames)
  {
    var scored: seq<Candidate> := [];
    for i := 0 to |cands|
      invariant scored == Scored(m, cands[..i], states, a, bonusNames)
    {
      assert cands[..i + 1][..i] == cands[..i];
      var p := cands[i];
      var st := states[p];
      if !m.Eligible(st, a) {
        continue;
      }
      var score := Score(st, a, p in bonusNames);
      scored := scored + [Candidate(p, score)];
    }
    assert cands[..|cands|] == cands;
    ranked := Names(SortByKey(scored));
  }
}
