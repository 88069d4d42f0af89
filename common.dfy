/**
 * Shared vocabulary of the allocation engine: the keys of graduates and teams,
 * the team record, the ways an allocation round can fail, and small facts
 * about sums and duplicate-free sequences that the other modules rely on.
 */
module Common {

  /** Graduates and teams are database rows; the model keeps only their keys. */
  type GradId = nat
  type TeamId = nat

  /** A team: its total seats and the seats a first run must fill. */
  datatype Team = Team(id: TeamId, capacity: nat, lowerBound: nat)

  /** Why an allocation round fails. */
  datatype Error =
    | InsufficientCapacity      // more graduates than seats
    | LowerBoundUnsatisfiable   // fewer graduates than the lower bounds ask for
    | MissingPreference         // a (graduate, team) pair has no stored preference
    | EmptyNetwork              // the solver is handed a network without nodes

  datatype Result<T> = Ok(value: T) | Err(error: Error)

  predicate Distinct<T(==)>(s: seq<T>) {
    forall i, j | 0 <= i < j < |s| :: s[i] != s[j]
  }

  function Last<T>(s: seq<T>): T
    requires s != []
  {
    s[|s| - 1]
  }

  function Ids(teams: seq<Team>): (ids: seq<TeamId>)
    ensures |ids| == |teams|
    ensures forall j | 0 <= j < |teams| :: ids[j] == teams[j].id
  {
    seq(|teams|, j requires 0 <= j < |teams| => teams[j].id)
  }

  function Capacities(teams: seq<Team>): (caps: seq<nat>)
    ensures |caps| == |teams|
    ensures forall j | 0 <= j < |teams| :: caps[j] == teams[j].capacity
    ensures Sum(caps) >= 0
  {
    var caps := seq(|teams|, j requires 0 <= j < |teams| => teams[j].capacity);
    SumBoundsTerms(caps);
    caps
  }

  function LowerBounds(teams: seq<Team>): (lower: seq<nat>)
    ensures |lower| == |teams|
    ensures forall j | 0 <= j < |teams| :: lower[j] == teams[j].lowerBound
    ensures Sum(lower) >= 0
  {
    var lower := seq(|teams|, j requires 0 <= j < |teams| => teams[j].lowerBound);
    SumBoundsTerms(lower);
    lower
  }

  predicate BoundsFitCapacity(teams: seq<Team>) {
    forall j | 0 <= j < |teams| :: teams[j].lowerBound <= teams[j].capacity
  }

  /** Seats a team has beyond its lower bound. */
  function Spares(teams: seq<Team>): (spare: seq<nat>)
    requires BoundsFitCapacity(teams)
    ensures |spare| == |teams|
    ensures forall j | 0 <= j < |teams| :: spare[j] + teams[j].lowerBound == teams[j].capacity
  {
    seq(|teams|, j requires 0 <= j < |teams| && teams[j].lowerBound <= teams[j].capacity =>
      teams[j].capacity - teams[j].lowerBound)
  }

  /** Team keys are unique and no lower bound exceeds its capacity. */
  predicate ValidTeams(teams: seq<Team>) {
    Distinct(Ids(teams)) && BoundsFitCapacity(teams)
  }

  /** Sum of a sequence, peeling the last element so that it follows a left-to-right loop. */
  function Sum(s: seq<int>): int {
    if s == [] then 0 else Sum(s[..|s| - 1]) + s[|s| - 1]
  }

  lemma SumPrefixStep(s: seq<int>, i: nat)
    requires i < |s|
    ensures Sum(s[..i + 1]) == Sum(s[..i]) + s[i]
  {
    assert s[..i + 1][..i] == s[..i];
  }

  lemma {:induction false} SumUpdate(s: seq<int>, i: nat, v: int)
    requires i < |s|
    ensures Sum(s[i := v]) == Sum(s) - s[i] + v
    decreases |s|
  {
    var t := s[i := v];
    if i == |s| - 1 {
      assert t[..|t| - 1] == s[..|s| - 1];
    } else {
      assert t[..|t| - 1] == s[..|s| - 1][i := v];
      SumUpdate(s[..|s| - 1], i, v);
    }
  }

  /** A sum of non-negative terms is at least each of its terms. */
  lemma {:induction false} SumBoundsTerms(s: seq<int>)
    requires forall i | 0 <= i < |s| :: s[i] >= 0
    ensures Sum(s) >= 0
    ensures forall i | 0 <= i < |s| :: s[i] <= Sum(s)
    decreases |s|
  {
    if s != [] {
      SumBoundsTerms(s[..|s| - 1]);
      assert forall i | 0 <= i < |s| - 1 :: s[..|s| - 1][i] == s[i];
    }
  }

  /** Sums of two sequences add up term by term. */
  lemma {:induction false} SumPointwise(x: seq<int>, y: seq<int>, z: seq<int>)
    requires |x| == |y| == |z|
    requires forall i | 0 <= i < |z| :: z[i] == x[i] + y[i]
    ensures Sum(z) == Sum(x) + Sum(y)
    decreases |z|
  {
    if z != [] {
      var k := |z| - 1;
      SumPointwise(x[..k], y[..k], z[..k]);
    }
  }

  /** Summing x[i] * c + y[i] gives Sum(x) * c + Sum(y). */
  lemma {:induction false} SumScaledPlus(x: seq<int>, y: seq<int>, z: seq<int>, c: int)
    requires |x| == |y| == |z|
    requires forall i | 0 <= i < |z| :: z[i] == x[i] * c + y[i]
    ensures Sum(z) == Sum(x) * c + Sum(y)
    decreases |z|
  {
    if z != [] {
      var k := |z| - 1;
      SumScaledPlus(x[..k], y[..k], z[..k], c);
      assert (Sum(x[..k]) + x[k]) * c == Sum(x[..k]) * c + x[k] * c;
    }
  }

  /** Summing x[i] * c gives Sum(x) * c. */
  lemma {:induction false} SumScaled(x: seq<int>, z: seq<int>, c: int)
    requires |x| == |z|
    requires forall i | 0 <= i < |z| :: z[i] == x[i] * c
    ensures Sum(z) == Sum(x) * c
    decreases |z|
  {
    if z != [] {
      var k := |z| - 1;
      SumScaled(x[..k], z[..k], c);
      assert (Sum(x[..k]) + x[k]) * c == Sum(x[..k]) * c + x[k] * c;
    }
  }

  /** A sum of terms each at most b is at most |s| * b. */
  lemma {:induction false} SumAtMost(s: seq<int>, b: int)
    requires forall i | 0 <= i < |s| :: s[i] <= b
    ensures Sum(s) <= |s| * b
    decreases |s|
  {
    if s != [] {
      var k := |s| - 1;
      SumAtMost(s[..k], b);
      assert |s| * b == k * b + b;
    }
  }

  /** The sum of n copies of -1. */
  lemma {:induction false} SumOfUnitSupplies(n: nat)
    ensures Sum(seq(n, _ => -1)) == -(n as int)
  {
    if n > 0 {
      assert seq(n, _ => -1)[..n - 1] == seq(n - 1, _ => -1);
      SumOfUnitSupplies(n - 1);
    }
  }

  /** In a duplicate-free sequence every element occurs at most once. */
  lemma {:induction false} DistinctHasSingleOccurrences<T>(s: seq<T>, x: T)
    requires Distinct(s)
    ensures multiset(s)[x] <= 1
    decreases |s|
  {
    if s != [] {
      var k := |s| - 1;
      var front := s[..k];
      assert s == front + [s[k]];
      assert Distinct(front);
      DistinctHasSingleOccurrences(front, x);
      if x == s[k] {
        assert x !in front;
      }
    }
  }

  /** An element at two positions occurs at least twice. */
  lemma RepeatHasTwoOccurrences<T>(s: seq<T>, i: nat, j: nat)
    requires i < j < |s| && s[i] == s[j]
    ensures multiset(s)[s[i]] >= 2
  {
    var x := s[i];
    assert s == s[..i] + [x] + s[i + 1..j] + [x] + s[j + 1..];
  }

  /** A reordering of a duplicate-free sequence is duplicate-free. */
  lemma DistinctPermutation<T>(a: seq<T>, b: seq<T>)
    requires multiset(a) == multiset(b)
    requires Distinct(a)
    ensures Distinct(b)
  {
    forall i, j | 0 <= i < j < |b|
      ensures b[i] != b[j]
    {
      if b[i] == b[j] {
        RepeatHasTwoOccurrences(b, i, j);
        DistinctHasSingleOccurrences(a, b[i]);
      }
    }
  }

  function Elements<T>(s: seq<T>): set<T> {
    set x | x in s
  }

  /** A duplicate-free sequence has as many distinct elements as positions. */
  lemma {:induction false} DistinctElementCount<T>(s: seq<T>)
    requires Distinct(s)
    ensures |Elements(s)| == |s|
    decreases |s|
  {
    if s != [] {
      var k := |s| - 1;
      var front := s[..k];
      assert Distinct(front);
      DistinctElementCount(front);
      assert s[k] !in front;
      assert Elements(s) == Elements(front) + {s[k]};
    }
  }
}
