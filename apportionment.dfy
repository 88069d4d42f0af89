/**
 * Capacity apportionment for the second run of a split allocation: the
 * largest-remainder (Hamilton, Hare-Niemeyer) method. Team i, with spare[i]
 * seats beyond its lower bound, has the exact share
 * spare[i] * count / spaces of the `count` second-run graduates, where
 * `spaces` is the total of the spares. Every team first gets the whole part
 * of its share; the seats still needed then go one each to the teams with
 * the largest fractional parts. Shares are kept exact: the whole part is
 * spare[i] * count div spaces and the fractional part is represented by the
 * remainder spare[i] * count mod spaces (all fractions share the denominator
 * `spaces`, so remainders compare as the fractions do).
 */
module Apportionment {
  import opened Common

  /** The whole part of a team's exact share a * count / spaces. */
  function WholeShare(a: nat, count: nat, spaces: nat): nat
    requires spaces > 0
  {
    a * count / spaces
  }

  /** The fractional part of a team's exact share, as a numerator over `spaces`. */
  function FractionShare(a: nat, count: nat, spaces: nat): nat
    requires spaces > 0
  {
    a * count % spaces
  }

  /** Whole part and fraction put back together give the exact share. */
  lemma ShareSplit(a: nat, count: nat, spaces: nat)
    requires spaces > 0
    ensures WholeShare(a, count, spaces) * spaces + FractionShare(a, count, spaces) == a * count
    ensures FractionShare(a, count, spaces) < spaces
  {
  }

  function Floors(spare: seq<nat>, count: nat, spaces: nat): (whole: seq<nat>)
    requires spaces > 0
    ensures |whole| == |spare|
    ensures forall i | 0 <= i < |spare| :: whole[i] == WholeShare(spare[i], count, spaces)
  {
    seq(|spare|, i requires 0 <= i < |spare| => WholeShare(spare[i], count, spaces))
  }

  function Remainders(spare: seq<nat>, count: nat, spaces: nat): (rem: seq<nat>)
    requires spaces > 0
    ensures |rem| == |spare|
    ensures forall i | 0 <= i < |spare| :: rem[i] == FractionShare(spare[i], count, spaces)
  {
    seq(|spare|, i requires 0 <= i < |spare| => FractionShare(spare[i], count, spaces))
  }

  /** Seats left over once every team has the whole part of its share. */
  function Needed(spare: seq<nat>, count: nat, spaces: nat): int
    requires spaces > 0
  {
    count - Sum(Floors(spare, count, spaces))
  }

  /**
   * Team i is served before team j: a larger fraction first and, between
   * equal fractions, the team that comes later in the team order. This is
   * the order a stable ascending sort by fraction followed by a reversal
   * produces.
   */
  predicate Before(rem: seq<int>, i: nat, j: nat) {
    i < |rem| && j < |rem| && (rem[i] > rem[j] || (rem[i] == rem[j] && i > j))
  }

  predicate RankedDescending(rem: seq<int>, order: seq<nat>) {
    forall p, q | 0 <= p < q < |order| :: Before(rem, order[p], order[q])
  }

  /** Insert team x into a ranking, in front of the first team it is served before. */
  function Insert(rem: seq<int>, x: nat, order: seq<nat>): (r: seq<nat>)
    ensures |r| == |order| + 1
    ensures multiset(r) == multiset(order) + multiset{x}
  {
    if order == [] then [x]
    else if Before(rem, x, order[0]) then [x] + order
    else
      assert order == [order[0]] + order[1..];
      [order[0]] + Insert(rem, x, order[1..])
  }

  lemma {:induction false} InsertRanked(rem: seq<int>, x: nat, order: seq<nat>)
    requires x < |rem|
    requires forall p | 0 <= p < |order| :: order[p] < |rem|
    requires x !in order
    requires RankedDescending(rem, order)
    ensures RankedDescending(rem, Insert(rem, x, order))
    decreases |order|
  {
    if order != [] && !Before(rem, x, order[0]) {
      var tail := Insert(rem, x, order[1..]);
      assert x !in order[1..];
      InsertRanked(rem, x, order[1..]);
      forall q | 0 <= q < |tail|
        ensures Before(rem, order[0], tail[q])
      {
        assert tail[q] in multiset(tail);
        if tail[q] != x {
          assert tail[q] in order[1..];
        }
      }
    }
  }

  /** Inserting x adds exactly x to the members of a ranking. */
  lemma InsertMembers(rem: seq<int>, x: nat, order: seq<nat>)
    ensures forall y :: y in Insert(rem, x, order) <==> y == x || y in order
  {
    var r := Insert(rem, x, order);
    forall y
      ensures y in r <==> y == x || y in order
    {
      assert y in r <==> y in multiset(r);
      assert y in order <==> y in multiset(order);
    }
  }

  /** A strictly ranked sequence has no repeated team. */
  lemma RankedIsDistinct(rem: seq<int>, order: seq<nat>)
    requires RankedDescending(rem, order)
    ensures Distinct(order)
  {
    forall p, q | 0 <= p < q < |order|
      ensures order[p] != order[q]
    {
      assert Before(rem, order[p], order[q]);
    }
  }

  /**
   * The team indices 0 .. k-1 in serving order: what sorting the teams by
   * fraction ascending (stably) and reversing the result gives.
   */
  function Ranking(rem: seq<int>, k: nat): (order: seq<nat>)
    requires k <= |rem|
    ensures |order| == k
    ensures forall p | 0 <= p < k :: order[p] < k
    ensures forall i: nat :: i in order <==> i < k
    ensures RankedDescending(rem, order)
    ensures Distinct(order)
  {
    if k == 0 then []
    else
      var prev := Ranking(rem, k - 1);
      assert forall p | 0 <= p < |prev| :: prev[p] < |rem|;
      assert k - 1 !in prev;
      InsertRanked(rem, k - 1, prev);
      InsertMembers(rem, k - 1, prev);
      var order := Insert(rem, k - 1, prev);
      assert forall p | 0 <= p < |order| :: order[p] in order;
      RankedIsDistinct(rem, order);
      order
  }

  /** The first m teams of `order` each receive one more seat. */
  function Award(base: seq<nat>, order: seq<nat>, m: nat): (seats: seq<nat>)
    requires m <= |order|
    requires forall p | 0 <= p < |order| :: order[p] < |base|
    ensures |seats| == |base|
    decreases m
  {
    if m == 0 then base
    else
      var prev := Award(base, order, m - 1);
      prev[order[m - 1] := prev[order[m - 1]] + 1]
  }

  lemma {:induction false} AwardAt(base: seq<nat>, order: seq<nat>, m: nat, i: nat)
    requires m <= |order|
    requires forall p | 0 <= p < |order| :: order[p] < |base|
    requires Distinct(order)
    requires i < |base|
    ensures Award(base, order, m)[i] == base[i] + (if i in order[..m] then 1 else 0)
    decreases m
  {
    if m > 0 {
      AwardAt(base, order, m - 1, i);
      assert order[..m] == order[..m - 1] + [order[m - 1]];
      if i == order[m - 1] {
        assert i !in order[..m - 1];
      }
    }
  }

  lemma {:induction false} AwardSum(base: seq<nat>, order: seq<nat>, m: nat)
    requires m <= |order|
    requires forall p | 0 <= p < |order| :: order[p] < |base|
    ensures Sum(Award(base, order, m)) == Sum(base) + m
    decreases m
  {
    if m > 0 {
      var prev := Award(base, order, m - 1);
      AwardSum(base, order, m - 1);
      SumUpdate(prev, order[m - 1], prev[order[m - 1]] + 1);
    }
  }

  /**
   * The leftover seats equal the sum of the fractional parts, and there are
   * fewer of them than teams.
   */
  lemma NeededRange(spare: seq<nat>, count: nat, spaces: nat)
    requires spaces > 0 && Sum(spare) == spaces
    ensures Needed(spare, count, spaces) * spaces == Sum(Remainders(spare, count, spaces))
    ensures 0 <= Needed(spare, count, spaces) < |spare|
  {
    var rem := Remainders(spare, count, spaces);
    var needed := Needed(spare, count, spaces);
    SharesAddUp(spare, count, spaces);
    SumBoundsTerms(rem);
    SumAtMost(rem, spaces - 1);
    assert spare != [];
    var k := |spare|;
    assert k * (spaces - 1) == k * spaces - k;
    assert needed * spaces < k * spaces;
    CancelFactor(needed, k, spaces);
    NonNegativeFactor(needed, spaces);
  }

  /** The whole parts, times `spaces`, plus the fractions add up to count * spaces. */
  lemma SharesAddUp(spare: seq<nat>, count: nat, spaces: nat)
    requires spaces > 0 && Sum(spare) == spaces
    ensures Needed(spare, count, spaces) * spaces == Sum(Remainders(spare, count, spaces))
  {
    var whole := Floors(spare, count, spaces);
    var rem := Remainders(spare, count, spaces);
    var product := seq(|spare|, i requires 0 <= i < |spare| => spare[i] * count);
    forall i | 0 <= i < |spare|
      ensures product[i] == whole[i] * spaces + rem[i]
    {
      ShareSplit(spare[i], count, spaces);
    }
    SumScaledPlus(whole, rem, product, spaces);
    SumScaled(spare, product, count);
    Distribute(count, Sum(whole), spaces);
  }

  lemma Distribute(a: int, b: int, c: int)
    ensures (a - b) * c == a * c - b * c
  {
  }

  lemma NonNegativeFactor(a: int, c: int)
    requires c > 0 && a * c >= 0
    ensures a >= 0
  {
  }

  /** The teams that receive a leftover seat: the first `Needed` in serving order. */
  function Winners(spare: seq<nat>, count: nat, spaces: nat): (winners: seq<nat>)
    requires spaces > 0 && Sum(spare) == spaces
    ensures |winners| == Needed(spare, count, spaces)
    ensures Distinct(winners)
    ensures forall p | 0 <= p < |winners| :: winners[p] < |spare|
  {
    NeededRange(spare, count, spaces);
    Ranking(Remainders(spare, count, spaces), |spare|)[..Needed(spare, count, spaces)]
  }

  /** The apportioned second-run capacity of every team. */
  function LargestRemainder(spare: seq<nat>, count: nat, spaces: nat): (seats: seq<nat>)
    requires spaces > 0 && Sum(spare) == spaces
    ensures |seats| == |spare|
  {
    NeededRange(spare, count, spaces);
    Award(Floors(spare, count, spaces),
          Ranking(Remainders(spare, count, spaces), |spare|),
          Needed(spare, count, spaces))
  }

  /** The apportioned capacities add up to exactly the number of second-run graduates. */
  lemma LargestRemainderSum(spare: seq<nat>, count: nat, spaces: nat)
    requires spaces > 0 && Sum(spare) == spaces
    ensures Sum(LargestRemainder(spare, count, spaces)) == count
  {
    NeededRange(spare, count, spaces);
    AwardSum(Floors(spare, count, spaces),
             Ranking(Remainders(spare, count, spaces), |spare|),
             Needed(spare, count, spaces));
  }

  /**
   * Every team gets the whole part of its share, plus one exactly when it is
   * among the `Needed` teams first in serving order.
   */
  lemma LargestRemainderAt(spare: seq<nat>, count: nat, spaces: nat, i: nat)
    requires spaces > 0 && Sum(spare) == spaces
    requires i < |spare|
    ensures LargestRemainder(spare, count, spaces)[i] ==
            Floors(spare, count, spaces)[i] + (if i in Winners(spare, count, spaces) then 1 else 0)
  {
    NeededRange(spare, count, spaces);
    AwardAt(Floors(spare, count, spaces),
            Ranking(Remainders(spare, count, spaces), |spare|),
            Needed(spare, count, spaces), i);
  }

  /**
   * The largest-remainder property: each team gets the whole part of its
   * share or one more, and every team given an extra seat comes before every
   * team not given one (a larger fraction, or an equal fraction and a later
   * position in the team order).
   */
  lemma LargestRemainderRanksByFraction(spare: seq<nat>, count: nat, spaces: nat)
    requires spaces > 0 && Sum(spare) == spaces
    ensures var seats := LargestRemainder(spare, count, spaces);
            var whole := Floors(spare, count, spaces);
            && (forall i | 0 <= i < |spare| :: seats[i] == whole[i] || seats[i] == whole[i] + 1)
            && (forall i, j | 0 <= i < |spare| && 0 <= j < |spare| && seats[i] == whole[i] + 1 && seats[j] == whole[j] ::
                  Before(Remainders(spare, count, spaces), i, j))
  {
    var seats := LargestRemainder(spare, count, spaces);
    var whole := Floors(spare, count, spaces);
    var rem := Remainders(spare, count, spaces);
    var order := Ranking(rem, |spare|);
    var m := Needed(spare, count, spaces);
    NeededRange(spare, count, spaces);
    forall i | 0 <= i < |spare|
      ensures seats[i] == whole[i] + (if i in order[..m] then 1 else 0)
    {
      LargestRemainderAt(spare, count, spaces, i);
    }
    forall i, j | 0 <= i < |spare| && 0 <= j < |spare| && seats[i] == whole[i] + 1 && seats[j] == whole[j]
      ensures Before(rem, i, j)
    {
      var p :| 0 <= p < m && order[p] == i;
      assert j in order;
      var q :| 0 <= q < |order| && order[q] == j;
    }
  }

  /** The teams whose apportioned capacity exceeds the whole part of their share. */
  function TeamsWithExtraSeat(spare: seq<nat>, count: nat, spaces: nat): set<nat>
    requires spaces > 0 && Sum(spare) == spaces
  {
    var seats := LargestRemainder(spare, count, spaces);
    var whole := Floors(spare, count, spaces);
    set i | 0 <= i < |spare| && seats[i] == whole[i] + 1
  }

  /** Exactly `Needed` teams are given an extra seat. */
  lemma LargestRemainderWinnerCount(spare: seq<nat>, count: nat, spaces: nat)
    requires spaces > 0 && Sum(spare) == spaces
    ensures |TeamsWithExtraSeat(spare, count, spaces)| == Needed(spare, count, spaces)
  {
    var seats := LargestRemainder(spare, count, spaces);
    var whole := Floors(spare, count, spaces);
    var winners := Winners(spare, count, spaces);
    var listed := Elements(winners);
    forall i | 0 <= i < |spare|
      ensures seats[i] == whole[i] + (if i in winners then 1 else 0)
    {
      LargestRemainderAt(spare, count, spaces, i);
    }
    forall x | x in listed
      ensures x < |spare| && seats[x] == whole[x] + 1
    {
      var p :| 0 <= p < |winners| && winners[p] == x;
    }
    assert TeamsWithExtraSeat(spare, count, spaces) == listed;
    DistinctElementCount(winners);
  }

  /** Each team's extra seat stays within its spare seats when there are no more graduates than spaces. */
  lemma LargestRemainderWithinSpare(spare: seq<nat>, count: nat, spaces: nat)
    requires spaces > 0 && Sum(spare) == spaces
    requires count <= spaces
    ensures forall i | 0 <= i < |spare| :: LargestRemainder(spare, count, spaces)[i] <= spare[i]
  {
    var seats := LargestRemainder(spare, count, spaces);
    var whole := Floors(spare, count, spaces);
    var rem := Remainders(spare, count, spaces);
    LargestRemainderRanksByFraction(spare, count, spaces);
    WinnersHaveFractions(spare, count, spaces);
    forall i | 0 <= i < |spare|
      ensures seats[i] <= spare[i]
    {
      ShareWithinSpare(spare[i], count, spaces);
    }
  }

  /**
   * With no more graduates than spaces, a share never exceeds the team's
   * spare seats, and falls short of them when it has a fractional part.
   */
  lemma ShareWithinSpare(a: nat, count: nat, spaces: nat)
    requires 0 < spaces && count <= spaces
    ensures WholeShare(a, count, spaces) <= a
    ensures FractionShare(a, count, spaces) > 0 ==> WholeShare(a, count, spaces) < a
  {
    var whole := WholeShare(a, count, spaces);
    ShareSplit(a, count, spaces);
    MultiplyMonotone(a, count, spaces);
    assert whole * spaces <= a * spaces;
    if FractionShare(a, count, spaces) > 0 {
      CancelFactor(whole, a, spaces);
    }
  }

  /** A team given an extra seat has a non-zero fractional part. */
  lemma WinnersHaveFractions(spare: seq<nat>, count: nat, spaces: nat)
    requires spaces > 0 && Sum(spare) == spaces
    ensures forall i | 0 <= i < |spare| ::
              LargestRemainder(spare, count, spaces)[i] == Floors(spare, count, spaces)[i] + 1 ==>
              Remainders(spare, count, spaces)[i] > 0
  {
    var seats := LargestRemainder(spare, count, spaces);
    var whole := Floors(spare, count, spaces);
    var rem := Remainders(spare, count, spaces);
    var k := |spare|;
    LargestRemainderRanksByFraction(spare, count, spaces);
    NeededRange(spare, count, spaces);
    LargestRemainderSum(spare, count, spaces);
    var bonus := seq(k, i requires 0 <= i < k => seats[i] - whole[i]);
    SumPointwise(whole, bonus, seats);
    forall w | 0 <= w < k && seats[w] == whole[w] + 1
      ensures rem[w] > 0
    {
      if rem[w] == 0 {
        forall j | 0 <= j < k && bonus[j] == 0
          ensures rem[j] == 0
        {
          assert Before(rem, w, j);
        }
        WinnersCarrySlack(bonus, rem, spaces);
        SumBoundsTerms(bonus);
        assert false;
      }
    }
  }

  /** Each winner's share falls short of a whole seat by spaces - rem >= 1. */
  lemma {:induction false} WinnersCarrySlack(bonus: seq<int>, rem: seq<int>, spaces: int)
    requires |bonus| == |rem|
    requires forall i | 0 <= i < |rem| :: (bonus[i] == 0 || bonus[i] == 1) && 0 <= rem[i] < spaces
    requires forall i | 0 <= i < |rem| :: bonus[i] == 0 ==> rem[i] == 0
    ensures Sum(bonus) * spaces - Sum(rem) >= Sum(bonus)
    decreases |rem|
  {
    if rem != [] {
      var k := |rem| - 1;
      WinnersCarrySlack(bonus[..k], rem[..k], spaces);
      assert (Sum(bonus[..k]) + bonus[k]) * spaces == Sum(bonus[..k]) * spaces + bonus[k] * spaces;
    }
  }

  lemma MultiplyMonotone(a: nat, b: nat, c: nat)
    requires b <= c
    ensures a * b <= a * c
  {
  }

  lemma CancelFactor(a: int, b: int, c: int)
    requires c > 0 && a * c < b * c
    ensures a < b
  {
  }

  /**
   * Compute the second-run capacities the way the allocation round does:
   * one pass over the teams for whole parts and fractions, a ranking of the
   * fractions, then one extra seat for each of the first `needed` teams.
   */
  method Apportion(teams: seq<Team>, secondRunCount: nat, remainingSpaces: nat) returns (seats: seq<nat>)
    requires BoundsFitCapacity(teams)
    requires remainingSpaces > 0 && Sum(Spares(teams)) == remainingSpaces
    ensures seats == LargestRemainder(Spares(teams), secondRunCount, remainingSpaces)
  {
    ghost var spare := Spares(teams);
    var whole, fraction := ExactShares(teams, secondRunCount, remainingSpaces);
    NeededRange(spare, secondRunCount, remainingSpaces);
    var order := Ranking(fraction, |fraction|);
    seats := AwardSeats(whole, order, secondRunCount - Sum(whole));
  }

  /** Each team's exact share of the second run, split into its whole part and its remainder. */
  method ExactShares(teams: seq<Team>, secondRunCount: nat, remainingSpaces: nat)
    returns (whole: seq<nat>, fraction: seq<nat>)
    requires BoundsFitCapacity(teams)
    requires remainingSpaces > 0
    ensures whole == Floors(Spares(teams), secondRunCount, remainingSpaces)
    ensures fraction == Remainders(Spares(teams), secondRunCount, remainingSpaces)
  {
    ghost var spare := Spares(teams);
    whole, fraction := [], [];
    for i := 0 to |teams|
      invariant |whole| == i && |fraction| == i
      invariant forall p | 0 <= p < i :: whole[p] == WholeShare(spare[p], secondRunCount, remainingSpaces)
      invariant forall p | 0 <= p < i :: fraction[p] == FractionShare(spare[p], secondRunCount, remainingSpaces)
    {
      var share := (teams[i].capacity - teams[i].lowerBound) * secondRunCount;
      assert share / remainingSpaces == WholeShare(spare[i], secondRunCount, remainingSpaces);
      assert share % remainingSpaces == FractionShare(spare[i], secondRunCount, remainingSpaces);
      whole := whole + [share / remainingSpaces];
      fraction := fraction + [share % remainingSpaces];
    }
  }

  /** One more seat to each of the first `needed` teams of `order`. */
  method AwardSeats(whole: seq<nat>, order: seq<nat>, needed: nat) returns (seats: seq<nat>)
    requires needed <= |order|
    requires forall p | 0 <= p < |order| :: order[p] < |whole|
    ensures seats == Award(whole, order, needed)
  {
    seats := whole;
    for p := 0 to needed
      invariant seats == Award(whole, order, p)
    {
      seats := seats[order[p] := seats[order[p]] + 1];
    }
  }

  /** Equal exact shares of 2 and 2 leave no seat over: the result is 2 and 2. */
  lemma EqualWholeSharesNeedNoExtraSeat()
    ensures LargestRemainder([3, 3], 4, 6) == [2, 2]
  {
    var whole := Floors([3, 3], 4, 6);
    assert whole[0] == WholeShare(3, 4, 6) == 2;
    assert whole == [2, 2];
    assert Sum([2]) == 2 by { assert [2][..0] == []; }
    assert [2, 2][..1] == [2];
    assert Sum(whole) == 4;
    assert Needed([3, 3], 4, 6) == 0;
  }
}
