/**
 * Stored preference weights and the discouragement step: before a round, the
 * weight of each graduate's (graduate, previous team) pair goes up by a fixed
 * penalty, the pair being created with the store's default weight if absent.
 */
module Preferences {
  import opened Common

  /** The preference store: one weight per (graduate, team) pair that has a row. */
  type Weights = map<(GradId, TeamId), int>

  /** The amount added to the weight of a graduate's previous team per round. */
  const PENALTY := 100

  /** The weight a get-or-create of `key` sees: the stored one, or the default for a new row. */
  function StoredOrDefault(w: Weights, key: (GradId, TeamId), defaultWeight: int): int {
    if key in w then w[key] else defaultWeight
  }

  /** Get-or-create the row for `key` and add the penalty to its weight. */
  function Bump(w: Weights, key: (GradId, TeamId), defaultWeight: int): (w': Weights)
    ensures w'.Keys == w.Keys + {key}
    ensures w'[key] == StoredOrDefault(w, key, defaultWeight) + PENALTY
    ensures forall k | k in w && k != key :: w'[k] == w[k]
  {
    w[key := StoredOrDefault(w, key, defaultWeight) + PENALTY]
  }

  /** `key` pairs one of `graduates` with the team it held before this round. */
  predicate IsPreviousPair(key: (GradId, TeamId), graduates: seq<GradId>, previous: map<GradId, TeamId>) {
    key.0 in graduates && key.0 in previous && previous[key.0] == key.1
  }

  /** The weights after the discouragement step has visited `graduates` in order. */
  function Discouraged(w: Weights, previous: map<GradId, TeamId>, graduates: seq<GradId>, defaultWeight: int): Weights
    decreases |graduates|
  {
    if graduates == [] then w
    else
      var g := Last(graduates);
      var before := Discouraged(w, previous, graduates[..|graduates| - 1], defaultWeight);
      if g in previous then Bump(before, (g, previous[g]), defaultWeight) else before
  }

  /**
   * Exactly the previous-team pairs of the graduates gain the penalty (a new
   * row starts from the default weight); every other row is untouched and no
   * other row appears.
   */
  lemma {:induction false} DiscouragedAt(
    w: Weights, previous: map<GradId, TeamId>, graduates: seq<GradId>, defaultWeight: int, key: (GradId, TeamId))
    requires Distinct(graduates)
    ensures key in Discouraged(w, previous, graduates, defaultWeight)
            <==> key in w || IsPreviousPair(key, graduates, previous)
    ensures key in Discouraged(w, previous, graduates, defaultWeight) ==>
            Discouraged(w, previous, graduates, defaultWeight)[key] ==
              if IsPreviousPair(key, graduates, previous) then StoredOrDefault(w, key, defaultWeight) + PENALTY
              else w[key]
    decreases |graduates|
  {
    if graduates != [] {
      var front := graduates[..|graduates| - 1];
      var g := Last(graduates);
      assert graduates == front + [g];
      assert Distinct(front);
      assert g !in front;
      DiscouragedAt(w, previous, front, defaultWeight, key);
    }
  }

  /** Running the step twice adds twice the penalty to every previous-team pair. */
  lemma DiscouragedTwice(
    w: Weights, previous: map<GradId, TeamId>, graduates: seq<GradId>, defaultWeight: int, key: (GradId, TeamId))
    requires Distinct(graduates)
    requires IsPreviousPair(key, graduates, previous)
    ensures var once := Discouraged(w, previous, graduates, defaultWeight);
            var twice := Discouraged(once, previous, graduates, defaultWeight);
            key in twice && twice[key] == StoredOrDefault(w, key, defaultWeight) + 2 * PENALTY
  {
    var once := Discouraged(w, previous, graduates, defaultWeight);
    DiscouragedAt(w, previous, graduates, defaultWeight, key);
    DiscouragedAt(once, previous, graduates, defaultWeight, key);
  }

  /** The step never lowers a stored weight and never removes a row, even for a graduate listed twice. */
  lemma {:induction false} DiscouragedNeverLowers(
    w: Weights, previous: map<GradId, TeamId>, graduates: seq<GradId>, defaultWeight: int, key: (GradId, TeamId))
    requires key in w
    ensures var after := Discouraged(w, previous, graduates, defaultWeight);
            key in after && after[key] >= w[key]
    decreases |graduates|
  {
    if graduates != [] {
      DiscouragedNeverLowers(w, previous, graduates[..|graduates| - 1], defaultWeight, key);
    }
  }
}
