/**
 * One allocation round: discourage previous teams, total the vacancies,
 * refuse impossible rounds, then place the graduates with one min-cost-flow
 * run (when there are exactly as many graduates as seats) or with two runs
 * (a first run that fills every team's lower bound, and a second run over
 * the remaining graduates with seats apportioned by largest remainder).
 * The stored preference weights and each graduate's assigned team are the
 * mutable database state; they live in the class Database.
 */
module Allocation {
  import opened Common
  import opened Preferences
  import opened Apportionment
  import opened FlowNetwork

  /** How a round that passes the count checks is run. */
  datatype Strategy = SingleRun | TwoRuns

  /** Total seats and total lower-bound seats over all teams, in one pass. */
  method Totals(teams: seq<Team>) returns (totalVacancies: nat, lowerBoundVacancies: nat)
    ensures totalVacancies == Sum(Capacities(teams))
    ensures lowerBoundVacancies == Sum(LowerBounds(teams))
  {
    totalVacancies, lowerBoundVacancies := 0, 0;
    for j := 0 to |teams|
      invariant totalVacancies == Sum(Capacities(teams)[..j])
      invariant lowerBoundVacancies == Sum(LowerBounds(teams)[..j])
    {
      SumPrefixStep(Capacities(teams), j);
      SumPrefixStep(LowerBounds(teams), j);
      totalVacancies := totalVacancies + teams[j].capacity;
      lowerBoundVacancies := lowerBoundVacancies + teams[j].lowerBound;
    }
    assert Capacities(teams)[..|teams|] == Capacities(teams);
    assert LowerBounds(teams)[..|teams|] == LowerBounds(teams);
  }

  /**
   * The seats beyond the lower bounds are the total seats less the
   * lower-bound seats, and never negative.
   */
  lemma SparesAddUp(teams: seq<Team>)
    requires BoundsFitCapacity(teams)
    ensures Sum(Spares(teams)) == Sum(Capacities(teams)) - Sum(LowerBounds(teams))
    ensures Sum(LowerBounds(teams)) <= Sum(Capacities(teams))
  {
    SumPointwise(LowerBounds(teams), Spares(teams), Capacities(teams));
    SumBoundsTerms(Spares(teams));
  }

  /**
   * The count checks and the choice of strategy: too many graduates for the
   * seats fails first, too few for the lower bounds fails next; exactly as
   * many graduates as seats is a single run and anything else two runs.
   * (The source tests the lower bound once more before two runs; that test
   * always passes at that point.)
   */
  function ChooseStrategy(graduates: nat, totalVacancies: int, lowerBoundVacancies: int): (r: Result<Strategy>)
    ensures r == Err(InsufficientCapacity) <==> graduates > totalVacancies
    ensures r == Err(LowerBoundUnsatisfiable) <==> graduates <= totalVacancies && graduates < lowerBoundVacancies
    ensures r.Ok? <==> lowerBoundVacancies <= graduates <= totalVacancies
    ensures r == Ok(SingleRun) <==> r.Ok? && graduates == totalVacancies
    ensures r == Ok(TwoRuns) ==> totalVacancies - lowerBoundVacancies > 0
  {
    if graduates > totalVacancies then Err(InsufficientCapacity)
    else if graduates < lowerBoundVacancies then Err(LowerBoundUnsatisfiable)
    else if graduates == totalVacancies then Ok(SingleRun)
    else Ok(TwoRuns)
  }

  /** Splits the graduates into the first run (the first `firstRunSize`) and the rest. */
  function Partition(order: seq<GradId>, firstRunSize: nat): (runs: (seq<GradId>, seq<GradId>))
    requires firstRunSize <= |order|
    ensures |runs.0| == firstRunSize && |runs.1| == |order| - firstRunSize
    ensures runs.0 + runs.1 == order
    ensures Distinct(order) ==> Distinct(runs.0) && Distinct(runs.1)
    ensures Distinct(order) ==> forall g | g in runs.0 :: g !in runs.1
  {
    var first, second := order[..firstRunSize], order[firstRunSize..];
    assert first + second == order;
    (first, second)
  }

  /**
   * How many graduates each team receives in a round that passes the count
   * checks: its capacity in a single run, and otherwise its lower bound plus
   * its apportioned share of the remaining graduates. Every team ends between
   * its lower bound and its capacity, and the seats add up to the graduates.
   */
  function TargetSeats(teams: seq<Team>, graduates: nat): (target: seq<nat>)
    requires BoundsFitCapacity(teams)
    requires Sum(LowerBounds(teams)) <= graduates <= Sum(Capacities(teams))
    ensures |target| == |teams|
    ensures forall j | 0 <= j < |teams| :: teams[j].lowerBound <= target[j] <= teams[j].capacity
    ensures Sum(target) == graduates
  {
    if graduates == Sum(Capacities(teams)) then Capacities(teams)
    else
      SecondRunTargetsWithin(teams, graduates);
      SecondRunTargetsSum(teams, graduates);
      RaisedBy(teams, SecondRunSeats(teams, graduates))
  }

  /** The seats apportioned to each team in the second run of `graduates` graduates. */
  function SecondRunSeats(teams: seq<Team>, graduates: nat): (extra: seq<nat>)
    requires BoundsFitCapacity(teams)
    requires Sum(LowerBounds(teams)) <= graduates < Sum(Capacities(teams))
    ensures |extra| == |teams|
  {
    SparesAddUp(teams);
    var lower := Sum(LowerBounds(teams));
    LargestRemainder(Spares(teams), graduates - lower, Sum(Capacities(teams)) - lower)
  }

  /** The second run's seats, with the graduates and the seats left given by name. */
  lemma SecondRunSeatsAre(teams: seq<Team>, graduates: nat, count: nat, spaces: nat)
    requires BoundsFitCapacity(teams)
    requires Sum(LowerBounds(teams)) <= graduates < Sum(Capacities(teams))
    requires count == graduates - Sum(LowerBounds(teams))
    requires spaces == Sum(Capacities(teams)) - Sum(LowerBounds(teams))
    ensures spaces > 0 && Sum(Spares(teams)) == spaces
    ensures SecondRunSeats(teams, graduates) == LargestRemainder(Spares(teams), count, spaces)
  {
    SparesAddUp(teams);
  }

  /** Each team's lower bound raised by its entry of `extra`. */
  function RaisedBy(teams: seq<Team>, extra: seq<nat>): (target: seq<nat>)
    requires |extra| == |teams|
  {
    seq(|teams|, j requires 0 <= j < |teams| => teams[j].lowerBound + extra[j])
  }

  /** In two runs a team's target is its lower bound plus its apportioned seats. */
  lemma SecondRunTargetAt(teams: seq<Team>, graduates: nat, j: nat)
    requires BoundsFitCapacity(teams)
    requires Sum(LowerBounds(teams)) <= graduates < Sum(Capacities(teams))
    requires j < |teams|
    ensures TargetSeats(teams, graduates)[j] == teams[j].lowerBound + SecondRunSeats(teams, graduates)[j]
  {
    assert TargetSeats(teams, graduates) == RaisedBy(teams, SecondRunSeats(teams, graduates));
  }

  /** In two runs every team ends between its lower bound and its capacity. */
  lemma SecondRunTargetsWithin(teams: seq<Team>, graduates: nat)
    requires BoundsFitCapacity(teams)
    requires Sum(LowerBounds(teams)) <= graduates < Sum(Capacities(teams))
    ensures var target := RaisedBy(teams, SecondRunSeats(teams, graduates));
            forall j | 0 <= j < |teams| :: teams[j].lowerBound <= target[j] <= teams[j].capacity
  {
    SparesAddUp(teams);
    var lower, total := Sum(LowerBounds(teams)), Sum(Capacities(teams));
    var spare := Spares(teams);
    var extra := SecondRunSeats(teams, graduates);
    LargestRemainderWithinSpare(spare, graduates - lower, total - lower);
    assert forall j | 0 <= j < |teams| :: extra[j] <= spare[j];
  }

  /** In two runs all graduates are seated. */
  lemma SecondRunTargetsSum(teams: seq<Team>, graduates: nat)
    requires BoundsFitCapacity(teams)
    requires Sum(LowerBounds(teams)) <= graduates < Sum(Capacities(teams))
    ensures Sum(RaisedBy(teams, SecondRunSeats(teams, graduates))) == graduates
  {
    SparesAddUp(teams);
    var lower, total := Sum(LowerBounds(teams)), Sum(Capacities(teams));
    var extra := SecondRunSeats(teams, graduates);
    LargestRemainderSum(Spares(teams), graduates - lower, total - lower);
    SumPointwise(LowerBounds(teams), extra, RaisedBy(teams, extra));
  }

  /** The graduates whose assigned team the merge of one run's flow sets, with the team it sets. */
  function Reassigned(before: map<GradId, TeamId>, grads: seq<GradId>, tids: seq<TeamId>, flow: Flow)
    : map<GradId, TeamId>
    decreases |grads|
  {
    if grads == [] then before
    else
      var after := Reassigned(before, grads[..|grads| - 1], tids, flow);
      var d := Destinations(Last(grads), tids, flow);
      if d == [] then after else after[Last(grads) := Last(d)]
  }

  /**
   * After the merge, a graduate of the run with a destination holds the last
   * team its unit went to; every other graduate keeps the team it had.
   */
  lemma {:induction false} ReassignedAt(
    before: map<GradId, TeamId>, grads: seq<GradId>, tids: seq<TeamId>, flow: Flow, g: GradId)
    ensures var after := Reassigned(before, grads, tids, flow);
            var moved := g in grads && Destinations(g, tids, flow) != [];
            && (g in after <==> g in before || moved)
            && (g in after ==> after[g] == if moved then Last(Destinations(g, tids, flow)) else before[g])
    decreases |grads|
  {
    if grads != [] {
      var front := grads[..|grads| - 1];
      assert grads == front + [Last(grads)];
      ReassignedAt(before, front, tids, flow, g);
    }
  }

  /** One more graduate merged: each team's list grows by the graduate if its unit went there. */
  lemma MergedStep(
    lists: seq<seq<GradId>>, previous: seq<seq<GradId>>, next: seq<seq<GradId>>,
    grads: seq<GradId>, i: nat, tids: seq<TeamId>, flow: Flow)
    requires |previous| == |next| == |lists| == |tids| && i < |grads|
    requires forall j | 0 <= j < |tids| :: previous[j] == lists[j] + Recipients(grads[..i], tids[j], flow)
    requires forall j | 0 <= j < |tids| ::
               next[j] == previous[j] + (if Carries(flow, grads[i], tids[j]) then [grads[i]] else [])
    ensures forall j | 0 <= j < |tids| :: next[j] == lists[j] + Recipients(grads[..i + 1], tids[j], flow)
  {
    forall j | 0 <= j < |tids|
      ensures next[j] == lists[j] + Recipients(grads[..i + 1], tids[j], flow)
    {
      RecipientsStep(grads, i, tids[j], flow);
    }
  }

  /** One more graduate merged: its assigned team becomes the last team its unit went to, if any. */
  lemma ReassignedStep(before: map<GradId, TeamId>, grads: seq<GradId>, i: nat, tids: seq<TeamId>, flow: Flow)
    requires i < |grads|
    ensures var d := Destinations(grads[i], tids, flow);
            var after := Reassigned(before, grads[..i], tids, flow);
            Reassigned(before, grads[..i + 1], tids, flow) == if d == [] then after else after[grads[i] := Last(d)]
  {
    assert grads[..i + 1][..i] == grads[..i];
  }

  /**
   * The outcome of a successful round: one list per team; a listed graduate
   * is one of the round's graduates and is now assigned that team; every
   * graduate of the round is listed somewhere; nobody else's assignment
   * changes.
   */
  predicate Placed(
    graduates: seq<GradId>, tids: seq<TeamId>, lists: seq<seq<GradId>>,
    before: map<GradId, TeamId>, after: map<GradId, TeamId>)
  {
    && |lists| == |tids|
    && (forall j | 0 <= j < |lists| :: Distinct(lists[j]))
    && (forall j, g | 0 <= j < |lists| && g in lists[j] :: g in graduates && g in after && after[g] == tids[j])
    && (forall g | g in graduates :: exists j :: 0 <= j < |lists| && g in lists[j])
    && after.Keys == before.Keys + Elements(graduates)
    && (forall g | g in before && g !in graduates :: after[g] == before[g])
  }

  /** With distinct team keys, no graduate is listed for two teams. */
  lemma PlacedListsDisjoint(
    graduates: seq<GradId>, tids: seq<TeamId>, lists: seq<seq<GradId>>,
    before: map<GradId, TeamId>, after: map<GradId, TeamId>, j: nat, k: nat, g: GradId)
    requires Placed(graduates, tids, lists, before, after)
    requires Distinct(tids)
    requires j < |lists| && k < |lists| && g in lists[j] && g in lists[k]
    ensures j == k
  {
    assert after[g] == tids[j] && after[g] == tids[k];
  }

  /** Merging a feasible flow places exactly the run's graduates, each on the team its unit went to. */
  lemma SolvedFlowPlaces(net: Network, flow: Flow, lists: seq<seq<GradId>>, before: map<GradId, TeamId>)
    requires WellFormed(net) && Solves(net, flow)
    requires |lists| == |net.teams|
    requires forall j | 0 <= j < |lists| :: lists[j] == Recipients(net.grads, net.teams[j], flow)
    ensures Placed(net.grads, net.teams, lists, before, Reassigned(before, net.grads, net.teams, flow))
    ensures forall j | 0 <= j < |lists| :: |lists[j]| == net.teamDemand[j]
  {
    SolvedListsDistinct(net, flow, lists);
    SolvedListedAssigned(net, flow, lists, before);
    SolvedEveryoneListed(net, flow, lists);
    SolvedOthersKept(net, flow, before);
  }

  /** No team lists a graduate twice. */
  lemma SolvedListsDistinct(net: Network, flow: Flow, lists: seq<seq<GradId>>)
    requires WellFormed(net)
    requires |lists| == |net.teams|
    requires forall j | 0 <= j < |lists| :: lists[j] == Recipients(net.grads, net.teams[j], flow)
    ensures forall j | 0 <= j < |lists| :: Distinct(lists[j])
  {
    forall j | 0 <= j < |lists|
      ensures Distinct(lists[j])
    {
      RecipientsMembers(net.grads, net.teams[j], flow);
    }
  }

  /** A graduate a team lists belongs to the run and is now assigned that team. */
  lemma SolvedListedAssigned(net: Network, flow: Flow, lists: seq<seq<GradId>>, before: map<GradId, TeamId>)
    requires WellFormed(net) && Solves(net, flow)
    requires |lists| == |net.teams|
    requires forall j | 0 <= j < |lists| :: lists[j] == Recipients(net.grads, net.teams[j], flow)
    ensures var after := Reassigned(before, net.grads, net.teams, flow);
            forall j, g | 0 <= j < |lists| && g in lists[j] :: g in net.grads && g in after && after[g] == net.teams[j]
  {
    forall j, g | 0 <= j < |lists| && g in lists[j]
      ensures var after := Reassigned(before, net.grads, net.teams, flow);
              g in net.grads && g in after && after[g] == net.teams[j]
    {
      RecipientsMembers(net.grads, net.teams[j], flow);
      SolvedGraduateHasOneTeam(net, flow, g);
      ReassignedAt(before, net.grads, net.teams, flow, g);
    }
  }

  /** Every graduate of the run is listed by some team. */
  lemma SolvedEveryoneListed(net: Network, flow: Flow, lists: seq<seq<GradId>>)
    requires WellFormed(net) && Solves(net, flow)
    requires |lists| == |net.teams|
    requires forall j | 0 <= j < |lists| :: lists[j] == Recipients(net.grads, net.teams[j], flow)
    ensures forall g | g in net.grads :: exists j :: 0 <= j < |lists| && g in lists[j]
  {
    forall g | g in net.grads
      ensures exists j :: 0 <= j < |lists| && g in lists[j]
    {
      SolvedGraduateHasOneTeam(net, flow, g);
      var t := Destinations(g, net.teams, flow)[0];
      var j :| 0 <= j < |net.teams| && net.teams[j] == t;
      assert g in lists[j];
    }
  }

  /** The merge adds the run's graduates to the assignments and leaves everyone else's alone. */
  lemma SolvedOthersKept(net: Network, flow: Flow, before: map<GradId, TeamId>)
    requires WellFormed(net) && Solves(net, flow)
    ensures var after := Reassigned(before, net.grads, net.teams, flow);
            && after.Keys == before.Keys + Elements(net.grads)
            && (forall g | g in before && g !in net.grads :: after[g] == before[g])
  {
    var after := Reassigned(before, net.grads, net.teams, flow);
    forall g
      ensures g in after <==> g in before || g in Elements(net.grads)
      ensures g in before && g !in net.grads ==> after[g] == before[g]
    {
      ReassignedAt(before, net.grads, net.teams, flow, g);
      if g in net.grads {
        SolvedGraduateHasOneTeam(net, flow, g);
      }
    }
  }

  /** Joining duplicate-free lists drawn from two disjoint groups gives a duplicate-free list. */
  lemma DistinctJoin(a: seq<GradId>, b: seq<GradId>, first: seq<GradId>, second: seq<GradId>)
    requires Distinct(a) && Distinct(b)
    requires forall g | g in a :: g in first
    requires forall g | g in b :: g in second
    requires forall g | g in first :: g !in second
    ensures Distinct(a + b)
  {
    var c := a + b;
    forall p, q | 0 <= p < q < |c|
      ensures c[p] != c[q]
    {
      if q < |a| {
        assert c[p] == a[p] && c[q] == a[q];
      } else if p >= |a| {
        assert c[p] == b[p - |a|] && c[q] == b[q - |a|];
      } else {
        assert c[p] == a[p] && a[p] in a;
        assert c[q] == b[q - |a|] && b[q - |a|] in b;
      }
    }
  }

  /** Two placements over disjoint groups of graduates, one after the other, place both groups. */
  lemma PlacedJoin(
    first: seq<GradId>, second: seq<GradId>, tids: seq<TeamId>,
    lists1: seq<seq<GradId>>, lists2: seq<seq<GradId>>, joined: seq<seq<GradId>>,
    before: map<GradId, TeamId>, middle: map<GradId, TeamId>, after: map<GradId, TeamId>)
    requires Placed(first, tids, lists1, before, middle)
    requires Placed(second, tids, lists2, middle, after)
    requires forall g | g in first :: g !in second
    requires |joined| == |tids|
    requires forall j | 0 <= j < |joined| :: joined[j] == lists1[j] + lists2[j]
    ensures Placed(first + second, tids, joined, before, after)
  {
    PlacedJoinDistinct(first, second, tids, lists1, lists2, joined, before, middle, after);
    PlacedJoinListed(first, second, tids, lists1, lists2, joined, before, middle, after);
    PlacedJoinCovers(first, second, tids, lists1, lists2, joined, before, middle, after);
    PlacedJoinKeys(first, second, tids, lists1, lists2, before, middle, after);
  }

  /** After both placements the assignments gained both groups and nobody else changed. */
  lemma PlacedJoinKeys(
    first: seq<GradId>, second: seq<GradId>, tids: seq<TeamId>,
    lists1: seq<seq<GradId>>, lists2: seq<seq<GradId>>,
    before: map<GradId, TeamId>, middle: map<GradId, TeamId>, after: map<GradId, TeamId>)
    requires Placed(first, tids, lists1, before, middle)
    requires Placed(second, tids, lists2, middle, after)
    ensures after.Keys == before.Keys + Elements(first + second)
    ensures forall g | g in before && g !in first + second :: after[g] == before[g]
  {
    assert Elements(first + second) == Elements(first) + Elements(second);
  }

  /** Joined lists from disjoint groups keep every graduate once. */
  lemma PlacedJoinDistinct(
    first: seq<GradId>, second: seq<GradId>, tids: seq<TeamId>,
    lists1: seq<seq<GradId>>, lists2: seq<seq<GradId>>, joined: seq<seq<GradId>>,
    before: map<GradId, TeamId>, middle: map<GradId, TeamId>, after: map<GradId, TeamId>)
    requires Placed(first, tids, lists1, before, middle)
    requires Placed(second, tids, lists2, middle, after)
    requires forall g | g in first :: g !in second
    requires |joined| == |tids|
    requires forall j | 0 <= j < |joined| :: joined[j] == lists1[j] + lists2[j]
    ensures forall j | 0 <= j < |joined| :: Distinct(joined[j])
  {
    forall j | 0 <= j < |joined|
      ensures Distinct(joined[j])
    {
      DistinctJoin(lists1[j], lists2[j], first, second);
    }
  }

  /** After both placements, a graduate a team lists holds that team. */
  lemma PlacedJoinListed(
    first: seq<GradId>, second: seq<GradId>, tids: seq<TeamId>,
    lists1: seq<seq<GradId>>, lists2: seq<seq<GradId>>, joined: seq<seq<GradId>>,
    before: map<GradId, TeamId>, middle: map<GradId, TeamId>, after: map<GradId, TeamId>)
    requires Placed(first, tids, lists1, before, middle)
    requires Placed(second, tids, lists2, middle, after)
    requires forall g | g in first :: g !in second
    requires |joined| == |tids|
    requires forall j | 0 <= j < |joined| :: joined[j] == lists1[j] + lists2[j]
    ensures forall j, g | 0 <= j < |joined| && g in joined[j] :: g in first + second && g in after && after[g] == tids[j]
  {
    forall j, g | 0 <= j < |joined| && g in joined[j]
      ensures g in first + second && g in after && after[g] == tids[j]
    {
      assert g in lists1[j] || g in lists2[j];
    }
  }

  /** After both placements, every graduate of either group is listed by some team. */
  lemma PlacedJoinCovers(
    first: seq<GradId>, second: seq<GradId>, tids: seq<TeamId>,
    lists1: seq<seq<GradId>>, lists2: seq<seq<GradId>>, joined: seq<seq<GradId>>,
    before: map<GradId, TeamId>, middle: map<GradId, TeamId>, after: map<GradId, TeamId>)
    requires Placed(first, tids, lists1, before, middle)
    requires Placed(second, tids, lists2, middle, after)
    requires |joined| == |tids|
    requires forall j | 0 <= j < |joined| :: joined[j] == lists1[j] + lists2[j]
    ensures forall g | g in first + second :: exists j :: 0 <= j < |joined| && g in joined[j]
  {
    forall g | g in first + second
      ensures exists j :: 0 <= j < |joined| && g in joined[j]
    {
      if g in first {
        var j :| 0 <= j < |lists1| && g in lists1[j];
        assert g in joined[j];
      } else {
        var j :| 0 <= j < |lists2| && g in lists2[j];
        assert g in joined[j];
      }
    }
  }

  /**
   * The merge of both runs' flows: `lists1` after the first run, `lists`
   * after the second, and the assignments `before`, `middle` and `after`
   * around them.
   */
  predicate MergedRuns(
    runs: TwoRunFlows, lists1: seq<seq<GradId>>, lists: seq<seq<GradId>>,
    before: map<GradId, TeamId>, middle: map<GradId, TeamId>, after: map<GradId, TeamId>)
  {
    && |lists1| == |lists| == |runs.first.teams| == |runs.second.teams|
    && (forall j | 0 <= j < |lists| :: lists1[j] == [] + Recipients(runs.first.grads, runs.first.teams[j], runs.firstFlow))
    && (forall j | 0 <= j < |lists| ::
          lists[j] == lists1[j] + Recipients(runs.second.grads, runs.second.teams[j], runs.secondFlow))
    && middle == Reassigned(before, runs.first.grads, runs.first.teams, runs.firstFlow)
    && after == Reassigned(middle, runs.second.grads, runs.second.teams, runs.secondFlow)
  }

  /** Merging a first-run flow and then a second-run flow over disjoint groups places both groups. */
  lemma TwoRunsPlace(
    runs: TwoRunFlows, lists1: seq<seq<GradId>>, lists: seq<seq<GradId>>,
    before: map<GradId, TeamId>, middle: map<GradId, TeamId>, after: map<GradId, TeamId>)
    requires WellFormed(runs.first) && Solves(runs.first, runs.firstFlow)
    requires WellFormed(runs.second) && Solves(runs.second, runs.secondFlow)
    requires runs.first.teams == runs.second.teams
    requires forall g | g in runs.first.grads :: g !in runs.second.grads
    requires MergedRuns(runs, lists1, lists, before, middle, after)
    ensures Placed(runs.first.grads + runs.second.grads, runs.first.teams, lists, before, after)
    ensures forall j | 0 <= j < |lists| :: |lists[j]| == runs.first.teamDemand[j] + runs.second.teamDemand[j]
  {
    var rest := RunLists(runs.second, runs.secondFlow);
    FirstRunPlaced(runs, lists1, lists, before, middle, after);
    SecondRunPlaced(runs, lists1, lists, before, middle, after);
    PlacedJoin(runs.first.grads, runs.second.grads, runs.first.teams, lists1, rest, lists, before, middle, after);
  }

  /** Each team's recipients in one run's flow. */
  function RunLists(net: Network, flow: Flow): (lists: seq<seq<GradId>>)
    ensures |lists| == |net.teams|
    ensures forall j | 0 <= j < |net.teams| :: lists[j] == Recipients(net.grads, net.teams[j], flow)
  {
    seq(|net.teams|, j requires 0 <= j < |net.teams| => Recipients(net.grads, net.teams[j], flow))
  }

  /** The first run's merge places the first run's graduates. */
  lemma FirstRunPlaced(
    runs: TwoRunFlows, lists1: seq<seq<GradId>>, lists: seq<seq<GradId>>,
    before: map<GradId, TeamId>, middle: map<GradId, TeamId>, after: map<GradId, TeamId>)
    requires WellFormed(runs.first) && Solves(runs.first, runs.firstFlow)
    requires MergedRuns(runs, lists1, lists, before, middle, after)
    ensures Placed(runs.first.grads, runs.first.teams, lists1, before, middle)
    ensures forall j | 0 <= j < |lists1| :: |lists1[j]| == runs.first.teamDemand[j]
  {
    assert forall j | 0 <= j < |lists1| :: lists1[j] == Recipients(runs.first.grads, runs.first.teams[j], runs.firstFlow);
    SolvedFlowPlaces(runs.first, runs.firstFlow, lists1, before);
  }

  /** The second run's merge places the second run's graduates; each team's list grows by its recipients. */
  lemma SecondRunPlaced(
    runs: TwoRunFlows, lists1: seq<seq<GradId>>, lists: seq<seq<GradId>>,
    before: map<GradId, TeamId>, middle: map<GradId, TeamId>, after: map<GradId, TeamId>)
    requires WellFormed(runs.second) && Solves(runs.second, runs.secondFlow)
    requires MergedRuns(runs, lists1, lists, before, middle, after)
    ensures var rest := RunLists(runs.second, runs.secondFlow);
            && Placed(runs.second.grads, runs.second.teams, rest, middle, after)
            && (forall j | 0 <= j < |lists| :: lists[j] == lists1[j] + rest[j])
            && (forall j | 0 <= j < |rest| :: |rest[j]| == runs.second.teamDemand[j])
  {
    SolvedFlowPlaces(runs.second, runs.secondFlow, RunLists(runs.second, runs.secondFlow), middle);
  }

  /** Each team's list starts with the graduates the first run sent it, as many as the team demanded there. */
  lemma FirstRunListedFirst(
    runs: TwoRunFlows, lists1: seq<seq<GradId>>, lists: seq<seq<GradId>>,
    before: map<GradId, TeamId>, middle: map<GradId, TeamId>, after: map<GradId, TeamId>)
    requires WellFormed(runs.first) && Solves(runs.first, runs.firstFlow)
    requires MergedRuns(runs, lists1, lists, before, middle, after)
    ensures forall j, p | 0 <= j < |lists| && 0 <= p < runs.first.teamDemand[j] ::
              p < |lists[j]| && lists[j][p] in runs.first.grads
  {
    var net1 := runs.first;
    forall j, p | 0 <= j < |lists| && 0 <= p < net1.teamDemand[j]
      ensures p < |lists[j]| && lists[j][p] in net1.grads
    {
      RecipientsMembers(net1.grads, net1.teams[j], runs.firstFlow);
      assert lists[j][p] == lists1[j][p];
      assert lists1[j][p] in lists1[j];
    }
  }

  /** A sequence is its prefix followed by the rest. */
  lemma PrefixAndRest(order: seq<GradId>, lower: nat)
    requires lower <= |order|
    ensures order[..lower] + order[lower..] == order
  {
  }

  /** An element of a prefix sits at an index inside the prefix. */
  lemma PrefixIndex(order: seq<GradId>, lower: nat, g: GradId)
    requires lower <= |order| && g in order[..lower]
    ensures exists q :: 0 <= q < lower && order[q] == g
  {
    var q :| 0 <= q < lower && order[..lower][q] == g;
  }

  /** The networks of the two runs and the flows the solver returned for them. */
  datatype TwoRunFlows = TwoRunFlows(first: Network, firstFlow: Flow, second: Network, secondFlow: Flow)

  /**
   * The two runs of a round over `order`: the first `lower` graduates go to
   * a network demanding every team's lower bound, the rest to a network
   * demanding the apportioned seats, and each flow solves its network.
   */
  predicate SolvedTwoRuns(order: seq<GradId>, teams: seq<Team>, runs: TwoRunFlows)
    requires BoundsFitCapacity(teams)
    requires Sum(LowerBounds(teams)) <= |order| < Sum(Capacities(teams))
  {
    var lower := Sum(LowerBounds(teams));
    && runs.first.grads == order[..lower] && runs.second.grads == order[lower..]
    && (forall g | g in runs.first.grads :: g !in runs.second.grads)
    && runs.first.teams == runs.second.teams == Ids(teams)
    && runs.first.teamDemand == LowerBounds(teams)
    && runs.second.teamDemand == SecondRunSeats(teams, |order|)
    && WellFormed(runs.first) && Solves(runs.first, runs.firstFlow)
    && WellFormed(runs.second) && Solves(runs.second, runs.secondFlow)
  }

  /**
   * Builds and solves the networks of the two runs. Either network fails to
   * build when a (graduate, team) pair of its run has no stored preference.
   */
  method SolveTwoRuns(order: seq<GradId>, teams: seq<Team>, weight: Weights, solve: Network -> Flow)
    returns (r: Result<TwoRunFlows>)
    requires Distinct(order) && ValidTeams(teams)
    requires Sum(LowerBounds(teams)) <= |order| < Sum(Capacities(teams))
    requires IsFlowOracle(solve)
    ensures r.Err? <==> !HasAllPreferences(order, Ids(teams), weight)
    ensures r.Err? ==> r.error == MissingPreference
    ensures r.Ok? ==> SolvedTwoRuns(order, teams, r.value)
    ensures r.Ok? ==> AnsweredTwoRuns(order, teams, weight, solve, r.value)
  {
    var total, lower := Totals(teams);
    SparesAddUp(teams);
    var runs := Partition(order, lower);
    var first, second := runs.0, runs.1;
    assert first == order[..lower] && second == order[lower..];
    PreferencesOfJoin(first, second, Ids(teams), weight);
    TeamDemandsOf(teams, LowerBoundOnly);
    var solved1 := BuildAndSolve(first, teams, LowerBoundOnly, weight, solve);
    if solved1.Err? {
      return Err(solved1.error);
    }
    var count, spaces := |order| - lower, total - lower;
    SecondRunSeatsAre(teams, |order|, count, spaces);
    var seats := Apportion(teams, count, spaces);
    LargestRemainderSum(Spares(teams), count, spaces);
    TeamDemandsOf(teams, Apportioned(seats));
    var solved2 := BuildAndSolve(second, teams, Apportioned(seats), weight, solve);
    if solved2.Err? {
      return Err(solved2.error);
    }
    var (net1, flow1) := solved1.value;
    var (net2, flow2) := solved2.value;
    return Ok(TwoRunFlows(net1, flow1, net2, flow2));
  }

  /**
   * The two runs' networks are the priced networks built for the first
   * `lower` graduates of `order` and for the rest, and each flow is the
   * solver's answer on its network.
   */
  predicate AnsweredTwoRuns(
    order: seq<GradId>, teams: seq<Team>, weight: Weights, solve: Network -> Flow, runs: TwoRunFlows)
    requires BoundsFitCapacity(teams)
    requires Sum(LowerBounds(teams)) <= |order| < Sum(Capacities(teams))
  {
    var lower := Sum(LowerBounds(teams));
    && runs.first == NetworkFor(order[..lower], teams, LowerBoundOnly, weight)
    && runs.firstFlow == solve(runs.first)
    && runs.second == NetworkFor(order[lower..], teams, Apportioned(SecondRunSeats(teams, |order|)), weight)
    && runs.secondFlow == solve(runs.second)
  }

  /** Each team's list from one run followed by its list from another. */
  function Joined(a: seq<seq<GradId>>, b: seq<seq<GradId>>): (lists: seq<seq<GradId>>)
    requires |a| == |b|
  {
    seq(|a|, j requires 0 <= j < |a| => a[j] + b[j])
  }

  /** The lists of a single run: each team's recipients in the solver's answer on the priced network. */
  function SingleRunLists(graduates: seq<GradId>, teams: seq<Team>, weight: Weights, solve: Network -> Flow)
    : seq<seq<GradId>>
  {
    var net := NetworkFor(graduates, teams, FullCapacity, weight);
    RunLists(net, solve(net))
  }

  /**
   * The lists of two runs over `order`: each team's recipients in the
   * solver's answer on the first run's priced network, followed by those in
   * its answer on the second run's.
   */
  function TwoRunLists(order: seq<GradId>, teams: seq<Team>, weight: Weights, solve: Network -> Flow)
    : seq<seq<GradId>>
    requires BoundsFitCapacity(teams)
    requires Sum(LowerBounds(teams)) <= |order| < Sum(Capacities(teams))
  {
    var lower := Sum(LowerBounds(teams));
    var first := NetworkFor(order[..lower], teams, LowerBoundOnly, weight);
    var second := NetworkFor(order[lower..], teams, Apportioned(SecondRunSeats(teams, |order|)), weight);
    Joined(RunLists(first, solve(first)), RunLists(second, solve(second)))
  }

  /** The lists a successful round returns: those of a single run, or of two runs over `order`. */
  function RoundLists(
    graduates: seq<GradId>, order: seq<GradId>, teams: seq<Team>, weight: Weights, solve: Network -> Flow)
    : seq<seq<GradId>>
    requires BoundsFitCapacity(teams)
    requires |order| == |graduates|
    requires Sum(LowerBounds(teams)) <= |graduates| <= Sum(Capacities(teams))
  {
    if |graduates| == Sum(Capacities(teams)) then SingleRunLists(graduates, teams, weight, solve)
    else TwoRunLists(order, teams, weight, solve)
  }

  /** The order the graduates are split in for two runs: shuffled, except when testing. */
  function SplitOrder(testing: bool, graduates: seq<GradId>, shuffled: seq<GradId>): (order: seq<GradId>)
    ensures testing ==> order == graduates
    ensures !testing ==> order == shuffled
    ensures multiset(shuffled) == multiset(graduates) ==> multiset(order) == multiset(graduates)
  {
    if testing then graduates else shuffled
  }

  /**
   * The graduates a team lists up to its lower bound are among the first
   * `lower` graduates of `order`, the ones the first run places.
   */
  predicate FirstRunFromPrefix(order: seq<GradId>, teams: seq<Team>, lists: seq<seq<GradId>>)
    requires |lists| == |teams|
  {
    forall j, p | 0 <= j < |teams| && 0 <= p < teams[j].lowerBound && p < |lists[j]| ::
      exists q :: 0 <= q < Sum(LowerBounds(teams)) && q < |order| && order[q] == lists[j][p]
  }

  /**
   * A successful round: the graduates are placed, every team receives its
   * target number of graduates and, when two runs were made, lower bounds
   * are filled from the front of `order`.
   */
  predicate Allocated(
    graduates: seq<GradId>, order: seq<GradId>, teams: seq<Team>, lists: seq<seq<GradId>>,
    before: map<GradId, TeamId>, after: map<GradId, TeamId>)
    requires ValidTeams(teams)
    requires Sum(LowerBounds(teams)) <= |graduates| <= Sum(Capacities(teams))
  {
    && Placed(graduates, Ids(teams), lists, before, after)
    && (forall j | 0 <= j < |teams| :: |lists[j]| == TargetSeats(teams, |graduates|)[j])
    && (|graduates| < Sum(Capacities(teams)) ==> FirstRunFromPrefix(order, teams, lists))
  }

  /**
   * The outcome of a round given the stored weights: the verdict on the seat
   * totals is reported as is; past it, the round fails exactly when a
   * preference is missing (reported as such) or when there are neither
   * graduates nor teams (the solver rejects the empty network), and a failed
   * round assigns nobody.
   */
  predicate RoundOutcome(
    graduates: seq<GradId>, order: seq<GradId>, teams: seq<Team>, weight: Weights, solve: Network -> Flow,
    r: Result<seq<seq<GradId>>>, before: map<GradId, TeamId>, after: map<GradId, TeamId>)
    requires ValidTeams(teams)
  {
    var verdict := ChooseStrategy(|graduates|, Sum(Capacities(teams)), Sum(LowerBounds(teams)));
    && (verdict.Err? ==> r == Err(verdict.error))
    && (verdict.Ok? ==> (r.Err? <==> !HasAllPreferences(graduates, Ids(teams), weight) || NoNodes(graduates, teams)))
    && (verdict.Ok? && r.Err? ==>
          r.error == if HasAllPreferences(graduates, Ids(teams), weight) then EmptyNetwork else MissingPreference)
    && (r.Err? ==> after == before)
    && (r.Ok? ==> && verdict.Ok?
                  && Allocated(graduates, order, teams, r.value, before, after)
                  && |order| == |graduates|
                  && r.value == RoundLists(graduates, order, teams, weight, solve))
  }

  /**
   * What two runs achieve together: the graduates of `order` are placed,
   * each team receives its target number of graduates, and the graduates a
   * team lists up to its lower bound all come from the first run, that is
   * from the first `lower` graduates of `order`.
   */
  lemma TwoRunsOutcome(
    order: seq<GradId>, teams: seq<Team>, runs: TwoRunFlows,
    lists1: seq<seq<GradId>>, lists: seq<seq<GradId>>,
    before: map<GradId, TeamId>, middle: map<GradId, TeamId>, after: map<GradId, TeamId>)
    requires ValidTeams(teams)
    requires Sum(LowerBounds(teams)) <= |order| < Sum(Capacities(teams))
    requires SolvedTwoRuns(order, teams, runs)
    requires |lists| == |teams|
    requires MergedRuns(runs, lists1, lists, before, middle, after)
    ensures Placed(order, Ids(teams), lists, before, after)
    ensures forall j | 0 <= j < |teams| :: |lists[j]| == TargetSeats(teams, |order|)[j]
    ensures FirstRunFromPrefix(order, teams, lists)
  {
    TwoRunsPlace(runs, lists1, lists, before, middle, after);
    FirstRunListedFirst(runs, lists1, lists, before, middle, after);
    PrefixAndRest(order, Sum(LowerBounds(teams)));
    TwoRunsSizes(order, teams, runs, lists);
    TwoRunsFirstFromPrefix(order, teams, runs, lists);
  }

  /** Two runs give each team its target number of graduates. */
  lemma TwoRunsSizes(order: seq<GradId>, teams: seq<Team>, runs: TwoRunFlows, lists: seq<seq<GradId>>)
    requires ValidTeams(teams)
    requires Sum(LowerBounds(teams)) <= |order| < Sum(Capacities(teams))
    requires SolvedTwoRuns(order, teams, runs)
    requires |lists| == |teams|
    requires forall j | 0 <= j < |lists| :: |lists[j]| == runs.first.teamDemand[j] + runs.second.teamDemand[j]
    ensures forall j | 0 <= j < |teams| :: |lists[j]| == TargetSeats(teams, |order|)[j]
  {
    forall j | 0 <= j < |teams|
      ensures |lists[j]| == TargetSeats(teams, |order|)[j]
    {
      SecondRunTargetAt(teams, |order|, j);
    }
  }

  /** What the first run sends a team fills its lower bound from the front of `order`. */
  lemma TwoRunsFirstFromPrefix(order: seq<GradId>, teams: seq<Team>, runs: TwoRunFlows, lists: seq<seq<GradId>>)
    requires ValidTeams(teams)
    requires Sum(LowerBounds(teams)) <= |order| < Sum(Capacities(teams))
    requires SolvedTwoRuns(order, teams, runs)
    requires |lists| == |teams|
    requires forall j, p | 0 <= j < |lists| && 0 <= p < runs.first.teamDemand[j] :: p < |lists[j]| && lists[j][p] in runs.first.grads
    ensures FirstRunFromPrefix(order, teams, lists)
  {
    var lower := Sum(LowerBounds(teams));
    forall j, p | 0 <= j < |teams| && 0 <= p < teams[j].lowerBound && p < |lists[j]|
      ensures exists q :: 0 <= q < lower && q < |order| && order[q] == lists[j][p]
    {
      assert lists[j][p] in runs.first.grads;
      PrefixIndex(order, lower, lists[j][p]);
    }
  }

  /** Two runs over a reordering of `graduates` allocate `graduates`. */
  lemma TwoRunsAllocated(
    graduates: seq<GradId>, order: seq<GradId>, teams: seq<Team>, runs: TwoRunFlows,
    lists1: seq<seq<GradId>>, lists: seq<seq<GradId>>,
    before: map<GradId, TeamId>, middle: map<GradId, TeamId>, after: map<GradId, TeamId>)
    requires ValidTeams(teams)
    requires multiset(order) == multiset(graduates) && |order| == |graduates|
    requires Sum(LowerBounds(teams)) <= |order| < Sum(Capacities(teams))
    requires SolvedTwoRuns(order, teams, runs)
    requires |lists| == |teams|
    requires MergedRuns(runs, lists1, lists, before, middle, after)
    ensures Allocated(graduates, order, teams, lists, before, after)
  {
    TwoRunsOutcome(order, teams, runs, lists1, lists, before, middle, after);
    PlacedReorder(order, graduates, Ids(teams), lists, before, after);
  }

  /** Merging both runs gives each team its first-run recipients followed by its second-run recipients. */
  lemma MergedRunsJoined(
    runs: TwoRunFlows, lists1: seq<seq<GradId>>, lists: seq<seq<GradId>>,
    before: map<GradId, TeamId>, middle: map<GradId, TeamId>, after: map<GradId, TeamId>)
    requires MergedRuns(runs, lists1, lists, before, middle, after)
    ensures lists == Joined(RunLists(runs.first, runs.firstFlow), RunLists(runs.second, runs.secondFlow))
  {
    var first, second := RunLists(runs.first, runs.firstFlow), RunLists(runs.second, runs.secondFlow);
    forall j | 0 <= j < |lists|
      ensures lists[j] == first[j] + second[j]
    {
      assert lists1[j] == first[j];
    }
  }

  /**
   * What a run reports once the seat totals pass: failure exactly on a
   * missing preference or a network without nodes, naming which, with no
   * assignment changed; otherwise an allocation whose lists are the round's.
   */
  predicate RunVerdict(
    graduates: seq<GradId>, order: seq<GradId>, teams: seq<Team>, weight: Weights, solve: Network -> Flow,
    r: Result<seq<seq<GradId>>>, before: map<GradId, TeamId>, after: map<GradId, TeamId>)
    requires ValidTeams(teams) && |order| == |graduates|
    requires Sum(LowerBounds(teams)) <= |graduates| <= Sum(Capacities(teams))
  {
    && (r.Err? <==> !HasAllPreferences(graduates, Ids(teams), weight) || NoNodes(graduates, teams))
    && (r.Err? ==> && r.error == (if HasAllPreferences(graduates, Ids(teams), weight) then EmptyNetwork
                                  else MissingPreference)
                   && after == before)
    && (r.Ok? ==> && Allocated(graduates, order, teams, r.value, before, after)
                  && r.value == RoundLists(graduates, order, teams, weight, solve))
  }

  /** A run's verdict, past the seat totals, is the round's outcome. */
  lemma RunVerdictOutcome(
    graduates: seq<GradId>, order: seq<GradId>, teams: seq<Team>, weight: Weights, solve: Network -> Flow,
    r: Result<seq<seq<GradId>>>, before: map<GradId, TeamId>, after: map<GradId, TeamId>)
    requires ValidTeams(teams) && |order| == |graduates|
    requires Sum(LowerBounds(teams)) <= |graduates| <= Sum(Capacities(teams))
    requires RunVerdict(graduates, order, teams, weight, solve, r, before, after)
    ensures RoundOutcome(graduates, order, teams, weight, solve, r, before, after)
  {
  }

  /** A reordering of duplicate-free graduates: same length, still duplicate-free, same preferences needed. */
  lemma ReorderFacts(graduates: seq<GradId>, order: seq<GradId>, tids: seq<TeamId>, weight: Weights)
    requires Distinct(graduates) && multiset(order) == multiset(graduates)
    ensures |order| == |graduates| && Distinct(order)
    ensures HasAllPreferences(order, tids, weight) <==> HasAllPreferences(graduates, tids, weight)
  {
    assert |order| == |multiset(order)| == |graduates|;
    DistinctPermutation(graduates, order);
    PreferencesOfReorder(graduates, order, tids, weight);
  }

  /** Placement only looks at which graduates take part, not at their order. */
  lemma PlacedReorder(
    a: seq<GradId>, b: seq<GradId>, tids: seq<TeamId>, lists: seq<seq<GradId>>,
    before: map<GradId, TeamId>, after: map<GradId, TeamId>)
    requires multiset(a) == multiset(b)
    requires Placed(a, tids, lists, before, after)
    ensures Placed(b, tids, lists, before, after)
  {
    forall g
      ensures g in a <==> g in b
    {
      assert g in a <==> g in multiset(a);
      assert g in b <==> g in multiset(b);
    }
    assert Elements(a) == Elements(b);
  }

  /** The pairs of two groups of graduates all have preferences exactly when those of the joined group do. */
  lemma PreferencesOfJoin(first: seq<GradId>, second: seq<GradId>, tids: seq<TeamId>, weight: Weights)
    ensures HasAllPreferences(first + second, tids, weight)
            <==> HasAllPreferences(first, tids, weight) && HasAllPreferences(second, tids, weight)
  {
    if HasAllPreferences(first, tids, weight) && HasAllPreferences(second, tids, weight) {
      forall g, t | g in first + second && t in tids
        ensures (g, t) in weight
      {
        assert g in first || g in second;
      }
    }
  }

  /** Preferences only look at which graduates take part, not at their order. */
  lemma PreferencesOfReorder(a: seq<GradId>, b: seq<GradId>, tids: seq<TeamId>, weight: Weights)
    requires multiset(a) == multiset(b)
    ensures HasAllPreferences(a, tids, weight) <==> HasAllPreferences(b, tids, weight)
  {
    forall g
      ensures g in a <==> g in b
    {
      assert g in a <==> g in multiset(a);
      assert g in b <==> g in multiset(b);
    }
  }

  /** The stored state the allocation round reads and writes. */
  class Database {
    /** The preference weight of each (graduate, team) pair that has a row. */
    var weight: Weights
    /** The team each graduate was last assigned, for graduates that have one. */
    var assignedTeam: map<GradId, TeamId>

    constructor (weight: Weights, assignedTeam: map<GradId, TeamId>)
      ensures this.weight == weight && this.assignedTeam == assignedTeam
    {
      this.weight := weight;
      this.assignedTeam := assignedTeam;
    }

    /**
     * For every graduate with an assigned team, get-or-create the preference
     * row for that team and add the penalty to its weight.
     */
    method DiscouragePreviousTeams(graduates: seq<GradId>, defaultWeight: int)
      modifies this`weight
      ensures weight == Discouraged(old(weight), assignedTeam, graduates, defaultWeight)
    {
      for i := 0 to |graduates|
        invariant weight == Discouraged(old(weight), assignedTeam, graduates[..i], defaultWeight)
      {
        var g := graduates[i];
        assert graduates[..i + 1][..i] == graduates[..i];
        if g in assignedTeam {
          var key := (g, assignedTeam[g]);
          var row := if key in weight then weight[key] else defaultWeight;
          weight := weight[key := row + PENALTY];
        }
      }
      assert graduates[..|graduates|] == graduates;
    }

    /**
     * Merges one run's flow: for every graduate of the run and every team
     * whose edge carries the graduate's unit, record the team as the
     * graduate's assigned team and append the graduate to the team's list.
     */
    method RecordFlow(grads: seq<GradId>, tids: seq<TeamId>, flow: Flow, lists: seq<seq<GradId>>)
      returns (merged: seq<seq<GradId>>)
      requires |lists| == |tids|
      modifies this`assignedTeam
      ensures |merged| == |lists|
      ensures forall j | 0 <= j < |tids| :: merged[j] == lists[j] + Recipients(grads, tids[j], flow)
      ensures assignedTeam == Reassigned(old(assignedTeam), grads, tids, flow)
    {
      merged := lists;
      for i := 0 to |grads|
        invariant |merged| == |lists|
        invariant forall j | 0 <= j < |tids| :: merged[j] == lists[j] + Recipients(grads[..i], tids[j], flow)
        invariant assignedTeam == Reassigned(old(assignedTeam), grads[..i], tids, flow)
      {
        ghost var previous := merged;
        merged := RecordGraduate(grads[i], tids, flow, merged);
        MergedStep(lists, previous, merged, grads, i, tids, flow);
        ReassignedStep(old(assignedTeam), grads, i, tids, flow);
      }
      assert grads[..|grads|] == grads;
    }

    /**
     * The merge step for one graduate: each team whose edge carries the
     * graduate's unit, in turn, becomes the graduate's assigned team and gets
     * the graduate appended to its list.
     */
    method RecordGraduate(g: GradId, tids: seq<TeamId>, flow: Flow, lists: seq<seq<GradId>>)
      returns (merged: seq<seq<GradId>>)
      requires |lists| == |tids|
      modifies this`assignedTeam
      ensures |merged| == |lists|
      ensures forall j | 0 <= j < |tids| ::
                merged[j] == lists[j] + (if Carries(flow, g, tids[j]) then [g] else [])
      ensures var d := Destinations(g, tids, flow);
              assignedTeam == if d == [] then old(assignedTeam) else old(assignedTeam)[g := Last(d)]
    {
      merged := lists;
      for k := 0 to |tids|
        invariant |merged| == |lists|
        invariant forall j | 0 <= j < k :: merged[j] == lists[j] + (if Carries(flow, g, tids[j]) then [g] else [])
        invariant forall j | k <= j < |tids| :: merged[j] == lists[j]
        invariant var d := Destinations(g, tids[..k], flow);
                  assignedTeam == if d == [] then old(assignedTeam) else old(assignedTeam)[g := Last(d)]
      {
        DestinationsStep(g, tids, k, flow);
        if (g, tids[k]) in flow && flow[(g, tids[k])] == 1 {
          assignedTeam := assignedTeam[g := tids[k]];
          merged := merged[k := merged[k] + [g]];
        }
      }
      assert tids[..|tids|] == tids;
    }

    /** The single run: every team demands its full capacity. */
    method RunOnce(graduates: seq<GradId>, teams: seq<Team>, solve: Network -> Flow)
      returns (r: Result<seq<seq<GradId>>>)
      requires Distinct(graduates) && ValidTeams(teams)
      requires Sum(LowerBounds(teams)) <= |graduates| == Sum(Capacities(teams))
      requires IsFlowOracle(solve)
      modifies this`assignedTeam
      ensures r.Err? <==> !HasAllPreferences(graduates, Ids(teams), weight) || NoNodes(graduates, teams)
      ensures r.Err? ==> && r.error == (if HasAllPreferences(graduates, Ids(teams), weight) then EmptyNetwork
                                        else MissingPreference)
                         && assignedTeam == old(assignedTeam)
      ensures r.Ok? ==> Placed(graduates, Ids(teams), r.value, old(assignedTeam), assignedTeam)
      ensures r.Ok? ==> forall j | 0 <= j < |teams| :: |r.value[j]| == teams[j].capacity
      ensures r.Ok? ==> Allocated(graduates, graduates, teams, r.value, old(assignedTeam), assignedTeam)
      ensures r.Ok? ==> r.value == SingleRunLists(graduates, teams, weight, solve)
    {
      var solved := BuildAndSolve(graduates, teams, FullCapacity, weight, solve);
      if solved.Err? {
        return Err(solved.error);
      }
      var (net, flow) := solved.value;
      var lists := RecordFlow(net.grads, net.teams, flow, seq(|teams|, _ => []));
      SolvedFlowPlaces(net, flow, lists, old(assignedTeam));
      assert TargetSeats(teams, |graduates|) == Capacities(teams);
      return Ok(lists);
    }

    /**
     * Two runs over `order`, a reordering of `graduates`: the first `lower`
     * graduates of `order` fill every team's lower bound; the rest fill the
     * seats apportioned by largest remainder.
     */
    method RunTwice(graduates: seq<GradId>, order: seq<GradId>, teams: seq<Team>, solve: Network -> Flow)
      returns (r: Result<seq<seq<GradId>>>)
      requires Distinct(graduates) && ValidTeams(teams)
      requires multiset(order) == multiset(graduates) && |order| == |graduates|
      requires Sum(LowerBounds(teams)) <= |graduates| < Sum(Capacities(teams))
      requires IsFlowOracle(solve)
      modifies this`assignedTeam
      ensures r.Err? <==> !HasAllPreferences(graduates, Ids(teams), weight)
      ensures r.Err? ==> r.error == MissingPreference && assignedTeam == old(assignedTeam)
      ensures r.Ok? ==> Allocated(graduates, order, teams, r.value, old(assignedTeam), assignedTeam)
      ensures r.Ok? ==> r.value == TwoRunLists(order, teams, weight, solve)
    {
      ReorderFacts(graduates, order, Ids(teams), weight);
      var solved := SolveTwoRuns(order, teams, weight, solve);
      if solved.Err? {
        return Err(solved.error);
      }
      var lists := RecordTwoRuns(graduates, order, teams, solved.value);
      return Ok(lists);
    }

    /** Merges the flows of both runs, the first run's before the second's. */
    method RecordTwoRuns(graduates: seq<GradId>, order: seq<GradId>, teams: seq<Team>, runs: TwoRunFlows)
      returns (lists: seq<seq<GradId>>)
      requires ValidTeams(teams)
      requires multiset(order) == multiset(graduates) && |order| == |graduates|
      requires Sum(LowerBounds(teams)) <= |order| < Sum(Capacities(teams))
      requires SolvedTwoRuns(order, teams, runs)
      modifies this`assignedTeam
      ensures Allocated(graduates, order, teams, lists, old(assignedTeam), assignedTeam)
      ensures lists == Joined(RunLists(runs.first, runs.firstFlow), RunLists(runs.second, runs.secondFlow))
    {
      ghost var before := assignedTeam;
      var lists1 := RecordFlow(runs.first.grads, runs.first.teams, runs.firstFlow, seq(|teams|, _ => []));
      ghost var middle := assignedTeam;
      lists := RecordFlow(runs.second.grads, runs.second.teams, runs.secondFlow, lists1);
      assert MergedRuns(runs, lists1, lists, before, middle, assignedTeam);
      TwoRunsAllocated(graduates, order, teams, runs, lists1, lists, before, middle, assignedTeam);
      MergedRunsJoined(runs, lists1, lists, before, middle, assignedTeam);
    }

    /**
     * The allocation proper, once preferences are discouraged: the verdict on
     * the seat totals, then one run or two. `order` is the order the
     * graduates are split in for two runs.
     */
    method AllocateRound(graduates: seq<GradId>, order: seq<GradId>, teams: seq<Team>, solve: Network -> Flow)
      returns (r: Result<seq<seq<GradId>>>)
      requires Distinct(graduates) && ValidTeams(teams)
      requires multiset(order) == multiset(graduates)
      requires IsFlowOracle(solve)
      modifies this`assignedTeam
      ensures RoundOutcome(graduates, order, teams, weight, solve, r, old(assignedTeam), assignedTeam)
    {
      var total, lower := Totals(teams);
      var strategy := ChooseStrategy(|graduates|, total, lower);
      if strategy.Err? {
        return Err(strategy.error);
      }
      assert |order| == |multiset(order)| == |graduates|;
      if strategy.value == SingleRun {
        r := RunOnce(graduates, teams, solve);
      } else {
        r := RunTwice(graduates, order, teams, solve);
      }
      RunVerdictOutcome(graduates, order, teams, weight, solve, r, old(assignedTeam), assignedTeam);
    }

    /**
     * One allocation round over `graduates` and `teams`. `shuffled` is the
     * random order the graduates are put in before two runs (ignored when
     * testing); `defaultWeight` is the weight of a newly created preference
     * row; `solve` is the min-cost-flow solver.
     */
    method RunAllocation(
      graduates: seq<GradId>, teams: seq<Team>, testing: bool, shuffled: seq<GradId>,
      defaultWeight: int, solve: Network -> Flow)
      returns (r: Result<seq<seq<GradId>>>)
      requires Distinct(graduates) && ValidTeams(teams)
      requires !testing ==> multiset(shuffled) == multiset(graduates)
      requires IsFlowOracle(solve)
      modifies this
      ensures weight == Discouraged(old(weight), old(assignedTeam), graduates, defaultWeight)
      ensures RoundOutcome(graduates, SplitOrder(testing, graduates, shuffled), teams, weight, solve, r,
                           old(assignedTeam), assignedTeam)
    {
      DiscouragePreviousTeams(graduates, defaultWeight);
      r := AllocateRound(graduates, SplitOrder(testing, graduates, shuffled), teams, solve);
    }
  }
}
