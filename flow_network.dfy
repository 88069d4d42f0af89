/**
 * The flow network of one allocation run and the solver contract.
 *
 * Every graduate is a node supplying one unit (demand -1); every team is a
 * node demanding as many units as it has seats in this run (its capacity,
 * its lower bound, or an apportioned number of seats); every (graduate,
 * team) pair is an uncapacitated edge whose cost comes from the stored
 * preference weight. A min-cost-flow solver then routes the units. The
 * solver itself is not modelled: it is a function parameter that is
 * required to return a feasible integral flow for every balanced network.
 */
module FlowNetwork {
  import opened Common
  import opened CostModel
  import opened Preferences

  /** Where the demand of each team node comes from. */
  datatype CapacitySource =
    | FullCapacity                // the single run: every seat of the team
    | LowerBoundOnly              // the first of two runs: the team's lower bound
    | Apportioned(seats: seq<nat>) // the second of two runs: seats handed out by apportionment

  /**
   * The demand of each team node, in team order. Outside the apportioned run
   * every team demands between its lower bound and its capacity.
   */
  function TeamDemands(teams: seq<Team>, source: CapacitySource): (demand: seq<nat>)
    requires source.Apportioned? ==> |source.seats| == |teams|
    ensures |demand| == |teams|
    ensures BoundsFitCapacity(teams) && !source.Apportioned? ==>
              forall j | 0 <= j < |teams| :: teams[j].lowerBound <= demand[j] <= teams[j].capacity
  {
    match source
    case FullCapacity => Capacities(teams)
    case LowerBoundOnly => LowerBounds(teams)
    case Apportioned(seats) => seats
  }

  /** The demand of a team node is the lower bound, the capacity or the apportioned seats. */
  lemma TeamDemandsAt(teams: seq<Team>, source: CapacitySource, j: nat)
    requires source.Apportioned? ==> |source.seats| == |teams|
    requires j < |teams|
    ensures TeamDemands(teams, source)[j] ==
              match source
              case FullCapacity => teams[j].capacity
              case LowerBoundOnly => teams[j].lowerBound
              case Apportioned(seats) => seats[j]
  {
  }

  /** Demands taken from the lower bounds or from apportioned seats are those sequences themselves. */
  lemma TeamDemandsOf(teams: seq<Team>, source: CapacitySource)
    requires source.Apportioned? ==> |source.seats| == |teams|
    ensures source.FullCapacity? ==> TeamDemands(teams, source) == Capacities(teams)
    ensures source.LowerBoundOnly? ==> TeamDemands(teams, source) == LowerBounds(teams)
    ensures source.Apportioned? ==> TeamDemands(teams, source) == source.seats
  {
  }

  /** Every (graduate, team) pair: the edges of the network. */
  function Pairs(grads: seq<GradId>, tids: seq<TeamId>): set<(GradId, TeamId)> {
    set g, t | g in grads && t in tids :: (g, t)
  }

  /** Every (graduate, team) pair has a stored preference. */
  predicate HasAllPreferences(grads: seq<GradId>, tids: seq<TeamId>, weight: Weights) {
    forall g, t | g in grads && t in tids :: (g, t) in weight
  }

  datatype Network = Network(
    grads: seq<GradId>,
    gradDemand: seq<int>,
    teams: seq<TeamId>,
    teamDemand: seq<nat>,
    cost: map<(GradId, TeamId), int>)

  /** The shape every network built for a run has. */
  predicate WellFormed(net: Network) {
    && Distinct(net.grads)
    && Distinct(net.teams)
    && |net.gradDemand| == |net.grads|
    && (forall i | 0 <= i < |net.grads| :: net.gradDemand[i] == -1)
    && |net.teamDemand| == |net.teams|
    && (forall g, t | g in net.grads && t in net.teams :: (g, t) in net.cost)
  }

  /** Supplies and demands cancel out: the only networks a flow can exist for. */
  predicate Balanced(net: Network) {
    Sum(net.gradDemand) + Sum(net.teamDemand) == 0
  }

  /** A well-formed network is balanced exactly when the team demands add up to the graduates. */
  lemma BalancedIffDemandCoversGraduates(net: Network)
    requires WellFormed(net)
    ensures Balanced(net) <==> Sum(net.teamDemand) == |net.grads|
  {
    assert net.gradDemand == seq(|net.grads|, _ => -1);
    SumOfUnitSupplies(|net.grads|);
  }

  /**
   * The edges of one run: every (graduate, team) pair, costed by EdgeCost of
   * its stored weight; the first pair without a stored preference fails.
   */
  method PriceEdges(grads: seq<GradId>, tids: seq<TeamId>, weight: Weights)
    returns (r: Result<map<(GradId, TeamId), int>>)
    ensures r.Ok? <==> HasAllPreferences(grads, tids, weight)
    ensures r.Err? ==> r.error == MissingPreference
    ensures r.Ok? ==> r.value.Keys == Pairs(grads, tids)
    ensures r.Ok? ==> forall k | k in r.value :: k in weight && r.value[k] == EdgeCost(weight[k])
  {
    var cost: map<(GradId, TeamId), int> := map[];
    for i := 0 to |grads|
      invariant cost.Keys == Pairs(grads[..i], tids)
      invariant forall k | k in cost :: k in weight && cost[k] == EdgeCost(weight[k])
      invariant HasAllPreferences(grads[..i], tids, weight)
    {
      for j := 0 to |tids|
        invariant cost.Keys == Pairs(grads[..i], tids) + Pairs([grads[i]], tids[..j])
        invariant forall k | k in cost :: k in weight && cost[k] == EdgeCost(weight[k])
        invariant HasAllPreferences([grads[i]], tids[..j], weight)
      {
        var key := (grads[i], tids[j]);
        if key !in weight {
          return Err(MissingPreference);
        }
        cost := cost[key := EdgeCost(weight[key])];
        assert tids[..j + 1] == tids[..j] + [tids[j]];
      }
      assert tids[..|tids|] == tids;
      assert grads[..i + 1] == grads[..i] + [grads[i]];
      assert Pairs(grads[..i + 1], tids) == Pairs(grads[..i], tids) + Pairs([grads[i]], tids);
    }
    assert grads[..|grads|] == grads;
    return Ok(cost);
  }

  /**
   * Builds the network of one run: a supply node per graduate, a demand node
   * per team, and an edge per pair costed by EdgeCost of the stored weight.
   * A pair without a stored preference makes the lookup fail.
   */
  method BuildNetwork(grads: seq<GradId>, teams: seq<Team>, source: CapacitySource, weight: Weights)
    returns (r: Result<Network>)
    requires source.Apportioned? ==> |source.seats| == |teams|
    ensures r.Ok? <==> HasAllPreferences(grads, Ids(teams), weight)
    ensures r.Err? ==> r.error == MissingPreference
    ensures r.Ok? ==> && r.value.grads == grads
                      && r.value.gradDemand == seq(|grads|, _ => -1)
                      && r.value.teams == Ids(teams)
                      && r.value.teamDemand == TeamDemands(teams, source)
    ensures r.Ok? ==> r.value.cost.Keys == Pairs(grads, Ids(teams))
    ensures r.Ok? ==> forall k | k in r.value.cost :: k in weight && r.value.cost[k] == EdgeCost(weight[k])
  {
    var gradDemand: seq<int> := [];
    for i := 0 to |grads|
      invariant gradDemand == seq(i, _ => -1)
    {
      gradDemand := gradDemand + [-1];
    }
    var tids: seq<TeamId> := [];
    var teamDemand: seq<nat> := [];
    for j := 0 to |teams|
      invariant tids == Ids(teams)[..j]
      invariant teamDemand == TeamDemands(teams, source)[..j]
    {
      TeamDemandsAt(teams, source, j);
      tids := tids + [teams[j].id];
      var demand := match source
        case FullCapacity => teams[j].capacity
        case LowerBoundOnly => teams[j].lowerBound
        case Apportioned(seats) => seats[j];
      teamDemand := teamDemand + [demand];
    }
    assert tids == Ids(teams);
    assert teamDemand == TeamDemands(teams, source);
    var cost := PriceEdges(grads, tids, weight);
    if cost.Err? {
      return Err(cost.error);
    }
    return Ok(Network(grads, gradDemand, tids, teamDemand, cost.value));
  }

  /** A network built successfully from duplicate-free graduates and teams is well formed. */
  lemma BuiltNetworkWellFormed(grads: seq<GradId>, teams: seq<Team>, source: CapacitySource, net: Network)
    requires Distinct(grads) && Distinct(Ids(teams))
    requires source.Apportioned? ==> |source.seats| == |teams|
    requires net.grads == grads && net.gradDemand == seq(|grads|, _ => -1)
    requires net.teams == Ids(teams) && net.teamDemand == TeamDemands(teams, source)
    requires net.cost.Keys == Pairs(grads, Ids(teams))
    ensures WellFormed(net)
  {
    forall g, t | g in grads && t in Ids(teams)
      ensures (g, t) in net.cost
    {
      assert (g, t) in Pairs(grads, Ids(teams));
    }
  }

  /** The solver's answer: units of flow on each (graduate, team) edge. */
  type Flow = map<(GradId, TeamId), int>

  /** The edge from g to t carries the graduate's unit of flow. */
  predicate Carries(flow: Flow, g: GradId, t: TeamId) {
    (g, t) in flow && flow[(g, t)] == 1
  }

  /** The graduates whose unit goes to team t, in the order the graduates are listed. */
  function Recipients(grads: seq<GradId>, t: TeamId, flow: Flow): (r: seq<GradId>)
    ensures |r| <= |grads|
    decreases |grads|
  {
    if grads == [] then []
    else Recipients(grads[..|grads| - 1], t, flow) + (if Carries(flow, Last(grads), t) then [Last(grads)] else [])
  }

  /** The recipients are exactly the graduates whose unit goes to t, each listed once. */
  lemma {:induction false} RecipientsMembers(grads: seq<GradId>, t: TeamId, flow: Flow)
    ensures forall g :: g in Recipients(grads, t, flow) <==> g in grads && Carries(flow, g, t)
    ensures Distinct(grads) ==> Distinct(Recipients(grads, t, flow))
    decreases |grads|
  {
    if grads != [] {
      var front := grads[..|grads| - 1];
      assert grads == front + [Last(grads)];
      RecipientsMembers(front, t, flow);
    }
  }

  /** The teams graduate g's unit goes to, in the order the teams are listed. */
  function Destinations(g: GradId, tids: seq<TeamId>, flow: Flow): (r: seq<TeamId>)
    ensures |r| <= |tids|
    decreases |tids|
  {
    if tids == [] then []
    else Destinations(g, tids[..|tids| - 1], flow) + (if Carries(flow, g, Last(tids)) then [Last(tids)] else [])
  }

  /** The destinations are exactly the teams g's unit goes to, each listed once. */
  lemma {:induction false} DestinationsMembers(g: GradId, tids: seq<TeamId>, flow: Flow)
    ensures forall t :: t in Destinations(g, tids, flow) <==> t in tids && Carries(flow, g, t)
    ensures Distinct(tids) ==> Distinct(Destinations(g, tids, flow))
    decreases |tids|
  {
    if tids != [] {
      var front := tids[..|tids| - 1];
      assert tids == front + [Last(tids)];
      DestinationsMembers(g, front, flow);
    }
  }

  /** Extending the graduates by one extends the recipients by that graduate if its unit goes to t. */
  lemma RecipientsStep(grads: seq<GradId>, i: nat, t: TeamId, flow: Flow)
    requires i < |grads|
    ensures Recipients(grads[..i + 1], t, flow)
            == Recipients(grads[..i], t, flow) + (if Carries(flow, grads[i], t) then [grads[i]] else [])
  {
    assert grads[..i + 1][..i] == grads[..i];
  }

  /** Extending the teams by one extends the destinations by that team if g's unit goes to it. */
  lemma DestinationsStep(g: GradId, tids: seq<TeamId>, k: nat, flow: Flow)
    requires k < |tids|
    ensures Destinations(g, tids[..k + 1], flow)
            == Destinations(g, tids[..k], flow) + (if Carries(flow, g, tids[k]) then [tids[k]] else [])
  {
    assert tids[..k + 1][..k] == tids[..k];
  }

  /**
   * A feasible integral flow: every edge carries 0 or 1 unit, each graduate
   * sends out exactly its supply and each team takes in exactly its demand.
   */
  predicate Solves(net: Network, flow: Flow)
    requires WellFormed(net)
  {
    && (forall g, t | g in net.grads && t in net.teams :: (g, t) in flow && 0 <= flow[(g, t)] <= 1)
    && (forall i | 0 <= i < |net.grads| :: |Destinations(net.grads[i], net.teams, flow)| == -net.gradDemand[i])
    && (forall j | 0 <= j < |net.teams| :: |Recipients(net.grads, net.teams[j], flow)| == net.teamDemand[j])
  }

  /** The solver returns a feasible flow for every well-formed balanced network. */
  ghost predicate IsFlowOracle(solve: Network -> Flow) {
    forall net | WellFormed(net) && Balanced(net) :: Solves(net, solve(net))
  }

  /**
   * In a solved network each graduate's unit goes to exactly one team, and
   * that team lists the graduate among its recipients.
   */
  lemma SolvedGraduateHasOneTeam(net: Network, flow: Flow, g: GradId)
    requires WellFormed(net) && Solves(net, flow)
    requires g in net.grads
    ensures var d := Destinations(g, net.teams, flow);
            && |d| == 1 && d[0] in net.teams && Carries(flow, g, d[0])
            && g in Recipients(net.grads, d[0], flow)
            && (forall t | t in net.teams && Carries(flow, g, t) :: t == d[0])
  {
    var i :| 0 <= i < |net.grads| && net.grads[i] == g;
    var d := Destinations(g, net.teams, flow);
    DestinationsMembers(g, net.teams, flow);
    assert |d| == 1;
    RecipientsMembers(net.grads, d[0], flow);
    assert d[0] in d;
    forall t | t in net.teams && Carries(flow, g, t)
      ensures t == d[0]
    {
      assert t in d;
    }
  }

  /**
   * The network built for a run: a node supplying one unit per graduate, a
   * node per team demanding its seats in this run, and an edge per (graduate,
   * team) pair priced by EdgeCost of the pair's stored weight.
   */
  function NetworkFor(grads: seq<GradId>, teams: seq<Team>, source: CapacitySource, weight: Weights): Network
    requires source.Apportioned? ==> |source.seats| == |teams|
  {
    Network(grads, seq(|grads|, _ => -1), Ids(teams), TeamDemands(teams, source),
            map k | k in Pairs(grads, Ids(teams)) && k in weight :: EdgeCost(weight[k]))
  }

  /** A run over neither graduates nor teams builds a network without nodes, which the solver rejects. */
  predicate NoNodes(grads: seq<GradId>, teams: seq<Team>) {
    grads == [] && teams == []
  }

  /**
   * One run: build the network over `grads` and `teams` and hand it to the
   * solver. The build fails when a pair has no stored preference; the solver
   * fails on a network without nodes; otherwise the network is well formed
   * and, as the team demands cover the graduates, the solver's flow meets
   * every supply and demand.
   */
  method BuildAndSolve(
    grads: seq<GradId>, teams: seq<Team>, source: CapacitySource, weight: Weights, solve: Network -> Flow)
    returns (r: Result<(Network, Flow)>)
    requires Distinct(grads) && Distinct(Ids(teams))
    requires source.Apportioned? ==> |source.seats| == |teams|
    requires Sum(TeamDemands(teams, source)) == |grads|
    requires IsFlowOracle(solve)
    ensures r.Ok? <==> HasAllPreferences(grads, Ids(teams), weight) && !NoNodes(grads, teams)
    ensures r.Err? ==> r.error == if HasAllPreferences(grads, Ids(teams), weight) then EmptyNetwork else MissingPreference
    ensures r.Ok? ==> r.value.0 == NetworkFor(grads, teams, source, weight) && r.value.1 == solve(r.value.0)
    ensures r.Ok? ==> forall k | k in r.value.0.cost :: k in weight && r.value.0.cost[k] == EdgeCost(weight[k])
    ensures r.Ok? ==> && r.value.0.grads == grads
                      && r.value.0.teams == Ids(teams)
                      && r.value.0.teamDemand == TeamDemands(teams, source)
                      && WellFormed(r.value.0)
                      && Solves(r.value.0, r.value.1)
  {
    var built := BuildNetwork(grads, teams, source, weight);
    if built.Err? {
      return Err(built.error);
    }
    if NoNodes(grads, teams) {
      return Err(EmptyNetwork);
    }
    var net := built.value;
    assert net.cost == NetworkFor(grads, teams, source, weight).cost;
    BuiltNetworkWellFormed(grads, teams, source, net);
    BalancedIffDemandCoversGraduates(net);
    return Ok((net, solve(net)));
  }
}
