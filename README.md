# Graduate-to-team allocation engine, modelled in Dafny

This project models one allocation round of the graduate rotation
allocator. A round places every graduate on one team. It does this with a
minimum-cost flow in which graduates supply one unit each, teams demand
seats, and the cost of a (graduate, team) edge comes from the graduate's
stored preference weight for that team. A weight from 1 to 5 becomes the
cost `6 - weight`, so weight 5 is the cheapest edge. A weight of 100 or
more, which a previous team reaches after discouragement, is used as the
cost unchanged.

A round runs in this order:

1. **Discouragement.** The weight of each graduate's previous team goes up
   by 100. The preference row is created with the store's default weight
   if it is missing.
2. **Totals.** The round adds up the total seats and the lower-bound seats.
3. **Count checks.** A round with more graduates than seats fails. So does
   a round with fewer graduates than the lower bounds ask for.
4. **Placement.** When graduates and seats are equal, the round makes a
   single run in which every team demands its full capacity. Otherwise it
   makes two runs:
   - The graduates are shuffled (unless testing) and split.
   - The first `lower` graduates fill every team's lower bound.
   - The remaining graduates fill seats handed out by the largest-remainder
     method over each team's spare seats (capacity minus lower bound).
5. **Merge.** Each run's flow is merged into the graduates' assigned teams
   and into one list of graduates per team.

Modules:

- `Common` (common.dfy): the keys, the team record, the errors, and sums.
- `CostModel` (cost_model.dfy): the edge-cost rule.
- `Preferences` (preferences.dfy): the preference store and the
  discouragement step as a function.
- `FlowNetwork` (flow_network.dfy): building a run's network, reading a
  flow, and the solver's contract.
- `Apportionment` (apportionment.dfy): largest-remainder apportionment.
- `Allocation` (allocation.dfy): totals, count checks, the partition, the
  merge, the round itself, and the class `Database`. That class holds the
  two pieces of stored state the round changes: the preference weights and
  each graduate's assigned team.

The min-cost-flow solver is a function parameter `solve`. It must satisfy
`IsFlowOracle`: for every well-formed balanced network it returns a
feasible integral flow. Every edge carries 0 or 1 unit, each graduate
sends one unit, and each team receives exactly its demand.

Two values the model cannot see become inputs:

- the order `random.shuffle` produces, which is nondeterministic
  (`shuffled`, any reordering of the graduates);
- the default weight of the preference record, which a newly created row
  starts with. This value is fixed, but the record's definition is not part
  of this model (`defaultWeight`).

## Model

| member | source | states |
|---|---|---|
| CostModel.EdgeCost | django-backend/allocationapp/allocation.py:39-44 | a rank weight 1..5 becomes cost 6 - weight, also in 1..5; a weight of 100 or more stays a cost of 100 or more |
| CostModel.CostReversesRank | django-backend/allocationapp/allocation.py:39-44 | below 100, a larger weight always gives a strictly cheaper edge (the scale is reversed) |
| CostModel.CostGrowsWithPenalty | django-backend/allocationapp/allocation.py:40-41 | from 100 upwards, a larger weight gives a strictly dearer edge |
| CostModel.DiscouragedCostsMore | django-backend/allocationapp/allocation.py:39-44 | every discouraged edge (weight of 100 or more) costs more than every edge weighted 1..5 |
| Preferences.Bump | django-backend/allocationapp/allocation.py:11-13 | get-or-create then add 100: adds the key, sets its weight to the stored or default weight plus 100, leaves every other row alone |
| Preferences.DiscouragedAt | django-backend/allocationapp/allocation.py:8-13 | after the step, a row exists exactly when it existed before or pairs a round graduate with its previous team; such pairs gain exactly 100 over the stored or default weight, and every other row keeps its weight |
| Preferences.DiscouragedTwice | django-backend/allocationapp/allocation.py:8-13 | two rounds of discouragement add 200 to a previous-team pair |
| Preferences.DiscouragedNeverLowers | django-backend/allocationapp/allocation.py:8-13 | discouragement never removes a row and never lowers a weight |
| Allocation.Database.DiscouragePreviousTeams | django-backend/allocationapp/allocation.py:8-13 | the loop over graduates leaves the weights equal to `Discouraged` of the old weights and the assigned teams |
| Allocation.Totals | django-backend/allocationapp/allocation.py:52-56 | the two running totals equal the sum of capacities and the sum of lower bounds |
| Allocation.SparesAddUp | django-backend/allocationapp/allocation.py:87 | the remaining spaces equal the sum of the teams' spare seats and are never negative |
| Allocation.ChooseStrategy | django-backend/allocationapp/allocation.py:58-78 | fails with insufficient capacity iff graduates exceed seats; fails on the lower bound iff graduates fit but fall short of the lower bounds; otherwise a single run iff graduates equal seats, and two runs leave spaces remaining |
| Allocation.SplitOrder | django-backend/allocationapp/allocation.py:81-82 | when testing the graduates keep their order; otherwise the split order is the shuffled one, a reordering of the graduates |
| Allocation.Partition | django-backend/allocationapp/allocation.py:83-84 | the first run gets exactly the first `lower` graduates and the second run the rest; together they are the order; distinct graduates give disjoint runs |
| Allocation.TargetSeats | django-backend/allocationapp/allocation.py:67-102 | every team's seat count lies between its lower bound and its capacity, and the counts add up to the number of graduates |
| Allocation.SecondRunSeatsAre | django-backend/allocationapp/allocation.py:87-102 | when the split runs, the remaining spaces are positive and equal the total spare seats, so the apportionment's division is defined |
| Allocation.SecondRunTargetsWithin | django-backend/allocationapp/allocation.py:89-102 | with two runs, no team is given more than its capacity |
| Allocation.SecondRunTargetsSum | django-backend/allocationapp/allocation.py:83-102 | with two runs, the lower bounds plus the apportioned seats seat every graduate |
| FlowNetwork.TeamDemands | django-backend/allocationapp/allocation.py:24-35 | one demand per team, in team order; in the single run and the first of two runs every team demands between its lower bound and its capacity |
| FlowNetwork.BalancedIffDemandCoversGraduates | django-backend/allocationapp/allocation.py:20-35 | the network's demands balance iff the team demands add up to the number of graduates |
| FlowNetwork.PriceEdges | django-backend/allocationapp/allocation.py:37-44 | succeeds iff every (graduate, team) pair has a stored preference (otherwise the lookup fails); on success there is one edge per pair, priced by `EdgeCost` of its weight |
| FlowNetwork.BuildNetwork | django-backend/allocationapp/allocation.py:17-44 | graduate nodes supply one unit, team nodes demand per the run, edges are priced as above; fails exactly on a missing preference |
| FlowNetwork.BuiltNetworkWellFormed | django-backend/allocationapp/allocation.py:17-44 | a network built from distinct graduates and team keys, with an edge for every pair, is well-formed |
| FlowNetwork.RecipientsMembers | django-backend/allocationapp/allocation.py:71-76 | a team's recipients are exactly the run's graduates whose edge to it carries a unit, and they are distinct |
| FlowNetwork.DestinationsMembers | django-backend/allocationapp/allocation.py:72-74 | a graduate's destinations are exactly the teams whose edge from it carries a unit |
| FlowNetwork.SolvedGraduateHasOneTeam | django-backend/allocationapp/allocation.py:46 | in a solved network each graduate's unit reaches exactly one team, and that team lists the graduate |
| FlowNetwork.BuildAndSolve | django-backend/allocationapp/allocation.py:17-48 | fails iff a preference is missing (the lookup raises first) or the network has no nodes (the solver rejects it), with that error; otherwise returns a well-formed network with the run's graduates, team keys and demands, and a flow that solves it; that network is exactly `NetworkFor` the run, with every edge priced by `EdgeCost` of its stored weight, and the flow is the solver's answer on it |
| Apportionment.ShareSplit | django-backend/allocationapp/allocation.py:93 | whole part times the remaining spaces plus the remainder is the exact product spare times count; the fractional part is below one |
| Apportionment.Ranking | django-backend/allocationapp/allocation.py:98 | the ranking holds every team exactly once, largest fraction first, equal fractions with the later team first |
| Apportionment.AwardSum | django-backend/allocationapp/allocation.py:99-100 | giving the first m ranked teams one seat each adds exactly m seats |
| Apportionment.NeededRange | django-backend/allocationapp/allocation.py:97 | the seats still needed equal the fractional parts' sum, lie at or above 0 and are fewer than the number of teams |
| Apportionment.LargestRemainderAt | django-backend/allocationapp/allocation.py:93-100 | each team gets the whole part of its share, plus one exactly when it is among the first `needed` in the ranking |
| Apportionment.LargestRemainderSum | django-backend/allocationapp/allocation.py:93-100 | the apportioned seats add up to the second run's graduates |
| Apportionment.LargestRemainderRanksByFraction | django-backend/allocationapp/allocation.py:93-100 | each team gets the floor of its share or one more, and every team given an extra seat ranks before every team not given one |
| Apportionment.LargestRemainderWinnerCount | django-backend/allocationapp/allocation.py:97-100 | exactly `needed` teams get an extra seat |
| Apportionment.LargestRemainderWithinSpare | django-backend/allocationapp/allocation.py:93-100 | no team is apportioned more than its spare seats |
| Apportionment.ShareWithinSpare | django-backend/allocationapp/allocation.py:93 | the whole part of a team's share never exceeds its spare seats, and is strictly below them when there is a fractional part |
| Apportionment.WinnersHaveFractions | django-backend/allocationapp/allocation.py:97-100 | only a team with a non-zero fractional part gets an extra seat |
| Apportionment.EqualWholeSharesNeedNoExtraSeat | django-backend/allocationapp/allocation.py:93-100 | two teams with 3 spare seats each and 4 graduates over 6 spaces get 2 seats each |
| Apportionment.ExactShares | django-backend/allocationapp/allocation.py:92-96 | the loop over teams computes every team's whole part and fractional part of its share |
| Apportionment.AwardSeats | django-backend/allocationapp/allocation.py:99-100 | the loop gives one extra seat to each of the first `needed` teams in the ranking |
| Apportionment.Apportion | django-backend/allocationapp/allocation.py:87-100 | the seats computed are the largest-remainder apportionment of the spare seats |
| Allocation.ReassignedAt | django-backend/allocationapp/allocation.py:71-75 | after merging a run, a graduate with a destination holds the last team its unit went to, and everyone else keeps their team |
| Allocation.PlacedListsDisjoint | django-backend/allocationapp/allocation.py:69-76 | with distinct team keys, no graduate is listed for two teams |
| Allocation.SolvedFlowPlaces | django-backend/allocationapp/allocation.py:68-76 | merging a solved flow lists every run graduate once, for the team now assigned to them; each team lists as many graduates as it demanded; nobody else changes |
| Allocation.Database.RecordGraduate | django-backend/allocationapp/allocation.py:72-76 | for one graduate, each team whose edge carries the unit gets the graduate appended; the graduate's assigned team becomes the last such team |
| Allocation.Database.RecordFlow | django-backend/allocationapp/allocation.py:71-76 | merging a run appends each team's recipients to its list and leaves the assignments as `Reassigned` describes |
| Allocation.TwoRunsPlace | django-backend/allocationapp/allocation.py:104-117 | merging the first run's flow and then the second's, over disjoint groups, places both groups; each team gets its two demands added up |
| Allocation.FirstRunListedFirst | django-backend/allocationapp/allocation.py:106-111 | a team's list starts with the first run's graduates, as many as its lower bound |
| Allocation.SolveTwoRuns | django-backend/allocationapp/allocation.py:81-102 | fails iff a preference is missing; otherwise the first `lower` graduates go to a network demanding the lower bounds and the rest to one demanding the apportioned seats, both solved; each network is exactly `NetworkFor` its run, priced by `EdgeCost`, and each flow is the solver's answer on its network |
| Allocation.TwoRunsOutcome | django-backend/allocationapp/allocation.py:83-117 | two runs place all graduates and give each team its target; what a team lists up to its lower bound comes from the front of the order |
| Allocation.TwoRunsSizes | django-backend/allocationapp/allocation.py:86-117 | two runs give each team its lower bound plus its apportioned seats |
| Allocation.PlacedReorder | django-backend/allocationapp/allocation.py:81-82 | shuffling the graduates does not change who is placed |
| Allocation.PreferencesOfJoin | django-backend/allocationapp/allocation.py:83-86 | the preference lookups of both runs succeed iff those of all graduates do |
| Allocation.PreferencesOfReorder | django-backend/allocationapp/allocation.py:81-82 | shuffling does not change whether every preference exists |
| Allocation.Database.RunOnce | django-backend/allocationapp/allocation.py:67-76 | the single run fails iff a preference is missing or there are neither graduates nor teams, reports which, and then assigns nobody; otherwise it places every graduate and fills every team to capacity, and its lists are each team's recipients in the solver's answer on the priced network (`SingleRunLists`) |
| Allocation.Database.RunTwice | django-backend/allocationapp/allocation.py:78-117 | two runs fail iff a preference is missing and then assign nobody; otherwise they place every graduate, give each team its target, and fill lower bounds from the front of the order; the lists are each team's first-run recipients followed by its second-run recipients in the solver's answers on the two priced networks (`TwoRunLists`) |
| Allocation.Database.RecordTwoRuns | django-backend/allocationapp/allocation.py:104-117 | merging both runs' flows yields a complete allocation whose lists join each team's recipients in the two flows |
| Allocation.MergedRunsJoined | django-backend/allocationapp/allocation.py:104-117 | after both merges each team's list is its first-run recipients followed by its second-run recipients |
| Allocation.Database.AllocateRound | django-backend/allocationapp/allocation.py:52-117 | reports the count-check error as is; otherwise fails exactly on a missing preference (reported as such) or on a round with neither graduates nor teams (reported as an empty network), and then changes nobody; or places every graduate with each team between its lower bound and capacity, returning exactly the lists the solver's answers on the priced networks give (`RoundLists`) |
| Allocation.Database.RunAllocation | django-backend/allocationapp/allocation.py:50-118 | the weights become the discouraged ones, and the round's outcome is as `AllocateRound` states, split in the shuffled order (or the given order when testing) |

## Left out

- The min-cost-flow solver (networkx `min_cost_flow`) is a parameter. Only
  its feasibility contract is modelled, so nothing is proved about the
  optimality of the total cost. The solver's contract does not include
  raising on an infeasible network, because every network the round builds
  is balanced and so has a feasible flow. The one solver failure the round
  can reach is modelled: a round with neither graduates nor teams passes the
  count checks (0 is not above 0 and not below 0) and builds a graph with no
  nodes, which networkx's solver rejects. The model reports this as
  `Err(EmptyNetwork)`. That the solver raises on such a graph is taken from
  networkx's own behaviour, which is not part of this model.
- The solver's flow dictionary also has entries for the team nodes, which
  have no outgoing edges. The merge loops over them without effect, so the
  model reads only the graduate entries.
- The ORM is not modelled. `save()` is the assignment to the class fields.
  Rows that `get` could find twice are not modelled: a preference is at
  most one map entry. The models module is not part of this model. The
  weight a `get_or_create` gives a new row is the parameter `defaultWeight`.
- `random.shuffle` is the input `shuffled`, required to be a reordering of
  the graduates. The model does not capture that the shuffle reorders the
  caller's own list in place.
- `print` followed by `exit()` on a failed count check is the result
  `Err(InsufficientCapacity)` or `Err(LowerBoundUnsatisfiable)`. A missing
  preference, which raises inside the lookup, is `Err(MissingPreference)`.
  As in the source, the failure comes before anything is merged. A single
  run raises before merging, so nothing is assigned. With two runs, the first run's lookups come before the second
  run's, and the first run is not merged before the second run is built.
  So in every case the failing round changes no assignment.
- The per-team lists are the model's return value. In the source,
  `run_allocation` returns nothing on either path. The two-run branch
  prints the lists (line 118, inside the `elif`); the single run builds
  them (lines 69-76) and neither prints nor returns them. The printing is
  not modelled.
- Apportionment.Apportion: does not model floating point. Line 93 computes
  each share in doubles and splits it with `math.modf`, and line 97 sums
  doubles. The model computes exact shares with integer division and
  remainder over the common denominator `remaining_spaces`. A rounding error
  in the source (a whole part of 0.9999… taken as 0) is not captured.
- Teams are required to have distinct keys and lower bounds no greater than
  their capacities (`ValidTeams`). The source assumes both without checking
  them.
- Graduates are required to be distinct (`Distinct(graduates)` on
  `RunOnce`, `RunTwice`, `AllocateRound`, `RunAllocation`,
  `DiscouragedAt` and `DiscouragedTwice`). The source assumes this without checking it. A
  graduate listed twice would be bumped twice at lines 9-13. At line 22 it
  would collapse into a single graph node, whose demand of -1 leaves the
  network unbalanced. The model does not capture what happens in that case.
- The administrative helpers in `utilities.py` are not part of this model.
  They bulk-delete teams, departments, graduates, managers and users, and
  send a password-reset email. None of them takes part in an allocation
  round.
