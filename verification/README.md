# Verified model of the smith control plane

smith runs containers on a cluster of worker nodes. A control plane keeps the desired workloads, places their
replicas on nodes, and drives the agents on those nodes towards that placement. Agents get a container subnet when
they register, install routes to each other's subnets, and compile the service table into firewall chains. Bundles
of resources are applied from a directory and what they do not declare can be pruned.

This project models those protocols in Dafny and proves what they keep. Code that works on fields and maps step by
step is a class or a method with loops, each proved equal to a function on values; the laws are then proved of those
functions.

- **Placement.** `Ordering`, `Registry`, `Layouts`, `Placing`, `Scheduling`, `SchedulerLaws`: best-fit placement as a
  rule about nodes and as a least element, capacity over whole runs, rebalancing.
- **Reconciliation.** `Workloads`, `Reconciling`, `PassLaws`, `SingleCopy`, `CopyRuns`, `Rollout`, `Budget`,
  `Convergence`, `Recovery`, `Mishaps`, `Reconciler`: one pass of the loop, the single-copy protocol, rolling updates and
  their budget, convergence, restarting what has stopped. Calls to agents may be acknowledged, lost, or take effect
  without being acknowledged.
- **Addresses.** `Addresses`, `Subnets`, `Services`: lowest-free allocation, and registration with restarts of the
  control plane and of agents.
- **Traffic.** `Odds`, `Proxy`, `ProxyLaws`, `ProxySync`, `Traffic`, `Routes`, `RouteLaws`: first-match evaluation of the
  chains with the masquerade mark, the endpoint distribution, longest-prefix routing.
- **Bundles.** `Manifest`, `Spelling`, `Edits`, `Applying`, `ApplyLaws`, `ApplyRuns`, `Applier`: validation, lowering and
  its defaults, the order of operations, pruning.

Some promises in the repository's comments do not hold of its code as stated. For each, the model follows the code,
a lemma shows an input at which it fails, and another proves exactly when it does hold:

- A rebalance can overcommit a node (`IncompleteRebalanceOvercommits`). It does so if and only if its simulation leaves
  out a replica of an alive node (`RebalanceWithinIff`).
- A replica moved by a rebalance can end up with two containers, or with one nobody will stop, when it is deleted or
  its new node dies before the next pass (`RunTwoCopies`). A pass keeps single copies if and only if no moved replica
  is in that position (`PassOneCopyIff`).
- A pass can take down more replicas of a workload than its budget allows, because moves are not counted
  (`MoveAndRollOver`) and neither are rolls that stop a container and fail to start it (`FailedRollsOver`). It stays in
  budget if and only if these fit what the rolls leave of it (`PassBudgetIff`).
- Decommissioning a node whose agent still runs lets two agents hold one subnet (`DecommissionLiveClashes`). Every
  event but that one keeps agents and allocator in agreement (`StepKeepsInv`).
- An open NodePort whose service changes protocol stays open for the old one only (`NodePortKeepsOldProtocol`). It is
  accepted for the new one if and only if it was not open before or was accepted for it already
  (`NodePortAcceptedIff`).
- A manifest with a negative target port passes validation (`NegativeTargetPort`). The control plane refuses a lowered
  service as malformed if and only if its target port is negative (`StoreRejectsIff`).

`dafny verify dfyconfig.toml` checks the project.

## Model

| member | source | states |
|---|---|---|
| `Registry.NodeTable.Register` | internal/registry/registry.go:32-40 | files the node under its ID, stamped with the time of registration |
| `Registry.NodeTable.Heartbeat` | internal/registry/registry.go:43-55 | refreshes a known node; fails exactly for an unknown one, changing nothing |
| `Registry.NodeTable.Alive` | internal/registry/registry.go:79-91 | lists exactly the nodes heard from less than 30 seconds ago, each once, in any order |
| `Registry.NodeTable.Dead` | internal/registry/registry.go:94-106 | lists exactly the nodes last heard from 30 seconds ago or longer |
| `Registry.NodeTable.Remove` | internal/registry/registry.go:109-115 | drops one node and no other |
| `Placing.BestNodeLeast` | internal/scheduler/scheduler.go:104-139 | the chosen candidate is the least of those with room, in the order the sort uses; none is chosen only if there is none |
| `SchedulerLaws.CapacityIs` | internal/scheduler/scheduler.go:38-42 | a node can schedule 850 millicores per core and 85 percent of its megabytes, rounded down |
| `SchedulerLaws.BestNodeTightest` | internal/scheduler/scheduler.go:104-139 | over nodes, loads and requests: the chosen node can take the request, no other that can has fewer replicas of the workload, as many and a smaller share left over, or the same and a smaller ID; none is chosen only if no node can take it |
| `SchedulerLaws.AssignRule` | internal/scheduler/scheduler.go:50-96 | branch by branch: a replica stays exactly while its registered node can take its request, keeps its parent and takes the new request; else it goes to the tightest alive node, or is released, with the reason |
| `SchedulerLaws.SmallerFirst` | internal/scheduler/scheduler.go:116-123 | of an empty 8-core and an empty 2-core node the smaller is filled first: shares are of a node's own capacity |
| `Scheduling.Place` | internal/scheduler/scheduler.go:104-139 | the loop and sort over a node list in any order return the node that `BestNodeTightest` characterises |
| `Placing.AssignFrame` | internal/scheduler/scheduler.go:50-96 | assigning changes no other replica's entry and ends on a registered node with room, where it was or alive |
| `Placing.AssignWithin` | internal/scheduler/scheduler.go:50-96 | a node within capacity stays so, and the node assigned to is within capacity |
| `Scheduling.Scheduler.FitsOnNode` | internal/scheduler/scheduler.go:239-255 | summing the other replicas' requests decides whether the replica still fits where it is |
| `Scheduling.Scheduler.Assign` | internal/scheduler/scheduler.go:50-96 | the three maps change together as `AssignRule` says, on every path, errors included |
| `Scheduling.Scheduler.Unassign` | internal/scheduler/scheduler.go:296-303 | removes the replica from all three maps |
| `Scheduling.Scheduler.ReassignNode` | internal/scheduler/scheduler.go:331-345 | removes exactly the node's replicas and returns exactly those, each once |
| `Scheduling.Scheduler.ListAssignments` | internal/scheduler/scheduler.go:318-328 | lists each assignment once, with its node and parent |
| `Scheduling.SimulateTarget` | internal/scheduler/scheduler.go:193-213 | the loop over sorted replicas with running tallies computes the target from an empty cluster |
| `Scheduling.CollectMoves` | internal/scheduler/scheduler.go:214-224 | the moves are exactly the replicas whose target node differs, sorted |
| `Scheduling.Scheduler.RebalancePlan` | internal/scheduler/scheduler.go:145-150 | returns the plan of the current layout and changes nothing |
| `Scheduling.Scheduler.Rebalance` | internal/scheduler/scheduler.go:153-162 | returns the same plan and leaves the layout with every move of it carried out |
| `Scheduling.CommittedIsRebalanced` | internal/scheduler/scheduler.go:153-162 | committing the plan move by move is the rebalanced layout |
| `SchedulerLaws.QueueOrder` | internal/scheduler/scheduler.go:180-191 | replicas are simulated by memory, then CPU, largest first, then by ID |
| `SchedulerLaws.TargetRule` | internal/scheduler/scheduler.go:193-210 | each in turn gets the tightest alive node given those before it, and is left out only when no node can take it or the tightest has no name |
| `SchedulerLaws.RebalancedAt` | internal/scheduler/scheduler.go:153-162 | a replica ends on its target node, or where it was if it has none, with its parent and request |
| `SchedulerLaws.PlanRule` | internal/scheduler/scheduler.go:212-224 | the plan has exactly one move per replica whose node differs, from where it is to where it will be, by ID |
| `Scheduling.Scheduler.Overcommitted` | internal/scheduler/scheduler.go:262-293 | lists exactly the registered nodes whose load exceeds what they can schedule, with that load and capacity, by ID |
| `SchedulerLaws.StepSafe` | internal/scheduler/scheduler.go:50-96 | from a state within capacity, an operation stays within it if and only if it is not a nameless registration, one that shrinks a node below its load, or a rebalance that leaves out a replica of an alive node |
| `SchedulerLaws.RunSafe` | internal/scheduler/scheduler.go:296-345 | no run of assign, unassign, reassign and admissible registrations and rebalances overcommits a node |
| `SchedulerLaws.RebalanceConserves` | internal/scheduler/scheduler.go:165-224 | rebalancing keeps the replica set, parents and requests |
| `SchedulerLaws.RebalanceIdempotent` | internal/scheduler/scheduler.go:165-224 | the target does not depend on where replicas are now; a second plan is empty |
| `SchedulerLaws.RebalanceLoad` | internal/scheduler/scheduler.go:193-224 | each node's load afterwards is its simulated load plus that of replicas the simulation left behind |
| `SchedulerLaws.CompleteRebalanceWithin` | internal/scheduler/scheduler.go:193-224 | if the simulation places every replica, the result is the simulated layout and no node is overcommitted |
| `SchedulerLaws.RebalanceWithinIff` | internal/scheduler/scheduler.go:193-224 | from a layout within capacity, a rebalance overcommits no node if and only if every replica its simulation leaves out is on a node that is not alive |
| `SchedulerLaws.IncompleteRebalanceOvercommits` | internal/scheduler/scheduler.go:193-224 | six replicas filling two nodes, whose rebalance overcommits one |
| `SchedulerLaws.AssignAllBalanced` | internal/scheduler/scheduler.go:74-95 | while every alive node has room for each new replica in turn, assignments keep each workload's per-node counts within one of each other and place everything |
| `SchedulerLaws.TargetBalanced` | internal/scheduler/scheduler.go:193-213 | likewise the rebalance target is balanced within one and complete |
| `SchedulerLaws.DemandAmple` | internal/scheduler/scheduler.go:104-126 | there is such room when every alive node could take all the requests together |
| `Workloads.StripIsPattern` | internal/agent/agent.go:523-538 | suffix stripping removes a final dash followed by one or more digits and nothing else |
| `Workloads.StripRecoversParent` | internal/agent/agent.go:523-538 | stripping a generated name gives back its workload, also when that ends in dash and digits itself |
| `Workloads.DecimalReads` | internal/reconciler/reconciler.go:271-271 | the digits of an index read as that index, with no zero in front |
| `Workloads.ReplicaNameInjective` | internal/reconciler/reconciler.go:262-277 | no two pairs of workload and index share a replica name |
| `Workloads.ExpandAll` | internal/reconciler/reconciler.go:262-277 | the loops over a map in any order build the expansion |
| `Workloads.ExpandMembers` | internal/reconciler/reconciler.go:262-277 | a workload has replica 0 and one for every other index below its declared count, with its own fields, and nothing else is desired |
| `Workloads.ExpandSize` | internal/reconciler/reconciler.go:262-277 | there are exactly the sum of max(1, replicas) instances: none overwrites another |
| `Reconciler.SortedReplicaIds` | internal/reconciler/reconciler.go:281-288 | the desired replica IDs, each once, in alphabetical order |
| `Reconciler.CountUnavailable` | internal/reconciler/reconciler.go:142-147 | counts, per workload, its desired replicas that are not Running |
| `Reconciler.Fleet.PushAssignment` | internal/reconciler/reconciler.go:376-394 | the start takes effect or not, and is acknowledged or not, as the network decides |
| `Reconciler.Fleet.PushUnassign` | internal/reconciler/reconciler.go:397-416 | likewise for a stop |
| `Reconciler.Fleet.ClusterRunning` | internal/reconciler/reconciler.go:358-373 | the replicas Running on alive nodes whose status could be fetched |
| `Reconciler.Controller.RelocateTo` | internal/reconciler/reconciler.go:295-302 | stops the old container first where its node is registered, then starts the new one |
| `Reconciler.Controller.EvictDeadNodes` | internal/reconciler/reconciler.go:123-134 | dead nodes leave the registry, their replicas' placements and push records go |
| `Reconciler.Controller.DriveReplica` | internal/reconciler/reconciler.go:152-216 | one turn of the loop: assign, then place, relocate, roll within budget, or leave alone |
| `Reconciler.Controller.LapseRecords` | internal/reconciler/reconciler.go:221-232 | the loop over the records drops those that `PassForgets` says a pass drops as lapsed |
| `Reconciler.Controller.StopUndesired` | internal/reconciler/reconciler.go:235-248 | stops and forgets exactly the assigned replicas that are no longer desired |
| `Reconciler.Controller.Reconcile` | internal/reconciler/reconciler.go:107-251 | a pass of the loop takes the world to the one the pass function gives, of which the laws below are proved; if the store cannot be read nothing changes |
| `PassLaws.PassHeals` | internal/reconciler/reconciler.go:107-251 | from any state, however overcommitted, one pass leaves every registered node within capacity |
| `Convergence.PassCommits` | internal/reconciler/reconciler.go:107-251 | after any pass what is assigned is desired, on a registered node, and counts for what its workload declares, or for nothing |
| `Recovery.PassForgets` | internal/reconciler/reconciler.go:218-248 | of the records there after the replicas were driven, a pass drops exactly those two intervals old or more whose replica was not Running, and those of assigned replicas no longer desired |
| `SingleCopy.PassKeepsInv` | internal/reconciler/reconciler.go:152-216 | a pass keeps every container accounted for by a push record and ends with placements and records in agreement |
| `CopyRuns.NextKeepsInv` | internal/reconciler/reconciler.go:107-251 | every allowed event of the cluster keeps that invariant |
| `CopyRuns.RunSingleCopy` | internal/reconciler/reconciler.go:184-193 | in every allowed run from an empty control plane no replica ever has two containers |
| `CopyRuns.UndesiredStoppedIff` | internal/reconciler/reconciler.go:235-248 | a pass removes an undesired replica's container if and only if the replica is assigned to that container's alive node and the stop is not lost |
| `CopyRuns.UndesiredMovedOrphan` | internal/reconciler/reconciler.go:235-248 | a moved replica deleted before its relocation keeps its old container, and is forgotten |
| `CopyRuns.OrphanStays` | internal/reconciler/reconciler.go:235-248 | no later pass stops such a container while the replica stays undesired |
| `CopyRuns.EvictedMovedDuplicate` | internal/reconciler/reconciler.go:123-134 | a moved replica whose new node dies before its relocation keeps its old container, and is started a second time on a third node, or forgotten when placed nowhere |
| `Mishaps.RunTwoCopies` | internal/reconciler/reconciler.go:235-248 | nine events from an empty control plane, every call acknowledged, that end with two containers of one replica |
| `CopyRuns.PassOneCopyIff` | internal/reconciler/reconciler.go:107-251 | a pass keeps single copies if and only if no moved replica is undesired or on a dead node in a way that loses its container |
| `Rollout.PassRolls` | internal/reconciler/reconciler.go:195-211 | for every outcome of the calls, a workload's charged rolls are the first ones in order whose stop and start are both acknowledged, as many as max(1, declared) leaves room for over those not Running |
| `Budget.PassDowns` | internal/reconciler/reconciler.go:152-216 | from any state, for every outcome of the calls, the replicas not Running after a pass are those that were not, the rollable ones stopped while fewer acknowledged rolls than the budget allows came before, and the moved ones; a replica also Running on a node its record does not name is not among these |
| `Budget.PassBudgetIff` | internal/reconciler/reconciler.go:195-211 | from any state, how many replicas that is, and that it stays within the budget, or within those down already, if and only if the moved and half-rolled ones fit what the rolls leave of the budget, plus the charged rolls that take nothing down |
| `Budget.AckedPassBudget` | internal/reconciler/reconciler.go:195-211 | with calls acknowledged and recorded containers where their records say, these are the rolled and the moved ones, and rolls alone never exceed the budget or what was down already |
| `Budget.RunBudget` | internal/reconciler/reconciler.go:140-147 | so it is at a pass after every allowed run from an empty control plane |
| `Mishaps.MoveAndRollOver` | internal/reconciler/reconciler.go:184-193 | budget 1, one stale replica and one moved by a rebalance: a pass with every call acknowledged takes down both |
| `Mishaps.FailedRollsOver` | internal/reconciler/reconciler.go:199-209 | budget 1, two stale replicas, starts lost: one pass takes down both |
| `Convergence.PassShrinksStale` | internal/reconciler/reconciler.go:195-211 | a pass over a ready cluster makes MaxUnavailable stale replicas of a workload current, or all that are left |
| `Convergence.RolloutFinishes` | internal/reconciler/reconciler.go:195-211 | k stale replicas are all current after k / MaxUnavailable passes, rounded up |
| `Convergence.RolloutBudget` | internal/reconciler/reconciler.go:195-211 | each pass of a rollout leaves exactly the lesser of the stale replicas and the budget not Running |
| `Convergence.RolloutConverges` | internal/reconciler/reconciler.go:107-251 | after the largest of the workloads' round-ups, and at least one pass, the cluster has converged |
| `Convergence.FreshConverges` | internal/reconciler/reconciler.go:107-251 | a control plane that knows of nothing yet: if its first pass places every replica and these come up, the cluster has converged |
| `Convergence.ConvergedFixed` | internal/reconciler/reconciler.go:107-251 | a pass over a converged cluster sends no call and changes nothing |
| `Recovery.CrashedRestarts` | internal/reconciler/reconciler.go:218-232 | a replica that has no container, whose record is two intervals old or gone, has its current container where it is assigned after two passes |
| `Recovery.CrashedRestartsLater` | internal/reconciler/reconciler.go:218-232 | and at every pass after that, while its workload is unchanged and nothing else stops it |
| `Recovery.PassSupplies` | internal/reconciler/reconciler.go:152-216 | a pass keeps every container of a replica current and starts one where it is assigned |
| `Subnets.AllocateLaws` | internal/reconciler/subnets_sqlite.go:88-147 | allocation keeps what is there, gives a new node the lowest block nobody has, and fails for a named node exactly when it is new and all 256 are taken |
| `Subnets.AllocateIdempotent` | internal/reconciler/subnets_sqlite.go:88-147 | asking again gives the same block |
| `Subnets.SubnetAllocator.Allocate` | internal/reconciler/subnets_sqlite.go:88-147 | the search loop over the table meets the allocation function and returns the block's configuration |
| `Subnets.SubnetAllocator.Release` | internal/reconciler/subnets_sqlite.go:150-159 | frees one node's block |
| `Subnets.SubnetAllocator.All` | internal/reconciler/subnets_sqlite.go:162-181 | the loop over the rows gives every allocated node its own block, and no address is in two of them |
| `Subnets.BlocksDisjoint` | internal/reconciler/subnets_sqlite.go:78-85 | different indexes give disjoint blocks inside the cluster pool |
| `Subnets.GatewayInBlock` | internal/reconciler/subnets_sqlite.go:77-83 | a block is 256 addresses, its gateway is the second, and that is in no other block |
| `Subnets.ControlPlane.RegisterNode` | internal/api/server.go:508-533 | registers and allocates; a refused allocation is reported |
| `Subnets.ControlPlane.Heartbeat` | internal/api/server.go:536-549 | refreshes a known node; an empty ID and an unknown node are answered differently and change nothing |
| `Subnets.ControlPlane.RemoveNode` | internal/api/server.go:734-753 | decommissions a node: its registration, its block and the placements on it go; an empty ID is refused |
| `Subnets.Agent.Start` | internal/agent/agent.go:202-226 | the retry loop, through unreachable servers, refusals and lost answers, ends with the block the control plane holds for the agent, or not up |
| `Subnets.AttemptsKeepInv` | internal/agent/agent.go:202-226 | however many attempts it takes, agents and allocator stay in agreement |
| `Subnets.Agent.Tick` | internal/agent/agent.go:273-327 | an unknown heartbeat makes the agent register again; it reports a mismatch exactly when it is then given another block, which cannot happen while agents and allocator agree |
| `Subnets.StepKeepsInv` | internal/agent/agent.go:226-327 | running agents and allocator stay in agreement through an event if and only if it does not decommission a running agent |
| `Subnets.RunKeepsInv` | internal/agent/agent.go:226-327 | so they do over whole runs, control-plane restarts included |
| `Subnets.RunDisjoint` | internal/reconciler/subnets_sqlite.go:77-147 | after any such run no address belongs to two running agents, and every block lies in the pool |
| `Subnets.ReRegisterAgrees` | internal/agent/agent.go:316-327 | registering again always returns the block the agent already uses |
| `Subnets.DecommissionLiveClashes` | internal/api/server.go:734-753 | decommissioning a running agent lets the next node be given its block: one address is in both agents' networks |
| `Services.Lowest` | internal/reconciler/services_sqlite.go:156-182 | the search loop finds the lowest free number, or the limit |
| `Services.ServiceStore.Add` | internal/reconciler/services_sqlite.go:81-128 | validates, keeps an existing allocation or allocates, and stores, as `AddStores` and `AddFrame` say, error paths included |
| `Services.AddStores` | internal/reconciler/services_sqlite.go:91-128 | what is stored and returned has the request's name, workload, port, target port and protocol, tcp if it has none |
| `Services.ServiceStore.Remove` | internal/reconciler/services_sqlite.go:210-218 | frees the service's address and port |
| `Services.AddFrame` | internal/reconciler/services_sqlite.go:98-123 | adding changes no other service and an update keeps the allocation |
| `Services.AddInStep` | internal/reconciler/services_sqlite.go:131-185 | address offset minus one equals port minus 30000, and allocations stay distinct |
| `Services.AddFailsIff` | internal/reconciler/services_sqlite.go:131-185 | adding a valid service fails if and only if it is new and 2768 exist, for want of a port |
| `Services.PinIgnored` | internal/reconciler/services_sqlite.go:103-107 | a NodePort pin in the request has no effect |
| `Services.RunInStep` | internal/reconciler/services_sqlite.go:81-218 | every table reached by adds and removes keeps addresses and ports in step |
| `Services.ReachableAddFailsIff` | internal/reconciler/services_sqlite.go:168-182 | so in every reachable table the address-exhausted branch is dead |
| `Odds.PickedExact` | internal/runtime/service_proxy.go:150-170 | chained probabilities 1/(n-i) select each of n endpoints with probability exactly 1/n |
| `Odds.PickedTotal` | internal/runtime/service_proxy.go:150-170 | with an unconditional last rule the selection probabilities add up to 1, whatever the others are |
| `Odds.RoundedClose` | internal/runtime/service_proxy.go:150-170 | five decimals are within 0.000005 of 1/k and between 0 and 1 |
| `Odds.PickedClose` | internal/runtime/service_proxy.go:150-170 | with rounded probabilities each share is within n times 0.000005 of 1/n |
| `ProxySync.ServiceProxy.EnsureBaseChains` | internal/runtime/service_proxy.go:94-123 | adds the base chains and rules that are missing |
| `ProxySync.ServiceProxy.PopulateServiceChain` | internal/runtime/service_proxy.go:126-173 | rebuilds a service's chain: mark, then one rule per endpoint with its probability; what that does to packets is `SyncSteers` and `SyncMarks` |
| `ProxySync.ServiceProxy.PopulateServicesChain` | internal/runtime/service_proxy.go:176-202 | rebuilds the dispatch chain: ClusterIP and NodePort matches per service |
| `ProxySync.ServiceProxy.CleanupStaleChains` | internal/runtime/service_proxy.go:205-222 | drops exactly the service chains not wanted |
| `ProxySync.ServiceProxy.SyncNodePorts` | internal/runtime/service_proxy.go:226-261 | opens newly wanted ports, closes unwanted ones |
| `ProxySync.ServiceProxy.Sync` | internal/runtime/service_proxy.go:55-90 | the whole sync builds the chains, ports and accept rules that the laws below are about |
| `ProxyLaws.SyncSteers` | internal/runtime/service_proxy.go:126-222 | first-match evaluation sends a packet to a service's endpoints, with their distribution, exactly when look-up in the table does, and passes it on otherwise |
| `ProxyLaws.SyncMarks` | internal/runtime/service_proxy.go:126-148 | no packet reaches an endpoint without the masquerade mark; a packet for no service passes without it, and one for a service never does |
| `ProxyLaws.HooksSteer` | internal/runtime/service_proxy.go:94-111 | the same from PREROUTING and OUTPUT, whatever rules that do not apply were there before |
| `ProxyLaws.SyncMasquerades` | internal/runtime/service_proxy.go:110-110 | POSTROUTING rewrites the source of exactly the marked packets |
| `Traffic.ReachableSteers` | internal/api/server.go:625-660 | whatever services were added and removed, the chains built from the table the control plane hands out send a packet for a stored service to its endpoints and pass on a packet for none |
| `Traffic.AddedServiceSteers` | internal/reconciler/services_sqlite.go:91-128 | after a service is added, its packets, by the port and protocol asked for, reach its endpoints on the target port asked for and no other port, evenly, and marked |
| `Traffic.ReachableNodePorts` | internal/api/server.go:625-660 | and a firewall with no port open yet accepts every stored service at its NodePort for its protocol |
| `ProxyLaws.SyncFrame` | internal/runtime/service_proxy.go:205-222 | chains that are not the proxy's are untouched |
| `ProxyLaws.SyncIdempotent` | internal/runtime/service_proxy.go:55-90 | syncing the same table again changes no chain |
| `ProxyLaws.EndpointsEven` | internal/runtime/service_proxy.go:150-170 | a packet for a service reaches each endpoint with probability within n times 0.000005 of 1/n, adding up to 1 |
| `ProxyLaws.SyncKeepsOpened` | internal/runtime/service_proxy.go:226-261 | a sync keeps the firewall accepting what the proxy takes to be open, and shuts every port no longer wanted |
| `ProxyLaws.NodePortAcceptedIff` | internal/runtime/service_proxy.go:226-261 | the firewall accepts a service's NodePort for its protocol afterwards if and only if the port was not open before or was accepted for that protocol already |
| `ProxyLaws.NodePortKeepsOldProtocol` | internal/runtime/service_proxy.go:226-261 | port 30000 open for tcp whose service now speaks udp: still only tcp is accepted |
| `ProxyLaws.PortsIdempotent` | internal/runtime/service_proxy.go:226-261 | syncing again opens and closes nothing |
| `Routes.NodeRoutes` | internal/api/server.go:577-611 | from the allocator's blocks and the registry: one route per other registered node with an underlay address, in any order; an empty ID is refused |
| `Routes.RouteManager.Sync` | internal/runtime/routes.go:44-92 | installs the usable routes, then removes others, where the kernel agrees, as `SyncFrame` and `SyncPrunes` say; if routes cannot be listed none is removed |
| `RouteLaws.SyncRetries` | internal/runtime/routes.go:41-92 | two syncs leave undone only what the kernel refused both times |
| `RouteLaws.PoolRoutesArePeers` | internal/runtime/routes.go:94-112 | after a sync the gatewayed /24s in the cluster /16, the node's own apart, are exactly the blocks of its registered peers, each through that peer's host |
| `RouteLaws.SyncRoutesTo` | internal/runtime/routes.go:44-92 | an address in a peer's block resolves by longest prefix to that peer if and only if the node has no more specific route for it |
| `RouteLaws.SyncFrame` | internal/runtime/routes.go:94-112 | a destination that is no peer's block is unchanged if it is outside the /16, is not a /24, is on-link or is the node's own block |
| `RouteLaws.SyncPrunes` | internal/runtime/routes.go:71-89 | every other one is removed |
| `RouteLaws.OperatorRouteKept` | internal/runtime/routes.go:105-107 | a gatewayed /24 outside the pool stays through a sync with no routes |
| `RouteLaws.RunDelivers` | internal/api/server.go:595-608 | after any run of the registration protocol a packet to another agent's container leaves for that agent's host, whose own route to it is untouched |
| `Manifest.ValidateVolumes` | internal/manifest/resolve.go:97-112 | reports the first faulty volume |
| `Manifest.ResolveWorkload` | internal/manifest/resolve.go:54-91 | reports the first fault or lowers the workload with its defaults |
| `Manifest.ResolveServices` | internal/manifest/resolve.go:114-166 | reports the first faulty service or lowers them all |
| `Manifest.ResolveIngresses` | internal/manifest/resolve.go:168-201 | reports the first faulty ingress or lowers them all |
| `Manifest.Resolve` | internal/manifest/resolve.go:25-52 | reports the first fault in the order the checks are made, or lowers the bundle |
| `Manifest.ResolvesIff` | internal/manifest/resolve.go:25-201 | a bundle is lowered if and only if it is acceptable, said without reference to the order of the checks |
| `Manifest.LoweredWired` | internal/manifest/resolve.go:114-201 | services belong to the bundle's workload under different names, every ingress goes to a declared service, and a workload with volumes has one replica |
| `Spelling.ExplicitRoundTrip` | internal/manifest/resolve.go:54-201 | lowering an app that leaves nothing to a default loses and changes nothing: it can be read back |
| `Spelling.LoweredRoundTrip` | internal/manifest/resolve.go:54-201 | spelling out a lowered app and lowering it again gives the same bundle |
| `Spelling.DefaultsMean` | internal/manifest/resolve.go:65-78 | left-out replicas and budget mean 1, protocol means tcp, target port means the port |
| `Spelling.ImpliedNames` | internal/manifest/resolve.go:127-134 | a single unnamed service has the app's name, an ingress without a service goes to the only one |
| `Manifest.StoreRejectsIff` | internal/manifest/resolve.go:142-163 | the control plane refuses a lowered service as malformed if and only if its target port is negative |
| `Manifest.NegativeTargetPort` | internal/manifest/resolve.go:145-148 | an app with target port -1 is acceptable and refused by the service store |
| `Applying.MergeOverlay` | internal/apply/apply.go:304-327 | overlay values win, and its keys are remembered |
| `Spelling.MergedEnv` | internal/apply/apply.go:318-326 | merging changes the environment alone, the overlay's value wins, other variables keep theirs, and exactly the overlay's are hidden |
| `Applying.LoadBundles` | internal/apply/apply.go:50-93 | succeeds exactly when there is a manifest and every manifest and overlay is good |
| `Applier.Delta` | internal/apply/apply.go:194-219 | declared keys split by whether they are live, live keys not declared, all sorted, repeats kept |
| `Applier.DesiredKeys` | internal/apply/apply.go:153-164 | the declared keys of each kind in bundle order |
| `Applier.LiveKeys` | internal/apply/apply.go:167-190 | the live keys of each kind, or failure |
| `Applier.PrunePlan` | internal/apply/apply.go:224-234 | the deletions that remove what is live and not declared |
| `Applier.PruneDrift` | internal/apply/apply.go:238-263 | issues those deletions, ingresses first, until one fails |
| `Applier.ApplyAll` | internal/apply/apply.go:103-124 | issues workloads, then services, then ingresses, until one fails |
| `Applier.PrintPlan` | internal/apply/apply.go:354-377 | prints the plan's lines in order, environment keys sorted |
| `Applier.Apply` | internal/apply/apply.go:82-130 | bad manifests and dry runs touch nothing; the dry-run delete list is, element for element, what a real run from the same state deletes; no dangling reference is left however calls fail; a completed prune leaves exactly what is declared |
| `Applier.PlanHidesSecrets` | internal/apply/apply.go:351-365 | overlays with the same keys print the same plan: no secret value shows |
| `ApplyLaws.SafeIff` | internal/apply/apply.go:103-124 | an operation keeps references intact if and only if it adds none to something missing and removes nothing referred to |
| `ApplyRuns.PrunePlanStable` | internal/apply/apply.go:221-234 | what prune deletes is the same before and after applying |
| `ApplyRuns.RunIsDeclared` | internal/apply/apply.go:236-263 | applying and pruning ends in what the bundles build from nothing, whatever was live |
| `ApplyRuns.DeclaredNext` | internal/apply/apply.go:103-124 | one bundle more replaces the entries of the same key with its own, and leaves every other entry as declared |
| `ApplyRuns.RunKeepsIntact` | internal/apply/apply.go:103-128 | from a state with no dangling reference, a run cut short anywhere leaves none |
| `ApplyRuns.CompletedRun` | internal/apply/apply.go:126-128 | live keys equal declared keys for all three kinds, references are intact even if they were not before, and a second run deletes and changes nothing |
| `ApplyRuns.LoadedWired` | internal/apply/apply.go:50-75 | bundles loaded from acceptable manifests meet what the run theorems ask of them |

## Left out

- A pass of the reconcile loop is uninterrupted and reads one time throughout; API calls between its steps are not modelled.
- Restarts of the control plane are modelled in the subnet protocol only: after one, placements and push records are lost and a replica may be started twice.
- `specHash` and the digest in a service's chain name stand for themselves as injective functions; SHA-256 and JSON are not modelled.
- The 85 percent schedulable share is floor(85 n / 100) on whole numbers, the remaining fraction is an exact real, and requests are non-negative.
- `%.5f` rounding of 1/k is to nearest with ties to even on the exact quotient, not on its binary approximation.
- Chains are lists and filter/INPUT is a set of accept rules; iptables calls succeed. A failing call aborts a sync, which is not modelled.
- Kernel routes are one per destination; metrics and tables are not modelled, and IPv6 is not.
- SQL, HTTP, TLS and JSON: stores are maps, calls are steps with an outcome. A store error is modelled only as an unreadable workload list.
- Only one `apply` runs at a time; other clients changing the cluster during it are not modelled.
- `apply`'s `Diff`, which prints the same delta without changing anything, and YAML parsing.
- A workload's health check, log streaming, the user interface, the ingress proxy, certificates, provisioning, health probes, containerd, CNI, the firewall and volume mounts.
- AssignAllBalanced: asks that no node is named with the empty string, which `place` uses to say that no node fits; so do TargetBalanced and RebalanceWithinIff.
- RunBudget: covers runs whose calls are acknowledged, as RunSingleCopy does; a single pass is covered for every outcome.
- CrashedRestarts: covers passes whose calls are acknowledged; so do CrashedRestartsLater and PassSupplies.
- Connection tracking: each packet of a connection is evaluated by itself.
