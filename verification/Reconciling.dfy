/** One reconcile pass as a function of the cluster's state. */
module Reconciling {
  import opened Ordering
  import opened Registry
  import opened Layouts
  import opened Placing
  import opened Workloads

  /** Where, when and with what spec a replica was last pushed. */
  datatype PushRecord = PushRecord(node: string, at: int, spec: Spec)

  type Pushed = map<string, PushRecord>

  /** A replica's container on a node; at most one can exist per slot. */
  datatype Slot = Slot(node: string, replica: string)

  datatype Container = Container(spec: Spec, running: bool)

  type Containers = map<Slot, Container>

  /** Calls from the control plane to an agent, and what can become of them: acknowledged, lost, or
      carried out with the acknowledgement lost. */
  datatype Call = Start(slot: Slot) | Stop(slot: Slot) | Status(node: string)

  datatype Outcome = Acked | Lost | Unacked

  type Net = Call -> Outcome

  ghost predicate AllAcked(net: Net) {
    forall c :: net(c).Acked?
  }

  /** The whole cluster: desired workloads, registered nodes, placements, push records, and the
      containers that exist on the nodes. */
  datatype World = World(stored: Store, nodes: Nodes, layout: Layout, pushed: Pushed, containers: Containers)

  // ----- The agents' side -----

  /** `POST /assign`: a container that already exists is left alone. */
  function Started(c: Containers, slot: Slot, spec: Spec, o: Outcome): Containers {
    if o.Lost? || slot in c then c else c[slot := Container(spec, false)]
  }

  /** `DELETE /assign/{id}`. */
  function Stopped(c: Containers, slot: Slot, o: Outcome): Containers {
    if o.Lost? then c else c - {slot}
  }

  /** The replicas reported Running by the alive nodes whose status could be fetched. */
  ghost function Running(c: Containers, alive: Nodes, net: Net): set<string> {
    set s | s in c.Keys && s.node in alive && net(Status(s.node)).Acked? && c[s].running :: s.replica
  }

  // ----- Eviction from dead nodes -----

  ghost function EvictDead(w: World, now: int): World {
    var dead := DeadIds(w.nodes, now);
    var layout := Evict(w.layout, dead);
    w.(nodes := w.nodes - dead, layout := layout, pushed := w.pushed - (w.layout.Keys - layout.Keys))
  }

  // ----- Driving the replicas -----

  /** What stays fixed while a pass drives the replicas. */
  datatype Round = Round(stored: Store, desired: map<string, Instance>, nodes: Nodes, now: int, running: set<string>)

  ghost predicate ValidRound(rd: Round) {
    && WellKeyed(rd.nodes)
    && forall r | r in rd.desired :: rd.desired[r].parent in rd.stored
  }

  /** What a pass changes as it goes: `rolled` are the replicas replaced in place, `sent` the assign and
      unassign calls made. */
  datatype Progress = Progress(layout: Layout, pushed: Pushed, containers: Containers, unavailable: Tally,
                               rolled: set<string>, sent: set<Call>)

  function SendStart(p: Progress, slot: Slot, spec: Spec, net: Net): Progress {
    p.(containers := Started(p.containers, slot, spec, net(Start(slot))), sent := p.sent + {Start(slot)})
  }

  function SendStop(p: Progress, slot: Slot, net: Net): Progress {
    p.(containers := Stopped(p.containers, slot, net(Stop(slot))), sent := p.sent + {Stop(slot)})
  }

  function RecordPush(p: Progress, r: string, node: string, now: int, spec: Spec): Progress {
    p.(pushed := p.pushed[r := PushRecord(node, now, spec)])
  }

  function Push(rd: Round, net: Net, p: Progress, r: string, node: string, spec: Spec): Progress {
    var p1 := SendStart(p, Slot(node, r), spec, net);
    if net(Start(Slot(node, r))).Acked? then RecordPush(p1, r, node, rd.now, spec) else p1
  }

  /** Stop the old container if its node is still registered, whatever comes of that, then start the new. */
  function Relocate(rd: Round, net: Net, p: Progress, r: string, node: string, spec: Spec): Progress
    requires r in p.pushed
  {
    var from := p.pushed[r].node;
    Push(rd, net, if from in rd.nodes then SendStop(p, Slot(from, r), net) else p, r, node, spec)
  }

  /** Replace a container in place; the budget is charged when both calls are acknowledged. */
  function Roll(rd: Round, net: Net, p: Progress, r: string, node: string, spec: Spec, parent: string): Progress {
    var p1 := SendStop(p, Slot(node, r), net);
    if !net(Stop(Slot(node, r))).Acked? then p1
    else
      var p2 := Push(rd, net, p1, r, node, spec);
      if !net(Start(Slot(node, r))).Acked? then p2
      else p2.(unavailable := Bump(p2.unavailable, parent, 1), rolled := p2.rolled + {r})
  }

  predicate MayRoll(rd: Round, p: Progress, r: string)
    requires r in rd.desired && rd.desired[r].parent in rd.stored
  {
    r in rd.running && At(p.unavailable, rd.desired[r].parent) < MaxUnavailable(rd.stored[rd.desired[r].parent])
  }

  /** Bring a placed replica to its node with the current spec. */
  function Deliver(rd: Round, net: Net, p: Progress, r: string, node: string): Progress
    requires r in rd.desired && rd.desired[r].parent in rd.stored
  {
    var inst := rd.desired[r];
    var spec := inst.wl.spec;
    if r !in p.pushed then Push(rd, net, p, r, node, spec)
    else if p.pushed[r].node != node then Relocate(rd, net, p, r, node, spec)
    else if p.pushed[r].spec != spec then
      if MayRoll(rd, p, r) then Roll(rd, net, p, r, node, spec, inst.parent) else p
    else p
  }

  ghost function DriveOne(rd: Round, net: Net, p: Progress, r: string): Progress
    requires r in rd.desired && rd.desired[r].parent in rd.stored
  {
    var inst := rd.desired[r];
    var (layout, res) := Assign(p.layout, rd.nodes, rd.now, r, inst.parent, RequestOf(inst.wl));
    if !res.Assigned? then p.(layout := layout)
    else if res.node !in rd.nodes then p.(layout := layout - {r})
    else Deliver(rd, net, p.(layout := layout), r, res.node)
  }

  ghost predicate InRound(q: seq<string>, rd: Round) {
    ValidRound(rd) && forall i | 0 <= i < |q| :: q[i] in rd.desired
  }

  ghost function Drive(rd: Round, net: Net, p: Progress, q: seq<string>): Progress
    requires InRound(q, rd)
    decreases |q|
  {
    if q == [] then p
    else DriveOne(rd, net, Drive(rd, net, p, q[..|q| - 1]), q[|q| - 1])
  }

  /** The placements alone, replica after replica. */
  ghost function Settle(rd: Round, m: Layout, q: seq<string>): Layout
    requires InRound(q, rd)
    decreases |q|
  {
    if q == [] then m
    else
      var r := q[|q| - 1];
      Assign(Settle(rd, m, q[..|q| - 1]), rd.nodes, rd.now, r, rd.desired[r].parent, RequestOf(rd.desired[r].wl)).0
  }

  // ----- After the loop -----

  /** Forget records of replicas that should be running by now but are not. */
  ghost function Lapse(pushed: Pushed, running: set<string>, now: int, grace: int): Pushed {
    map r | r in pushed && !(now - pushed[r].at >= grace && r !in running) :: pushed[r]
  }

  ghost function Undesired(rd: Round, m: Layout): set<string> {
    m.Keys - rd.desired.Keys
  }

  /** The stop calls for replicas no longer desired: each goes to the node the replica is assigned to. */
  ghost function StopCalls(rd: Round, m: Layout): set<Slot> {
    set r | r in Undesired(rd, m) && m[r].node in rd.nodes :: Slot(m[r].node, r)
  }

  ghost function Cleanup(rd: Round, net: Net, p: Progress): Progress {
    var gone := Undesired(rd, p.layout);
    var stops := StopCalls(rd, p.layout);
    p.(layout := p.layout - gone,
       pushed := p.pushed - gone,
       containers := p.containers - (set s | s in stops && !net(Stop(s)).Lost?),
       sent := p.sent + set s | s in stops :: Stop(s))
  }

  // ----- The pass -----

  ghost function NotRunning(desired: map<string, Instance>, parent: string, running: set<string>): set<string> {
    set r | r in desired && desired[r].parent == parent && r !in running
  }

  /** Per workload with replicas down or starting, how many there are. */
  ghost function Unavailable(rd: Round): Tally {
    map parent | parent in (set r | r in rd.desired && r !in rd.running :: rd.desired[r].parent)
      :: |NotRunning(rd.desired, parent, rd.running)|
  }

  lemma UnavailableCounts(rd: Round, parent: string)
    ensures At(Unavailable(rd), parent) == |NotRunning(rd.desired, parent, rd.running)|
  {
    if parent !in Unavailable(rd) {
      assert NotRunning(rd.desired, parent, rd.running) == {};
    }
  }

  ghost function RoundOf(w: World, now: int, net: Net): Round {
    var w1 := EvictDead(w, now);
    Round(w.stored, Expand(w.stored), w1.nodes, now, Running(w1.containers, AliveNodes(w1.nodes, now), net))
  }

  ghost function Before(w: World, now: int, net: Net): Progress {
    var w1 := EvictDead(w, now);
    Progress(w1.layout, w1.pushed, w1.containers, Unavailable(RoundOf(w, now, net)), {}, {})
  }

  ghost function Order(desired: map<string, Instance>): seq<string> {
    StringsTotal(desired.Keys);
    Arrange(desired.Keys, StringLess)
  }

  lemma SurvivorsAlive(nodes: Nodes, now: int)
    ensures AliveNodes(nodes - DeadIds(nodes, now), now) == nodes - DeadIds(nodes, now)
    ensures nodes - DeadIds(nodes, now) == AliveNodes(nodes, now)
    ensures WellKeyed(nodes) ==> WellKeyed(nodes - DeadIds(nodes, now))
  {
  }

  lemma OrderCovers(desired: map<string, Instance>)
    ensures forall r :: r in Order(desired) <==> r in desired
    ensures Distinct(Order(desired))
    ensures forall i | 0 <= i < |Order(desired)| :: Order(desired)[i] in desired
  {
    StringsTotal(desired.Keys);
    ArrangeDistinct(desired.Keys, StringLess);
    var q := Order(desired);
    forall i | 0 <= i < |q| ensures q[i] in desired {
      assert q[i] in q;
    }
  }

  lemma RoundValid(w: World, now: int, net: Net)
    requires WellKeyed(w.nodes)
    ensures ValidRound(RoundOf(w, now, net))
    ensures InRound(Order(Expand(w.stored)), RoundOf(w, now, net))
    ensures AliveNodes(RoundOf(w, now, net).nodes, now) == RoundOf(w, now, net).nodes
  {
    hide Expand, Running, Order, AliveNodes, DeadIds, Evict;
    ExpandHonest(w.stored);
    SurvivorsAlive(w.nodes, now);
    OrderCovers(Expand(w.stored));
  }

  ghost function Driven(w: World, now: int, net: Net): Progress
    requires WellKeyed(w.nodes)
  {
    RoundValid(w, now, net);
    Drive(RoundOf(w, now, net), net, Before(w, now, net), Order(Expand(w.stored)))
  }

  ghost function Finished(w: World, now: int, net: Net, interval: int): Progress
    requires WellKeyed(w.nodes)
  {
    var rd := RoundOf(w, now, net);
    var p := Driven(w, now, net);
    Cleanup(rd, net, p.(pushed := Lapse(p.pushed, rd.running, now, 2 * interval)))
  }

  /** The state a pass leaves behind. */
  ghost function Reconcile(w: World, now: int, net: Net, interval: int): World
    requires WellKeyed(w.nodes)
  {
    var p := Finished(w, now, net, interval);
    World(w.stored, EvictDead(w, now).nodes, p.layout, p.pushed, p.containers)
  }
}
