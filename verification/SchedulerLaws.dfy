/** What the scheduler guarantees over whole runs of its operations. */
module SchedulerLaws {
  import opened Ordering
  import opened Registry
  import opened Layouts
  import opened Placing
  import opened Scheduling

  // ----- The placement rule, from the nodes' own figures -----

  /** 85% of a node's millicores and MB, rounded down. */
  lemma CapacityIs(n: Node)
    ensures Capacity(n, Cpu) == 850 * n.cpu && Capacity(n, Memory) == 85 * n.mem / 100
  {
    assert n.cpu * 1000 * 85 == 100 * (850 * n.cpu);
  }

  /** The node can take the request on top of what it carries. */
  ghost predicate CanTake(m: Layout, n: Node, req: Resources) {
    Load(m, n.id, Cpu) + req.cpu <= 850 * n.cpu && Load(m, n.id, Memory) + req.mem <= 85 * n.mem / 100
  }

  /** The share of a capacity left unused. */
  function Unused(cap: nat, used: nat): real {
    if cap == 0 then 0.0 else 1.0 - used as real / cap as real
  }

  /** What would be left of the node, CPU share and memory share together. */
  ghost function Left(m: Layout, n: Node, req: Resources): real {
    Unused(850 * n.cpu, Load(m, n.id, Cpu) + req.cpu) + Unused(85 * n.mem / 100, Load(m, n.id, Memory) + req.mem)
  }

  /** Node `b` can take the request, and against any other that can it has fewer siblings, or as many and less left,
      or as many and as much left and the lower ID. */
  ghost predicate Tightest(alive: Nodes, m: Layout, parent: string, req: Resources, b: string) {
    && b in alive && CanTake(m, alive[b], req)
    && forall n | n in alive && n != b && CanTake(m, alive[n], req) ::
      var sb, sn := Siblings(m, parent, b), Siblings(m, parent, n);
      var lb, ln := Left(m, alive[b], req), Left(m, alive[n], req);
      sb < sn || (sb == sn && (lb < ln || (lb == ln && StringLess(b, n))))
  }

  lemma SpareIsUnused(cap: nat, used: nat, req: nat)
    ensures Spare(cap, used, req) == Unused(cap, used + req)
  {
    if cap > 0 {
      var c, u := cap as real, (used + req) as real;
      assert (cap - used - req) as real == c - u;
      assert (c - u) / c == c / c - u / c;
      assert c / c == 1.0;
    }
  }

  lemma RoomIsCanTake(m: Layout, n: Node, req: Resources)
    ensures Room(m, n, req) <==> CanTake(m, n, req)
  {
    hide Capacity, Load;
    RoomIsFits(m, n, req);
    CapacityIs(n);
  }

  lemma OfferLeaves(m: Layout, n: Node, parent: string, req: Resources)
    ensures OfferOf(n, m, parent, req) == Candidate(n.id, Siblings(m, parent, n.id), Left(m, n, req))
  {
    hide Capacity, Load, Siblings, Spare, Unused;
    CapacityIs(n);
    SpareIsUnused(Capacity(n, Cpu), Load(m, n.id, Cpu), req.cpu);
    SpareIsUnused(Capacity(n, Memory), Load(m, n.id, Memory), req.mem);
  }

  /** The choice is the tightest node that can take the request, and there is none only when no node can. */
  lemma BestNodeTightest(alive: Nodes, m: Layout, parent: string, req: Resources)
    requires WellKeyed(alive)
    ensures var b := BestNode(alive, m, parent, req);
      Tightest(alive, m, parent, req, b) || (b == "" && forall n | n in alive :: !CanTake(m, alive[n], req))
  {
    hide BestNode, CanTake, Left, OfferOf, Room, Siblings;
    BestNodeLeast(alive, m, parent, req);
    forall n | n in alive
      ensures Room(m, alive[n], req) <==> CanTake(m, alive[n], req)
      ensures OfferOf(alive[n], m, parent, req) == Candidate(n, Siblings(m, parent, n), Left(m, alive[n], req))
    {
      RoomIsCanTake(m, alive[n], req);
      OfferLeaves(m, alive[n], parent, req);
    }
  }

  /** `Assign`, branch by branch: a replica stays while its registered node can take its request; otherwise it goes to
      the tightest alive node, or is released with the reason why there is none. */
  lemma AssignRule(m: Layout, nodes: Nodes, now: int, r: string, parent: string, req: Resources)
    requires WellKeyed(nodes)
    ensures var (m', res) := Assign(m, nodes, now, r, parent, req);
      var others, alive := m - {r}, AliveNodes(nodes, now);
      if r in m && m[r].node in nodes && CanTake(others, nodes[m[r].node], req) then
        res == Assigned(m[r].node, m[r].parent) && m' == others[r := Placement(m[r].node, m[r].parent, req)]
      else if alive.Keys == {} then res == NoAliveNodes && m' == others
      else
        match res
        case Assigned(b, p) =>
          Tightest(alive, others, parent, req, b) && p == parent && m' == others[r := Placement(b, parent, req)]
        case InsufficientCapacity =>
          && m' == others
          && (Tightest(alive, others, parent, req, "") || forall n | n in alive :: !CanTake(others, alive[n], req))
        case NoAliveNodes => false
  {
    hide BestNode, CanTake, Tightest, Room;
    var others := m - {r};
    if r in m && m[r].node in nodes {
      RoomIsCanTake(others, nodes[m[r].node], req);
      assert m[r := m[r].(req := req)] == others[r := Placement(m[r].node, m[r].parent, req)];
    }
    BestNodeTightest(AliveNodes(nodes, now), others, parent, req);
    TightestAlive(AliveNodes(nodes, now), others, parent, req, BestNode(AliveNodes(nodes, now), others, parent, req));
  }

  lemma TightestAlive(alive: Nodes, m: Layout, parent: string, req: Resources, b: string)
    ensures Tightest(alive, m, parent, req, b) ==> b in alive
  {
  }

  /** Of an 8-core and a 2-core node, both empty and alike in memory, the smaller is filled first. */
  lemma SmallerFirst(a: Node, b: Node)
    requires a.id == "a" && a.cpu == 8 && a.mem == 1000 && b.id == "b" && b.cpu == 2 && b.mem == 1000
    ensures BestNode(map["a" := a, "b" := b], map[], "w", Resources(500, 100)) == "b"
  {
    hide BestNode;
    var alive: Nodes, m: Layout, req := map["a" := a, "b" := b], map[], Resources(500, 100);
    BestNodeTightest(alive, m, "w", req);
    assert forall n, d :: Load(m, n, d) == 0;
    assert SiblingSet(m, "w", "a") == {} && SiblingSet(m, "w", "b") == {};
    assert Unused(6800, 500) == 1.0 - 500.0 / 6800.0 && Unused(1700, 500) == 1.0 - 500.0 / 1700.0;
    assert CanTake(m, b, req) && alive["b"] == b && alive["a"] == a;
    assert Left(m, b, req) < Left(m, a, req);
  }

  // ----- Capacity safety -----

  datatype Op =
    | AssignOp(replica: string, parent: string, req: Resources, now: int)
    | UnassignOp(replica: string)
    | ReassignOp(node: string)
    | RegisterOp(n: Node, now: int)
    | HeartbeatOp(id: string, now: int)
    | RemoveOp(id: string)
    | RebalanceOp(now: int)

  datatype State = State(layout: Layout, nodes: Nodes)

  ghost function Step(s: State, op: Op): State {
    match op
    case AssignOp(r, parent, req, now) => s.(layout := Assign(s.layout, s.nodes, now, r, parent, req).0)
    case UnassignOp(r) => s.(layout := s.layout - {r})
    case ReassignOp(n) => s.(layout := Evict(s.layout, {n}))
    case RegisterOp(n, now) => s.(nodes := s.nodes[n.id := n.(heartbeat := now)])
    case HeartbeatOp(id, now) =>
      if id in s.nodes then s.(nodes := s.nodes[id := s.nodes[id].(heartbeat := now)]) else s
    case RemoveOp(id) => s.(nodes := s.nodes - {id})
    case RebalanceOp(now) => s.(layout := Rebalanced(s.layout, AliveNodes(s.nodes, now)))
  }

  /** A node may (re)register under a name and with room for what is already committed to it; a rebalance must
      leave no replica of an alive node unplaced. */
  ghost predicate Admissible(s: State, op: Op) {
    match op
    case RegisterOp(n, _) => n.id != "" && forall d :: Load(s.layout, n.id, d) <= Capacity(n, d)
    case RebalanceOp(now) => LeavesOnlyDead(s.layout, AliveNodes(s.nodes, now))
    case _ => true
  }

  ghost predicate Safe(s: State) {
    WellKeyed(s.nodes) && "" !in s.nodes && AllWithin(s.layout, s.nodes)
  }

  lemma RemovalKeepsWithin(m: Layout, gone: set<string>, nodes: Nodes)
    requires AllWithin(m, nodes)
    ensures AllWithin(m - gone, nodes)
  {
    forall n | n in nodes ensures NodeWithin(m - gone, nodes, n) {
      assert NodeWithin(m, nodes, n);
      forall d ensures Load(m - gone, n, d) <= Capacity(nodes[n], d) {
        LoadMonotone(m, gone, n, d);
      }
    }
  }

  /** Every operation keeps every registered node within capacity; a registration or a rebalance does so exactly
      when it is admissible. */
  lemma StepSafe(s: State, op: Op)
    requires Safe(s)
    ensures Safe(Step(s, op)) <==> Admissible(s, op)
  {
    hide Target;
    var s' := Step(s, op);
    match op
    case AssignOp(r, parent, req, now) =>
      AssignWithin(s.layout, s.nodes, now, r, parent, req);
    case UnassignOp(r) =>
      RemovalKeepsWithin(s.layout, {r}, s.nodes);
    case ReassignOp(n) =>
      EvictIsRemoval(s.layout, {n});
      RemovalKeepsWithin(s.layout, s.layout.Keys - Evict(s.layout, {n}).Keys, s.nodes);
    case RegisterOp(n, now) =>
      forall k | k in s.nodes && k != n.id ensures NodeWithin(s'.layout, s'.nodes, k) {
        assert NodeWithin(s.layout, s.nodes, k);
      }
      assert Safe(s') ==> NodeWithin(s'.layout, s'.nodes, n.id);
    case HeartbeatOp(id, now) =>
      forall k | k in s'.nodes ensures NodeWithin(s'.layout, s'.nodes, k) {
        assert NodeWithin(s.layout, s.nodes, k);
      }
    case RemoveOp(id) =>
      forall k | k in s'.nodes ensures NodeWithin(s'.layout, s'.nodes, k) {
        assert NodeWithin(s.layout, s.nodes, k);
      }
    case RebalanceOp(now) =>
      RebalanceWithinIff(s.layout, s.nodes, now);
  }

  ghost function Run(s: State, ops: seq<Op>): State
    decreases |ops|
  {
    if ops == [] then s else Run(Step(s, ops[0]), ops[1..])
  }

  ghost predicate AdmissibleRun(s: State, ops: seq<Op>)
    decreases |ops|
  {
    ops == [] || (Admissible(s, ops[0]) && AdmissibleRun(Step(s, ops[0]), ops[1..]))
  }

  /** No run of scheduler operations overcommits a node. */
  lemma {:induction false} RunSafe(s: State, ops: seq<Op>)
    requires Safe(s) && AdmissibleRun(s, ops)
    ensures Safe(Run(s, ops))
    decreases |ops|
  {
    if ops != [] {
      StepSafe(s, ops[0]);
      RunSafe(Step(s, ops[0]), ops[1..]);
    }
  }

  // ----- Rebalance -----

  lemma SimulateOneWithin(alive: Nodes, t: Layout, x: Replica)
    requires WellKeyed(alive) && AllWithin(t, alive) && x.id !in t
    ensures AllWithin(SimulateOne(alive, t, x), alive)
    ensures x.id in SimulateOne(alive, t, x) ==> SimulateOne(alive, t, x)[x.id].node in alive
  {
    hide BestNode;
    BestNodeLeast(alive, t, x.parent, x.req);
    var t' := SimulateOne(alive, t, x);
    assert t' - {x.id} == t - {x.id};
    assert t - {x.id} == t;
    PutWithin(t, t', alive, x.id);
    forall n | n in alive ensures NodeWithin(t', alive, n) {
      assert NodeWithin(t, alive, n);
    }
  }

  lemma {:induction false} SimulateWithin(alive: Nodes, queue: seq<Replica>)
    requires WellKeyed(alive)
    requires forall i, j | 0 <= i < j < |queue| :: queue[i].id != queue[j].id
    ensures AllWithin(Simulate(alive, queue), alive)
    ensures forall r | r in Simulate(alive, queue) :: Simulate(alive, queue)[r].node in alive
  {
    hide BestNode;
    if queue == [] {
      assert forall n, d :: Load(map[], n, d) == 0;
    } else {
      var shorter, x := queue[..|queue| - 1], queue[|queue| - 1];
      SimulateWithin(alive, shorter);
      SimulateKeys(alive, shorter);
      assert x.id !in ReplicaIds(shorter);
      SimulateOneWithin(alive, Simulate(alive, shorter), x);
    }
  }

  /** Replicas the simulation could not place stay where they are. */
  ghost function Stranded(m: Layout, alive: Nodes): Layout {
    m - Target(m, alive).Keys
  }

  lemma RebalancedSplits(m: Layout, alive: Nodes)
    ensures Target(m, alive).Keys !! Stranded(m, alive).Keys
    ensures Rebalanced(m, alive) == Target(m, alive) + Stranded(m, alive)
  {
    hide Simulate, Queue;
    QueueFacts(m);
    SimulatePlaces(alive, Queue(m), m);
    var t := Target(m, alive);
    assert PlacesFrom(t, m);
    assert Rebalanced(m, alive) == t + (m - t.Keys);
  }

  /** Rebalancing conserves the replicas with their parents and requests. */
  lemma RebalanceConserves(m: Layout, alive: Nodes)
    ensures Replicas(Rebalanced(m, alive)) == Replicas(m)
  {
    var m' := Rebalanced(m, alive);
    forall x | x in Replicas(m) ensures x in Replicas(m') {
      assert m'[x.id].parent == m[x.id].parent && m'[x.id].req == m[x.id].req;
    }
  }

  /** The target layout depends on the alive nodes and on what is to be placed, not on where it
      is now; so a second plan on the same nodes is empty. */
  lemma RebalanceIdempotent(m: Layout, alive: Nodes)
    ensures Target(Rebalanced(m, alive), alive) == Target(m, alive)
    ensures Rebalanced(Rebalanced(m, alive), alive) == Rebalanced(m, alive)
    ensures Plan(Rebalanced(m, alive), alive) == []
  {
    hide Simulate;
    RebalanceConserves(m, alive);
    var m', t := Rebalanced(m, alive), Target(m, alive);
    MovesTotal(m', t);
    assert MoveSet(m'.Keys, m', t) == {};
  }

  /** Load after a rebalance: what the simulation placed, plus what it left behind. */
  lemma RebalanceLoad(m: Layout, alive: Nodes, n: string, d: Dimension)
    ensures Load(Rebalanced(m, alive), n, d) == Load(Target(m, alive), n, d) + Load(Stranded(m, alive), n, d)
  {
    RebalancedSplits(m, alive);
    LoadUnion(Target(m, alive), Stranded(m, alive), n, d);
  }

  /** When the simulation places every replica, no registered node is overcommitted afterwards and
      each carries exactly its simulated load. */
  lemma CompleteRebalanceWithin(m: Layout, nodes: Nodes, now: int)
    requires WellKeyed(nodes)
    requires Target(m, AliveNodes(nodes, now)).Keys == m.Keys
    ensures Rebalanced(m, AliveNodes(nodes, now)) == Target(m, AliveNodes(nodes, now))
    ensures AllWithin(Rebalanced(m, AliveNodes(nodes, now)), nodes)
  {
    hide Simulate, Queue;
    var alive := AliveNodes(nodes, now);
    var t := Target(m, alive);
    RebalancedSplits(m, alive);
    assert Stranded(m, alive) == map[];
    QueueFacts(m);
    SimulateWithin(alive, Queue(m));
    forall n | n in nodes ensures NodeWithin(t, nodes, n) {
      if n in alive {
        assert NodeWithin(t, alive, n);
      } else {
        forall d ensures Load(t, n, d) == 0 {
          SumZero(t.Keys, t, n, d);
        }
      }
    }
  }

  /** What is placed early stays placed. */
  lemma {:induction false} SimulateGrows(alive: Nodes, queue: seq<Replica>, i: nat)
    requires i <= |queue| && forall i, j | 0 <= i < j < |queue| :: queue[i].id != queue[j].id
    ensures var t0, t := Simulate(alive, queue[..i]), Simulate(alive, queue);
      forall r | r in t0 :: r in t && t[r] == t0[r]
    decreases |queue|
  {
    hide BestNode;
    if i == |queue| {
      assert queue[..i] == queue;
    } else {
      var shorter, x := queue[..|queue| - 1], queue[|queue| - 1];
      SimulateGrows(alive, shorter, i);
      assert shorter[..i] == queue[..i];
      SimulateKeys(alive, shorter);
      assert x.id !in ReplicaIds(shorter);
      assert Simulate(alive, queue) == SimulateOne(alive, Simulate(alive, shorter), x);
    }
  }

  /** A replica the simulation leaves out had no room on any alive node when its turn came. */
  lemma {:induction false} LeftOut(alive: Nodes, queue: seq<Replica>, i: nat, n: string)
    requires WellKeyed(alive) && "" !in alive && i < |queue| && n in alive
    requires forall i, j | 0 <= i < j < |queue| :: queue[i].id != queue[j].id
    requires queue[i].id !in Simulate(alive, queue)
    ensures !Room(Simulate(alive, queue[..i]), alive[n], queue[i].req)
  {
    hide BestNode, Room;
    var x := queue[i];
    assert queue[..i + 1][..i] == queue[..i];
    SimulateGrows(alive, queue, i + 1);
    BestNodeLeast(alive, Simulate(alive, queue[..i]), x.parent, x.req);
  }

  /** So it does not fit beside the whole simulated layout either. */
  lemma {:induction false} LeftOutOver(alive: Nodes, queue: seq<Replica>, i: nat, n: string)
    requires WellKeyed(alive) && "" !in alive && i < |queue| && n in alive
    requires forall i, j | 0 <= i < j < |queue| :: queue[i].id != queue[j].id
    requires queue[i].id !in Simulate(alive, queue)
    ensures exists d :: Load(Simulate(alive, queue), n, d) + Amount(queue[i].req, d) > Capacity(alive[n], d)
  {
    hide Simulate;
    var t0, t := Simulate(alive, queue[..i]), Simulate(alive, queue);
    LeftOut(alive, queue, i, n);
    var d :| Load(t0, alive[n].id, d) + Amount(queue[i].req, d) > Capacity(alive[n], d);
    SimulateGrows(alive, queue, i);
    assert t0 == t - (t.Keys - t0.Keys);
    LoadMonotone(t, t.Keys - t0.Keys, n, d);
  }

  /** Whatever the simulation does not place sits on a node that is not alive. */
  ghost predicate LeavesOnlyDead(m: Layout, alive: Nodes) {
    forall r | r in m && r !in Target(m, alive) :: m[r].node !in alive
  }

  lemma StrandedOver(m: Layout, alive: Nodes, r: string)
    requires WellKeyed(alive) && "" !in alive && r in m && r !in Target(m, alive) && m[r].node in alive
    ensures !NodeWithin(Rebalanced(m, alive), alive, m[r].node)
  {
    hide Simulate, Queue, Rebalanced, Load;
    var n, q := m[r].node, Queue(m);
    QueueFacts(m);
    var x :| x in q && x.id == r;
    var i :| 0 <= i < |q| && q[i] == x;
    LeftOutOver(alive, q, i, n);
    var d :| Load(Target(m, alive), n, d) + Amount(x.req, d) > Capacity(alive[n], d);
    RebalanceLoad(m, alive, n, d);
    LoadRemove(Stranded(m, alive), r, n, d);
  }

  lemma DeadOnlyWithin(m: Layout, nodes: Nodes, now: int, n: string)
    requires WellKeyed(nodes) && NodeWithin(m, nodes, n) && LeavesOnlyDead(m, AliveNodes(nodes, now))
    ensures NodeWithin(Rebalanced(m, AliveNodes(nodes, now)), nodes, n)
  {
    hide Simulate, Queue, Rebalanced, Target;
    var alive := AliveNodes(nodes, now);
    var t, left := Target(m, alive), Stranded(m, alive);
    TargetWithin(m, alive);
    forall d ensures Load(Rebalanced(m, alive), n, d) <= Capacity(nodes[n], d) {
      RebalanceLoad(m, alive, n, d);
      if n in alive {
        SumZero(left.Keys, left, n, d);
        assert NodeWithin(t, alive, n);
      } else {
        SumZero(t.Keys, t, n, d);
        LoadMonotone(m, t.Keys, n, d);
      }
    }
  }

  lemma TargetWithin(m: Layout, alive: Nodes)
    requires WellKeyed(alive)
    ensures AllWithin(Target(m, alive), alive) && forall r | r in Target(m, alive) :: Target(m, alive)[r].node in alive
  {
    hide Simulate, Queue;
    QueueFacts(m);
    SimulateWithin(alive, Queue(m));
  }

  /** The exact condition: from a layout within capacity, a rebalance overcommits no node if and only if every replica
      its simulation leaves out is on a node that is not alive. */
  lemma RebalanceWithinIff(m: Layout, nodes: Nodes, now: int)
    requires WellKeyed(nodes) && "" !in nodes && AllWithin(m, nodes)
    ensures var alive := AliveNodes(nodes, now);
      AllWithin(Rebalanced(m, alive), nodes) <==> LeavesOnlyDead(m, alive)
  {
    hide Target, Rebalanced, NodeWithin;
    var alive := AliveNodes(nodes, now);
    if LeavesOnlyDead(m, alive) {
      forall n | n in nodes ensures NodeWithin(Rebalanced(m, alive), nodes, n) {
        DeadOnlyWithin(m, nodes, now, n);
      }
    } else {
      var r :| r in m && r !in Target(m, alive) && m[r].node in alive;
      StrandedOver(m, alive, r);
      WithinAmong(Rebalanced(m, alive), alive, nodes, m[r].node);
    }
  }

  lemma WithinAmong(m: Layout, alive: Nodes, nodes: Nodes, n: string)
    requires n in alive && n in nodes && alive[n] == nodes[n]
    ensures NodeWithin(m, alive, n) <==> NodeWithin(m, nodes, n)
  {
  }

  // ----- The rebalance, replica by replica -----

  /** Replicas are placed by memory, then CPU, both largest first, then by ID. */
  lemma QueueOrder(m: Layout, i: nat, j: nat)
    requires i < j < |Queue(m)|
    ensures var a, b := Queue(m)[i], Queue(m)[j];
      || a.req.mem > b.req.mem
      || (a.req.mem == b.req.mem && a.req.cpu > b.req.cpu)
      || (a.req == b.req && StringLess(a.id, b.id))
  {
    ReplicasTotal(m);
    ArrangeIncreasing(Replicas(m), ReplicaLess);
    assert ReplicaLess(Queue(m)[i], Queue(m)[j]);
  }

  /** Each replica in turn goes to the tightest alive node, given those placed before it, and nowhere only when no node
      can take it, or when that node has no name. */
  lemma {:induction false} TargetRule(m: Layout, alive: Nodes, i: nat)
    requires WellKeyed(alive) && i < |Queue(m)|
    ensures var t, x, target := Simulate(alive, Queue(m)[..i]), Queue(m)[i], Target(m, alive);
      if x.id in target
      then target[x.id] == Placement(target[x.id].node, x.parent, x.req) && target[x.id].node != ""
           && Tightest(alive, t, x.parent, x.req, target[x.id].node)
      else Tightest(alive, t, x.parent, x.req, "") || forall n | n in alive :: !CanTake(t, alive[n], x.req)
  {
    hide BestNode, Queue, CanTake;
    var q := Queue(m);
    var t, x := Simulate(alive, q[..i]), q[i];
    QueueFacts(m);
    assert q[..i + 1][..i] == q[..i];
    BestNodeTightest(alive, t, x.parent, x.req);
    SimulateNext(alive, q, m, i);
    SimulateGrows(alive, q, i + 1);
    if x.id !in Simulate(alive, q[..i + 1]) {
      SimulateLater(alive, q, i);
    }
  }

  /** A replica not placed in its turn is not placed later. */
  lemma {:induction false} SimulateLater(alive: Nodes, queue: seq<Replica>, i: nat)
    requires i < |queue| && queue[i].id !in Simulate(alive, queue[..i + 1])
    requires forall i, j | 0 <= i < j < |queue| :: queue[i].id != queue[j].id
    ensures queue[i].id !in Simulate(alive, queue)
    decreases |queue|
  {
    hide BestNode;
    var n := |queue| - 1;
    if i == n {
      assert queue[..i + 1] == queue;
    } else {
      assert queue[..n][..i + 1] == queue[..i + 1];
      SimulateLater(alive, queue[..n], i);
      assert Simulate(alive, queue) == SimulateOne(alive, Simulate(alive, queue[..n]), queue[n]);
    }
  }

  /** The plan lists each replica whose node changes, once, with where it is and where it will be, by replica ID. */
  lemma PlanRule(m: Layout, alive: Nodes)
    ensures var m', plan := Rebalanced(m, alive), Plan(m, alive);
      && m'.Keys == m.Keys
      && (forall x :: x in plan <==>
            x.replica in m && x.from == m[x.replica].node && x.to == m'[x.replica].node && x.from != x.to)
      && (forall i, j | 0 <= i < j < |plan| :: StringLess(plan[i].replica, plan[j].replica))
  {
    hide Target;
    var t := Target(m, alive);
    MovesTotal(m, t);
    ArrangeIncreasing(MoveSet(m.Keys, m, t), MoveLess);
    var plan := Plan(m, alive);
    forall i, j | 0 <= i < j < |plan| ensures StringLess(plan[i].replica, plan[j].replica) {
      assert MoveLess(plan[i], plan[j]);
    }
  }

  /** A rebalanced replica is on its target node, or where it was if the simulation left it out. */
  lemma RebalancedAt(m: Layout, alive: Nodes, r: string)
    requires r in m
    ensures var m', t := Rebalanced(m, alive), Target(m, alive);
      r in m' && m'[r] == Placement(if r in t then t[r].node else m[r].node, m[r].parent, m[r].req)
  {
    hide Target;
  }

  // ----- An incomplete rebalance can overcommit a node -----

  const P := Node("p", Unset, 1, 1000, 0)
  const Q := Node("q", Unset, 1, 1000, 0)

  function Pair(): Nodes {
    map["p" := P, "q" := Q]
  }

  function Item(id: string, mem: nat): Replica {
    Replica(id, id, Resources(0, mem))
  }

  /** Six one-replica workloads that fill both nodes' 850 MB exactly. */
  function Full(): Layout {
    map["a" := Placement("p", "a", Resources(0, 340)),
        "b" := Placement("q", "b", Resources(0, 340)),
        "c" := Placement("p", "c", Resources(0, 255)),
        "d" := Placement("p", "d", Resources(0, 255)),
        "e" := Placement("q", "e", Resources(0, 255)),
        "f" := Placement("q", "f", Resources(0, 255))]
  }

  function FullQueue(): seq<Replica> {
    [Item("a", 340), Item("b", 340), Item("c", 255), Item("d", 255), Item("e", 255), Item("f", 255)]
  }

  lemma FullReplicas()
    ensures Replicas(Full())
         == {Item("a", 340), Item("b", 340), Item("c", 255), Item("d", 255), Item("e", 255), Item("f", 255)}
  {
    var m, s := Full(), Replicas(Full());
    assert m.Keys == {"a", "b", "c", "d", "e", "f"};
    forall r | r in m.Keys
      ensures Replica(r, m[r].parent, m[r].req)
           in {Item("a", 340), Item("b", 340), Item("c", 255), Item("d", 255), Item("e", 255), Item("f", 255)}
    {
    }
    forall r | r in {"a", "b", "c", "d", "e", "f"} ensures Replica(r, m[r].parent, m[r].req) in s {
    }
  }

  lemma FullQueueIncreasing()
    ensures Increasing(FullQueue(), ReplicaLess)
  {
    var q := FullQueue();
    forall i, j | 0 <= i < j < 6 ensures ReplicaLess(q[i], q[j]) {
      assert q[i].id[0] < q[j].id[0];
    }
  }

  lemma FullQueueIsQueue()
    ensures Queue(Full()) == FullQueue()
  {
    hide ReplicaLess, Replicas;
    ReplicasTotal(Full());
    FullReplicas();
    FullQueueIncreasing();
    ArrangeUnique(FullQueue(), Replicas(Full()), ReplicaLess);
  }

  /** `t` puts `p` MB on one node and `q` MB on the other, no CPU, and no replica of `parent`. */
  ghost predicate Filled(t: Layout, p: nat, q: nat, parents: set<string>) {
    && Load(t, "p", Memory) == p && Load(t, "q", Memory) == q
    && Load(t, "p", Cpu) == 0 && Load(t, "q", Cpu) == 0
    && t.Keys <= parents && (forall r | r in t :: t[r].parent == r)
  }

  /** Best fit between the two nodes when neither holds a sibling. */
  function Pick2(p: nat, q: nat, mem: nat): string {
    if p + mem <= 850 && (p >= q || q + mem > 850) then "p"
    else if q + mem <= 850 then "q"
    else ""
  }

  lemma SpareOrder(cap: nat, used: nat, used': nat, req: nat)
    requires cap > 0
    ensures used < used' ==> Spare(cap, used', req) < Spare(cap, used, req)
  {
  }

  lemma PairOffers(t: Layout, p: nat, q: nat, parents: set<string>, x: Replica)
    requires Filled(t, p, q, parents) && x.id !in parents && x.parent == x.id && x.req.cpu == 0
    ensures Room(t, P, x.req) <==> p + x.req.mem <= 850
    ensures Room(t, Q, x.req) <==> q + x.req.mem <= 850
    ensures CandidateLess(OfferOf(P, t, x.parent, x.req), OfferOf(Q, t, x.parent, x.req)) <==> p >= q
    ensures CandidateLess(OfferOf(Q, t, x.parent, x.req), OfferOf(P, t, x.parent, x.req)) <==> q > p
  {
    RoomIsFits(t, P, x.req);
    RoomIsFits(t, Q, x.req);
    assert SiblingSet(t, x.parent, "p") == {} && SiblingSet(t, x.parent, "q") == {};
    SpareOrder(850, p, q, x.req.mem);
    SpareOrder(850, q, p, x.req.mem);
    assert StringLess("p", "q") && !StringLess("q", "p");
  }

  lemma BestOfPair(t: Layout, p: nat, q: nat, parents: set<string>, x: Replica)
    requires Filled(t, p, q, parents) && x.id !in parents && x.parent == x.id && x.req.cpu == 0
    ensures BestNode(Pair(), t, x.parent, x.req) == Pick2(p, q, x.req.mem)
  {
    hide BestNode, OfferOf, CandidateLess, Room;
    BestNodeLeast(Pair(), t, x.parent, x.req);
    PairOffers(t, p, q, parents, x);
    assert "p" in Pair() && "q" in Pair() && Pair()["p"] == P && Pair()["q"] == Q;
  }

  lemma FillNext(t: Layout, p: nat, q: nat, parents: set<string>, x: Replica) returns (t': Layout)
    requires Filled(t, p, q, parents) && x.id !in parents && x.parent == x.id && x.req.cpu == 0
    ensures t' == SimulateOne(Pair(), t, x)
    ensures var b := Pick2(p, q, x.req.mem);
      && Filled(t', p + (if b == "p" then x.req.mem else 0), q + (if b == "q" then x.req.mem else 0), parents + {x.id})
      && (x.id in t' <==> b != "") && t'.Keys <= t.Keys + {x.id}
      && t.Keys <= t'.Keys
  {
    hide BestNode;
    BestOfPair(t, p, q, parents, x);
    t' := SimulateOne(Pair(), t, x);
    var pl := Placement(Pick2(p, q, x.req.mem), x.parent, x.req);
    LoadInsert(t, x.id, pl, "p", Memory);
    LoadInsert(t, x.id, pl, "q", Memory);
    LoadInsert(t, x.id, pl, "p", Cpu);
    LoadInsert(t, x.id, pl, "q", Cpu);
  }

  /** The simulation has placed the first `i` replicas, putting `p` and `q` MB on the two nodes. */
  ghost predicate Reached(i: nat, p: nat, q: nat)
    requires i <= 6
  {
    Filled(Simulate(Pair(), FullQueue()[..i]), p, q, ReplicaIds(FullQueue()[..i]))
  }

  lemma Advance(i: nat, p: nat, q: nat)
    requires i < 6 && Reached(i, p, q)
    ensures var x := FullQueue()[i];
      var b := Pick2(p, q, x.req.mem);
      && Reached(i + 1, p + (if b == "p" then x.req.mem else 0), q + (if b == "q" then x.req.mem else 0))
      && (b == "" ==> x.id !in Simulate(Pair(), FullQueue()[..i + 1]))
  {
    hide BestNode, SimulateOne, Filled;
    var w := FullQueue();
    assert w[..i + 1][..i] == w[..i];
    forall j | 0 <= j < i ensures w[j].id != w[i].id {
      assert w[j].id[0] != w[i].id[0];
    }
    assert ReplicaIds(w[..i + 1]) == ReplicaIds(w[..i]) + {w[i].id};
    var t := FillNext(Simulate(Pair(), w[..i]), p, q, ReplicaIds(w[..i]), w[i]);
  }

  lemma SimulateFullSteps()
    requires Reached(0, 0, 0)
    ensures Reached(6, 680, 765)
    ensures "f" !in Simulate(Pair(), FullQueue()[..6])
  {
    hide Reached, Simulate;
    Advance(0, 0, 0);
    Advance(1, 340, 0);
    Advance(2, 680, 0);
    Advance(3, 680, 255);
    Advance(4, 680, 510);
    Advance(5, 680, 765);
  }

  lemma SimulateFull()
    ensures Load(Simulate(Pair(), FullQueue()), "q", Memory) == 765
    ensures "f" !in Simulate(Pair(), FullQueue())
  {
    assert FullQueue()[..6] == FullQueue() && ReplicaIds(FullQueue()[..0]) == {};
    SimulateFullSteps();
    hide Simulate;
  }

  /** Two replicas and what they add to a node's load. */
  lemma LoadOfTwo(m: Layout, r: string, s: string, n: string, d: Dimension)
    requires r in m && s in m && r != s
    ensures Load(m, n, d) == Share(m[r], n, d) + Share(m[s], n, d) + Load(m - {r} - {s}, n, d)
  {
    LoadRemove(m, r, n, d);
    LoadRemove(m - {r}, s, n, d);
  }

  lemma FullFits()
    ensures AllWithin(Full(), Pair())
  {
    hide Load;
    var m := Full();
    forall n, d | n in Pair() ensures Load(m, n, d) <= Capacity(Pair()[n], d) {
      var m2 := m - {"a"} - {"b"};
      var m4 := m2 - {"c"} - {"d"};
      LoadOfTwo(m, "a", "b", n, d);
      LoadOfTwo(m2, "c", "d", n, d);
      LoadOfTwo(m4, "e", "f", n, d);
      LoadNone(m4 - {"e"} - {"f"}, n, d);
    }
  }

  lemma LoadNone(m: Layout, n: string, d: Dimension)
    requires m.Keys == {}
    ensures Load(m, n, d) == 0
  {
  }

  /** A layout that fits, whose rebalance strands one replica and overcommits a node. */
  lemma IncompleteRebalanceOvercommits()
    ensures AllWithin(Full(), Pair())
    ensures AliveNodes(Pair(), 0) == Pair()
    ensures !AllWithin(Rebalanced(Full(), Pair()), Pair())
  {
    hide Simulate, Queue;
    FullQueueIsQueue();
    SimulateFull();
    var m := Full();
    FullFits();
    RebalanceLoad(m, Pair(), "q", Memory);
    assert "f" in Stranded(m, Pair());
    LoadRemove(Stranded(m, Pair()), "f", "q", Memory);
    assert Load(Rebalanced(m, Pair()), "q", Memory) >= 765 + 255;
    assert Capacity(Q, Memory) == 850;
    assert "q" in Pair() && !NodeWithin(Rebalanced(m, Pair()), Pair(), "q");
  }

  // ----- Spread -----

  /** Any two nodes' counts of the workload's replicas differ by at most one. */
  ghost predicate Balanced(m: Layout, parent: string, alive: Nodes) {
    forall a, b | a in alive && b in alive :: Siblings(m, parent, a) <= Siblings(m, parent, b) + 1
  }

  /** Capacity does not bind: every alive node has room. */
  ghost predicate Ample(m: Layout, alive: Nodes, req: Resources) {
    forall n | n in alive :: Room(m, alive[n], req)
  }

  lemma FewestSiblings(alive: Nodes, m: Layout, x: Replica, n: string)
    requires WellKeyed(alive) && "" !in alive && Ample(m, alive, x.req) && n in alive
    ensures var b := BestNode(alive, m, x.parent, x.req);
      b in alive && Siblings(m, x.parent, b) <= Siblings(m, x.parent, n)
  {
    hide BestNode, Siblings, Room;
    BestNodeLeast(alive, m, x.parent, x.req);
    assert Room(m, alive[n], x.req);
  }

  /** Placing one more replica keeps every workload balanced. */
  lemma SpreadStep(alive: Nodes, m: Layout, x: Replica, parent: string)
    requires WellKeyed(alive) && alive.Keys != {} && "" !in alive && Ample(m, alive, x.req)
    requires x.id !in m && Balanced(m, parent, alive)
    ensures var m' := SimulateOne(alive, m, x); Balanced(m', parent, alive) && m'.Keys == m.Keys + {x.id}
  {
    hide BestNode;
    var b := BestNode(alive, m, x.parent, x.req);
    var p := Placement(b, x.parent, x.req);
    var k :| k in alive.Keys;
    FewestSiblings(alive, m, x, k);
    assert SimulateOne(alive, m, x) == m[x.id := p];
    forall s, t | s in alive && t in alive
      ensures Siblings(m[x.id := p], parent, s) <= Siblings(m[x.id := p], parent, t) + 1
    {
      SiblingsInsert(m, x.id, p, parent, s);
      SiblingsInsert(m, x.id, p, parent, t);
      FewestSiblings(alive, m, x, t);
    }
  }

  ghost function Demand(queue: seq<Replica>, d: Dimension): nat {
    if queue == [] then 0 else Demand(queue[..|queue| - 1], d) + Amount(queue[|queue| - 1].req, d)
  }

  /** Place new replicas one after another on top of `m`. */
  ghost function PlaceAll(m: Layout, alive: Nodes, calls: seq<Replica>): Layout {
    if calls == [] then m
    else SimulateOne(alive, PlaceAll(m, alive, calls[..|calls| - 1]), calls[|calls| - 1])
  }

  ghost predicate FreshIds(m: Layout, calls: seq<Replica>) {
    && (forall i, j | 0 <= i < j < |calls| :: calls[i].id != calls[j].id)
    && (forall x | x in calls :: x.id !in m)
  }

  /** Before each of the placements every alive node has room for it. */
  ghost predicate AmpleThroughout(m: Layout, alive: Nodes, calls: seq<Replica>) {
    forall i | 0 <= i < |calls| :: Ample(PlaceAll(m, alive, calls[..i]), alive, calls[i].req)
  }

  /** While capacity does not bind, any run of new placements keeps each workload's per-node counts within one of
      each other, and places every replica. */
  lemma {:induction false} PlaceAllBalanced(m: Layout, alive: Nodes, calls: seq<Replica>, parent: string)
    requires WellKeyed(alive) && alive.Keys != {} && "" !in alive && FreshIds(m, calls)
    requires AmpleThroughout(m, alive, calls) && Balanced(m, parent, alive)
    ensures var m' := PlaceAll(m, alive, calls); Balanced(m', parent, alive) && m'.Keys == m.Keys + ReplicaIds(calls)
  {
    hide BestNode, Ample, Balanced, SimulateOne;
    if calls == [] {
      assert m.Keys + ReplicaIds(calls) == m.Keys;
    } else {
      var n := |calls| - 1;
      var shorter, x := calls[..n], calls[n];
      ShorterRun(m, alive, calls);
      PlaceAllBalanced(m, alive, shorter, parent);
      SpreadStep(alive, PlaceAll(m, alive, shorter), x, parent);
    }
  }

  lemma {:induction false} ShorterRun(m: Layout, alive: Nodes, calls: seq<Replica>)
    requires calls != [] && FreshIds(m, calls) && AmpleThroughout(m, alive, calls)
    ensures var n := |calls| - 1;
      var shorter, x := calls[..n], calls[n];
      && FreshIds(m, shorter) && AmpleThroughout(m, alive, shorter)
      && Ample(PlaceAll(m, alive, shorter), alive, x.req) && x.id !in m.Keys + ReplicaIds(shorter)
      && m.Keys + ReplicaIds(calls) == m.Keys + ReplicaIds(shorter) + {x.id}
  {
    hide PlaceAll, Ample, FreshIds;
    var n := |calls| - 1;
    var shorter := calls[..n];
    ShorterIds(m, calls);
    forall i | 0 <= i < n ensures Ample(PlaceAll(m, alive, shorter[..i]), alive, shorter[i].req) {
      assert shorter[..i] == calls[..i] && shorter[i] == calls[i];
    }
  }

  lemma ShorterIds(m: Layout, calls: seq<Replica>)
    requires calls != [] && FreshIds(m, calls)
    ensures var n := |calls| - 1;
      var shorter, x := calls[..n], calls[n];
      && FreshIds(m, shorter) && x.id !in m.Keys + ReplicaIds(shorter)
      && m.Keys + ReplicaIds(calls) == m.Keys + ReplicaIds(shorter) + {x.id}
  {
    var n := |calls| - 1;
    var shorter, x := calls[..n], calls[n];
    assert calls == shorter + [x];
    assert ReplicaIds(calls) == ReplicaIds(shorter) + {x.id};
  }

  /** Placing adds no more load than is asked for. */
  lemma {:induction false} PlaceAllLoad(m: Layout, alive: Nodes, calls: seq<Replica>, n: string, d: Dimension)
    requires FreshIds(m, calls)
    ensures Load(PlaceAll(m, alive, calls), n, d) <= Load(m, n, d) + Demand(calls, d)
    ensures PlaceAll(m, alive, calls).Keys <= m.Keys + ReplicaIds(calls)
  {
    hide BestNode;
    if calls != [] {
      var shorter, x := calls[..|calls| - 1], calls[|calls| - 1];
      assert calls == shorter + [x];
      PlaceAllLoad(m, alive, shorter, n, d);
      var t := PlaceAll(m, alive, shorter);
      assert x.id !in t;
      LoadInsert(t, x.id, Placement(BestNode(alive, t, x.parent, x.req), x.parent, x.req), n, d);
    }
  }

  lemma {:induction false} DemandPrefix(calls: seq<Replica>, i: nat, d: Dimension)
    requires i < |calls|
    ensures Demand(calls[..i], d) + Amount(calls[i].req, d) <= Demand(calls, d)
  {
    var n := |calls| - 1;
    if i < n {
      assert calls[..n][..i] == calls[..i];
      DemandPrefix(calls[..n], i, d);
    }
  }

  /** In particular, capacity does not bind when every node could take all of the requests. */
  lemma {:induction false} DemandAmple(m: Layout, alive: Nodes, calls: seq<Replica>)
    requires WellKeyed(alive) && FreshIds(m, calls)
    requires forall n, d | n in alive :: Load(m, n, d) + Demand(calls, d) <= Capacity(alive[n], d)
    ensures AmpleThroughout(m, alive, calls)
  {
    hide PlaceAll, Load, Demand;
    forall i, n, d | 0 <= i < |calls| && n in alive
      ensures Load(PlaceAll(m, alive, calls[..i]), n, d) + Amount(calls[i].req, d) <= Capacity(alive[n], d)
    {
      PlaceAllLoad(m, alive, calls[..i], n, d);
      DemandPrefix(calls, i, d);
    }
  }

  lemma {:induction false} SimulateIsPlaceAll(alive: Nodes, queue: seq<Replica>)
    ensures Simulate(alive, queue) == PlaceAll(map[], alive, queue)
  {
    if queue != [] {
      SimulateIsPlaceAll(alive, queue[..|queue| - 1]);
    }
  }

  /** `Assign` calls for new replicas, one after another. */
  ghost function AssignAll(m: Layout, nodes: Nodes, now: int, calls: seq<Replica>): Layout {
    if calls == [] then m
    else
      var x := calls[|calls| - 1];
      Assign(AssignAll(m, nodes, now, calls[..|calls| - 1]), nodes, now, x.id, x.parent, x.req).0
  }

  lemma AssignIsPlacement(m: Layout, nodes: Nodes, now: int, x: Replica)
    requires x.id !in m && WellKeyed(nodes)
    ensures Assign(m, nodes, now, x.id, x.parent, x.req).0 == SimulateOne(AliveNodes(nodes, now), m, x)
  {
    hide BestNode;
    assert m - {x.id} == m;
    var alive := AliveNodes(nodes, now);
    if alive.Keys == {} {
      BestNodeLeast(alive, m, x.parent, x.req);
    }
  }

  lemma {:induction false} AssignAllIsPlaceAll(m: Layout, nodes: Nodes, now: int, calls: seq<Replica>)
    requires WellKeyed(nodes) && FreshIds(m, calls)
    ensures AssignAll(m, nodes, now, calls) == PlaceAll(m, AliveNodes(nodes, now), calls)
    ensures PlaceAll(m, AliveNodes(nodes, now), calls).Keys <= m.Keys + ReplicaIds(calls)
  {
    hide BestNode;
    if calls != [] {
      var shorter, x := calls[..|calls| - 1], calls[|calls| - 1];
      assert calls == shorter + [x];
      AssignAllIsPlaceAll(m, nodes, now, shorter);
      assert x.id !in m.Keys + ReplicaIds(shorter);
      AssignIsPlacement(AssignAll(m, nodes, now, shorter), nodes, now, x);
    }
  }

  lemma {:induction false} AssignPrefixes(m: Layout, nodes: Nodes, now: int, calls: seq<Replica>, i: nat)
    requires WellKeyed(nodes) && FreshIds(m, calls) && i <= |calls|
    ensures AssignAll(m, nodes, now, calls[..i]) == PlaceAll(m, AliveNodes(nodes, now), calls[..i])
  {
    hide AssignAll, PlaceAll;
    AssignAllIsPlaceAll(m, nodes, now, calls[..i]);
  }

  /** While capacity does not bind, any run of `Assign` calls for new replicas keeps each workload's per-node counts
      within one of each other, and places every replica. */
  lemma {:induction false} AssignAllBalanced(m: Layout, nodes: Nodes, now: int, calls: seq<Replica>, parent: string)
    requires var alive := AliveNodes(nodes, now);
      && WellKeyed(nodes) && alive.Keys != {} && "" !in alive && FreshIds(m, calls) && Balanced(m, parent, alive)
      && forall i | 0 <= i < |calls| :: Ample(AssignAll(m, nodes, now, calls[..i]), alive, calls[i].req)
    ensures Balanced(AssignAll(m, nodes, now, calls), parent, AliveNodes(nodes, now))
    ensures AssignAll(m, nodes, now, calls).Keys == m.Keys + ReplicaIds(calls)
  {
    hide AssignAll, PlaceAll, Ample, Balanced;
    var alive := AliveNodes(nodes, now);
    forall i | 0 <= i < |calls| ensures Ample(PlaceAll(m, alive, calls[..i]), alive, calls[i].req) {
      AssignPrefixes(m, nodes, now, calls, i);
    }
    AssignAllIsPlaceAll(m, nodes, now, calls);
    PlaceAllBalanced(m, alive, calls, parent);
  }

  lemma EmptyBalanced(parent: string, alive: Nodes)
    ensures Balanced(map[], parent, alive)
  {
    forall n ensures Siblings(map[], parent, n) == 0 {
      assert SiblingSet(map[], parent, n) == {};
    }
  }

  /** While capacity does not bind, the rebalance target spreads every workload evenly and places everything. */
  lemma {:induction false} TargetBalanced(m: Layout, alive: Nodes, parent: string)
    requires WellKeyed(alive) && alive.Keys != {} && "" !in alive
    requires forall i | 0 <= i < |Queue(m)| :: Ample(Simulate(alive, Queue(m)[..i]), alive, Queue(m)[i].req)
    ensures Balanced(Target(m, alive), parent, alive)
    ensures Target(m, alive).Keys == m.Keys
  {
    hide Simulate, PlaceAll, Queue, Ample, Balanced;
    var q := Queue(m);
    QueueFacts(m);
    EmptyBalanced(parent, alive);
    forall i | 0 <= i < |q| ensures Ample(PlaceAll(map[], alive, q[..i]), alive, q[i].req) {
      SimulateIsPlaceAll(alive, q[..i]);
    }
    SimulateIsPlaceAll(alive, q);
    PlaceAllBalanced(map[], alive, q, parent);
  }
}
