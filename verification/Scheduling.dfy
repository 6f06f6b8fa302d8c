/** The scheduler as the control plane runs it: three maps kept in step, updated in place. */
module Scheduling {
  import opened Ordering
  import opened Registry
  import opened Layouts
  import opened Placing

  ghost function Zip(assignments: map<string, string>, parents: map<string, string>,
                     requests: map<string, Resources>): Layout
    requires assignments.Keys == parents.Keys == requests.Keys
  {
    map r | r in assignments :: Placement(assignments[r], parents[r], requests[r])
  }

  ghost function Ids(nodes: seq<Node>): set<string> {
    set n | n in nodes :: n.id
  }

  lemma OffersInsert(nodes: set<Node>, n: Node, cpu: Tally, mem: Tally, siblings: Tally, req: Resources)
    ensures if Fits(n, At(cpu, n.id), At(mem, n.id), req)
            then Offers(nodes + {n}, cpu, mem, siblings, req) == Offers(nodes, cpu, mem, siblings, req)
                 + {Offer(n, At(cpu, n.id), At(mem, n.id), At(siblings, n.id), req)}
            else Offers(nodes + {n}, cpu, mem, siblings, req) == Offers(nodes, cpu, mem, siblings, req)
  {
    hide Fits, Spare, Capacity;
  }

  /** The nodes that fit, as candidates, each once. */
  method Candidates(nodes: seq<Node>, cpu: Tally, mem: Tally, siblings: Tally, req: Resources)
    returns (fitting: seq<Candidate>)
    requires forall i, j | 0 <= i < j < |nodes| :: nodes[i].id != nodes[j].id
    ensures Elements(fitting) == Offers(Elements(nodes), cpu, mem, siblings, req) && Distinct(fitting)
  {
    hide Fits, CandidateLess, Offers, Spare, Capacity, Schedulable;
    fitting := [];
    var i := 0;
    assert Elements(nodes[..0]) == {} && Elements(fitting) == {};
    OffersNone(cpu, mem, siblings, req);
    while i < |nodes|
      invariant 0 <= i <= |nodes|
      invariant Elements(fitting) == Offers(Elements(nodes[..i]), cpu, mem, siblings, req)
      invariant Distinct(fitting)
      invariant forall c | c in fitting :: c.id in Ids(nodes[..i])
    {
      var n := nodes[i];
      PrefixElements(nodes, i);
      OffersInsert(Elements(nodes[..i]), n, cpu, mem, siblings, req);
      assert n.id !in Ids(nodes[..i]);
      if Fits(n, At(cpu, n.id), At(mem, n.id), req) {
        fitting := fitting + [Offer(n, At(cpu, n.id), At(mem, n.id), At(siblings, n.id), req)];
      }
      i := i + 1;
    }
    assert nodes[..i] == nodes;
  }

  lemma OffersNone(cpu: Tally, mem: Tally, siblings: Tally, req: Resources)
    ensures Offers({}, cpu, mem, siblings, req) == {}
  {
    hide Fits, Spare, Capacity;
  }

  /** `place`: the best node for `req` under the caller's tallies, or "". */
  method Place(nodes: seq<Node>, cpu: Tally, mem: Tally, siblings: Tally, req: Resources) returns (best: string)
    requires forall i, j | 0 <= i < j < |nodes| :: nodes[i].id != nodes[j].id
    ensures best == Choice(Offers(Elements(nodes), cpu, mem, siblings, req))
  {
    hide Offers, CandidateLess;
    var fitting := Candidates(nodes, cpu, mem, siblings, req);
    CandidatesTotal(Elements(fitting));
    if fitting == [] {
      return "";
    }
    var sorted := SortSlice(fitting, CandidateLess);
    assert fitting[0] in sorted;
    best := sorted[0].id;
    FirstIsLeast(sorted, Elements(fitting), CandidateLess);
  }

  datatype Assignment = Assignment(replica: string, node: string, parent: string)

  datatype NodeLoad = NodeLoad(node: string, used: Resources, cap: Resources)

  /** Same-parent counts over a scratch target, with parents read from the live map. */
  method CountSiblings(parents: map<string, string>, target: map<string, string>, parent: string, ghost t: Layout)
    returns (siblings: Tally)
    requires Nodewise(target, t) && forall r | r in t :: r in parents && parents[r] == t[r].parent
    ensures Counted(siblings, t, parent)
  {
    siblings := map[];
    ghost var seen: Layout := map[];
    var rest := target.Keys;
    while rest != {}
      invariant rest <= target.Keys && seen.Keys == target.Keys - rest
      invariant forall r | r in seen :: seen[r] == t[r]
      invariant Counted(siblings, seen, parent)
      decreases rest
    {
      var r :| r in rest;
      rest := rest - {r};
      CountedInsert(siblings, seen, parent, r, t[r]);
      seen := seen[r := t[r]];
      if parents[r] == parent {
        siblings := Bump(siblings, target[r], 1);
      }
    }
    assert seen == t;
  }

  method ChooseNext(nodes: seq<Node>, parents: map<string, string>, r: Replica,
                    target: map<string, string>, cpu: Tally, mem: Tally, ghost alive: Nodes, ghost t: Layout)
    returns (best: string)
    requires WellKeyed(alive) && Elements(nodes) == alive.Values
    requires forall i, j | 0 <= i < j < |nodes| :: nodes[i].id != nodes[j].id
    requires Nodewise(target, t) && forall r | r in t :: r in parents && parents[r] == t[r].parent
    requires Tallied(cpu, mem, t)
    ensures best == BestNode(alive, t, r.parent, r.req)
  {
    var siblings := CountSiblings(parents, target, r.parent, t);
    best := Place(nodes, cpu, mem, siblings, r.req);
    OffersAgree(alive, t, r.parent, r.req, cpu, mem, siblings);
  }

  /** One round of the simulation. */
  method PlaceNext(nodes: seq<Node>, parents: map<string, string>, r: Replica,
                   target: map<string, string>, cpu: Tally, mem: Tally, ghost alive: Nodes, ghost t: Layout)
    returns (target': map<string, string>, cpu': Tally, mem': Tally)
    requires WellKeyed(alive) && Elements(nodes) == alive.Values
    requires forall i, j | 0 <= i < j < |nodes| :: nodes[i].id != nodes[j].id
    requires Nodewise(target, t) && forall r | r in t :: r in parents && parents[r] == t[r].parent
    requires Tallied(cpu, mem, t) && r.id !in t
    ensures Nodewise(target', SimulateOne(alive, t, r)) && Tallied(cpu', mem', SimulateOne(alive, t, r))
  {
    hide BestNode;
    var best := ChooseNext(nodes, parents, r, target, cpu, mem, alive, t);
    if best == "" {
      return target, cpu, mem;
    }
    TalliedInsert(cpu, mem, t, r.id, Placement(best, r.parent, r.req));
    return target[r.id := best], Bump(cpu, best, r.req.cpu), Bump(mem, best, r.req.mem);
  }

  /** Simulate placing the queue onto empty nodes. */
  method SimulateTarget(nodes: seq<Node>, parents: map<string, string>, queue: seq<Replica>,
                        ghost m: Layout, ghost alive: Nodes)
    returns (target: map<string, string>)
    requires WellKeyed(alive) && Elements(nodes) == alive.Values
    requires forall i, j | 0 <= i < j < |nodes| :: nodes[i].id != nodes[j].id
    requires Covers(queue, m) && parents.Keys == m.Keys && forall r | r in m :: parents[r] == m[r].parent
    ensures Nodewise(target, Simulate(alive, queue))
  {
    hide BestNode, SimulateOne;
    var cpu: Tally, mem: Tally := map[], map[];
    target := map[];
    var i := 0;
    while i < |queue|
      invariant 0 <= i <= |queue|
      invariant Nodewise(target, Simulate(alive, queue[..i]))
      invariant Tallied(cpu, mem, Simulate(alive, queue[..i]))
    {
      SimulateNext(alive, queue, m, i);
      target, cpu, mem := PlaceNext(nodes, parents, queue[i], target, cpu, mem, alive, Simulate(alive, queue[..i]));
      i := i + 1;
    }
    assert queue[..i] == queue;
  }

  lemma {:induction false} SimulateNext(alive: Nodes, queue: seq<Replica>, m: Layout, i: nat)
    requires Covers(queue, m) && i < |queue|
    ensures var t := Simulate(alive, queue[..i]);
      && queue[i].id !in t
      && (forall r | r in t :: r in m && t[r].parent == m[r].parent)
      && Simulate(alive, queue[..i + 1]) == SimulateOne(alive, t, queue[i])
  {
    assert queue[..i + 1][..i] == queue[..i];
    SimulatePlaces(alive, queue[..i], m);
    SimulateKeys(alive, queue[..i]);
  }

  method CollectMoves(queue: seq<Replica>, assignments: map<string, string>, target: map<string, string>,
                      ghost m: Layout, ghost t: Layout)
    returns (moves: seq<Move>)
    requires Covers(queue, m) && Nodewise(assignments, m) && Nodewise(target, t)
    ensures Distinct(moves) && Elements(moves) == MoveSet(m.Keys, m, t)
  {
    moves := [];
    ghost var seen: set<string> := {};
    var i := 0;
    while i < |queue|
      invariant 0 <= i <= |queue|
      invariant seen <= m.Keys && forall j | 0 <= j < |queue| :: queue[j].id in seen <==> j < i
      invariant forall r | r in seen :: r in ReplicaIds(queue)
      invariant Elements(moves) == MoveSet(seen, m, t)
      invariant Distinct(moves)
    {
      var r := queue[i];
      MoveSetInsert(seen, r.id, m, t);
      if r.id in target && target[r.id] != assignments[r.id] {
        moves := moves + [Move(r.id, assignments[r.id], target[r.id])];
      }
      seen := seen + {r.id};
      i := i + 1;
    }
    assert seen == m.Keys;
  }

  class Scheduler {
    const registry: NodeTable
    var assignments: map<string, string>
    var parents: map<string, string>
    var requests: map<string, Resources>

    /** The three maps speak of the same replicas. */
    ghost predicate InStep()
      reads this
    {
      assignments.Keys == parents.Keys == requests.Keys
    }

    ghost predicate Valid()
      reads this, registry
    {
      InStep() && registry.Valid()
    }

    ghost function View(): Layout
      requires InStep()
      reads this
    {
      Zip(assignments, parents, requests)
    }

    constructor (reg: NodeTable)
      requires reg.Valid()
      ensures registry == reg && Valid() && View() == map[]
    {
      registry := reg;
      assignments, parents, requests := map[], map[], map[];
    }

    method Unassign(replica: string)
      requires Valid()
      modifies this
      ensures Valid() && View() == old(View()) - {replica}
    {
      assignments := assignments - {replica};
      parents := parents - {replica};
      requests := requests - {replica};
    }

    method FitsOnNode(node: string, replica: string, req: Resources) returns (ok: bool)
      requires Valid()
      ensures ok == StillFits(View(), registry.nodes, node, replica, req)
    {
      if node !in registry.nodes {
        return false;
      }
      ghost var v := View();
      ghost var others := v - {replica};
      var cpu, mem := 0, 0;
      ghost var seen: set<string> := {};
      var rest := assignments.Keys;
      while rest != {}
        invariant rest <= assignments.Keys && seen == assignments.Keys - rest - {replica}
        invariant cpu == Sum(seen, others, node, Cpu)
        invariant mem == Sum(seen, others, node, Memory)
        decreases rest
      {
        var r :| r in rest;
        rest := rest - {r};
        if r != replica {
          ghost var was := seen;
          seen := seen + {r};
          assert seen - {r} == was;
          SumRemove(seen, others, r, node, Cpu);
          SumRemove(seen, others, r, node, Memory);
          if assignments[r] == node {
            cpu := cpu + requests[r].cpu;
            mem := mem + requests[r].mem;
          }
        }
      }
      assert seen == others.Keys;
      RoomIsFits(others, registry.nodes[node], req);
      ok := Fits(registry.nodes[node], cpu, mem, req);
    }

    /** Per-node load and same-parent counts over the current assignments. */
    method Account(parent: string) returns (cpu: Tally, mem: Tally, siblings: Tally)
      requires Valid()
      ensures Tallied(cpu, mem, View()) && Counted(siblings, View(), parent)
      ensures cpu.Keys == mem.Keys
    {
      cpu, mem, siblings := map[], map[], map[];
      ghost var v := View();
      ghost var seen: Layout := map[];
      var rest := assignments.Keys;
      while rest != {}
        invariant rest <= assignments.Keys && seen.Keys == assignments.Keys - rest
        invariant forall r | r in seen :: seen[r] == v[r]
        invariant Tallied(cpu, mem, seen) && Counted(siblings, seen, parent)
        invariant cpu.Keys == mem.Keys
        decreases rest
      {
        var r :| r in rest;
        rest := rest - {r};
        TalliedInsert(cpu, mem, seen, r, v[r]);
        CountedInsert(siblings, seen, parent, r, v[r]);
        seen := seen[r := v[r]];
        cpu := Bump(cpu, assignments[r], requests[r].cpu);
        mem := Bump(mem, assignments[r], requests[r].mem);
        if parents[r] == parent {
          siblings := Bump(siblings, assignments[r], 1);
        }
      }
      assert seen == v;
    }

    method ChooseNode(parent: string, req: Resources, now: int) returns (res: AssignResult)
      requires Valid()
      ensures res == Choose(View(), registry.nodes, now, parent, req)
    {
      var nodes := registry.Alive(now);
      AliveListed(nodes, now);
      if |nodes| == 0 {
        return NoAliveNodes;
      }
      assert nodes[0].id in AliveNodes(registry.nodes, now).Keys;
      var cpu, mem, siblings := Account(parent);
      var best := Place(nodes, cpu, mem, siblings, req);
      OffersAgree(AliveNodes(registry.nodes, now), View(), parent, req, cpu, mem, siblings);
      if best == "" {
        return InsufficientCapacity;
      }
      return Assigned(best, parent);
    }

    method Record(replica: string, node: string, parent: string, req: Resources)
      requires Valid()
      modifies this
      ensures Valid() && View() == old(View())[replica := Placement(node, parent, req)]
    {
      assignments := assignments[replica := node];
      parents := parents[replica := parent];
      requests := requests[replica := req];
    }

    method Assign(replica: string, parent: string, req: Resources, now: int) returns (res: AssignResult)
      requires Valid()
      modifies this
      ensures Valid()
      ensures (View(), res) == Placing.Assign(old(View()), registry.nodes, now, replica, parent, req)
    {
      ghost var v := View();
      if replica in assignments {
        var fits := FitsOnNode(assignments[replica], replica, req);
        if fits {
          requests := requests[replica := req];
          assert View() == v[replica := v[replica].(req := req)];
          return Assigned(assignments[replica], parents[replica]);
        }
        Unassign(replica);
      }
      assert View() == v - {replica};
      res := ChooseNode(parent, req, now);
      if res.Assigned? {
        Record(replica, res.node, parent, req);
      }
    }

    lemma AliveListed(nodes: seq<Node>, now: int)
      requires registry.Valid() && Distinct(nodes)
      requires Elements(nodes) == AliveNodes(registry.nodes, now).Values
      ensures forall i, j | 0 <= i < j < |nodes| :: nodes[i].id != nodes[j].id
      ensures forall n | n in nodes :: n.id in AliveNodes(registry.nodes, now)
      ensures nodes == [] ==> AliveNodes(registry.nodes, now).Keys == {}
    {
      var alive := AliveNodes(registry.nodes, now);
      forall n | n in nodes ensures n.id in alive && alive[n.id] == n {
        assert n in alive.Values;
        var k :| k in alive && alive[k] == n;
      }
      forall k | k in alive ensures nodes != [] {
        assert alive[k] in nodes;
      }
    }

    /** Drop every replica of a node; the IDs come back in map-iteration order. */
    method ReassignNode(node: string) returns (evicted: seq<string>)
      requires Valid()
      modifies this
      ensures Valid() && View() == Evict(old(View()), {node})
      ensures Distinct(evicted) && forall r :: r in evicted <==> r in old(View()) && old(View())[r].node == node
    {
      evicted := [];
      ghost var gone: set<string> := {};
      var rest := assignments.Keys;
      while rest != {}
        invariant rest <= old(assignments).Keys
        invariant gone == set r | r in old(assignments).Keys - rest && old(assignments)[r] == node
        invariant assignments == old(assignments) - gone
        invariant parents == old(parents) - gone
        invariant requests == old(requests) - gone
        invariant Distinct(evicted) && forall r :: r in evicted <==> r in gone
        decreases rest
      {
        var r :| r in rest;
        rest := rest - {r};
        if assignments[r] == node {
          gone := gone + {r};
          assignments := assignments - {r};
          parents := parents - {r};
          requests := requests - {r};
          evicted := evicted + [r];
        }
      }
      assert View() == Evict(old(View()), {node});
    }

    /** The current assignments, in map-iteration order. */
    method ListAssignments() returns (out: seq<Assignment>)
      requires Valid()
      ensures Distinct(out)
      ensures forall x :: x in out <==> x.replica in View() && View()[x.replica].node == x.node
                                        && View()[x.replica].parent == x.parent
    {
      out := [];
      var rest := assignments.Keys;
      while rest != {}
        invariant rest <= assignments.Keys
        invariant forall x :: x in out <==> x.replica in assignments.Keys - rest && assignments[x.replica] == x.node
                                            && parents[x.replica] == x.parent
        invariant Distinct(out)
        decreases rest
      {
        var r :| r in rest;
        rest := rest - {r};
        out := out + [Assignment(r, assignments[r], parents[r])];
      }
    }

    /** All replicas, largest request first. */
    method SortedReplicas() returns (queue: seq<Replica>)
      requires Valid()
      ensures queue == Queue(View())
    {
      var replicas: seq<Replica> := [];
      var rest := assignments.Keys;
      while rest != {}
        invariant rest <= assignments.Keys
        invariant forall x :: x in replicas <==> IsReplica(x, View()) && x.id !in rest
        invariant Distinct(replicas)
        decreases rest
      {
        var r :| r in rest;
        rest := rest - {r};
        replicas := replicas + [Replica(r, parents[r], requests[r])];
      }
      ReplicasTotal(View());
      assert Elements(replicas) == Replicas(View()) by {
        assert forall x :: x in Replicas(View()) <==> IsReplica(x, View());
      }
      queue := SortSlice(replicas, ReplicaLess);
    }

    method PlanLocked(now: int) returns (moves: seq<Move>)
      requires Valid()
      ensures moves == Plan(View(), AliveNodes(registry.nodes, now))
    {
      ghost var alive := AliveNodes(registry.nodes, now);
      ghost var t := Target(View(), alive);
      var nodes := registry.Alive(now);
      AliveListed(nodes, now);
      MovesTotal(View(), t);
      if |nodes| == 0 {
        assert alive == map[];
        SimulateNowhere(Queue(View()));
        assert MoveSet(View().Keys, View(), t) == {};
        return [];
      }
      var queue := SortedReplicas();
      QueueFacts(View());
      var target := SimulateTarget(nodes, parents, queue, View(), alive);
      moves := CollectMoves(queue, assignments, target, View(), t);
      moves := SortSlice(moves, MoveLess);
    }

    method RebalancePlan(now: int) returns (moves: seq<Move>)
      requires Valid()
      ensures moves == Plan(View(), AliveNodes(registry.nodes, now))
    {
      moves := PlanLocked(now);
    }

    /** Commit the plan; the moves returned are the ones `RebalancePlan` shows. */
    method Rebalance(now: int) returns (moves: seq<Move>)
      requires Valid()
      modifies this`assignments
      ensures Valid()
      ensures moves == Plan(old(View()), AliveNodes(registry.nodes, now))
      ensures View() == Rebalanced(old(View()), AliveNodes(registry.nodes, now))
    {
      ghost var alive := AliveNodes(registry.nodes, now);
      ghost var v := View();
      moves := PlanLocked(now);
      PlanFacts(v, alive);
      Commit(moves);
      CommittedIsRebalanced(old(assignments), parents, requests, alive, assignments);
    }

    method Commit(moves: seq<Move>)
      requires OncePerReplica(moves) && forall x | x in moves :: x.replica in assignments
      modifies this`assignments
      ensures Committed(old(assignments), moves, assignments)
    {
      var i := 0;
      while i < |moves|
        invariant 0 <= i <= |moves|
        invariant Committed(old(assignments), moves[..i], assignments)
      {
        assert moves[..i + 1] == moves[..i] + [moves[i]];
        assignments := assignments[moves[i].replica := moves[i].to];
        i := i + 1;
      }
      assert moves[..i] == moves;
    }

    /** Exactly the registered nodes whose committed requests exceed what they can schedule, by ID. */
    method Overcommitted() returns (over: seq<NodeLoad>)
      requires Valid()
      ensures forall n :: (exists l :: l in over && l.node == n) <==>
                          n in registry.nodes && !NodeWithin(View(), registry.nodes, n)
      ensures forall l | l in over :: l.used == Resources(Load(View(), l.node, Cpu), Load(View(), l.node, Memory))
      ensures forall l | l in over :: l.node in registry.nodes && l.cap == Schedulable(registry.nodes[l.node])
      ensures Increasing(over, NodeLoadLess)
    {
      var cpu, mem, _ := Account("");
      over := [];
      var rest := cpu.Keys;
      while rest != {}
        invariant rest <= cpu.Keys
        invariant forall l :: l in over <==> l.node in cpu.Keys - rest && OverLoad(l, cpu, mem, registry.nodes)
        invariant Distinct(over)
        decreases rest
      {
        var n :| n in rest;
        rest := rest - {n};
        if n in registry.nodes {
          var l := NodeLoad(n, Resources(At(cpu, n), At(mem, n)), Schedulable(registry.nodes[n]));
          if !Fits(registry.nodes[n], At(cpu, n), At(mem, n), Resources(0, 0)) {
            over := over + [l];
          }
        }
      }
      OverExact(View(), registry.nodes, cpu, mem, over);
      NodeLoadsTotal(over);
      ghost var unsorted := over;
      over := SortSlice(over, NodeLoadLess);
      ArrangeIncreasing(Elements(unsorted), NodeLoadLess);
      assert forall l :: l in over <==> l in unsorted;
    }
  }

  /** A replica -> node map read off a layout. */
  ghost predicate Nodewise(target: map<string, string>, t: Layout) {
    target.Keys == t.Keys && forall r | r in t :: target[r] == t[r].node
  }

  ghost predicate OncePerReplica(moves: seq<Move>) {
    forall i, j | 0 <= i < j < |moves| :: moves[i].replica != moves[j].replica
  }

  /** `to` is `from` with the moves carried out. */
  ghost predicate Committed(from: map<string, string>, moves: seq<Move>, to: map<string, string>) {
    && to.Keys == from.Keys
    && (forall i | 0 <= i < |moves| :: moves[i].replica in to && to[moves[i].replica] == moves[i].to)
    && (forall r | r in from && (forall i | 0 <= i < |moves| :: moves[i].replica != r) :: to[r] == from[r])
  }

  lemma PlanFacts(m: Layout, alive: Nodes)
    ensures OncePerReplica(Plan(m, alive))
    ensures forall x :: x in Plan(m, alive) <==> x in MoveSet(m.Keys, m, Target(m, alive))
    ensures forall x | x in Plan(m, alive) :: x.replica in m
  {
    var s := MoveSet(m.Keys, m, Target(m, alive));
    MovesTotal(m, Target(m, alive));
    ArrangeIncreasing(s, MoveLess);
    var moves := Plan(m, alive);
    forall i, j | 0 <= i < j < |moves| ensures moves[i].replica != moves[j].replica {
      assert MoveLess(moves[i], moves[j]);
      StringLessTrichotomy(moves[i].replica, moves[j].replica);
    }
  }

  lemma CommittedNodes(m: Layout, from: map<string, string>, alive: Nodes, to: map<string, string>)
    requires Nodewise(from, m) && Committed(from, Plan(m, alive), to)
    ensures to.Keys == m.Keys && forall r | r in m :: to[r] == Rebalanced(m, alive)[r].node
  {
    hide Plan, Target;
    PlanFacts(m, alive);
    var t, moves := Target(m, alive), Plan(m, alive);
    forall r | r in m ensures to[r] == if r in t then t[r].node else m[r].node {
      if r in t && t[r].node != m[r].node {
        assert Move(r, m[r].node, t[r].node) in moves;
      } else {
        forall i | 0 <= i < |moves| ensures moves[i].replica != r {
          assert moves[i] in moves;
        }
      }
    }
  }

  lemma CommittedIsRebalanced(from: map<string, string>, parents: map<string, string>,
                              requests: map<string, Resources>, alive: Nodes, to: map<string, string>)
    requires from.Keys == parents.Keys == requests.Keys
    requires Committed(from, Plan(Zip(from, parents, requests), alive), to)
    ensures Zip(to, parents, requests) == Rebalanced(Zip(from, parents, requests), alive)
  {
    hide Plan, Target, Committed;
    var m := Zip(from, parents, requests);
    CommittedNodes(m, from, alive, to);
    assert to.Keys == from.Keys;
  }

  /** The queue holds each of `m`'s replicas once. */
  ghost predicate Covers(queue: seq<Replica>, m: Layout) {
    && (forall i, j | 0 <= i < j < |queue| :: queue[i].id != queue[j].id)
    && (forall x | x in queue :: x in Replicas(m))
    && ReplicaIds(queue) == m.Keys
  }

  lemma ReplicaById(m: Layout, a: Replica, b: Replica)
    requires a in Replicas(m) && b in Replicas(m)
    ensures a.id == b.id ==> a == b
  {
  }

  lemma QueueDistinct(m: Layout)
    ensures Distinct(Queue(m)) && forall x :: x in Queue(m) <==> x in Replicas(m)
  {
    ReplicasTotal(m);
    ArrangeDistinct(Replicas(m), ReplicaLess);
  }

  lemma QueueFacts(m: Layout)
    ensures Covers(Queue(m), m)
  {
    QueueDistinct(m);
    var q := Queue(m);
    forall i, j | 0 <= i < j < |q| ensures q[i].id != q[j].id {
      ReplicaById(m, q[i], q[j]);
    }
    forall r | r in m ensures r in ReplicaIds(q) {
      assert Replica(r, m[r].parent, m[r].req) in q;
    }
  }

  ghost predicate IsReplica(x: Replica, m: Layout) {
    x.id in m && x == Replica(x.id, m[x.id].parent, m[x.id].req)
  }

  lemma MoveSetInsert(ids: set<string>, r: string, m: Layout, t: Layout)
    requires ids <= m.Keys && r in m
    ensures MoveSet(ids + {r}, m, t) == MoveSet(ids, m, t)
         + if r in t && t[r].node != m[r].node then {Move(r, m[r].node, t[r].node)} else {}
  {
  }

  predicate NodeLoadLess(a: NodeLoad, b: NodeLoad) {
    StringLess(a.node, b.node)
  }

  ghost predicate OverLoad(l: NodeLoad, cpu: Tally, mem: Tally, nodes: Nodes) {
    && l.node in nodes
    && l == NodeLoad(l.node, Resources(At(cpu, l.node), At(mem, l.node)), Schedulable(nodes[l.node]))
    && !Fits(nodes[l.node], At(cpu, l.node), At(mem, l.node), Resources(0, 0))
  }

  lemma WithinIsFits(m: Layout, nodes: Nodes, n: string)
    ensures NodeWithin(m, nodes, n)
       <==> n in nodes && Fits(nodes[n], Load(m, n, Cpu), Load(m, n, Memory), Resources(0, 0))
  {
    assert NodeWithin(m, nodes, n) ==>
      Load(m, n, Cpu) <= Capacity(nodes[n], Cpu) && Load(m, n, Memory) <= Capacity(nodes[n], Memory);
    if n in nodes && Fits(nodes[n], Load(m, n, Cpu), Load(m, n, Memory), Resources(0, 0)) {
      forall d ensures Load(m, n, d) <= Capacity(nodes[n], d) {
        match d case Cpu => case Memory =>
      }
    }
  }

  lemma OverExact(m: Layout, nodes: Nodes, cpu: Tally, mem: Tally, over: seq<NodeLoad>)
    requires Tallied(cpu, mem, m) && cpu.Keys == mem.Keys
    requires forall l :: l in over <==> l.node in cpu.Keys && OverLoad(l, cpu, mem, nodes)
    ensures forall n :: (exists l :: l in over && l.node == n) <==> n in nodes && !NodeWithin(m, nodes, n)
    ensures forall l | l in over :: l.used == Resources(Load(m, l.node, Cpu), Load(m, l.node, Memory))
    ensures forall l | l in over :: l.node in nodes && l.cap == Schedulable(nodes[l.node])
  {
    hide Load, NodeWithin;
    forall n ensures (exists l :: l in over && l.node == n) <==> n in nodes && !NodeWithin(m, nodes, n) {
      WithinIsFits(m, nodes, n);
      if n in nodes && !NodeWithin(m, nodes, n) {
        assert NodeLoad(n, Resources(At(cpu, n), At(mem, n)), Schedulable(nodes[n])) in over;
      }
    }
  }

  lemma NodeLoadsTotal(loads: seq<NodeLoad>)
    requires forall a, b | a in loads && b in loads && a.node == b.node :: a == b
    ensures TotalOn(Elements(loads), NodeLoadLess)
  {
    var s := Elements(loads);
    forall a, b | a in s && b in s
      ensures !NodeLoadLess(a, a) && (a == b || NodeLoadLess(a, b) || NodeLoadLess(b, a))
    {
      StringLessTrichotomy(a.node, b.node);
    }
    forall a, b, c | a in s && b in s && c in s && NodeLoadLess(a, b) && NodeLoadLess(b, c)
      ensures NodeLoadLess(a, c)
    {
      StringLessTransitive(a.node, b.node, c.node);
    }
  }
}
