/** The placement rule and the scheduler's operations as functions of a layout. */
module Placing {
  import opened Ordering
  import opened Registry
  import opened Layouts

  datatype Candidate = Candidate(id: string, siblings: nat, remaining: real)

  /** Fewest siblings, then least remaining capacity, then lowest node ID. */
  predicate CandidateLess(a: Candidate, b: Candidate) {
    if a.siblings != b.siblings then a.siblings < b.siblings
    else if a.remaining != b.remaining then a.remaining < b.remaining
    else StringLess(a.id, b.id)
  }

  lemma CandidatesTotal(s: set<Candidate>)
    ensures TotalOn(s, CandidateLess)
  {
    forall a, b | a in s && b in s
      ensures !CandidateLess(a, a) && (a == b || CandidateLess(a, b) || CandidateLess(b, a))
    {
      StringLessTrichotomy(a.id, b.id);
    }
    forall a, b, c | a in s && b in s && c in s && CandidateLess(a, b) && CandidateLess(b, c)
      ensures CandidateLess(a, c)
    {
      if StringLess(a.id, b.id) && StringLess(b.id, c.id) {
        StringLessTransitive(a.id, b.id, c.id);
      }
    }
  }

  /** Per-node tallies as the scheduler keeps them; a missing key counts as zero. */
  type Tally = map<string, nat>

  function At(t: Tally, n: string): nat {
    if n in t then t[n] else 0
  }

  predicate Fits(n: Node, cpu: nat, mem: nat, req: Resources) {
    cpu + req.cpu <= Capacity(n, Cpu) && mem + req.mem <= Capacity(n, Memory)
  }

  function Spare(cap: nat, used: nat, req: nat): real {
    if cap > 0 then (cap - used - req) as real / cap as real else 0.0
  }

  function Offer(n: Node, cpu: nat, mem: nat, siblings: nat, req: Resources): Candidate {
    Candidate(n.id, siblings,
              Spare(Capacity(n, Cpu), cpu, req.cpu) + Spare(Capacity(n, Memory), mem, req.mem))
  }

  /** What every node that fits would offer, under the given tallies. */
  ghost function Offers(nodes: set<Node>, cpu: Tally, mem: Tally, siblings: Tally, req: Resources): set<Candidate> {
    set n | n in nodes && Fits(n, At(cpu, n.id), At(mem, n.id), req)
      :: Offer(n, At(cpu, n.id), At(mem, n.id), At(siblings, n.id), req)
  }

  /** The least candidate's node, or "" when nothing fits. */
  ghost function Choice(offers: set<Candidate>): string {
    CandidatesTotal(offers);
    if offers == {} then "" else Least(offers, CandidateLess).id
  }

  ghost function LoadTally(m: Layout, names: set<string>, d: Dimension): Tally {
    map n | n in names :: Load(m, n, d)
  }

  ghost function SiblingTally(m: Layout, names: set<string>, parent: string): Tally {
    map n | n in names :: Siblings(m, parent, n)
  }

  /** Where a replica of `parent` asking for `req` goes, given the layout so far. */
  ghost function BestNode(alive: Nodes, m: Layout, parent: string, req: Resources): string {
    Choice(Offers(alive.Values, LoadTally(m, alive.Keys, Cpu), LoadTally(m, alive.Keys, Memory),
                  SiblingTally(m, alive.Keys, parent), req))
  }

  /** The tallies hold each node's load, for every node. */
  ghost predicate Tallied(cpu: Tally, mem: Tally, m: Layout) {
    forall n :: At(cpu, n) == Load(m, n, Cpu) && At(mem, n) == Load(m, n, Memory)
  }

  ghost predicate Counted(siblings: Tally, m: Layout, parent: string) {
    forall n :: At(siblings, n) == Siblings(m, parent, n)
  }

  function Bump(t: Tally, n: string, more: nat): Tally {
    t[n := At(t, n) + more]
  }

  lemma TalliedInsert(cpu: Tally, mem: Tally, m: Layout, r: string, p: Placement)
    requires Tallied(cpu, mem, m) && r !in m
    ensures Tallied(Bump(cpu, p.node, p.req.cpu), Bump(mem, p.node, p.req.mem), m[r := p])
  {
    forall n
      ensures At(Bump(cpu, p.node, p.req.cpu), n) == Load(m[r := p], n, Cpu)
      ensures At(Bump(mem, p.node, p.req.mem), n) == Load(m[r := p], n, Memory)
    {
      LoadInsert(m, r, p, n, Cpu);
      LoadInsert(m, r, p, n, Memory);
    }
  }

  lemma CountedInsert(siblings: Tally, m: Layout, parent: string, r: string, p: Placement)
    requires Counted(siblings, m, parent) && r !in m
    ensures Counted(if p.parent == parent then Bump(siblings, p.node, 1) else siblings, m[r := p], parent)
  {
    var s' := if p.parent == parent then Bump(siblings, p.node, 1) else siblings;
    forall n ensures At(s', n) == Siblings(m[r := p], parent, n) {
      SiblingsInsert(m, r, p, parent, n);
    }
  }

  ghost predicate Room(m: Layout, n: Node, req: Resources) {
    forall d :: Load(m, n.id, d) + Amount(req, d) <= Capacity(n, d)
  }

  ghost function OfferOf(n: Node, m: Layout, parent: string, req: Resources): Candidate {
    Offer(n, Load(m, n.id, Cpu), Load(m, n.id, Memory), Siblings(m, parent, n.id), req)
  }

  lemma RoomIsFits(m: Layout, n: Node, req: Resources)
    ensures Room(m, n, req) <==> Fits(n, Load(m, n.id, Cpu), Load(m, n.id, Memory), req)
  {
    assert Room(m, n, req) ==>
      && Load(m, n.id, Cpu) + Amount(req, Cpu) <= Capacity(n, Cpu)
      && Load(m, n.id, Memory) + Amount(req, Memory) <= Capacity(n, Memory);
    if Fits(n, Load(m, n.id, Cpu), Load(m, n.id, Memory), req) {
      forall d ensures Load(m, n.id, d) + Amount(req, d) <= Capacity(n, d) {
        match d case Cpu => case Memory =>
      }
    }
  }

  /** Tallies that agree with a layout on the nodes' IDs lead to the layout's own choice. */
  lemma OffersAgree(alive: Nodes, m: Layout, parent: string, req: Resources, cpu: Tally, mem: Tally, siblings: Tally)
    requires WellKeyed(alive)
    requires Tallied(cpu, mem, m) && Counted(siblings, m, parent)
    ensures Choice(Offers(alive.Values, cpu, mem, siblings, req)) == BestNode(alive, m, parent, req)
  {
    var cpu', mem' := LoadTally(m, alive.Keys, Cpu), LoadTally(m, alive.Keys, Memory);
    var siblings' := SiblingTally(m, alive.Keys, parent);
    forall n | n in alive.Values
      ensures At(cpu, n.id) == At(cpu', n.id) && At(mem, n.id) == At(mem', n.id)
      ensures At(siblings, n.id) == At(siblings', n.id)
    {
      assert n.id in alive;
    }
    assert Offers(alive.Values, cpu, mem, siblings, req) == Offers(alive.Values, cpu', mem', siblings', req);
  }

  /** The choice is the one node with room that every other node with room loses to. */
  lemma BestNodeLeast(alive: Nodes, m: Layout, parent: string, req: Resources)
    requires WellKeyed(alive)
    ensures var b := BestNode(alive, m, parent, req);
      || (b == "" && forall n | n in alive :: !Room(m, alive[n], req))
      || (b in alive && Room(m, alive[b], req)
          && forall n | n in alive && n != b && Room(m, alive[n], req) ::
               CandidateLess(OfferOf(alive[b], m, parent, req), OfferOf(alive[n], m, parent, req)))
  {
    var cpu, mem := LoadTally(m, alive.Keys, Cpu), LoadTally(m, alive.Keys, Memory);
    var siblings := SiblingTally(m, alive.Keys, parent);
    var offers := Offers(alive.Values, cpu, mem, siblings, req);
    CandidatesTotal(offers);
    forall n | n in alive
      ensures OfferOf(alive[n], m, parent, req) in offers <==> Room(m, alive[n], req)
    {
      RoomIsFits(m, alive[n], req);
      assert alive[n] in alive.Values && alive[n].id == n;
      assert At(cpu, n) == Load(m, n, Cpu) && At(mem, n) == Load(m, n, Memory);
    }
    forall c | c in offers
      ensures c.id in alive && c == OfferOf(alive[c.id], m, parent, req)
    {
      var n :| n in alive.Values && Fits(n, At(cpu, n.id), At(mem, n.id), req)
        && c == Offer(n, At(cpu, n.id), At(mem, n.id), At(siblings, n.id), req);
      assert n.id in alive && alive[n.id] == n;
    }
    if offers != {} {
      var b := Least(offers, CandidateLess);
      forall n | n in alive && n != b.id && Room(m, alive[n], req)
        ensures CandidateLess(b, OfferOf(alive[n], m, parent, req))
      {
      }
    } else {
      forall n | n in alive ensures !Room(m, alive[n], req) {
        assert OfferOf(alive[n], m, parent, req) !in offers;
      }
    }
  }

  // ----- Assign, Unassign, ReassignNode -----

  datatype AssignResult =
    | Assigned(node: string, parent: string)
    | NoAliveNodes
    | InsufficientCapacity

  /** `req` fits on `n` next to everything there but replica `r` itself. */
  ghost predicate StillFits(m: Layout, nodes: Nodes, n: string, r: string, req: Resources) {
    n in nodes && Room(m - {r}, nodes[n], req)
  }

  ghost function Assign(m: Layout, nodes: Nodes, now: int, r: string, parent: string, req: Resources)
    : (Layout, AssignResult)
  {
    if r in m && StillFits(m, nodes, m[r].node, r, req) then
      (m[r := m[r].(req := req)], Assigned(m[r].node, m[r].parent))
    else
      PlaceNew(m - {r}, nodes, now, r, parent, req)
  }

  ghost function PlaceNew(m: Layout, nodes: Nodes, now: int, r: string, parent: string, req: Resources)
    : (Layout, AssignResult)
  {
    var res := Choose(m, nodes, now, parent, req);
    (if res.Assigned? then m[r := Placement(res.node, parent, req)] else m, res)
  }

  ghost function Choose(m: Layout, nodes: Nodes, now: int, parent: string, req: Resources): AssignResult {
    var alive := AliveNodes(nodes, now);
    if alive.Keys == {} then NoAliveNodes
    else
      var best := BestNode(alive, m, parent, req);
      if best == "" then InsufficientCapacity else Assigned(best, parent)
  }

  /** Only `r`'s entry can change, and `r` ends up on a registered node with room for it. */
  lemma AssignFrame(m: Layout, nodes: Nodes, now: int, r: string, parent: string, req: Resources)
    requires WellKeyed(nodes)
    ensures var (m', res) := Assign(m, nodes, now, r, parent, req);
      && m' - {r} == m - {r}
      && (r in m' <==> res.Assigned?)
      && (res.Assigned? ==>
            && m'[r].node == res.node && m'[r].parent == res.parent && m'[r].req == req
            && res.node in nodes && Room(m - {r}, nodes[res.node], req)
            && ((r in m && res.node == m[r].node) || res.node in AliveNodes(nodes, now)))
  {
    hide BestNode, Room;
    var (m', res) := Assign(m, nodes, now, r, parent, req);
    assert m' - {r} == m - {r};
    if !(r in m && StillFits(m, nodes, m[r].node, r, req)) {
      BestNodeLeast(AliveNodes(nodes, now), m - {r}, parent, req);
    }
  }

  /** Giving one replica a node with room for it keeps nodes within capacity. */
  lemma PutWithin(m: Layout, m': Layout, nodes: Nodes, r: string)
    requires WellKeyed(nodes) && m' - {r} == m - {r}
    requires r in m' ==> m'[r].node in nodes && Room(m - {r}, nodes[m'[r].node], m'[r].req)
    ensures forall n | NodeWithin(m, nodes, n) :: NodeWithin(m', nodes, n)
    ensures r in m' ==> NodeWithin(m', nodes, m'[r].node)
  {
    forall n | n in nodes && (NodeWithin(m, nodes, n) || (r in m' && n == m'[r].node))
      ensures NodeWithin(m', nodes, n)
    {
      forall d ensures Load(m', n, d) <= Capacity(nodes[n], d) {
        LoadMonotone(m, {r}, n, d);
        if r in m' {
          LoadRemove(m', r, n, d);
          assert Load(m - {r}, m'[r].node, d) + Amount(m'[r].req, d) <= Capacity(nodes[m'[r].node], d);
        } else {
          assert m' == m - {r};
        }
      }
    }
  }

  /** A node within capacity stays so, and the node `r` ends up on is within capacity. */
  lemma AssignWithin(m: Layout, nodes: Nodes, now: int, r: string, parent: string, req: Resources)
    requires WellKeyed(nodes)
    ensures var (m', res) := Assign(m, nodes, now, r, parent, req);
      && (forall n | NodeWithin(m, nodes, n) :: NodeWithin(m', nodes, n))
      && (res.Assigned? ==> NodeWithin(m', nodes, res.node))
  {
    hide BestNode;
    AssignFrame(m, nodes, now, r, parent, req);
    PutWithin(m, Assign(m, nodes, now, r, parent, req).0, nodes, r);
  }

  ghost function Evict(m: Layout, gone: set<string>): Layout {
    map r | r in m && m[r].node !in gone :: m[r]
  }

  lemma EvictIsRemoval(m: Layout, gone: set<string>)
    ensures Evict(m, gone) == m - (m.Keys - Evict(m, gone).Keys)
  {
  }

  // ----- Rebalance -----

  datatype Replica = Replica(id: string, parent: string, req: Resources)

  /** Largest memory first, then largest CPU, then lowest ID. */
  predicate ReplicaLess(a: Replica, b: Replica) {
    if a.req.mem != b.req.mem then a.req.mem > b.req.mem
    else if a.req.cpu != b.req.cpu then a.req.cpu > b.req.cpu
    else StringLess(a.id, b.id)
  }

  ghost function Replicas(m: Layout): set<Replica> {
    set r | r in m :: Replica(r, m[r].parent, m[r].req)
  }

  lemma ReplicasTotal(m: Layout)
    ensures TotalOn(Replicas(m), ReplicaLess)
  {
    forall a, b | a in Replicas(m) && b in Replicas(m)
      ensures !ReplicaLess(a, a) && (a == b || ReplicaLess(a, b) || ReplicaLess(b, a))
    {
      StringLessTrichotomy(a.id, b.id);
    }
    forall a, b, c | a in Replicas(m) && b in Replicas(m) && c in Replicas(m) && ReplicaLess(a, b) && ReplicaLess(b, c)
      ensures ReplicaLess(a, c)
    {
      if StringLess(a.id, b.id) && StringLess(b.id, c.id) {
        StringLessTransitive(a.id, b.id, c.id);
      }
    }
  }

  ghost function Queue(m: Layout): seq<Replica> {
    ReplicasTotal(m);
    Arrange(Replicas(m), ReplicaLess)
  }

  /** Place a queue of replicas from scratch; one that fits nowhere is skipped. */
  ghost function Simulate(alive: Nodes, queue: seq<Replica>): Layout {
    if queue == [] then map[]
    else
      SimulateOne(alive, Simulate(alive, queue[..|queue| - 1]), queue[|queue| - 1])
  }

  ghost function SimulateOne(alive: Nodes, t: Layout, r: Replica): Layout {
    var best := BestNode(alive, t, r.parent, r.req);
    if best == "" then t else t[r.id := Placement(best, r.parent, r.req)]
  }

  ghost function ReplicaIds(queue: seq<Replica>): set<string> {
    set x | x in queue :: x.id
  }

  /** The layout `t` places some of `m`'s replicas, with `m`'s parents and requests. */
  ghost predicate PlacesFrom(t: Layout, m: Layout) {
    forall r | r in t :: r in m && t[r].parent == m[r].parent && t[r].req == m[r].req
  }

  lemma {:induction false} SimulatePlaces(alive: Nodes, queue: seq<Replica>, m: Layout)
    requires forall x | x in queue :: x in Replicas(m)
    ensures PlacesFrom(Simulate(alive, queue), m)
  {
    if queue != [] {
      var shorter := queue[..|queue| - 1];
      assert queue == shorter + [queue[|queue| - 1]];
      SimulatePlaces(alive, shorter, m);
      assert queue[|queue| - 1] in Replicas(m);
    }
  }

  lemma {:induction false} SimulateKeys(alive: Nodes, queue: seq<Replica>)
    ensures Simulate(alive, queue).Keys <= ReplicaIds(queue)
  {
    if queue != [] {
      var shorter := queue[..|queue| - 1];
      assert queue == shorter + [queue[|queue| - 1]];
      SimulateKeys(alive, shorter);
    }
  }

  lemma {:induction false} SimulateNowhere(queue: seq<Replica>)
    ensures Simulate(map[], queue) == map[]
  {
    if queue != [] {
      SimulateNowhere(queue[..|queue| - 1]);
      var r := queue[|queue| - 1];
      BestNodeLeast(map[], map[], r.parent, r.req);
    }
  }

  ghost function Target(m: Layout, alive: Nodes): Layout {
    Simulate(alive, Queue(m))
  }

  datatype Move = Move(replica: string, from: string, to: string)

  predicate MoveLess(a: Move, b: Move) {
    StringLess(a.replica, b.replica)
  }

  ghost function MoveSet(ids: set<string>, m: Layout, t: Layout): set<Move>
    requires ids <= m.Keys
  {
    set r | r in ids && r in t && t[r].node != m[r].node :: Move(r, m[r].node, t[r].node)
  }

  lemma MovesTotal(m: Layout, t: Layout)
    ensures TotalOn(MoveSet(m.Keys, m, t), MoveLess)
  {
    var s := MoveSet(m.Keys, m, t);
    forall a, b | a in s && b in s
      ensures !MoveLess(a, a) && (a == b || MoveLess(a, b) || MoveLess(b, a))
    {
      StringLessTrichotomy(a.replica, b.replica);
    }
    forall a, b, c | a in s && b in s && c in s && MoveLess(a, b) && MoveLess(b, c)
      ensures MoveLess(a, c)
    {
      StringLessTransitive(a.replica, b.replica, c.replica);
    }
  }

  /** The moves a rebalance makes, in order of replica ID. */
  ghost function Plan(m: Layout, alive: Nodes): seq<Move> {
    var t := Target(m, alive);
    MovesTotal(m, t);
    Arrange(MoveSet(m.Keys, m, t), MoveLess)
  }

  /** The layout with every move of the plan carried out. */
  ghost function Rebalanced(m: Layout, alive: Nodes): Layout {
    var t := Target(m, alive);
    map r | r in m :: if r in t then m[r].(node := t[r].node) else m[r]
  }
}
