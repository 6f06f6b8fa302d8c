/** Per-node container subnets: the allocator, and the registration protocol around it. */
module Subnets {
  import opened Ordering
  import opened Registry
  import opened Addresses
  import opened Placing
  import opened Scheduling

  const BLOCKS: nat := 256

  datatype NetworkConfig = NetworkConfig(subnet: Cidr, gateway: nat)

  /** Node ID -> index of its /24 within the cluster /16. */
  type Table = map<string, nat>

  function Config(base: nat, idx: nat): NetworkConfig {
    NetworkConfig(Cidr(base + idx * 256, 24), base + idx * 256 + 1)
  }

  datatype AllocResult = Allocated(idx: nat) | EmptyId | Exhausted

  function AllocateIn(t: Table, id: string): (Table, AllocResult) {
    if id == "" then (t, EmptyId)
    else if id in t then (t, Allocated(t[id]))
    else
      var free := FirstFree(t.Values, 0, BLOCKS);
      if free == BLOCKS then (t, Exhausted) else (t[id := free], Allocated(free))
  }

  /** Each node has its own block among the 256. */
  ghost predicate ValidTable(t: Table) {
    Injective(t) && "" !in t && forall id | id in t :: t[id] < BLOCKS
  }

  /** Allocation keeps what is there, gives a new node a block nobody has, the lowest such, and fails for a
      named node exactly when it is new and all 256 blocks are taken. */
  lemma AllocateLaws(t: Table, id: string)
    requires ValidTable(t)
    ensures var (t', r) := AllocateIn(t, id);
      && ValidTable(t')
      && (forall k | k in t :: k in t' && t'[k] == t[k])
      && (if r.Allocated? then t'.Keys == t.Keys + {id} else t' == t)
      && (r.Allocated? ==> t'[id] == r.idx)
      && (r.Allocated? && id !in t ==> r.idx !in t.Values && forall j | 0 <= j < r.idx :: j in t.Values)
      && (!r.Allocated? <==> id == "" || (id !in t && |t| == BLOCKS))
  {
    FirstFreeExhausted(t, BLOCKS);
    var (t', r) := AllocateIn(t, id);
    assert id in t ==> t.Keys + {id} == t.Keys;
    if r.Allocated? && id !in t {
      forall x | x in t ensures t[x] != r.idx {
        assert t[x] in t.Values;
      }
    }
  }

  /** Asking again returns the same block and changes nothing. */
  lemma AllocateIdempotent(t: Table, id: string)
    requires ValidTable(t) && AllocateIn(t, id).1.Allocated?
    ensures var (t', r) := AllocateIn(t, id); AllocateIn(t', id) == (t', r)
  {
    AllocateLaws(t, id);
  }

  class SubnetAllocator {
    const base: nat
    var table: Table

    ghost predicate Valid()
      reads this
    {
      base % 65536 == 0 && ValidTable(table)
    }

    constructor (cluster: nat)
      requires cluster % 65536 == 0
      ensures base == cluster && table == map[] && Valid()
    {
      base, table := cluster, map[];
    }

    method Allocate(id: string) returns (r: AllocResult, cfg: NetworkConfig)
      requires Valid()
      modifies this
      ensures Valid()
      ensures (table, r) == AllocateIn(old(table), id)
      ensures r.Allocated? ==> cfg == Config(base, r.idx)
    {
      AllocateLaws(table, id);
      cfg := Config(base, 0);
      if id == "" {
        return EmptyId, cfg;
      }
      if id in table {
        return Allocated(table[id]), Config(base, table[id]);
      }
      var used := table.Values;
      var free := 0;
      while free < BLOCKS && free in used
        invariant 0 <= free <= BLOCKS
        invariant FirstFree(used, 0, BLOCKS) == FirstFree(used, free, BLOCKS)
      {
        free := free + 1;
      }
      if free == BLOCKS {
        return Exhausted, cfg;
      }
      table := table[id := free];
      return Allocated(free), Config(base, free);
    }

    method Release(id: string)
      requires Valid()
      modifies this
      ensures Valid() && table == old(table) - {id}
    {
      table := table - {id};
    }

    /** Every node with its subnet, for building routing tables: each has its own, and no address is in two. */
    method All() returns (out: map<string, Cidr>)
      requires Valid()
      ensures out.Keys == table.Keys && forall id | id in out :: out[id] == Config(base, table[id]).subnet
      ensures forall x, y, a: nat | x in out && y in out && Contains(out[x], a) && Contains(out[y], a) :: x == y
    {
      hide Contains, Config;
      out := map[];
      var rest := table.Keys;
      while rest != {}
        invariant rest <= table.Keys && out.Keys == table.Keys - rest
        invariant forall id | id in out :: out[id] == Config(base, table[id]).subnet
        decreases rest
      {
        var id :| id in rest;
        rest := rest - {id};
        out := out[id := Config(base, table[id]).subnet];
      }
      forall x, y, a: nat | x in out && y in out && Contains(out[x], a) && Contains(out[y], a) ensures x == y {
        BlocksDisjoint(base, table[x], table[y], a);
      }
    }
  }

  /** A block is 256 addresses, its gateway is the second of them, and no other block has that gateway. */
  lemma GatewayInBlock(base: nat, i: nat, j: nat)
    requires base % 65536 == 0 && i < BLOCKS && j < BLOCKS
    ensures var cfg := Config(base, i);
      && cfg.subnet.base % 256 == 0 && cfg.subnet.bits == 24 && cfg.gateway == cfg.subnet.base + 1
      && (forall a: nat :: Contains(cfg.subnet, a) <==> cfg.subnet.base <= a < cfg.subnet.base + 256)
      && (Contains(Config(base, j).subnet, cfg.gateway) <==> i == j)
  {
    Spans();
    var b := base + i * 256;
    assert b % 256 == 0;
    forall a: nat ensures Contains(Cidr(b, 24), a) <==> b <= a < b + 256 {
      assert b == b / 256 * 256 && a == a / 256 * 256 + a % 256;
    }
    BlocksDisjoint(base, i, j, b + 1);
  }

  /** Different indexes give disjoint /24s, all inside the cluster /16. */
  lemma BlocksDisjoint(base: nat, i: nat, j: nat, a: nat)
    requires base % 65536 == 0 && i < BLOCKS && j < BLOCKS
    requires Contains(Config(base, i).subnet, a)
    ensures Contains(Cidr(base, 16), a)
    ensures Contains(Config(base, j).subnet, a) ==> i == j
  {
    Spans();
    var k := base / 65536;
    assert base == k * 65536;
    assert (base + i * 256) / 256 == k * 256 + i;
    assert (base + j * 256) / 256 == k * 256 + j;
    assert a / 256 == k * 256 + i;
    assert a == (k * 256 + i) * 256 + a % 256;
    assert a == k * 65536 + (i * 256 + a % 256);
    assert a / 65536 == k;
  }

  // ----- The registration protocol -----

  /** The control plane's registry (lost on restart) and allocator (kept), and the running agents with the block
      each configured its network from. */
  datatype Plane = Plane(nodes: Nodes, table: Table, agents: map<string, nat>)

  datatype Event =
    | Boot(n: Node, now: int)        // a stopped agent starts and tries to register
    | Knock(n: Node, now: int)       // a stopped agent registers and never gets the answer
    | Beat(n: Node, now: int)        // a running agent's heartbeat reaches the control plane
    | Timeout(id: string)            // a node past its heartbeat window is dropped from the registry
    | Restart                        // the control plane restarts
    | Halt(id: string)               // an agent stops
    | Decommission(id: string)

  ghost function Register(p: Plane, n: Node, now: int): (Plane, AllocResult) {
    var (t, r) := AllocateIn(p.table, n.id);
    (p.(nodes := p.nodes[n.id := n.(heartbeat := now)], table := t), r)
  }

  ghost function Step(p: Plane, e: Event): Plane {
    match e
    case Boot(n, now) =>
      if n.id in p.agents then p
      else
        var (p', r) := Register(p, n, now);
        if r.Allocated? then p'.(agents := p'.agents[n.id := r.idx]) else p'
    case Knock(n, now) => if n.id in p.agents then p else Register(p, n, now).0
    case Beat(n, now) =>
      if n.id !in p.agents || n.id == "" then p
      else if n.id in p.nodes then p.(nodes := p.nodes[n.id := p.nodes[n.id].(heartbeat := now)])
      else Register(p, n, now).0
    case Timeout(id) => p.(nodes := p.nodes - {id})
    case Restart => p.(nodes := map[])
    case Halt(id) => p.(agents := p.agents - {id})
    case Decommission(id) => p.(nodes := p.nodes - {id}, table := p.table - {id})
  }

  /** Every running agent's block is the one the allocator holds for it. */
  ghost predicate PlaneInv(p: Plane) {
    ValidTable(p.table) && forall id | id in p.agents :: id in p.table && p.table[id] == p.agents[id]
  }

  /** Each event keeps agents and allocator in agreement, except decommissioning a running agent. */
  lemma StepKeepsInv(p: Plane, e: Event)
    requires PlaneInv(p)
    ensures PlaneInv(Step(p, e)) <==> !(e.Decommission? && e.id in p.agents)
  {
    match e
    case Boot(n, _) => AllocateLaws(p.table, n.id);
    case Knock(n, _) => AllocateLaws(p.table, n.id);
    case Beat(n, _) => AllocateLaws(p.table, n.id);
    case Timeout(_) =>
    case Restart =>
    case Halt(_) =>
    case Decommission(_) =>
  }

  ghost predicate AllowedRun(p: Plane, es: seq<Event>)
    decreases |es|
  {
    es == [] || (!(es[0].Decommission? && es[0].id in p.agents) && AllowedRun(Step(p, es[0]), es[1..]))
  }

  ghost function Run(p: Plane, es: seq<Event>): Plane
    decreases |es|
  {
    if es == [] then p else Run(Step(p, es[0]), es[1..])
  }

  lemma {:induction false} RunKeepsInv(p: Plane, es: seq<Event>)
    requires PlaneInv(p) && AllowedRun(p, es)
    ensures PlaneInv(Run(p, es))
    decreases |es|
  {
    if es != [] {
      StepKeepsInv(p, es[0]);
      RunKeepsInv(Step(p, es[0]), es[1..]);
    }
  }

  /** Over any run of boots, heartbeats, timeouts, restarts and re-registrations, an address in a running agent's
      /24 is in the cluster /16 and in no other running agent's /24. */
  lemma {:induction false} RunDisjoint(es: seq<Event>, base: nat, x: string, y: string, a: nat)
    requires base % 65536 == 0 && AllowedRun(Plane(map[], map[], map[]), es)
    requires var p := Run(Plane(map[], map[], map[]), es);
      x in p.agents && y in p.agents && Contains(Config(base, p.agents[x]).subnet, a)
    ensures var p := Run(Plane(map[], map[], map[]), es);
      && Contains(Cidr(base, 16), a)
      && (Contains(Config(base, p.agents[y]).subnet, a) ==> x == y)
      && x in p.table && p.table[x] == p.agents[x]
  {
    hide Config, Contains;
    RunKeepsInv(Plane(map[], map[], map[]), es);
    var p := Run(Plane(map[], map[], map[]), es);
    BlocksDisjoint(base, p.agents[x], p.agents[y], a);
  }

  /** Re-registration after a restart always returns the block the agent is already configured with. */
  lemma {:induction false} ReRegisterAgrees(es: seq<Event>, n: Node, now: int)
    requires AllowedRun(Plane(map[], map[], map[]), es)
    requires n.id in Run(Plane(map[], map[], map[]), es).agents
    ensures var p := Run(Plane(map[], map[], map[]), es); Register(p, n, now).1 == Allocated(p.agents[n.id])
  {
    RunKeepsInv(Plane(map[], map[], map[]), es);
  }

  /** Decommissioning a running agent lets another node be given its block: an address is in both. */
  lemma DecommissionLiveClashes(base: nat, m: Node, n: Node, now: int)
    requires m.id != n.id && m.id != "" && n.id != ""
    ensures var p := Run(Plane(map[], map[], map[]), [Boot(m, now), Decommission(m.id), Boot(n, now)]);
      && m.id in p.agents && n.id in p.agents
      && Contains(Config(base, p.agents[m.id]).subnet, base) && Contains(Config(base, p.agents[n.id]).subnet, base)
  {
    var p0 := Plane(map[], map[], map[]);
    var p1 := Step(p0, Boot(m, now));
    assert p1.table.Values == {0};
    var p2 := Step(p1, Decommission(m.id));
    assert p2.table == map[];
    var p3 := Step(p2, Boot(n, now));
    var es := [Boot(m, now), Decommission(m.id), Boot(n, now)];
    assert es[1..] == [Decommission(m.id), Boot(n, now)] && es[1..][1..] == [Boot(n, now)] && es[1..][1..][1..] == [];
    assert Run(p0, es) == Run(p1, es[1..]) == Run(p2, es[1..][1..]) == Run(p3, []);
  }

  // ----- The protocol's two sides as they run -----

  datatype Answer = Ok | BadRequest | NotFound

  class ControlPlane {
    const registry: NodeTable
    const allocator: SubnetAllocator
    const scheduler: Scheduler

    constructor (reg: NodeTable, alloc: SubnetAllocator, sched: Scheduler)
      ensures registry == reg && allocator == alloc && scheduler == sched
    {
      registry, allocator, scheduler := reg, alloc, sched;
    }

    ghost predicate Valid()
      reads registry, allocator, scheduler
    {
      registry.Valid() && allocator.Valid() && scheduler.registry == registry && scheduler.Valid()
    }

    ghost function View(agents: map<string, nat>): Plane
      reads registry, allocator
    {
      Plane(registry.nodes, allocator.table, agents)
    }

    /** The node is registered even when no subnet can be given. */
    method RegisterNode(n: Node, now: int, ghost agents: map<string, nat>) returns (r: AllocResult, cfg: NetworkConfig)
      requires Valid()
      modifies registry, allocator
      ensures Valid()
      ensures (View(agents), r) == Register(old(View(agents)), n, now)
      ensures r.Allocated? ==> cfg == Config(allocator.base, r.idx)
    {
      registry.Register(n, now);
      r, cfg := allocator.Allocate(n.id);
    }

    method Heartbeat(id: string, now: int) returns (r: Answer)
      requires Valid()
      modifies registry
      ensures Valid()
      ensures r == if id == "" then BadRequest else if id in old(registry.nodes) then Ok else NotFound
      ensures registry.nodes == if r.Ok? then old(registry.nodes)[id := old(registry.nodes)[id].(heartbeat := now)]
                                else old(registry.nodes)
    {
      if id == "" {
        return BadRequest;
      }
      var known := registry.Heartbeat(id, now);
      r := if known then Ok else NotFound;
    }

    /** Decommission a node: its registration, its block and the placements on it go. */
    method RemoveNode(id: string, ghost agents: map<string, nat>) returns (r: Answer)
      requires Valid()
      modifies registry, allocator, scheduler
      ensures Valid() && r == if id == "" then BadRequest else Ok
      ensures View(agents) == if r.Ok? then Step(old(View(agents)), Decommission(id)) else old(View(agents))
      ensures scheduler.View() == if r.Ok? then Evict(old(scheduler.View()), {id}) else old(scheduler.View())
    {
      if id == "" {
        return BadRequest;
      }
      registry.Remove(id);
      allocator.Release(id);
      var _ := scheduler.ReassignNode(id);
      r := Ok;
    }
  }

  /** What becomes of one attempt to register: the control plane cannot be reached, it answers, or its answer is
      lost. */
  datatype Attempt = Unreachable | Answered(now: int) | Unheard(now: int)

  ghost function Try(p: Plane, n: Node, t: Attempt): Plane {
    match t
    case Unreachable => p
    case Answered(now) => Step(p, Boot(n, now))
    case Unheard(now) => Step(p, Knock(n, now))
  }

  /** Attempts are made until one gives the agent its block, or it is told to stop. */
  ghost function Attempts(p: Plane, n: Node, tries: seq<Attempt>): Plane
    decreases |tries|
  {
    if tries == [] || n.id in p.agents then p else Attempts(Try(p, n, tries[0]), n, tries[1..])
  }

  /** However many attempts it takes, a booting agent leaves agents and allocator in agreement. */
  lemma {:induction false} AttemptsKeepInv(p: Plane, n: Node, tries: seq<Attempt>)
    requires PlaneInv(p)
    ensures PlaneInv(Attempts(p, n, tries))
    decreases |tries|
  {
    hide Step, PlaneInv;
    if tries != [] && n.id !in p.agents {
      var t := tries[0];
      if t.Answered? {
        StepKeepsInv(p, Boot(n, t.now));
      } else if t.Unheard? {
        StepKeepsInv(p, Knock(n, t.now));
      }
      AttemptsKeepInv(Try(p, n, t), n, tries[1..]);
    }
  }

  class Agent {
    const node: Node
    var config: Option<NetworkConfig>

    constructor (n: Node)
      ensures node == n && config == None
    {
      node, config := n, None;
    }

    /** Register, again and again, until a block is assigned; the attempts end when the agent is told to stop. */
    method Start(server: ControlPlane, tries: seq<Attempt>, ghost agents: map<string, nat>) returns (up: bool)
      requires server.Valid() && node.id !in agents
      modifies this, server.registry, server.allocator
      ensures server.Valid()
      ensures var p := Attempts(old(server.View(agents)), node, tries);
        && server.View(p.agents) == p
        && up == (node.id in p.agents)
        && (up ==> config == Some(Config(server.allocator.base, p.agents[node.id])))
    {
      hide Attempts;
      AttemptsUnfold(server.View(agents), node, tries);
      for i := 0 to |tries|
        invariant server.Valid()
        invariant Attempts(old(server.View(agents)), node, tries) == Attempts(server.View(agents), node, tries[i..])
      {
        ghost var p := server.View(agents);
        AttemptsUnfold(p, node, tries[i..]);
        assert tries[i..][1..] == tries[i + 1..];
        if tries[i] != Unreachable {
          var r, cfg := server.RegisterNode(node, tries[i].now, agents);
          if r.Allocated? && tries[i].Answered? {
            config := Some(cfg);
            AttemptsUnfold(p.(nodes := server.registry.nodes, table := server.allocator.table,
                              agents := agents[node.id := r.idx]), node, tries[i + 1..]);
            return true;
          }
        }
      }
      AttemptsUnfold(server.View(agents), node, tries[|tries|..]);
      return false;
    }

    /** A heartbeat, and re-registration when the control plane no longer knows the node. The configuration is
        never changed; `mismatch` reports that the server answered with another subnet. That is so exactly when the
        node was unknown and is given another block, and cannot happen while agents and allocator agree. */
    method Tick(server: ControlPlane, now: int, ghost agents: map<string, nat>) returns (mismatch: bool)
      requires server.Valid() && node.id in agents
      requires config == Some(Config(server.allocator.base, agents[node.id]))
      modifies server.registry, server.allocator
      ensures server.Valid() && config == old(config)
      ensures server.View(agents) == Step(old(server.View(agents)), Beat(node, now))
      ensures mismatch <==>
        && node.id != "" && node.id !in old(server.registry.nodes)
        && var r := AllocateIn(old(server.allocator.table), node.id).1; r.Allocated? && r.idx != agents[node.id]
      ensures old(PlaneInv(server.View(agents))) ==> !mismatch
    {
      mismatch := false;
      var known := server.Heartbeat(node.id, now);
      if known == NotFound {
        var r, cfg := server.RegisterNode(node, now, agents);
        mismatch := r.Allocated? && config.Some? && cfg.subnet != config.value.subnet;
      }
    }
  }

  lemma {:induction false} AttemptsUnfold(p: Plane, n: Node, tries: seq<Attempt>)
    ensures Attempts(p, n, tries)
         == if tries == [] || n.id in p.agents then p else Attempts(Try(p, n, tries[0]), n, tries[1..])
  {
  }
}
