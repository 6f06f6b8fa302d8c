/** Cross-node routes: what the control plane advertises and how an agent keeps its kernel table in step. */
module Routes {
  import opened Ordering
  import opened Registry
  import opened Addresses
  import opened Subnets

  const NODE_BITS: nat := 24

  /** A route as received; a subnet that does not parse is `None`. */
  datatype Route = Route(subnet: Option<Cidr>, via: HostIp)

  /** The kernel's IPv4 routes: destination (0.0.0.0/0 is the default route) -> gateway, `None` for on-link. */
  type Kernel = map<Cidr, Option<nat>>

  lemma LowBits(a: nat, m: nat)
    requires m >= 1
    ensures a % m <= a
  {
    assert a == m * (a / m) + a % m;
  }

  /** The block with its host bits cleared. */
  function Network(c: Cidr): Cidr {
    LowBits(c.base, Span(c));
    Cidr(c.base - c.base % Span(c), c.bits)
  }

  predicate Usable(r: Route) {
    r.subnet.Some? && r.via.Ip?
  }

  /** The destinations to install; of two routes to one destination the later wins. */
  function Desired(routes: seq<Route>): map<Cidr, nat> {
    if routes == [] then map[]
    else
      var r := routes[|routes| - 1];
      var rest := Desired(routes[..|routes| - 1]);
      if Usable(r) then rest[Network(r.subnet.value) := r.via.addr] else rest
  }

  predicate Managed(cluster: Cidr, own: Cidr, dst: Cidr, gw: Option<nat>) {
    gw.Some? && Contains(cluster, dst.base) && dst.bits == NODE_BITS && dst != own
  }

  /** `refused`: the destinations whose change the kernel refuses this time. */
  function Installed(k: Kernel, desired: map<Cidr, nat>, refused: set<Cidr>): Kernel {
    map d | d in k.Keys + (desired.Keys - refused) :: if d in desired && d !in refused then Some(desired[d]) else k[d]
  }

  function Pruned(cluster: Cidr, own: Cidr, k: Kernel, desired: map<Cidr, nat>, refused: set<Cidr>): Kernel {
    map d | d in k && !(Managed(cluster, own, d, k[d]) && d !in desired && d !in refused) :: k[d]
  }

  function Synced(cluster: Cidr, own: Cidr, k: Kernel, desired: map<Cidr, nat>, refused: set<Cidr>): Kernel {
    Pruned(cluster, own, Installed(k, desired, refused), desired, refused)
  }

  class RoutingTable {
    var routes: Kernel

    constructor (k: Kernel)
      ensures routes == k
    {
      routes := k;
    }

    method Replace(dst: Cidr, gw: nat, accepted: bool)
      modifies this
      ensures routes == if accepted then old(routes)[dst := Some(gw)] else old(routes)
    {
      if accepted {
        routes := routes[dst := Some(gw)];
      }
    }

    method Delete(dst: Cidr, accepted: bool)
      modifies this
      ensures routes == if accepted then old(routes) - {dst} else old(routes)
    {
      if accepted {
        routes := routes - {dst};
      }
    }
  }

  class RouteManager {
    const cluster: Cidr
    const own: Cidr

    constructor (pool: Cidr, subnet: Cidr)
      ensures cluster == Network(pool) && own == Network(subnet)
    {
      cluster, own := Network(pool), Network(subnet);
    }

    method Collect(routes: seq<Route>) returns (desired: map<Cidr, nat>)
      ensures desired == Desired(routes)
    {
      desired := map[];
      for i := 0 to |routes|
        invariant desired == Desired(routes[..i])
      {
        assert routes[..i + 1][..i] == routes[..i];
        if Usable(routes[i]) {
          desired := desired[Network(routes[i].subnet.value) := routes[i].via.addr];
        }
      }
      assert routes[..|routes|] == routes;
    }

    method Install(table: RoutingTable, desired: map<Cidr, nat>, refused: set<Cidr>)
      modifies table
      ensures table.routes == Installed(old(table.routes), desired, refused)
    {
      var rest := desired.Keys;
      while rest != {}
        invariant rest <= desired.Keys
        invariant table.routes.Keys == old(table.routes).Keys + (desired.Keys - rest - refused)
        invariant forall d | d in table.routes ::
                    table.routes[d] ==
                    if d in desired && d !in rest && d !in refused then Some(desired[d]) else old(table.routes)[d]
        decreases rest
      {
        var dst :| dst in rest;
        rest := rest - {dst};
        table.Replace(dst, desired[dst], dst !in refused);
      }
      assert table.routes.Keys == Installed(old(table.routes), desired, refused).Keys;
    }

    method Prune(table: RoutingTable, desired: map<Cidr, nat>, refused: set<Cidr>)
      modifies table
      ensures table.routes == Pruned(cluster, own, old(table.routes), desired, refused)
    {
      hide Managed;
      var rest := table.routes.Keys;
      while rest != {}
        invariant rest <= table.routes.Keys <= old(table.routes).Keys
        invariant forall d | d in table.routes :: table.routes[d] == old(table.routes)[d]
        invariant forall d | d in old(table.routes) :: d in table.routes <==>
          d in rest || !(Managed(cluster, own, d, old(table.routes)[d]) && d !in desired && d !in refused)
        decreases rest
      {
        var dst :| dst in rest;
        rest := rest - {dst};
        if Managed(cluster, own, dst, table.routes[dst]) && dst !in desired {
          table.Delete(dst, dst !in refused);
        }
      }
      assert table.routes.Keys == Pruned(cluster, own, old(table.routes), desired, refused).Keys;
    }

    /** When the kernel's routes cannot be listed, the wanted ones are installed and no stale one is removed. */
    method Sync(table: RoutingTable, routes: seq<Route>, refused: set<Cidr>, listable: bool) returns (ok: bool)
      modifies table
      ensures ok == listable
      ensures table.routes == if listable then Synced(cluster, own, old(table.routes), Desired(routes), refused)
                              else Installed(old(table.routes), Desired(routes), refused)
    {
      var desired := Collect(routes);
      Install(table, desired, refused);
      if !listable {
        return false;
      }
      Prune(table, desired, refused);
      return true;
    }
  }

  // ----- What the control plane advertises -----

  predicate Advertised(subnets: map<string, Cidr>, nodes: Nodes, id: string, peer: string) {
    peer in subnets && peer != id && peer in nodes && nodes[peer].hostIp != Unset
  }

  ghost function RoutesFor(subnets: map<string, Cidr>, nodes: Nodes, id: string): set<Route> {
    set peer | peer in subnets && Advertised(subnets, nodes, id, peer)
             :: Route(Some(subnets[peer]), nodes[peer].hostIp)
  }

  ghost function Blocks(base: nat, table: Table): map<string, Cidr> {
    map id | id in table :: Config(base, table[id]).subnet
  }

  /** The routes to hand to node `id`, in any order. */
  ghost predicate Served(p: Plane, base: nat, id: string, routes: seq<Route>) {
    Elements(routes) == RoutesFor(Blocks(base, p.table), p.nodes, id)
  }

  /** One route per other registered node with an underlay address. */
  method CollectRoutes(subnets: map<string, Cidr>, nodes: Nodes, id: string) returns (out: seq<Route>)
    ensures Elements(out) == RoutesFor(subnets, nodes, id)
  {
    out := [];
    var rest := subnets.Keys;
    ghost var done: map<string, Cidr> := map[];
    while rest != {}
      invariant rest <= subnets.Keys && done == subnets - rest
      invariant Elements(out) == RoutesFor(done, nodes, id)
      decreases rest
    {
      var peer :| peer in rest;
      ghost var before := done;
      rest := rest - {peer};
      done := done[peer := subnets[peer]];
      assert done == subnets - rest;
      if peer != id && peer in nodes && nodes[peer].hostIp != Unset {
        var r := Route(Some(subnets[peer]), nodes[peer].hostIp);
        assert RoutesFor(done, nodes, id) == RoutesFor(before, nodes, id) + {r};
        assert Elements(out + [r]) == Elements(out) + {r};
        out := out + [r];
      } else {
        assert RoutesFor(done, nodes, id) == RoutesFor(before, nodes, id);
      }
    }
    assert done == subnets;
  }

  /** The routes served to node `id`; an empty ID is a bad request. */
  method NodeRoutes(server: ControlPlane, id: string, ghost agents: map<string, nat>)
    returns (routes: Option<seq<Route>>)
    requires server.Valid()
    ensures routes.None? <==> id == ""
    ensures routes.Some? ==> Served(server.View(agents), server.allocator.base, id, routes.value)
  {
    hide RoutesFor;
    if id == "" {
      return None;
    }
    var subnets := server.allocator.All();
    assert subnets == Blocks(server.allocator.base, server.allocator.table);
    var out := CollectRoutes(subnets, server.registry.nodes, id);
    return Some(out);
  }
}
