/** After a sync, traffic for a peer's containers leaves for that peer and no other route is disturbed. */
module RouteLaws {
  import opened Ordering
  import opened Addresses
  import opened Subnets
  import opened Routes

  /** A second sync makes up for the refusals of the first: together they fail only where both were refused. */
  lemma SyncRetries(cluster: Cidr, own: Cidr, k: Kernel, desired: map<Cidr, nat>, r1: set<Cidr>, r2: set<Cidr>)
    ensures Synced(cluster, own, Synced(cluster, own, k, desired, r1), desired, r2)
         == Synced(cluster, own, k, desired, r1 * r2)
  {
    hide Contains;
    var twice := Synced(cluster, own, Synced(cluster, own, k, desired, r1), desired, r2);
    var once := Synced(cluster, own, k, desired, r1 * r2);
    forall d
      ensures d in twice <==> d in once
      ensures d in twice && d in once ==> twice[d] == once[d]
    {
      SyncedAt(cluster, own, k, desired, r1, d);
      SyncedAt(cluster, own, Synced(cluster, own, k, desired, r1), desired, r2, d);
      SyncedAt(cluster, own, k, desired, r1 * r2, d);
    }
  }

  /** The entry of one destination after a sync. */
  ghost function Lookup(k: Kernel, d: Cidr): Option<Option<nat>> {
    if d in k then Some(k[d]) else None
  }

  lemma SyncedAt(cluster: Cidr, own: Cidr, k: Kernel, desired: map<Cidr, nat>, refused: set<Cidr>, d: Cidr)
    ensures Lookup(Synced(cluster, own, k, desired, refused), d) ==
            if d in refused then Lookup(k, d)
            else if d in desired then Some(Some(desired[d]))
            else if d in k && k[d].Some? && Contains(cluster, d.base) && d.bits == 24 && d != own then None
            else Lookup(k, d)
  {
    hide Contains;
  }

  // ----- Wanted routes are the peers' blocks -----

  ghost predicate Wants(routes: seq<Route>, d: Cidr, gw: nat) {
    exists r :: r in routes && Usable(r) && Network(r.subnet.value) == d && r.via.addr == gw
  }

  lemma {:induction false} DesiredFrom(routes: seq<Route>)
    ensures forall d | d in Desired(routes) :: Wants(routes, d, Desired(routes)[d])
    ensures forall r | r in routes && Usable(r) :: Network(r.subnet.value) in Desired(routes)
  {
    hide Network;
    if routes != [] {
      var n := |routes| - 1;
      var r, rest := routes[n], routes[..n];
      DesiredFrom(rest);
      assert routes == rest + [r];
      forall d | d in Desired(routes) ensures Wants(routes, d, Desired(routes)[d]) {
        if Usable(r) && Network(r.subnet.value) == d {
          assert r in routes;
        } else {
          assert Wants(rest, d, Desired(rest)[d]);
        }
      }
    }
  }

  /** A registered peer whose underlay address parses. */
  ghost predicate Peer(p: Plane, id: string, peer: string) {
    peer in p.table && peer != id && peer in p.nodes && p.nodes[peer].hostIp.Ip?
  }

  lemma BlockFacts(base: nat, idx: nat)
    requires base % 65536 == 0 && idx < BLOCKS
    ensures var c := Config(base, idx).subnet;
      Network(c) == c && c.bits == 24 && c.base == base + 256 * idx && Contains(Cidr(base, 16), c.base)
  {
    Spans();
    var c := Config(base, idx).subnet;
    assert Span(c) == 256 && Span(Cidr(base, 16)) == 65536;
  }

  /** The wanted routes: one per peer, to its block, through its underlay address. */
  lemma {:induction false} DesiredPeers(p: Plane, base: nat, id: string, routes: seq<Route>, peer: string)
    requires base % 65536 == 0 && PlaneInv(p) && Served(p, base, id, routes) && Peer(p, id, peer)
    ensures var d := Config(base, p.table[peer]).subnet;
      d in Desired(routes) && Desired(routes)[d] == p.nodes[peer].hostIp.addr
  {
    hide Network, Config, Desired;
    var d := Config(base, p.table[peer]).subnet;
    BlockFacts(base, p.table[peer]);
    DesiredFrom(routes);
    assert Advertised(Blocks(base, p.table), p.nodes, id, peer);
    assert Route(Some(d), p.nodes[peer].hostIp) in RoutesFor(Blocks(base, p.table), p.nodes, id);
    DesiredOnly(p, base, id, routes, d);
  }

  /** Every wanted route is some peer's. */
  lemma {:induction false} DesiredOnly(p: Plane, base: nat, id: string, routes: seq<Route>, d: Cidr)
    requires base % 65536 == 0 && PlaneInv(p) && Served(p, base, id, routes) && d in Desired(routes)
    ensures exists peer :: Peer(p, id, peer) && d == Config(base, p.table[peer]).subnet
                           && Desired(routes)[d] == p.nodes[peer].hostIp.addr
    ensures forall peer | Peer(p, id, peer) && d == Config(base, p.table[peer]).subnet ::
              Desired(routes)[d] == p.nodes[peer].hostIp.addr
  {
    hide Network, Config, Desired;
    DesiredFrom(routes);
    assert Wants(routes, d, Desired(routes)[d]);
    var r :| r in routes && Usable(r) && Network(r.subnet.value) == d && r.via.addr == Desired(routes)[d];
    var blocks := Blocks(base, p.table);
    assert r in RoutesFor(blocks, p.nodes, id);
    var q :| q in blocks && Advertised(blocks, p.nodes, id, q) && r == Route(Some(blocks[q]), p.nodes[q].hostIp);
    BlockFacts(base, p.table[q]);
    assert Peer(p, id, q);
    forall peer | Peer(p, id, peer) && d == Config(base, p.table[peer]).subnet ensures peer == q {
      BlockFacts(base, p.table[peer]);
    }
  }

  lemma {:induction false} OnlyBlocks(p: Plane, base: nat, id: string, routes: seq<Route>, d: Cidr)
    requires base % 65536 == 0 && PlaneInv(p) && Served(p, base, id, routes)
    ensures d in Desired(routes) ==> d.bits == 24 && Network(d) == d
  {
    hide Network, Config, Desired;
    if d in Desired(routes) {
      DesiredOnly(p, base, id, routes, d);
      var q :| Peer(p, id, q) && d == Config(base, p.table[q]).subnet;
      BlockFacts(base, p.table[q]);
    }
  }

  // ----- Longest-prefix match -----

  ghost predicate Normal(k: Kernel) {
    forall d | d in k :: Network(d) == d
  }

  /** The kernel routes address `a` by entry `d`: no other entry that contains `a` is as specific. */
  ghost predicate Resolves(k: Kernel, a: nat, d: Cidr) {
    d in k && Contains(d, a) && forall e | e in k && e != d && Contains(e, a) :: e.bits < d.bits
  }

  lemma SameBlock(d: Cidr, e: Cidr, a: nat)
    ensures d.bits == e.bits == 24 && Network(d) == d && Network(e) == e && Contains(d, a) && Contains(e, a) ==> d == e
  {
    Spans();
    assert d.bits == e.bits == 24 ==> Span(d) == 256 && Span(e) == 256;
  }

  /** The table of the node with block `idx` after a sync. */
  ghost function After(base: nat, idx: nat, k: Kernel, routes: seq<Route>): Kernel {
    Synced(Cidr(base, 16), Config(base, idx).subnet, k, Desired(routes), {})
  }

  /** The block of a peer of node `id`. */
  ghost predicate PeerBlock(p: Plane, base: nat, id: string, d: Cidr) {
    exists peer :: Peer(p, id, peer) && d == Config(base, p.table[peer]).subnet
  }

  lemma InPool(base: nat, a: nat)
    requires base % 65536 == 0
    ensures Contains(Cidr(base, 16), a) <==> base <= a < base + 65536
  {
    Spans();
    assert Span(Cidr(base, 16)) == 65536;
  }

  lemma {:induction false} DesiredIffPeer(p: Plane, base: nat, id: string, routes: seq<Route>, d: Cidr)
    requires base % 65536 == 0 && PlaneInv(p) && Served(p, base, id, routes)
    ensures d in Desired(routes) <==> PeerBlock(p, base, id, d)
  {
    hide Network, Config, Contains, Desired;
    if d in Desired(routes) {
      DesiredOnly(p, base, id, routes, d);
    }
    if peer :| Peer(p, id, peer) && d == Config(base, p.table[peer]).subnet {
      DesiredPeers(p, base, id, routes, peer);
    }
  }

  /** A sync leaves alone every destination that is no peer's block and is outside the /16, is not a /24, is on-link
      in the kernel, or is the node's own block. */
  lemma SyncFrame(p: Plane, base: nat, id: string, k: Kernel, routes: seq<Route>, d: Cidr)
    requires base % 65536 == 0 && PlaneInv(p) && id in p.table && Served(p, base, id, routes)
    requires !PeerBlock(p, base, id, d)
    requires !(base <= d.base < base + 65536) || d.bits != 24 || (d in k && k[d].None?)
             || d == Cidr(base + 256 * p.table[id], 24)
    ensures Lookup(After(base, p.table[id], k, routes), d) == Lookup(k, d)
  {
    hide Network, Contains, Desired, Synced;
    DesiredIffPeer(p, base, id, routes, d);
    InPool(base, d.base);
    SyncedAt(Cidr(base, 16), Config(base, p.table[id]).subnet, k, Desired(routes), {}, d);
  }

  /** The node's own block is no peer's. */
  lemma OwnNoPeer(p: Plane, base: nat, id: string)
    requires base % 65536 == 0 && PlaneInv(p) && id in p.table
    ensures !PeerBlock(p, base, id, Config(base, p.table[id]).subnet)
  {
    hide Config;
    forall peer | Peer(p, id, peer) ensures Config(base, p.table[peer]).subnet != Config(base, p.table[id]).subnet {
      BlocksDiffer(base, p.table[peer], p.table[id]);
    }
  }

  lemma BlocksDiffer(base: nat, i: nat, j: nat)
    ensures Config(base, i).subnet == Config(base, j).subnet ==> i == j
  {
  }

  /** And it removes every other /24 of the /16 that goes through a gateway. */
  lemma SyncPrunes(p: Plane, base: nat, id: string, k: Kernel, routes: seq<Route>, d: Cidr)
    requires base % 65536 == 0 && PlaneInv(p) && id in p.table && Served(p, base, id, routes)
    requires !PeerBlock(p, base, id, d) && d != Cidr(base + 256 * p.table[id], 24)
    requires base <= d.base < base + 65536 && d.bits == 24 && d in k && k[d].Some?
    ensures d !in After(base, p.table[id], k, routes)
  {
    hide Network, Contains, Desired, Synced;
    DesiredIffPeer(p, base, id, routes, d);
    InPool(base, d.base);
    SyncedAt(Cidr(base, 16), Config(base, p.table[id]).subnet, k, Desired(routes), {}, d);
  }

  /** After a sync the gatewayed /24s of the /16, the node's own apart, are one per other registered peer, through that
      peer's host. */
  lemma PoolRoutesArePeers(p: Plane, base: nat, id: string, k: Kernel, routes: seq<Route>, d: Cidr)
    requires base % 65536 == 0 && PlaneInv(p) && id in p.table && Served(p, base, id, routes)
    ensures var k' := After(base, p.table[id], k, routes);
      (&& d in k' && k'[d].Some? && base <= d.base < base + 65536 && d.bits == 24
       && d != Cidr(base + 256 * p.table[id], 24)) <==>
      (exists peer :: Peer(p, id, peer) && d == Cidr(base + 256 * p.table[peer], 24))
    ensures forall peer | Peer(p, id, peer) && d == Cidr(base + 256 * p.table[peer], 24) ::
      Lookup(After(base, p.table[id], k, routes), d) == Some(Some(p.nodes[peer].hostIp.addr))
  {
    hide Network, Contains, Desired, Synced;
    var own := Config(base, p.table[id]).subnet;
    DesiredIffPeer(p, base, id, routes, d);
    InPool(base, d.base);
    OwnNoPeer(p, base, id);
    SyncedAt(Cidr(base, 16), own, k, Desired(routes), {}, d);
    if d in Desired(routes) {
      var peer :| Peer(p, id, peer) && d == Config(base, p.table[peer]).subnet;
      BlockFacts(base, p.table[peer]);
    }
    forall peer | Peer(p, id, peer) && d == Cidr(base + 256 * p.table[peer], 24)
      ensures Desired(routes).Keys >= {d} && Desired(routes)[d] == p.nodes[peer].hostIp.addr
    {
      assert d == Config(base, p.table[peer]).subnet;
      DesiredPeers(p, base, id, routes, peer);
    }
  }

  /** An address in a peer's block is routed to that peer's host exactly when the node had no more specific route
      for it. */
  lemma SyncRoutesTo(p: Plane, base: nat, id: string, k: Kernel, routes: seq<Route>, peer: string, a: nat)
    requires base % 65536 == 0 && PlaneInv(p) && id in p.table && Served(p, base, id, routes) && Normal(k)
    requires Peer(p, id, peer) && Contains(Config(base, p.table[peer]).subnet, a)
    ensures var k' := After(base, p.table[id], k, routes);
      var d := Config(base, p.table[peer]).subnet;
      && d in k' && k'[d] == Some(p.nodes[peer].hostIp.addr)
      && (Resolves(k', a, d) <==> forall e | e in k && Contains(e, a) :: e.bits <= 24)
  {
    hide Network, Config, Contains, Desired, Synced;
    var own := Config(base, p.table[id]).subnet;
    var k', d := After(base, p.table[id], k, routes), Config(base, p.table[peer]).subnet;
    BlockFacts(base, p.table[peer]);
    DesiredPeers(p, base, id, routes, peer);
    SyncedAt(Cidr(base, 16), own, k, Desired(routes), {}, d);
    forall e ensures e in k' && e != d && Contains(e, a) ==> e.bits != 24
             ensures e.bits > 24 ==> (e in k' <==> e in k)
             ensures e in k' ==> e in k || e.bits == 24
    {
      SyncedAt(Cidr(base, 16), own, k, Desired(routes), {}, e);
      OnlyBlocks(p, base, id, routes, e);
      if e in k' && e.bits == 24 && Contains(e, a) {
        SameBlock(d, e, a);
      }
    }
  }

  /** After any run of the cluster, a packet from agent `x` to a container of agent `y` leaves `x` for `y`'s host,
      and at `y` the route that carries it to its own containers is the one the bridge set up. */
  lemma {:induction false} RunDelivers(es: seq<Event>, base: nat, x: string, y: string, kx: Kernel, ky: Kernel,
                                       rx: seq<Route>, ry: seq<Route>, a: nat)
    requires base % 65536 == 0 && AllowedRun(Plane(map[], map[], map[]), es) && Normal(kx)
    requires var p := Run(Plane(map[], map[], map[]), es);
      && x in p.agents && y in p.agents && x != y && y in p.nodes && p.nodes[y].hostIp.Ip?
      && Served(p, base, x, rx) && Served(p, base, y, ry)
      && Contains(Config(base, p.agents[y]).subnet, a)
    requires forall e | e in kx && Contains(e, a) :: e.bits <= 24
    ensures var p := Run(Plane(map[], map[], map[]), es);
      var d := Config(base, p.agents[y]).subnet;
      && Resolves(After(base, p.agents[x], kx, rx), a, d)
      && After(base, p.agents[x], kx, rx)[d] == Some(p.nodes[y].hostIp.addr)
      && Lookup(After(base, p.agents[y], ky, ry), d) == Lookup(ky, d)
  {
    hide Network, Config, Contains, Desired, Synced, After;
    RunKeepsInv(Plane(map[], map[], map[]), es);
    var p := Run(Plane(map[], map[], map[]), es);
    SyncRoutesTo(p, base, x, kx, rx, y, a);
    OwnNoPeer(p, base, y);
    OwnBlock(base, p.agents[y]);
    SyncFrame(p, base, y, ky, ry, Config(base, p.agents[y]).subnet);
  }

  lemma OwnBlock(base: nat, idx: nat)
    ensures Config(base, idx).subnet == Cidr(base + 256 * idx, 24)
  {
  }

  /** An operator's route outside the pool survives a sync that has nothing to install. */
  lemma OperatorRouteKept()
    ensures var base, own := 10 * 16777216 + 22 * 65536, Cidr(10 * 16777216 + 22 * 65536, 24);
      var theirs := Cidr(192 * 16777216 + 168 * 65536 + 5 * 256, 24);
      var k: Kernel := map[theirs := Some(192 * 16777216 + 168 * 65536 + 256 + 1)];
      Synced(Cidr(base, 16), own, k, Desired([]), {}) == k
  {
    var base, theirs := 10 * 16777216 + 22 * 65536, Cidr(192 * 16777216 + 168 * 65536 + 5 * 256, 24);
    assert base == 2582 * 65536;
    InPool(base, theirs.base);
  }
}
