/** The service table the control plane hands out, joined with the chains agents build from it. */
module Traffic {
  import opened Ordering
  import opened Services
  import Odds
  import opened Proxy
  import opened ProxyLaws

  /** The table as served: every stored service once, in any order, with the addresses of its running replicas. */
  ghost predicate ReadOff(t: Table, svcs: seq<Endpoints>) {
    && (forall i, j | 0 <= i < j < |svcs| :: svcs[i].name != svcs[j].name)
    && (forall n :: n in t <==> exists e :: e in svcs && e.name == n)
    && forall e | e in svcs && e.name in t ::
      var s := t[e.name];
      && e.clusterIp == Some(s.clusterIp) && e.nodePort == s.nodePort && e.port == s.port
      && e.targetPort == s.targetPort && e.protocol == s.protocol
  }

  lemma ReadOffAt(t: Table, svcs: seq<Endpoints>, i: nat)
    requires ReadOff(t, svcs) && i < |svcs|
    ensures svcs[i].name in t && svcs[i].clusterIp == Some(t[svcs[i].name].clusterIp)
    ensures svcs[i].nodePort == t[svcs[i].name].nodePort
  {
    assert svcs[i] in svcs;
  }

  lemma InStepValid(t: Table, svcs: seq<Endpoints>)
    requires InStep(t) && ReadOff(t, svcs)
    ensures ValidTable(svcs)
  {
    forall i, j | 0 <= i < j < |svcs|
      ensures svcs[i].name != svcs[j].name && svcs[i].clusterIp != svcs[j].clusterIp
      ensures svcs[i].nodePort != svcs[j].nodePort
    {
      ReadOffAt(t, svcs, i);
      ReadOffAt(t, svcs, j);
    }
  }

  /** Addresses of nodes lie outside the service network. */
  predicate OffNetwork(pkt: Packet) {
    pkt.isLocal ==> !(SERVICE_BASE <= pkt.dst < SERVICE_BASE + 65536)
  }

  lemma InStepOutside(t: Table, svcs: seq<Endpoints>, pkt: Packet)
    requires InStep(t) && ReadOff(t, svcs) && OffNetwork(pkt)
    ensures Outside(svcs, pkt)
  {
    if pkt.isLocal {
      forall i | 0 <= i < |svcs| ensures svcs[i].clusterIp != Some(pkt.dst) {
        ReadOffAt(t, svcs, i);
      }
    }
  }

  /** Whatever services were added and removed: a packet for a stored service reaches that service's endpoints, with
      their distribution and always marked, and a packet for none passes on unmarked. */
  lemma {:induction false} ReachableSteers(ops: seq<Request>, svcs: seq<Endpoints>, nat0: Chains, d: nat, pkt: Packet,
                                           to: Dest)
    requires ReadOff(Run(map[], ops), svcs) && OffNetwork(pkt) && d > 1
    requires MARK in nat0 ==> forall r | r in nat0[MARK] :: r.target.SetMark?
    ensures var nat1 := SyncChains(nat0, svcs);
      && SERVICES in nat1
      && (forall e | e in svcs && Serves(e, pkt) ::
            && Hits(Any, nat1, d, nat1[SERVICES], pkt, to) == Steered(e, to)
            && Falls(Any, nat1, d, nat1[SERVICES], pkt) == (if e.ips == [] then 1.0 else 0.0)
            && Hits(Unmarked, nat1, d, nat1[SERVICES], pkt, to) == 0.0
            && Falls(Unmarked, nat1, d, nat1[SERVICES], pkt) == 0.0)
      && ((forall e | e in svcs :: !Serves(e, pkt)) ==>
            Hits(Any, nat1, d, nat1[SERVICES], pkt, to) == 0.0 && Falls(Unmarked, nat1, d, nat1[SERVICES], pkt) == 1.0)
  {
    hide SyncChains, Hits, Falls, Steered, Serves, Run, ReadOff, InStep, ValidTable, Outside, OffNetwork;
    assert InStep(map[]) by {
      EmptyInStep();
    }
    RunInStep(map[], ops);
    InStepValid(Run(map[], ops), svcs);
    InStepOutside(Run(map[], ops), svcs, pkt);
    SyncSteers(nat0, svcs, d, pkt, to);
    SyncMarks(nat0, svcs, d, pkt, to);
  }

  lemma EmptyInStep()
    ensures InStep(map[])
  {
  }

  /** And every stored service's NodePort is accepted by a firewall that had no port open. */
  lemma {:induction false} ReachableNodePorts(ops: seq<Request>, svcs: seq<Endpoints>, input: set<Rule>, i: nat)
    requires ReadOff(Run(map[], ops), svcs) && i < |svcs|
    ensures AcceptRule(svcs[i].nodePort, ProtocolOf(svcs[i])) in SyncInput(input, map[], WantPorts(svcs))
  {
    hide SyncInput, WantPorts, Run, ReadOff, ValidTable;
    EmptyInStep();
    RunInStep(map[], ops);
    InStepValid(Run(map[], ops), svcs);
    ReadOffAt(Run(map[], ops), svcs, i);
    NodePortAcceptedIff(input, map[], svcs, i);
  }

  /** The packet is addressed as the request says: to the stored ClusterIP at the requested port, or to the stored
      NodePort on this node, in the requested protocol. */
  predicate Addressed(pkt: Packet, asked: Service, stored: Service) {
    && pkt.proto == (if asked.protocol == "" then "tcp" else asked.protocol)
    && (|| (pkt.dst == stored.clusterIp && pkt.dport == asked.port)
        || (pkt.isLocal && pkt.dport == stored.nodePort))
  }

  lemma StoredServes(t: Table, asked: Service, svcs: seq<Endpoints>, pkt: Packet)
    requires InStep(t) && AddTo(t, asked).1.Stored? && ReadOff(AddTo(t, asked).0, svcs)
    requires Addressed(pkt, asked, AddTo(t, asked).1.svc)
    ensures exists i :: 0 <= i < |svcs| && svcs[i].name == asked.name && svcs[i].targetPort == asked.targetPort
                        && Serves(svcs[i], pkt)
  {
    hide AddTo;
    AddStores(t, asked);
    AddInStep(t, asked);
    var t', s := AddTo(t, asked).0, AddTo(t, asked).1.svc;
    assert s.port > 0 by {
      StoredWellFormed(t, asked);
    }
    var e :| e in svcs && e.name == asked.name;
    var i :| 0 <= i < |svcs| && svcs[i] == e;
    assert s.nodePort >= PORT_FIRST;
  }

  lemma StoredWellFormed(t: Table, asked: Service)
    requires AddTo(t, asked).1.Stored?
    ensures WellFormed(asked)
  {
    hide UsedIps, UsedPorts, Defaulted;
  }

  /** After any run of adds and removes that ends with adding `asked`: a packet addressed to it goes only to its
      requested target port, to the `i`-th of its `n` distinct endpoints with a chance within n times 0.000005 of 1/n,
      and never unmarked. */
  lemma {:induction false} AddedServiceSteers(ops: seq<Request>, asked: Service, svcs: seq<Endpoints>, nat0: Chains,
                                              d: nat, pkt: Packet, to: Dest)
    requires var t := Run(map[], ops);
      && AddTo(t, asked).1.Stored? && ReadOff(Run(map[], ops + [AddOp(asked)]), svcs)
      && Addressed(pkt, asked, AddTo(t, asked).1.svc)
    requires OffNetwork(pkt) && d > 1 && (MARK in nat0 ==> forall r | r in nat0[MARK] :: r.target.SetMark?)
    ensures var nat1 := SyncChains(nat0, svcs);
      && SERVICES in nat1
      && (to.port != asked.targetPort ==> Hits(Any, nat1, d, nat1[SERVICES], pkt, to) == 0.0)
      && Hits(Unmarked, nat1, d, nat1[SERVICES], pkt, to) == 0.0
      && exists e :: e in svcs && e.name == asked.name
           && forall i | 0 <= i < |e.ips| && Distinct(e.ips) && to == Dest(e.ips[i], asked.targetPort) ::
             var n := |e.ips|;
             Odds.Abs(Hits(Any, nat1, d, nat1[SERVICES], pkt, to) - 1.0 / n as real) <= n as real * 0.000005
  {
    hide SyncChains, Hits, Falls, Steered, Serves, Run, ReadOff, InStep, ValidTable, Outside, OffNetwork, AddTo, Apply,
         Addressed;
    var t := Run(map[], ops);
    RunLast(map[], ops, AddOp(asked));
    AddedIs(t, asked);
    EmptyInStep();
    RunInStep(map[], ops);
    RunInStep(map[], ops + [AddOp(asked)]);
    StoredServes(t, asked, svcs, pkt);
    var k :| 0 <= k < |svcs| && svcs[k].name == asked.name && svcs[k].targetPort == asked.targetPort
             && Serves(svcs[k], pkt);
    InStepValid(Run(map[], ops + [AddOp(asked)]), svcs);
    InStepOutside(Run(map[], ops + [AddOp(asked)]), svcs, pkt);
    SyncSteers(nat0, svcs, d, pkt, to);
    SyncMarks(nat0, svcs, d, pkt, to);
    var e := svcs[k];
    OtherPorts(e, to);
    forall i | 0 <= i < |e.ips| && Distinct(e.ips) && to == Dest(e.ips[i], asked.targetPort)
      ensures Odds.Abs(Steered(e, to) - 1.0 / |e.ips| as real) <= |e.ips| as real * 0.000005
    {
      EndpointsEven(e, i);
    }
    assert e in svcs;
  }

  lemma AddedIs(t: Table, asked: Service)
    ensures Apply(t, AddOp(asked)) == AddTo(t, asked).0
  {
  }

  lemma OtherPorts(e: Endpoints, to: Dest)
    ensures to.port != e.targetPort ==> Steered(e, to) == 0.0
  {
  }
}
