/** The service proxy as an agent runs it, proved against the chains it should build. */
module ProxySync {
  import opened Ordering
  import opened Proxy

  method TakeOne<T(==)>(s: set<T>) returns (x: T)
    requires s != {}
    ensures x in s
  {
    x :| x in s;
  }

  /** Opening what is wanted and then closing what is not leaves exactly the wanted ports. */
  lemma PortsMerge(open: Ports, both: Ports, want: Ports)
    requires both.Keys == open.Keys + want.Keys
    requires forall p | p in both :: both[p] == if p in open then open[p] else want[p]
    ensures both - (both.Keys - want.Keys) == SyncPorts(open, want)
  {
    var left, right := both - (both.Keys - want.Keys), SyncPorts(open, want);
    assert left.Keys == right.Keys;
    forall p | p in left ensures left[p] == right[p] {
      assert p in both;
    }
  }

  class ServiceProxy {
    var chains: Chains          // the nat table
    var input: set<Rule>        // the accept rules of filter/INPUT
    var nodePorts: Ports

    constructor (existing: Chains, accepts: set<Rule>)
      ensures chains == existing && input == accepts && nodePorts == map[]
    {
      chains, input, nodePorts := existing, accepts, map[];
    }

    method Append(c: string, r: Rule)
      requires c in chains
      modifies this`chains
      ensures chains == old(chains)[c := old(chains)[c] + [r]]
    {
      chains := chains[c := chains[c] + [r]];
    }

    method EnsureBaseChains()
      modifies this`chains
      ensures chains == EnsureBase(old(chains))
    {
      chains := EnsureChain(chains, MARK);
      chains := AppendUnique(chains, MARK, Always(SetMark));
      chains := EnsureChain(chains, SERVICES);
      chains := AppendUnique(chains, "PREROUTING", Always(Jump(SERVICES)));
      chains := AppendUnique(chains, "OUTPUT", Always(Jump(SERVICES)));
      chains := AppendUnique(chains, "POSTROUTING", Always(MasqueradeMarked));
    }

    /** Rebuild one service's chain: mark, then one rule per endpoint. */
    method PopulateServiceChain(svc: Endpoints)
      modifies this`chains
      ensures chains == old(chains)[ChainOf(svc.name) := ServiceRules(svc)]
    {
      hide ChainOf, EndpointRule;
      var c := ChainOf(svc.name);
      chains := chains[c := []];
      Append(c, Always(Jump(MARK)));
      var i := 0;
      while i < |svc.ips|
        invariant 0 <= i <= |svc.ips|
        invariant c in chains && chains[c] + EndpointRules(svc, i) == ServiceRules(svc)
        invariant chains == old(chains)[c := chains[c]]
      {
        assert EndpointRules(svc, i) == [EndpointRule(svc, i)] + EndpointRules(svc, i + 1);
        assert chains[c] + [EndpointRule(svc, i)] + EndpointRules(svc, i + 1) == ServiceRules(svc);
        Append(c, EndpointRule(svc, i));
        i := i + 1;
      }
      assert chains[c] + [] == chains[c];
    }

    method AppendClusterRule(s: Endpoints)
      requires SERVICES in chains
      modifies this`chains
      ensures chains == old(chains)[SERVICES := old(chains)[SERVICES] + ClusterRules(s)]
    {
      hide ChainOf;
      assert chains[SERVICES] + [] == chains[SERVICES];
      if s.clusterIp.Some? && s.port > 0 {
        Append(SERVICES, Rule(s.clusterIp, false, Some(ProtocolOf(s)), Some(s.port), None, Jump(ChainOf(s.name))));
      }
    }

    method AppendNodeRule(s: Endpoints)
      requires SERVICES in chains
      modifies this`chains
      ensures chains == old(chains)[SERVICES := old(chains)[SERVICES] + NodeRules(s)]
    {
      hide ChainOf;
      assert chains[SERVICES] + [] == chains[SERVICES];
      if s.nodePort > 0 {
        Append(SERVICES, Rule(None, true, Some(ProtocolOf(s)), Some(s.nodePort), None, Jump(ChainOf(s.name))));
      }
    }

    /** Rebuild the dispatch chain: a ClusterIP match and a NodePort match per service. */
    method PopulateServicesChain(svcs: seq<Endpoints>)
      modifies this`chains
      ensures chains == old(chains)[SERVICES := DispatchRules(svcs)]
    {
      hide ClusterRules, NodeRules;
      chains := chains[SERVICES := []];
      var i := 0;
      while i < |svcs|
        invariant 0 <= i <= |svcs|
        invariant chains == old(chains)[SERVICES := DispatchRules(svcs[..i])]
      {
        assert svcs[..i + 1][..i] == svcs[..i];
        AppendClusterRule(svcs[i]);
        AppendNodeRule(svcs[i]);
        i := i + 1;
      }
      assert svcs[..i] == svcs;
    }

    /** Delete the chains of services that are gone. */
    method CleanupStaleChains(wanted: set<string>)
      modifies this`chains
      ensures chains == DropStale(old(chains), wanted)
    {
      hide IsServiceChain;
      var rest := chains.Keys;
      while rest != {}
        invariant rest <= old(chains).Keys
        invariant forall c :: c in chains <==> c in old(chains) && (c in rest || !IsServiceChain(c) || c in wanted)
        invariant forall c | c in chains :: chains[c] == old(chains)[c]
        decreases rest
      {
        var c :| c in rest;
        rest := rest - {c};
        if IsServiceChain(c) && c !in wanted {
          chains := chains - {c};
        }
      }
    }

    method CollectPorts(svcs: seq<Endpoints>) returns (want: Ports)
      ensures want == WantPorts(svcs)
    {
      want := map[];
      var i := 0;
      while i < |svcs|
        invariant 0 <= i <= |svcs| && want == WantPorts(svcs[..i])
      {
        assert svcs[..i + 1][..i] == svcs[..i];
        if svcs[i].nodePort > 0 {
          want := want[svcs[i].nodePort := ProtocolOf(svcs[i])];
        }
        i := i + 1;
      }
      assert svcs[..i] == svcs;
    }

    method OpenPorts(want: Ports)
      modifies this`input, this`nodePorts
      ensures nodePorts.Keys == old(nodePorts).Keys + want.Keys
      ensures forall p | p in nodePorts :: nodePorts[p] == if p in old(nodePorts) then old(nodePorts)[p] else want[p]
      ensures input == old(input) + set port | port in want.Keys - old(nodePorts).Keys :: AcceptRule(port, want[port])
    {
      ghost var done: set<int> := {};
      var rest := want.Keys;
      while rest != {}
        invariant rest <= want.Keys && done == want.Keys - rest
        invariant nodePorts.Keys == old(nodePorts).Keys + done
        invariant forall p | p in nodePorts ::
                    nodePorts[p] == if p in old(nodePorts) then old(nodePorts)[p] else want[p]
        invariant input == old(input) + set p | p in done - old(nodePorts).Keys :: AcceptRule(p, want[p])
        decreases rest
      {
        var port := TakeOne(rest);
        rest := rest - {port};
        done := done + {port};
        if port !in nodePorts {
          input := input + {AcceptRule(port, want[port])};
          nodePorts := nodePorts[port := want[port]];
        }
      }
      assert done == want.Keys;
    }

    method ClosePorts(want: Ports)
      modifies this`input, this`nodePorts
      ensures nodePorts == old(nodePorts) - (old(nodePorts).Keys - want.Keys)
      ensures input == old(input) - set port | port in old(nodePorts).Keys - want.Keys
                                               :: AcceptRule(port, old(nodePorts)[port])
    {
      ghost var open := nodePorts;
      ghost var gone: set<int> := {};
      var rest := nodePorts.Keys;
      while rest != {}
        invariant rest <= open.Keys && gone == (open.Keys - rest) - want.Keys
        invariant nodePorts == open - gone
        invariant input == old(input) - set p | p in gone :: AcceptRule(p, open[p])
        decreases rest
      {
        var port := TakeOne(rest);
        rest := rest - {port};
        if port !in want {
          gone := gone + {port};
          input := input - {AcceptRule(port, nodePorts[port])};
          nodePorts := nodePorts - {port};
        }
      }
    }

    method SyncNodePorts(svcs: seq<Endpoints>)
      modifies this`input, this`nodePorts
      ensures nodePorts == SyncPorts(old(nodePorts), WantPorts(svcs))
      ensures input == SyncInput(old(input), old(nodePorts), WantPorts(svcs))
    {
      var want := CollectPorts(svcs);
      ghost var open := nodePorts;
      OpenPorts(want);
      ghost var both := nodePorts;
      assert both.Keys - want.Keys == open.Keys - want.Keys;
      assert (set p | p in both.Keys - want.Keys :: AcceptRule(p, both[p]))
          == (set p | p in open.Keys - want.Keys :: AcceptRule(p, open[p]));
      ClosePorts(want);
      PortsMerge(open, both, want);
    }

    method Sync(svcs: seq<Endpoints>)
      modifies this
      ensures chains == SyncChains(old(chains), svcs)
      ensures nodePorts == SyncPorts(old(nodePorts), WantPorts(svcs))
      ensures input == SyncInput(old(input), old(nodePorts), WantPorts(svcs))
    {
      hide ServiceRules, DispatchRules, EnsureBase, ChainOf;
      EnsureBaseChains();
      ghost var base := chains;
      var wanted: set<string> := {};
      var i := 0;
      while i < |svcs|
        invariant 0 <= i <= |svcs|
        invariant chains == Populate(base, svcs[..i]) && wanted == Wanted(svcs[..i])
        invariant nodePorts == old(nodePorts) && input == old(input)
      {
        assert svcs[..i + 1][..i] == svcs[..i] && svcs[..i + 1] == svcs[..i] + [svcs[i]];
        wanted := wanted + {ChainOf(svcs[i].name)};
        PopulateServiceChain(svcs[i]);
        i := i + 1;
      }
      assert svcs[..i] == svcs;
      PopulateServicesChain(svcs);
      CleanupStaleChains(wanted);
      SyncNodePorts(svcs);
    }
  }
}
