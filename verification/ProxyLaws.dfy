/** The rule chains mean what the service table says. */
module ProxyLaws {
  import opened Ordering
  import opened Proxy

  // ----- Chain evaluation -----

  lemma {:induction false} Unfold(how: Passage, nat0: Chains, d: nat, rules: seq<Rule>, pkt: Packet, to: Dest)
    ensures rules == [] ==> Hits(how, nat0, d, rules, pkt, to) == 0.0 && Falls(how, nat0, d, rules, pkt) == 1.0
    ensures rules != [] ==>
      && Hits(how, nat0, d, rules, pkt, to) == RuleHits(how, nat0, d, rules[0], pkt, to)
           + RuleFalls(how, nat0, d, rules[0], pkt) * Hits(how, nat0, d, rules[1..], pkt, to)
      && Falls(how, nat0, d, rules, pkt)
         == RuleFalls(how, nat0, d, rules[0], pkt) * Falls(how, nat0, d, rules[1..], pkt)
  {
    hide RuleHits, RuleFalls;
  }

  lemma {:induction false} Concat(how: Passage, nat0: Chains, d: nat, a: seq<Rule>, b: seq<Rule>, pkt: Packet, to: Dest)
    ensures Hits(how, nat0, d, a + b, pkt, to)
         == Hits(how, nat0, d, a, pkt, to) + Falls(how, nat0, d, a, pkt) * Hits(how, nat0, d, b, pkt, to)
    ensures Falls(how, nat0, d, a + b, pkt) == Falls(how, nat0, d, a, pkt) * Falls(how, nat0, d, b, pkt)
    decreases |a|
  {
    hide Hits, Falls, RuleHits, RuleFalls;
    Unfold(how, nat0, d, a, pkt, to);
    if a == [] {
      assert a + b == b;
    } else {
      var rest := a[1..];
      assert (a + b)[1..] == rest + b && (a + b)[0] == a[0];
      Concat(how, nat0, d, rest, b, pkt, to);
      Unfold(how, nat0, d, a + b, pkt, to);
      Distribute(RuleFalls(how, nat0, d, a[0], pkt), Hits(how, nat0, d, rest, pkt, to), Falls(how, nat0, d, rest, pkt),
                 Hits(how, nat0, d, b, pkt, to), Falls(how, nat0, d, b, pkt),
                 Hits(how, nat0, d, rest + b, pkt, to), Falls(how, nat0, d, rest + b, pkt),
                 Falls(how, nat0, d, a, pkt));
    }
  }

  lemma Distribute(f0: real, h: real, f: real, x: real, y: real, hr: real, fr: real, fa: real)
    requires hr == h + f * x && fr == f * y && fa == f0 * f
    ensures f0 * hr == f0 * h + fa * x && f0 * fr == fa * y
  {
  }

  /** Rules none of which matches let the packet through. */
  lemma {:induction false} NoMatch(how: Passage, nat0: Chains, d: nat, rules: seq<Rule>, pkt: Packet, to: Dest)
    requires forall r | r in rules :: !Matches(r, pkt)
    ensures Hits(how, nat0, d, rules, pkt, to) == 0.0 && Falls(how, nat0, d, rules, pkt) == 1.0
    decreases |rules|
  {
    if rules != [] {
      assert rules[0] in rules;
      NoMatch(how, nat0, d, rules[1..], pkt, to);
    }
  }

  /** Marking never diverts a packet, and where it is unconditional no packet stays unmarked. */
  lemma {:induction false} OnlyMarks(how: Passage, nat0: Chains, d: nat, rules: seq<Rule>, pkt: Packet, to: Dest)
    requires forall r | r in rules :: r.target.SetMark?
    ensures Hits(how, nat0, d, rules, pkt, to) == 0.0
    ensures how.Any? ==> Falls(how, nat0, d, rules, pkt) == 1.0
    ensures how.Unmarked? && Always(SetMark) in rules ==> Falls(how, nat0, d, rules, pkt) == 0.0
    decreases |rules|
  {
    if rules != [] {
      assert rules[0] in rules;
      OnlyMarks(how, nat0, d, rules[1..], pkt, to);
      if how.Unmarked? && rules[0] == Always(SetMark) {
        assert RuleFalls(how, nat0, d, rules[0], pkt) == 0.0;
      }
    }
  }

  /** From endpoint rule `k` on, a packet of the service's protocol is spread as the rules' odds say, and with any
      endpoint left never falls through. */
  lemma {:induction false} EndpointRulesSteer(how: Passage, nat0: Chains, d: nat, svc: Endpoints, k: nat, pkt: Packet,
                                              to: Dest)
    requires k <= |svc.ips| && pkt.proto == ProtocolOf(svc)
    ensures Hits(how, nat0, d, EndpointRules(svc, k), pkt, to)
         == if to.port == svc.targetPort then ShareFrom(RuleOdds(|svc.ips|), svc.ips, k, to.ip) else 0.0
    ensures Falls(how, nat0, d, EndpointRules(svc, k), pkt) == if k < |svc.ips| then 0.0 else 1.0
    decreases |svc.ips| - k
  {
    hide Hits, Falls, RuleHits, RuleFalls, EndpointRule, RuleOdds;
    var n, rules := |svc.ips|, EndpointRules(svc, k);
    Unfold(how, nat0, d, rules, pkt, to);
    if k < n {
      assert rules[0] == EndpointRule(svc, k) && rules[1..] == EndpointRules(svc, k + 1);
      EndpointRulesSteer(how, nat0, d, svc, k + 1, pkt, to);
      OneEndpoint(how, nat0, d, svc, k, pkt, to);
    }
  }

  lemma {:induction false} OneEndpoint(how: Passage, nat0: Chains, d: nat, svc: Endpoints, k: nat, pkt: Packet,
                                       to: Dest)
    requires k < |svc.ips| && pkt.proto == ProtocolOf(svc)
    ensures var p := RuleOdds(|svc.ips|)[k];
      && RuleHits(how, nat0, d, EndpointRule(svc, k), pkt, to)
         == (if to == Dest(svc.ips[k], svc.targetPort) then p else 0.0)
      && RuleFalls(how, nat0, d, EndpointRule(svc, k), pkt) == 1.0 - p
      && (k == |svc.ips| - 1 ==> p == 1.0)
  {
    hide EndpointRule, RuleOdds, Fires;
    OddsOf(svc, k, pkt);
  }

  lemma OddsOf(svc: Endpoints, k: nat, pkt: Packet)
    requires k < |svc.ips| && pkt.proto == ProtocolOf(svc)
    ensures Fires(EndpointRule(svc, k), pkt) == RuleOdds(|svc.ips|)[k]
    ensures k == |svc.ips| - 1 ==> RuleOdds(|svc.ips|)[k] == 1.0
    ensures EndpointRule(svc, k).target == Dnat(Dest(svc.ips[k], svc.targetPort))
  {
    hide Odds.Rounded;
  }

  /** The chance that a packet for the service is sent to `to`: its distribution, and nothing of it unmarked. */
  function Sent(how: Passage, svc: Endpoints, to: Dest): real {
    if how.Any? then Steered(svc, to) else 0.0
  }

  /** The chance that it passes on: certain when there is no endpoint, though not unmarked. */
  function Passed(how: Passage, svc: Endpoints): real {
    if how.Any? && svc.ips == [] then 1.0 else 0.0
  }

  /** The mark chain marks every packet and does nothing else. */
  ghost predicate Marks(nat0: Chains) {
    MARK in nat0 && Always(SetMark) in nat0[MARK] && forall r | r in nat0[MARK] :: r.target.SetMark?
  }

  /** A service's chain marks its packets and spreads them over its endpoints; with none it lets them through. */
  lemma {:induction false} ServiceRulesSteer(how: Passage, nat0: Chains, d: nat, svc: Endpoints, pkt: Packet, to: Dest)
    requires d > 0 && pkt.proto == ProtocolOf(svc) && Marks(nat0)
    ensures Hits(how, nat0, d, ServiceRules(svc), pkt, to) == Sent(how, svc, to)
    ensures Falls(how, nat0, d, ServiceRules(svc), pkt) == Passed(how, svc)
  {
    hide EndpointRules, RuleOdds, ShareFrom;
    var rules, rest := ServiceRules(svc), EndpointRules(svc, 0);
    assert rules[0] == Always(Jump(MARK)) && rules[1..] == rest;
    OnlyMarks(how, nat0, d - 1, nat0[MARK], pkt, to);
    EndpointRulesSteer(how, nat0, d, svc, 0, pkt, to);
    assert Fires(rules[0], pkt) == 1.0;
  }

  // ----- The dispatch chain -----

  /** A table as the control plane hands it out: names, ClusterIPs and NodePorts are each held by one service. */
  ghost predicate ValidTable(svcs: seq<Endpoints>) {
    forall i, j | 0 <= i < j < |svcs| ::
      && svcs[i].name != svcs[j].name
      && (svcs[i].clusterIp.Some? ==> svcs[i].clusterIp != svcs[j].clusterIp)
      && (svcs[i].nodePort > 0 ==> svcs[i].nodePort != svcs[j].nodePort)
  }

  /** No local address is a ClusterIP. */
  ghost predicate Outside(svcs: seq<Endpoints>, pkt: Packet) {
    pkt.isLocal ==> forall i | 0 <= i < |svcs| :: svcs[i].clusterIp != Some(pkt.dst)
  }

  /** Each service's own chain is in place, and the mark chain marks. */
  ghost predicate Populated(nat0: Chains, svcs: seq<Endpoints>) {
    && Marks(nat0)
    && (forall i | 0 <= i < |svcs| ::
          ChainOf(svcs[i].name) in nat0 && nat0[ChainOf(svcs[i].name)] == ServiceRules(svcs[i]))
  }

  function RulesOf(svc: Endpoints): seq<Rule> {
    ClusterRules(svc) + NodeRules(svc)
  }

  lemma {:induction false} NotServed(how: Passage, nat0: Chains, d: nat, svc: Endpoints, pkt: Packet, to: Dest)
    requires !Serves(svc, pkt)
    ensures Hits(how, nat0, d, RulesOf(svc), pkt, to) == 0.0 && Falls(how, nat0, d, RulesOf(svc), pkt) == 1.0
  {
    NoMatch(how, nat0, d, RulesOf(svc), pkt, to);
  }

  lemma {:induction false} Served(how: Passage, nat0: Chains, d: nat, svc: Endpoints, pkt: Packet, to: Dest)
    requires d > 1 && Serves(svc, pkt) && (pkt.isLocal ==> svc.clusterIp != Some(pkt.dst))
    requires Marks(nat0) && ChainOf(svc.name) in nat0 && nat0[ChainOf(svc.name)] == ServiceRules(svc)
    ensures Hits(how, nat0, d, RulesOf(svc), pkt, to) == Sent(how, svc, to)
    ensures Falls(how, nat0, d, RulesOf(svc), pkt) == Passed(how, svc)
  {
    hide ServiceRules, Sent, Passed, EndpointRules, Marks;
    ServiceRulesSteer(how, nat0, d - 1, svc, pkt, to);
    var a, b := ClusterRules(svc), NodeRules(svc);
    Concat(how, nat0, d, a, b, pkt, to);
    if a != [] && Matches(a[0], pkt) {
      assert forall r | r in b :: !Matches(r, pkt);
      NoMatch(how, nat0, d, b, pkt, to);
      OneJump(how, nat0, d, a, pkt, to);
    } else {
      assert forall r | r in a :: !Matches(r, pkt);
      NoMatch(how, nat0, d, a, pkt, to);
      OneJump(how, nat0, d, b, pkt, to);
    }
  }

  lemma OneJump(how: Passage, nat0: Chains, d: nat, rules: seq<Rule>, pkt: Packet, to: Dest)
    requires d > 0 && |rules| == 1 && rules[0].target.Jump? && rules[0].target.chain in nat0
    requires Fires(rules[0], pkt) == 1.0
    ensures var c := nat0[rules[0].target.chain];
      && Hits(how, nat0, d, rules, pkt, to) == Hits(how, nat0, d - 1, c, pkt, to)
      && Falls(how, nat0, d, rules, pkt) == Falls(how, nat0, d - 1, c, pkt)
  {
    assert rules[1..] == [];
  }

  /** First-match evaluation of the dispatch chain agrees with direct look-up in the table. */
  lemma {:induction false} DispatchSteers(how: Passage, nat0: Chains, d: nat, svcs: seq<Endpoints>, pkt: Packet,
                                          to: Dest)
    requires d > 1 && ValidTable(svcs) && Outside(svcs, pkt) && Populated(nat0, svcs)
    ensures forall i | 0 <= i < |svcs| && Serves(svcs[i], pkt) ::
      && Hits(how, nat0, d, DispatchRules(svcs), pkt, to) == Sent(how, svcs[i], to)
      && Falls(how, nat0, d, DispatchRules(svcs), pkt) == Passed(how, svcs[i])
    ensures (forall i | 0 <= i < |svcs| :: !Serves(svcs[i], pkt)) ==>
      Hits(how, nat0, d, DispatchRules(svcs), pkt, to) == 0.0 && Falls(how, nat0, d, DispatchRules(svcs), pkt) == 1.0
    decreases |svcs|
  {
    hide Sent, Passed, ServiceRules, Serves, RulesOf, Hits, Falls, DispatchRules, ValidTable, Outside, Populated;
    DispatchNone(how, nat0, d, pkt, to);
    if svcs != [] {
      var init, s := svcs[..|svcs| - 1], svcs[|svcs| - 1];
      TableInit(nat0, svcs, pkt);
      DispatchSteers(how, nat0, d, init, pkt, to);
      DispatchSplit(svcs);
      Beside(how, nat0, d, DispatchRules(init), RulesOf(s), pkt, to);
      if Serves(s, pkt) {
        forall i | 0 <= i < |init| ensures !Serves(init[i], pkt) {
          ServedOnce(svcs, i, |svcs| - 1, pkt);
        }
        ServedIn(how, nat0, d, svcs, |svcs| - 1, pkt, to);
        assert forall i | 0 <= i < |svcs| && Serves(svcs[i], pkt) :: svcs[i] == s;
      } else {
        NotServed(how, nat0, d, s, pkt, to);
        assert forall i | 0 <= i < |svcs| && Serves(svcs[i], pkt) :: svcs[i] == init[i];
      }
    }
  }

  /** Rules that let a packet through make no difference beside others. */
  lemma {:induction false} Beside(how: Passage, nat0: Chains, d: nat, a: seq<Rule>, b: seq<Rule>, pkt: Packet, to: Dest)
    ensures Hits(how, nat0, d, a, pkt, to) == 0.0 && Falls(how, nat0, d, a, pkt) == 1.0 ==>
      && Hits(how, nat0, d, a + b, pkt, to) == Hits(how, nat0, d, b, pkt, to)
      && Falls(how, nat0, d, a + b, pkt) == Falls(how, nat0, d, b, pkt)
    ensures Hits(how, nat0, d, b, pkt, to) == 0.0 && Falls(how, nat0, d, b, pkt) == 1.0 ==>
      && Hits(how, nat0, d, a + b, pkt, to) == Hits(how, nat0, d, a, pkt, to)
      && Falls(how, nat0, d, a + b, pkt) == Falls(how, nat0, d, a, pkt)
  {
    hide Hits, Falls;
    Concat(how, nat0, d, a, b, pkt, to);
  }

  lemma {:induction false} DispatchNone(how: Passage, nat0: Chains, d: nat, pkt: Packet, to: Dest)
    ensures Hits(how, nat0, d, DispatchRules([]), pkt, to) == 0.0 && Falls(how, nat0, d, DispatchRules([]), pkt) == 1.0
  {
  }

  lemma TableInit(nat0: Chains, svcs: seq<Endpoints>, pkt: Packet)
    requires svcs != [] && ValidTable(svcs) && Outside(svcs, pkt) && Populated(nat0, svcs)
    ensures var init := svcs[..|svcs| - 1]; ValidTable(init) && Outside(init, pkt) && Populated(nat0, init)
  {
    hide ServiceRules;
  }

  lemma {:induction false} ServedIn(how: Passage, nat0: Chains, d: nat, svcs: seq<Endpoints>, i: nat, pkt: Packet,
                                    to: Dest)
    requires d > 1 && Outside(svcs, pkt) && Populated(nat0, svcs) && i < |svcs| && Serves(svcs[i], pkt)
    ensures Hits(how, nat0, d, RulesOf(svcs[i]), pkt, to) == Sent(how, svcs[i], to)
    ensures Falls(how, nat0, d, RulesOf(svcs[i]), pkt) == Passed(how, svcs[i])
  {
    hide ServiceRules, Sent, Passed, Serves, Hits, Falls, Marks;
    Served(how, nat0, d, svcs[i], pkt, to);
  }

  lemma {:induction false} DispatchSplit(svcs: seq<Endpoints>)
    requires svcs != []
    ensures DispatchRules(svcs) == DispatchRules(svcs[..|svcs| - 1]) + RulesOf(svcs[|svcs| - 1])
  {
    var init, s := svcs[..|svcs| - 1], svcs[|svcs| - 1];
    assert DispatchRules(init) + ClusterRules(s) + NodeRules(s)
        == DispatchRules(init) + (ClusterRules(s) + NodeRules(s));
  }

  lemma ServedOnce(svcs: seq<Endpoints>, i: nat, j: nat, pkt: Packet)
    requires ValidTable(svcs) && Outside(svcs, pkt) && i < j < |svcs| && Serves(svcs[j], pkt)
    ensures !Serves(svcs[i], pkt)
  {
  }

  // ----- What a sync leaves behind -----

  lemma ChainNames(name: string, name': string)
    ensures IsServiceChain(ChainOf(name))
    ensures ChainOf(name) == ChainOf(name') ==> name == name'
    ensures !IsServiceChain(SERVICES) && !IsServiceChain(MARK)
    ensures !IsServiceChain("PREROUTING") && !IsServiceChain("OUTPUT") && !IsServiceChain("POSTROUTING")
  {
    assert ChainOf(name)[|PREFIX|..] == name && ChainOf(name')[|PREFIX|..] == name';
    assert SERVICES[7] != PREFIX[7] && MARK[6] != PREFIX[6];
    assert "PREROUTING"[0] != PREFIX[0] && "OUTPUT"[0] != PREFIX[0] && "POSTROUTING"[0] != PREFIX[0];
  }

  /** A service's chain holds its rules, whatever was there; other chains are untouched. */
  lemma {:induction false} PopulateAt(nat0: Chains, svcs: seq<Endpoints>, c: string)
    ensures c in Populate(nat0, svcs) <==> c in nat0 || c in Wanted(svcs)
    ensures c !in Wanted(svcs) && c in nat0 ==> Populate(nat0, svcs)[c] == nat0[c]
    ensures forall other: Chains | c in Wanted(svcs) ::
      c in Populate(other, svcs) && Populate(other, svcs)[c] == Populate(nat0, svcs)[c]
  {
    hide ServiceRules, ChainOf;
    if svcs != [] {
      var init, s := svcs[..|svcs| - 1], svcs[|svcs| - 1];
      assert svcs == init + [s];
      WantedNext(svcs);
      PopulateAt(nat0, init, c);
    }
  }

  lemma WantedNext(svcs: seq<Endpoints>)
    requires svcs != []
    ensures Wanted(svcs) == Wanted(svcs[..|svcs| - 1]) + {ChainOf(svcs[|svcs| - 1].name)}
  {
    assert svcs == svcs[..|svcs| - 1] + [svcs[|svcs| - 1]];
  }

  lemma {:induction false} PopulateOwn(nat0: Chains, svcs: seq<Endpoints>, i: nat)
    requires i < |svcs| && forall j, k | 0 <= j < k < |svcs| :: svcs[j].name != svcs[k].name
    ensures ChainOf(svcs[i].name) in Populate(nat0, svcs)
    ensures Populate(nat0, svcs)[ChainOf(svcs[i].name)] == ServiceRules(svcs[i])
  {
    hide ServiceRules;
    if i < |svcs| - 1 {
      PopulateOwn(nat0, svcs[..|svcs| - 1], i);
      ChainNames(svcs[i].name, svcs[|svcs| - 1].name);
    }
  }

  /** After a sync the dispatch chain is the table's, and the service chains are exactly the wanted ones. */
  lemma {:induction false} SyncShape(nat0: Chains, svcs: seq<Endpoints>)
    ensures var nat1 := SyncChains(nat0, svcs);
      && SERVICES in nat1 && nat1[SERVICES] == DispatchRules(svcs)
      && (forall c | c in nat1 && IsServiceChain(c) :: c in Wanted(svcs))
      && Wanted(svcs) <= nat1.Keys
  {
    hide DispatchRules, EnsureBase, IsServiceChain;
    ChainNames("", "");
    forall c | c in Wanted(svcs) ensures c in SyncChains(nat0, svcs) {
      PopulateAt(EnsureBase(nat0), svcs, c);
    }
  }

  ghost predicate Base(c: string) {
    c in {MARK, "PREROUTING", "OUTPUT", "POSTROUTING"}
  }

  /** Chains that are neither services' nor the proxy's own are left alone. */
  lemma SyncFrame(nat0: Chains, svcs: seq<Endpoints>, c: string)
    requires c in nat0 && !IsServiceChain(c) && c != SERVICES && !Base(c)
    ensures c in SyncChains(nat0, svcs) && SyncChains(nat0, svcs)[c] == nat0[c]
  {
    hide DispatchRules, IsServiceChain;
    WantedAreServices(svcs);
    PopulateAt(EnsureBase(nat0), svcs, c);
  }

  lemma WantedAreServices(svcs: seq<Endpoints>)
    ensures forall c | c in Wanted(svcs) :: IsServiceChain(c)
  {
    forall s | s in svcs ensures IsServiceChain(ChainOf(s.name)) {
      ChainNames(s.name, s.name);
    }
  }

  lemma MarkOnlyMarks(nat0: Chains)
    requires MARK in nat0 ==> forall r | r in nat0[MARK] :: r.target.SetMark?
    ensures Marks(EnsureBase(nat0))
  {
  }

  lemma SyncPopulates(nat0: Chains, svcs: seq<Endpoints>)
    requires ValidTable(svcs) && (MARK in nat0 ==> forall r | r in nat0[MARK] :: r.target.SetMark?)
    ensures Populated(SyncChains(nat0, svcs), svcs)
  {
    hide DispatchRules, EnsureBase, ServiceRules, IsServiceChain;
    MarkOnlyMarks(nat0);
    ChainNames("", "");
    WantedAreServices(svcs);
    PopulateAt(EnsureBase(nat0), svcs, MARK);
    forall i | 0 <= i < |svcs|
      ensures ChainOf(svcs[i].name) in SyncChains(nat0, svcs)
      ensures SyncChains(nat0, svcs)[ChainOf(svcs[i].name)] == ServiceRules(svcs[i])
    {
      PopulateOwn(EnsureBase(nat0), svcs, i);
      assert ChainOf(svcs[i].name) in Wanted(svcs);
    }
  }

  lemma {:induction false} SyncDispatches(how: Passage, nat0: Chains, svcs: seq<Endpoints>, d: nat, pkt: Packet,
                                          to: Dest)
    requires d > 1 && ValidTable(svcs) && Outside(svcs, pkt)
    requires MARK in nat0 ==> forall r | r in nat0[MARK] :: r.target.SetMark?
    ensures var nat1 := SyncChains(nat0, svcs);
      && SERVICES in nat1
      && (forall i | 0 <= i < |svcs| && Serves(svcs[i], pkt) ::
            && Hits(how, nat1, d, nat1[SERVICES], pkt, to) == Sent(how, svcs[i], to)
            && Falls(how, nat1, d, nat1[SERVICES], pkt) == Passed(how, svcs[i]))
      && ((forall i | 0 <= i < |svcs| :: !Serves(svcs[i], pkt)) ==>
            Hits(how, nat1, d, nat1[SERVICES], pkt, to) == 0.0 && Falls(how, nat1, d, nat1[SERVICES], pkt) == 1.0)
  {
    hide SyncChains, Sent, Passed, Hits, Falls, DispatchRules, Serves;
    SyncShape(nat0, svcs);
    SyncPopulates(nat0, svcs);
    DispatchSteers(how, SyncChains(nat0, svcs), d, svcs, pkt, to);
  }

  /** A packet is sent to a service's endpoints exactly as direct look-up in the table says, and otherwise passes. */
  lemma {:induction false} SyncSteers(nat0: Chains, svcs: seq<Endpoints>, d: nat, pkt: Packet, to: Dest)
    requires d > 1 && ValidTable(svcs) && Outside(svcs, pkt)
    requires MARK in nat0 ==> forall r | r in nat0[MARK] :: r.target.SetMark?
    ensures var nat1 := SyncChains(nat0, svcs);
      && SERVICES in nat1
      && (forall i | 0 <= i < |svcs| && Serves(svcs[i], pkt) ::
            && Hits(Any, nat1, d, nat1[SERVICES], pkt, to) == Steered(svcs[i], to)
            && Falls(Any, nat1, d, nat1[SERVICES], pkt) == if svcs[i].ips == [] then 1.0 else 0.0)
      && ((forall i | 0 <= i < |svcs| :: !Serves(svcs[i], pkt)) ==>
            Hits(Any, nat1, d, nat1[SERVICES], pkt, to) == 0.0 && Falls(Any, nat1, d, nat1[SERVICES], pkt) == 1.0)
  {
    hide SyncChains, Steered, Hits, Falls, Serves, ValidTable, Outside;
    SyncDispatches(Any, nat0, svcs, d, pkt, to);
  }

  /** No packet for a service reaches an endpoint, or passes on, without the mark; a packet for none never gets it. */
  lemma {:induction false} SyncMarks(nat0: Chains, svcs: seq<Endpoints>, d: nat, pkt: Packet, to: Dest)
    requires d > 1 && ValidTable(svcs) && Outside(svcs, pkt)
    requires MARK in nat0 ==> forall r | r in nat0[MARK] :: r.target.SetMark?
    ensures var nat1 := SyncChains(nat0, svcs);
      && SERVICES in nat1
      && Hits(Unmarked, nat1, d, nat1[SERVICES], pkt, to) == 0.0
      && Falls(Unmarked, nat1, d, nat1[SERVICES], pkt)
         == if exists i :: 0 <= i < |svcs| && Serves(svcs[i], pkt) then 0.0 else 1.0
  {
    hide SyncChains, Hits, Falls, Serves, ValidTable, Outside;
    SyncDispatches(Unmarked, nat0, svcs, d, pkt, to);
  }

  // ----- From the kernel's own chains -----

  /** The rule leaves the packet alone, or jumps to the dispatch chain. */
  predicate Harmless(r: Rule, pkt: Packet) {
    r == Always(Jump(SERVICES)) || !Matches(r, pkt)
  }

  /** Besides rules that do not match, jumping to the dispatch chain is all that happens. */
  lemma {:induction false} HookPasses(how: Passage, nat0: Chains, d: nat, rules: seq<Rule>, pkt: Packet, to: Dest,
                                      h: real, f: real)
    requires d > 0 && SERVICES in nat0 && (forall r | r in rules :: Harmless(r, pkt))
    requires h == Hits(how, nat0, d - 1, nat0[SERVICES], pkt, to) && f == Falls(how, nat0, d - 1, nat0[SERVICES], pkt)
    requires (f == 1.0 && h == 0.0) || f == 0.0
    ensures var jumps := Always(Jump(SERVICES)) in rules;
      && Hits(how, nat0, d, rules, pkt, to) == (if jumps then h else 0.0)
      && Falls(how, nat0, d, rules, pkt) == (if jumps then f else 1.0)
    decreases |rules|
  {
    if rules != [] {
      var r, rest := rules[0], rules[1..];
      assert forall x :: x in rules <==> x == r || x in rest;
      HookPasses(how, nat0, d, rest, pkt, to, h, f);
      hide Hits, Falls;
      Unfold(how, nat0, d, rules, pkt, to);
      HookRule(how, nat0, d, r, pkt, to);
    }
  }

  lemma {:induction false} HookRule(how: Passage, nat0: Chains, d: nat, r: Rule, pkt: Packet, to: Dest)
    requires d > 0 && SERVICES in nat0 && Harmless(r, pkt)
    ensures if r == Always(Jump(SERVICES))
            then RuleHits(how, nat0, d, r, pkt, to) == Hits(how, nat0, d - 1, nat0[SERVICES], pkt, to)
                 && RuleFalls(how, nat0, d, r, pkt) == Falls(how, nat0, d - 1, nat0[SERVICES], pkt)
            else RuleHits(how, nat0, d, r, pkt, to) == 0.0 && RuleFalls(how, nat0, d, r, pkt) == 1.0
  {
    hide Hits, Falls;
  }

  /** What a sync adds to a chain of the kernel: the one rule the proxy needs there, if it is not there yet. */
  lemma HookRules(nat0: Chains, svcs: seq<Endpoints>, hook: string)
    requires hook in {"PREROUTING", "OUTPUT", "POSTROUTING"}
    ensures var was := if hook in nat0 then nat0[hook] else [];
      var needed := if hook == "POSTROUTING" then Always(MasqueradeMarked) else Always(Jump(SERVICES));
      && hook in SyncChains(nat0, svcs)
      && SyncChains(nat0, svcs)[hook] == if needed in was then was else was + [needed]
  {
    hide DispatchRules, IsServiceChain, EnsureBase, Wanted, Populate;
    BaseHooks(nat0, hook);
    WantedAreServices(svcs);
    ChainNames("", "");
    PopulateAt(EnsureBase(nat0), svcs, hook);
  }

  lemma AppendAt(nat0: Chains, c: string, r: Rule, x: string)
    ensures var nat1, was := AppendUnique(nat0, c, r), if c in nat0 then nat0[c] else [];
      && c in nat1 && nat1[c] == (if r in was then was else was + [r])
      && (x != c ==> (x in nat1 <==> x in nat0) && (x in nat0 ==> nat1[x] == nat0[x]))
  {
  }

  lemma BaseHooks(nat0: Chains, hook: string)
    requires hook in {"PREROUTING", "OUTPUT", "POSTROUTING"}
    ensures var was := if hook in nat0 then nat0[hook] else [];
      var needed := if hook == "POSTROUTING" then Always(MasqueradeMarked) else Always(Jump(SERVICES));
      hook in EnsureBase(nat0) && EnsureBase(nat0)[hook] == if needed in was then was else was + [needed]
  {
    hide AppendUnique;
    var n0 := EnsureChain(nat0, MARK);
    var n1 := EnsureChain(AppendUnique(n0, MARK, Always(SetMark)), SERVICES);
    var n2 := AppendUnique(n1, "PREROUTING", Always(Jump(SERVICES)));
    var n3 := AppendUnique(n2, "OUTPUT", Always(Jump(SERVICES)));
    AppendAt(n0, MARK, Always(SetMark), hook);
    AppendAt(n1, "PREROUTING", Always(Jump(SERVICES)), hook);
    AppendAt(n2, "OUTPUT", Always(Jump(SERVICES)), hook);
    AppendAt(n3, "POSTROUTING", Always(MasqueradeMarked), hook);
  }

  /** A packet that arrives, or is sent by the node itself, and that no other rule there matches: it is steered and
      marked as the table says. */
  lemma {:induction false} HooksSteer(how: Passage, nat0: Chains, svcs: seq<Endpoints>, hook: string, d: nat,
                                      pkt: Packet, to: Dest)
    requires d > 2 && ValidTable(svcs) && Outside(svcs, pkt) && hook in {"PREROUTING", "OUTPUT"}
    requires MARK in nat0 ==> forall r | r in nat0[MARK] :: r.target.SetMark?
    requires hook in nat0 ==> forall r | r in nat0[hook] :: Harmless(r, pkt)
    ensures var nat1 := SyncChains(nat0, svcs);
      && hook in nat1
      && (forall i | 0 <= i < |svcs| && Serves(svcs[i], pkt) && svcs[i].ips != [] ::
            && Hits(how, nat1, d, nat1[hook], pkt, to) == (if how.Any? then Steered(svcs[i], to) else 0.0)
            && Falls(how, nat1, d, nat1[hook], pkt) == 0.0)
      && ((forall i | 0 <= i < |svcs| :: !Serves(svcs[i], pkt)) ==>
            Hits(how, nat1, d, nat1[hook], pkt, to) == 0.0 && Falls(how, nat1, d, nat1[hook], pkt) == 1.0)
  {
    hide SyncChains, Steered, Hits, Falls, Serves, ValidTable, Outside, Harmless;
    HookRules(nat0, svcs, hook);
    SyncDispatches(how, nat0, svcs, d - 1, pkt, to);
    var nat1 := SyncChains(nat0, svcs);
    var h, f := Hits(how, nat1, d - 1, nat1[SERVICES], pkt, to), Falls(how, nat1, d - 1, nat1[SERVICES], pkt);
    HarmlessJump(pkt);
    if i :| 0 <= i < |svcs| && Serves(svcs[i], pkt) && svcs[i].ips != [] {
      HookPasses(how, nat1, d, nat1[hook], pkt, to, h, f);
    } else if forall i | 0 <= i < |svcs| :: !Serves(svcs[i], pkt) {
      HookPasses(how, nat1, d, nat1[hook], pkt, to, h, f);
    }
  }

  lemma HarmlessJump(pkt: Packet)
    ensures Harmless(Always(Jump(SERVICES)), pkt)
  {
  }

  /** On the way out a packet's source is rewritten when the first rule that applies to it says so. */
  predicate Rewritten(rules: seq<Rule>, pkt: Packet, marked: bool) {
    if rules == [] then false
    else if !Matches(rules[0], pkt) || (rules[0].target.MasqueradeMarked? && !marked)
    then Rewritten(rules[1..], pkt, marked)
    else rules[0].target.MasqueradeMarked?
  }

  lemma {:induction false} RewrittenIff(rules: seq<Rule>, pkt: Packet, marked: bool)
    requires forall r | r in rules :: r == Always(MasqueradeMarked) || !Matches(r, pkt)
    ensures Rewritten(rules, pkt, marked) <==> marked && Always(MasqueradeMarked) in rules
    decreases |rules|
  {
    if rules != [] {
      assert forall x :: x in rules <==> x == rules[0] || x in rules[1..];
      RewrittenIff(rules[1..], pkt, marked);
    }
  }

  /** With no other rule in the way, exactly the marked packets leave with the node's address as their source. */
  lemma {:induction false} SyncMasquerades(nat0: Chains, svcs: seq<Endpoints>, pkt: Packet, marked: bool)
    requires "POSTROUTING" in nat0 ==>
      forall r | r in nat0["POSTROUTING"] :: r == Always(MasqueradeMarked) || !Matches(r, pkt)
    ensures var nat1 := SyncChains(nat0, svcs);
      "POSTROUTING" in nat1 && (Rewritten(nat1["POSTROUTING"], pkt, marked) <==> marked)
  {
    hide SyncChains;
    HookRules(nat0, svcs, "POSTROUTING");
    RewrittenIff(SyncChains(nat0, svcs)["POSTROUTING"], pkt, marked);
  }

  // ----- Idempotence -----

  /** The base chains are set up. */
  ghost predicate BaseReady(nat0: Chains) {
    && MARK in nat0 && Always(SetMark) in nat0[MARK] && SERVICES in nat0
    && "PREROUTING" in nat0 && Always(Jump(SERVICES)) in nat0["PREROUTING"]
    && "OUTPUT" in nat0 && Always(Jump(SERVICES)) in nat0["OUTPUT"]
    && "POSTROUTING" in nat0 && Always(MasqueradeMarked) in nat0["POSTROUTING"]
  }

  lemma EnsureBaseReady(nat0: Chains)
    ensures BaseReady(EnsureBase(nat0))
    ensures BaseReady(nat0) ==> EnsureBase(nat0) == nat0
  {
  }

  lemma SyncKeepsBase(nat0: Chains, svcs: seq<Endpoints>)
    ensures BaseReady(SyncChains(nat0, svcs))
  {
    hide EnsureBase, DispatchRules, IsServiceChain;
    EnsureBaseReady(nat0);
    WantedAreServices(svcs);
    ChainNames("", "");
    PopulateAt(EnsureBase(nat0), svcs, MARK);
    PopulateAt(EnsureBase(nat0), svcs, "PREROUTING");
    PopulateAt(EnsureBase(nat0), svcs, "OUTPUT");
    PopulateAt(EnsureBase(nat0), svcs, "POSTROUTING");
  }

  /** Syncing the same table again changes nothing. */
  lemma SyncIdempotent(nat0: Chains, svcs: seq<Endpoints>)
    ensures SyncChains(SyncChains(nat0, svcs), svcs) == SyncChains(nat0, svcs)
  {
    hide EnsureBase, DispatchRules, IsServiceChain, Wanted;
    var nat1 := SyncChains(nat0, svcs);
    SyncKeepsBase(nat0, svcs);
    EnsureBaseReady(nat1);
    SyncShape(nat0, svcs);
    WantedAreServices(svcs);
    ChainNames("", "");
    forall c
      ensures c in Populate(nat1, svcs) <==> c in nat1
      ensures c in Populate(nat1, svcs) && c in nat1 && c != SERVICES ==> Populate(nat1, svcs)[c] == nat1[c]
    {
      PopulateAt(EnsureBase(nat0), svcs, c);
      PopulateAt(nat1, svcs, c);
    }
    assert Populate(nat1, svcs)[SERVICES := DispatchRules(svcs)] == nat1;
  }

  // ----- How evenly endpoints are chosen -----

  lemma {:induction false} ShareAbsent(p: seq<real>, ips: seq<nat>, k: nat, ip: nat)
    requires |p| == |ips| && k <= |p| && ip !in ips[k..]
    ensures ShareFrom(p, ips, k, ip) == 0.0
    decreases |p| - k
  {
    if k < |p| {
      assert ips[k] == ips[k..][0] && ips[k + 1..] == ips[k..][1..];
      ShareAbsent(p, ips, k + 1, ip);
    }
  }

  lemma {:induction false} SharePicked(p: seq<real>, ips: seq<nat>, k: nat, i: nat)
    requires |p| == |ips| && k <= i < |p| && Distinct(ips)
    ensures Odds.Survive(p, k) * ShareFrom(p, ips, k, ips[i]) == Odds.Picked(p, i)
    decreases i - k
  {
    var s, x := Odds.Survive(p, k), p[k];
    if k == i {
      ShareAbsent(p, ips, k + 1, ips[i]);
    } else {
      SharePicked(p, ips, k + 1, i);
      var y := ShareFrom(p, ips, k + 1, ips[i]);
      assert s * ((1.0 - x) * y) == (s * (1.0 - x)) * y;
    }
  }

  /** Each endpoint of a service is chosen with its rule's chance; these chances add up to 1, and each is within
      n times 0.000005 of 1/n. */
  lemma EndpointsEven(svc: Endpoints, i: nat)
    requires i < |svc.ips| && Distinct(svc.ips)
    ensures var p, n := RuleOdds(|svc.ips|), |svc.ips|;
      && Steered(svc, Dest(svc.ips[i], svc.targetPort)) == Odds.Picked(p, i)
      && Odds.PickedUpTo(p, n) == 1.0
      && Odds.Abs(Odds.Picked(p, i) - 1.0 / n as real) <= n as real * 0.000005
  {
    hide RuleOdds, ShareFrom, Odds.Picked, Odds.PickedUpTo;
    var p, n := RuleOdds(|svc.ips|), |svc.ips|;
    RuleOddsClose(n);
    SharePicked(p, svc.ips, 0, i);
    assert Odds.Survive(p, 0) == 1.0;
    Odds.PickedTotal(p);
    Odds.PickedClose(p, i);
  }

  lemma RuleOddsClose(n: nat)
    ensures Odds.Close(RuleOdds(n)) && (n > 0 ==> RuleOdds(n)[n - 1] == 1.0)
  {
    hide Odds.Rounded;
    forall i | 0 <= i < n
      ensures 0.0 <= RuleOdds(n)[i] <= 1.0 && Odds.Abs(RuleOdds(n)[i] - Odds.Ideal(n, i)) <= 0.000005
    {
      Odds.RoundedClose(n - i);
    }
  }

  // ----- Node ports -----

  lemma {:induction false} WantPortsOf(svcs: seq<Endpoints>, i: nat)
    requires ValidTable(svcs) && i < |svcs| && svcs[i].nodePort > 0
    ensures svcs[i].nodePort in WantPorts(svcs) && WantPorts(svcs)[svcs[i].nodePort] == ProtocolOf(svcs[i])
  {
    if i < |svcs| - 1 {
      WantPortsOf(svcs[..|svcs| - 1], i);
    }
  }

  /** The firewall accepts what the proxy takes to be open. */
  ghost predicate Opened(input: set<Rule>, open: Ports) {
    forall port | port in open :: AcceptRule(port, open[port]) in input
  }

  lemma AcceptRules(port: int, proto: string, port': int, proto': string)
    ensures AcceptRule(port, proto) == AcceptRule(port', proto') ==> port == port' && proto == proto'
  {
  }

  /** A rule of the firewall after a sync: it was there, or is newly opened, and is not closed. */
  lemma InputAt(input: set<Rule>, open: Ports, want: Ports, port: int, proto: string)
    ensures AcceptRule(port, proto) in SyncInput(input, open, want) <==>
      if port in want && port !in open then AcceptRule(port, proto) in input || want[port] == proto
      else if port in open && port !in want then AcceptRule(port, proto) in input && open[port] != proto
      else AcceptRule(port, proto) in input
  {
    hide AcceptRule;
    var rule := AcceptRule(port, proto);
    var adds := set p | p in want.Keys - open.Keys :: AcceptRule(p, want[p]);
    var drops := set p | p in open.Keys - want.Keys :: AcceptRule(p, open[p]);
    forall p, q ensures AcceptRule(p, q) == rule ==> p == port && q == proto {
      AcceptRules(p, q, port, proto);
    }
    assert rule in adds <==> port in want && port !in open && want[port] == proto;
    assert rule in drops <==> port in open && port !in want && open[port] == proto;
  }

  /** A sync keeps the firewall and the proxy's own record in agreement, and shuts every port no longer wanted. */
  lemma SyncKeepsOpened(input: set<Rule>, open: Ports, want: Ports)
    requires Opened(input, open)
    ensures Opened(SyncInput(input, open, want), SyncPorts(open, want))
    ensures forall port | port in open && port !in want ::
      AcceptRule(port, open[port]) !in SyncInput(input, open, want)
  {
    hide SyncInput, AcceptRule;
    forall port | port in SyncPorts(open, want)
      ensures AcceptRule(port, SyncPorts(open, want)[port]) in SyncInput(input, open, want)
    {
      InputAt(input, open, want, port, SyncPorts(open, want)[port]);
    }
    forall port | port in open && port !in want ensures AcceptRule(port, open[port]) !in SyncInput(input, open, want) {
      InputAt(input, open, want, port, open[port]);
    }
  }

  /** After a sync the firewall accepts a service's NodePort for the service's protocol if and only if the port was not
      open before, or was accepted for that protocol already: an open port is never opened for another protocol. */
  lemma {:induction false} NodePortAcceptedIff(input: set<Rule>, open: Ports, svcs: seq<Endpoints>, i: nat)
    requires ValidTable(svcs) && i < |svcs| && svcs[i].nodePort > 0
    ensures var rule := AcceptRule(svcs[i].nodePort, ProtocolOf(svcs[i]));
      rule in SyncInput(input, open, WantPorts(svcs)) <==> svcs[i].nodePort !in open || rule in input
  {
    hide SyncInput, AcceptRule, WantPorts, ValidTable;
    WantPortsOf(svcs, i);
    InputAt(input, open, WantPorts(svcs), svcs[i].nodePort, ProtocolOf(svcs[i]));
  }

  /** Port 30000 open for tcp while its service now speaks udp: the firewall still accepts only tcp. */
  lemma NodePortKeepsOldProtocol(svc: Endpoints)
    requires svc.nodePort == 30000 && svc.protocol == "udp"
    ensures var open, input := map[30000 := "tcp"], {AcceptRule(30000, "tcp")};
      && Opened(input, open) && ValidTable([svc])
      && AcceptRule(30000, "udp") !in SyncInput(input, open, WantPorts([svc]))
      && AcceptRule(30000, "tcp") in SyncInput(input, open, WantPorts([svc]))
  {
    hide SyncInput, WantPorts;
    var open, input := map[30000 := "tcp"], {AcceptRule(30000, "tcp")};
    NodePortAcceptedIff(input, open, [svc], 0);
    WantPortsOf([svc], 0);
    InputAt(input, open, WantPorts([svc]), 30000, "tcp");
  }

  /** Syncing the same table again opens and closes nothing. */
  lemma PortsIdempotent(input: set<Rule>, open: Ports, want: Ports)
    ensures var open1 := SyncPorts(open, want);
      && SyncPorts(open1, want) == open1
      && SyncInput(SyncInput(input, open, want), open1, want) == SyncInput(input, open, want)
  {
    var open1 := SyncPorts(open, want);
    assert want.Keys - open1.Keys == {} && open1.Keys - want.Keys == {};
  }
}
