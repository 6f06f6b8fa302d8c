/** The service proxy: a service table compiled into first-match rule chains. */
module Proxy {
  import opened Ordering
  import Odds

  datatype Endpoints = Endpoints(name: string, clusterIp: Option<nat>, port: int, nodePort: int, targetPort: int,
                                 protocol: string, ips: seq<nat>)

  datatype Dest = Dest(ip: nat, port: int)

  /** `MasqueradeMarked` masquerades the packets that carry the mark set by `SetMark`. */
  datatype Target = Jump(chain: string) | Dnat(to: Dest) | SetMark | MasqueradeMarked | Accept

  /** A rule: what it matches, with what probability it then fires (in units of 0.00001), and what it does. */
  datatype Rule = Rule(dst: Option<nat>, onlyLocal: bool, proto: Option<string>, dport: Option<int>, odds: Option<int>,
                       target: Target)

  type Chains = map<string, seq<Rule>>

  const SERVICES: string := "SMITH-SERVICES"
  const MARK: string := "SMITH-MARK-MASQ"
  const PREFIX: string := "SMITH-SVC-"

  /** The chain of a service; the name's digest is taken to be injective, so the name itself stands for it. */
  function ChainOf(name: string): string {
    PREFIX + name
  }

  predicate IsServiceChain(c: string) {
    PREFIX <= c
  }

  function ProtocolOf(svc: Endpoints): string {
    if svc.protocol == "" then "tcp" else svc.protocol
  }

  function Always(target: Target): Rule {
    Rule(None, false, None, None, None, target)
  }

  // ----- The chains -----

  function EnsureChain(nat0: Chains, c: string): Chains {
    if c in nat0 then nat0 else nat0[c := []]
  }

  function AppendUnique(nat0: Chains, c: string, r: Rule): Chains {
    if c in nat0 && r in nat0[c] then nat0 else nat0[c := (if c in nat0 then nat0[c] else []) + [r]]
  }

  function EnsureBase(nat0: Chains): Chains {
    var n1 := AppendUnique(EnsureChain(nat0, MARK), MARK, Always(SetMark));
    var n2 := AppendUnique(EnsureChain(n1, SERVICES), "PREROUTING", Always(Jump(SERVICES)));
    var n3 := AppendUnique(n2, "OUTPUT", Always(Jump(SERVICES)));
    AppendUnique(n3, "POSTROUTING", Always(MasqueradeMarked))
  }

  function EndpointRule(svc: Endpoints, i: nat): Rule
    requires i < |svc.ips|
  {
    var n := |svc.ips|;
    Rule(None, false, Some(ProtocolOf(svc)), None, if i < n - 1 then Some(Odds.Rounded(n - i)) else None,
         Dnat(Dest(svc.ips[i], svc.targetPort)))
  }

  function EndpointRules(svc: Endpoints, k: nat): seq<Rule>
    requires k <= |svc.ips|
    decreases |svc.ips| - k
  {
    if k == |svc.ips| then [] else [EndpointRule(svc, k)] + EndpointRules(svc, k + 1)
  }

  function ServiceRules(svc: Endpoints): seq<Rule> {
    [Always(Jump(MARK))] + EndpointRules(svc, 0)
  }

  function ClusterRules(svc: Endpoints): seq<Rule> {
    if svc.clusterIp.Some? && svc.port > 0
    then [Rule(svc.clusterIp, false, Some(ProtocolOf(svc)), Some(svc.port), None, Jump(ChainOf(svc.name)))] else []
  }

  function NodeRules(svc: Endpoints): seq<Rule> {
    if svc.nodePort > 0
    then [Rule(None, true, Some(ProtocolOf(svc)), Some(svc.nodePort), None, Jump(ChainOf(svc.name)))] else []
  }

  function DispatchRules(svcs: seq<Endpoints>): seq<Rule> {
    if svcs == [] then []
    else
      var s := svcs[|svcs| - 1];
      DispatchRules(svcs[..|svcs| - 1]) + ClusterRules(s) + NodeRules(s)
  }

  function Populate(nat0: Chains, svcs: seq<Endpoints>): Chains {
    if svcs == [] then nat0
    else
      var s := svcs[|svcs| - 1];
      Populate(nat0, svcs[..|svcs| - 1])[ChainOf(s.name) := ServiceRules(s)]
  }

  ghost function Wanted(svcs: seq<Endpoints>): set<string> {
    set s | s in svcs :: ChainOf(s.name)
  }

  ghost function DropStale(nat0: Chains, wanted: set<string>): Chains {
    map c | c in nat0 && (!IsServiceChain(c) || c in wanted) :: nat0[c]
  }

  ghost function SyncChains(nat0: Chains, svcs: seq<Endpoints>): Chains {
    DropStale(Populate(EnsureBase(nat0), svcs)[SERVICES := DispatchRules(svcs)], Wanted(svcs))
  }

  // ----- Node ports -----

  type Ports = map<int, string>

  function AcceptRule(port: int, proto: string): Rule {
    Rule(None, false, Some(proto), Some(port), None, Accept)
  }

  ghost function WantPorts(svcs: seq<Endpoints>): Ports {
    if svcs == [] then map[]
    else
      var s := svcs[|svcs| - 1];
      var rest := WantPorts(svcs[..|svcs| - 1]);
      if s.nodePort <= 0 then rest else rest[s.nodePort := ProtocolOf(s)]
  }

  /** Newly wanted ports are opened, unwanted ones closed; a port that stays open keeps its protocol. */
  ghost function SyncPorts(open: Ports, want: Ports): Ports {
    map port | port in want :: if port in open then open[port] else want[port]
  }

  ghost function SyncInput(input: set<Rule>, open: Ports, want: Ports): set<Rule> {
    input + (set port | port in want.Keys - open.Keys :: AcceptRule(port, want[port]))
          - (set port | port in open.Keys - want.Keys :: AcceptRule(port, open[port]))
  }

  // ----- What the chains do to a packet -----

  /** `isLocal`: the destination is an address of the node itself. */
  datatype Packet = Packet(dst: nat, isLocal: bool, proto: string, dport: int)

  predicate Matches(r: Rule, pkt: Packet) {
    && (r.dst.Some? ==> r.dst.value == pkt.dst)
    && (r.onlyLocal ==> pkt.isLocal)
    && (r.proto.Some? ==> r.proto.value == pkt.proto)
    && (r.dport.Some? ==> r.dport.value == pkt.dport)
  }

  function Fires(r: Rule, pkt: Packet): real {
    if !Matches(r, pkt) then 0.0
    else match r.odds case None => 1.0 case Some(k) => k as real * 0.00001
  }

  /** Which passages of a packet are counted: all of them, or only those on which it never gets the mark. */
  datatype Passage = Any | Unmarked

  /** The chance that a packet traversing `rules` is sent to `to`: the first rule sends it there, or passes it on
      to the rest. `depth` bounds how deep jumps may nest. */
  ghost function Hits(how: Passage, nat0: Chains, depth: nat, rules: seq<Rule>, pkt: Packet, to: Dest): real
    decreases depth, |rules| + 1
  {
    if rules == [] then 0.0
    else RuleHits(how, nat0, depth, rules[0], pkt, to)
         + RuleFalls(how, nat0, depth, rules[0], pkt) * Hits(how, nat0, depth, rules[1..], pkt, to)
  }

  /** The chance that a packet runs off the end of `rules`. */
  ghost function Falls(how: Passage, nat0: Chains, depth: nat, rules: seq<Rule>, pkt: Packet): real
    decreases depth, |rules| + 1
  {
    if rules == [] then 1.0
    else RuleFalls(how, nat0, depth, rules[0], pkt) * Falls(how, nat0, depth, rules[1..], pkt)
  }

  ghost function RuleHits(how: Passage, nat0: Chains, depth: nat, r: Rule, pkt: Packet, to: Dest): real
    decreases depth, 0
  {
    match r.target
    case Dnat(x) => if x == to then Fires(r, pkt) else 0.0
    case Jump(c) =>
      if depth == 0 || c !in nat0 then 0.0 else Fires(r, pkt) * Hits(how, nat0, depth - 1, nat0[c], pkt, to)
    case _ => 0.0
  }

  /** A jump that runs off the end of its chain resumes after the jump. A rule that sets the mark passes every packet
      on; unmarked are then only those it did not fire on. */
  ghost function RuleFalls(how: Passage, nat0: Chains, depth: nat, r: Rule, pkt: Packet): real
    decreases depth, 0
  {
    match r.target
    case SetMark => if how.Any? then 1.0 else 1.0 - Fires(r, pkt)
    case Jump(c) =>
      if depth == 0 || c !in nat0 then 1.0
      else Fires(r, pkt) * Falls(how, nat0, depth - 1, nat0[c], pkt) + (1.0 - Fires(r, pkt))
    case _ => 1.0 - Fires(r, pkt)
  }

  /** Direct look-up: the packet is for the service's ClusterIP, or for its NodePort on this node. */
  predicate Serves(svc: Endpoints, pkt: Packet) {
    && pkt.proto == ProtocolOf(svc)
    && (|| (svc.clusterIp == Some(pkt.dst) && svc.port > 0 && pkt.dport == svc.port)
        || (svc.nodePort > 0 && pkt.isLocal && pkt.dport == svc.nodePort))
  }

  /** The probabilities of a service's endpoint rules. */
  function RuleOdds(n: nat): (p: seq<real>)
    ensures |p| == n
  {
    seq(n, i requires 0 <= i < n => if i < n - 1 then Odds.Rounded(n - i) as real * 0.00001 else 1.0)
  }

  /** The chance of address `ip`, starting at endpoint rule `k`. */
  function ShareFrom(p: seq<real>, ips: seq<nat>, k: nat, ip: nat): real
    requires |p| == |ips| && k <= |p|
    decreases |p| - k
  {
    if k == |p| then 0.0
    else (if ips[k] == ip then p[k] else 0.0) + (1.0 - p[k]) * ShareFrom(p, ips, k + 1, ip)
  }

  /** A service's distribution over destinations. */
  function Steered(svc: Endpoints, to: Dest): real {
    if to.port != svc.targetPort then 0.0 else ShareFrom(RuleOdds(|svc.ips|), svc.ips, 0, to.ip)
  }
}
