/** The service store: a ClusterIP and a NodePort per service, both lowest-free. */
module Services {
  import opened Addresses

  const SERVICE_BASE: nat := 10 * 16777216 + 23 * 65536   // 10.23.0.0
  const IP_FIRST: nat := SERVICE_BASE + 1
  const IP_LIMIT: nat := SERVICE_BASE + 65535
  const PORT_FIRST: nat := 30000
  const PORT_LIMIT: nat := 32768
  const SLOTS: nat := 2768

  datatype Service = Service(name: string, workload: string, port: int, targetPort: int, protocol: string,
                             clusterIp: nat, nodePort: int)

  type Table = map<string, Service>

  datatype AddResult = Stored(svc: Service) | EmptyName | EmptyWorkload | BadPort | IpsExhausted | PortsExhausted

  function UsedIps(t: Table): set<nat> {
    set n | n in t.Keys :: t[n].clusterIp
  }

  function UsedPorts(t: Table): set<nat> {
    set n | n in t.Keys && t[n].nodePort >= 0 :: t[n].nodePort as nat
  }

  function Defaulted(svc: Service): Service {
    if svc.protocol == "" then svc.(protocol := "tcp") else svc
  }

  /** `Add`: an existing allocation is kept; a new service gets the lowest free address and port. */
  function AddTo(t: Table, svc: Service): (Table, AddResult) {
    if svc.name == "" then (t, EmptyName)
    else if svc.workload == "" then (t, EmptyWorkload)
    else if svc.port <= 0 || svc.targetPort <= 0 then (t, BadPort)
    else if svc.name in t then
      var s := Defaulted(svc).(clusterIp := t[svc.name].clusterIp, nodePort := t[svc.name].nodePort);
      (t[svc.name := s], Stored(s))
    else
      var ip := FirstFree(UsedIps(t), IP_FIRST, IP_LIMIT);
      var port := FirstFree(UsedPorts(t), PORT_FIRST, PORT_LIMIT);
      if ip == IP_LIMIT then (t, IpsExhausted)
      else if port == PORT_LIMIT then (t, PortsExhausted)
      else
        var s := Defaulted(svc).(clusterIp := ip, nodePort := port);
        (t[svc.name := s], Stored(s))
  }

  predicate WellFormed(svc: Service) {
    svc.name != "" && svc.workload != "" && svc.port > 0 && svc.targetPort > 0
  }

  class ServiceStore {
    var table: Table

    constructor ()
      ensures table == map[]
    {
      table := map[];
    }

    method Add(svc: Service) returns (r: AddResult)
      modifies this
      ensures (table, r) == AddTo(old(table), svc)
    {
      if svc.name == "" {
        return EmptyName;
      }
      if svc.workload == "" {
        return EmptyWorkload;
      }
      if svc.port <= 0 || svc.targetPort <= 0 {
        return BadPort;
      }
      var s := Defaulted(svc);
      if s.name in table {
        s := s.(clusterIp := table[s.name].clusterIp, nodePort := table[s.name].nodePort);
      } else {
        var ip := Lowest(UsedIps(table), IP_FIRST, IP_LIMIT);
        if ip == IP_LIMIT {
          return IpsExhausted;
        }
        var port := Lowest(UsedPorts(table), PORT_FIRST, PORT_LIMIT);
        if port == PORT_LIMIT {
          return PortsExhausted;
        }
        s := s.(clusterIp := ip, nodePort := port);
      }
      table := table[s.name := s];
      return Stored(s);
    }

    method Remove(name: string)
      modifies this
      ensures table == old(table) - {name}
    {
      table := table - {name};
    }
  }

  method Lowest(used: set<nat>, first: nat, limit: nat) returns (f: nat)
    requires first <= limit
    ensures f == FirstFree(used, first, limit)
  {
    f := first;
    while f < limit && f in used
      invariant first <= f <= limit
      invariant FirstFree(used, first, limit) == FirstFree(used, f, limit)
    {
      f := f + 1;
    }
  }

  // ----- Address and port go in step -----

  /** Every service holds the same-numbered address and port, and no two services share them. */
  ghost predicate InStep(t: Table) {
    && (forall n | n in t ::
          PORT_FIRST <= t[n].nodePort < PORT_LIMIT && t[n].clusterIp - IP_FIRST == t[n].nodePort - PORT_FIRST)
    && (forall m, n | m in t && n in t && t[m].nodePort == t[n].nodePort :: m == n)
  }

  ghost function Slots(t: Table): map<string, nat>
    requires InStep(t)
  {
    map n | n in t :: (t[n].nodePort - PORT_FIRST) as nat
  }

  lemma SlotUsed(t: Table, k: nat)
    requires InStep(t)
    ensures k in Slots(t).Values <==> IP_FIRST + k in UsedIps(t)
    ensures k in Slots(t).Values <==> PORT_FIRST + k in UsedPorts(t)
    ensures k in Slots(t).Values ==> k < SLOTS
  {
    if n :| n in t && t[n].nodePort - PORT_FIRST == k {
      assert Slots(t)[n] == k;
    }
  }

  /** The lowest free address and the lowest free port have the same number; addresses never run out first. */
  lemma LowestTogether(t: Table)
    requires InStep(t)
    ensures var ip, port := FirstFree(UsedIps(t), IP_FIRST, IP_LIMIT), FirstFree(UsedPorts(t), PORT_FIRST, PORT_LIMIT);
      && ip < IP_LIMIT
      && ip - IP_FIRST == port - PORT_FIRST
      && port - PORT_FIRST == FirstFree(Slots(t).Values, 0, SLOTS)
  {
    SlotPatterns(t);
    FirstFreeShift(UsedIps(t), IP_FIRST, IP_LIMIT, Slots(t).Values, 0, SLOTS, 0);
    FirstFreeShift(UsedPorts(t), PORT_FIRST, PORT_LIMIT + 1, Slots(t).Values, 0, SLOTS, 0);
    LimitUnused(UsedPorts(t), PORT_FIRST, PORT_LIMIT);
  }

  lemma SlotPatterns(t: Table)
    requires InStep(t)
    ensures SamePattern(UsedIps(t), IP_FIRST, Slots(t).Values, 0)
    ensures SamePattern(UsedPorts(t), PORT_FIRST, Slots(t).Values, 0)
    ensures SLOTS !in Slots(t).Values && PORT_LIMIT !in UsedPorts(t)
  {
    SlotUsed(t, SLOTS);
    forall k: nat ensures Taken(UsedIps(t), IP_FIRST, k) <==> Taken(Slots(t).Values, 0, k) {
      SlotUsed(t, k);
    }
    forall k: nat ensures Taken(UsedPorts(t), PORT_FIRST, k) <==> Taken(Slots(t).Values, 0, k) {
      SlotUsed(t, k);
    }
  }

  lemma SlotsInjective(t: Table)
    requires InStep(t)
    ensures Injective(Slots(t)) && |Slots(t)| == |t| && forall n | n in Slots(t) :: Slots(t)[n] < SLOTS
  {
    assert Slots(t).Keys == t.Keys;
  }

  lemma InStepInsert(t: Table, s: Service)
    requires InStep(t)
    requires PORT_FIRST <= s.nodePort < PORT_LIMIT && s.clusterIp - IP_FIRST == s.nodePort - PORT_FIRST
    requires forall n | n in t && n != s.name :: t[n].nodePort != s.nodePort
    ensures InStep(t[s.name := s])
  {
  }

  /** What adding does, once: the table changes only at the service's name, and only on success. */
  lemma AddFrame(t: Table, svc: Service)
    ensures var (t', r) := AddTo(t, svc);
      && (if r.Stored? then t' == t[svc.name := r.svc] && r.svc.name == svc.name else t' == t)
      && (r.Stored? && svc.name in t ==>
            r.svc.clusterIp == t[svc.name].clusterIp && r.svc.nodePort == t[svc.name].nodePort)
      && (r.Stored? && svc.name !in t ==>
            && r.svc.clusterIp == FirstFree(UsedIps(t), IP_FIRST, IP_LIMIT)
            && r.svc.nodePort == FirstFree(UsedPorts(t), PORT_FIRST, PORT_LIMIT) && r.svc.nodePort < PORT_LIMIT)
  {
    hide FirstFree, UsedIps, UsedPorts;
  }

  /** What is stored is what was asked for, tcp unless another protocol was named, whether the service is new or
      replaces an older definition of it. */
  lemma AddStores(t: Table, svc: Service)
    ensures var (t', r) := AddTo(t, svc);
      r.Stored? ==>
        && svc.name in t' && t'[svc.name] == r.svc && r.svc.name == svc.name && r.svc.workload == svc.workload
        && r.svc.port == svc.port && r.svc.targetPort == svc.targetPort
        && r.svc.protocol == (if svc.protocol == "" then "tcp" else svc.protocol)
  {
    hide FirstFree, UsedIps, UsedPorts;
  }

  /** Adding keeps addresses and ports in step, and gives a new service ones nobody holds. */
  lemma AddInStep(t: Table, svc: Service)
    requires InStep(t)
    ensures InStep(AddTo(t, svc).0)
  {
    hide AddTo, FirstFree, UsedIps, UsedPorts;
    AddFrame(t, svc);
    var (t', r) := AddTo(t, svc);
    if r.Stored? {
      if svc.name !in t {
        LowestTogether(t);
        FreshPort(t);
      }
      InStepInsert(t, r.svc);
    }
  }

  lemma FreshPort(t: Table)
    requires InStep(t)
    ensures forall n | n in t :: t[n].nodePort != FirstFree(UsedPorts(t), PORT_FIRST, PORT_LIMIT)
  {
    var f := FirstFree(UsedPorts(t), PORT_FIRST, PORT_LIMIT);
    forall n | n in t ensures t[n].nodePort != f {
      assert t[n].nodePort as nat in UsedPorts(t);
    }
  }

  /** Adding a well-formed service fails exactly when it is new and 2768 services exist, for want of a port;
      addresses never run out. */
  lemma AddFailsIff(t: Table, svc: Service)
    requires InStep(t)
    ensures var r := AddTo(t, svc).1;
      && !r.IpsExhausted?
      && (WellFormed(svc) ==> (r.PortsExhausted? <==> svc.name !in t && |t| == SLOTS))
      && (r.Stored? || r.PortsExhausted? <==> WellFormed(svc))
  {
    hide FirstFree, UsedIps, UsedPorts;
    LowestTogether(t);
    SlotsInjective(t);
    FirstFreeExhausted(Slots(t), SLOTS);
  }

  /** A port asked for in the definition has no effect. */
  lemma PinIgnored(t: Table, svc: Service, pin: int)
    ensures AddTo(t, svc.(nodePort := pin)) == AddTo(t, svc)
  {
  }

  datatype Request = AddOp(svc: Service) | RemoveOp(name: string)

  function Apply(t: Table, op: Request): Table {
    match op
    case AddOp(svc) => AddTo(t, svc).0
    case RemoveOp(name) => t - {name}
  }

  function Run(t: Table, ops: seq<Request>): Table
    decreases |ops|
  {
    if ops == [] then t else Run(Apply(t, ops[0]), ops[1..])
  }

  /** In every reachable table address and port go in step, and no two services share either. */
  lemma {:induction false} RunInStep(t: Table, ops: seq<Request>)
    requires InStep(t)
    ensures InStep(Run(t, ops))
    decreases |ops|
  {
    if ops != [] {
      hide AddTo;
      match ops[0] {
        case AddOp(svc) => AddInStep(t, svc);
        case RemoveOp(name) =>
      }
      RunInStep(Apply(t, ops[0]), ops[1..]);
    }
  }

  /** So from an empty table, addresses never run out, and a new well-formed service is refused exactly when 2768
      services exist. */
  lemma {:induction false} ReachableAddFailsIff(ops: seq<Request>, svc: Service)
    requires WellFormed(svc)
    ensures var t := Run(map[], ops);
      && InStep(t)
      && if svc.name !in t && |t| == SLOTS then AddTo(t, svc).1 == PortsExhausted else AddTo(t, svc).1.Stored?
  {
    hide AddTo;
    RunInStep(map[], ops);
    AddFailsIff(Run(map[], ops), svc);
  }

  lemma {:induction false} RunLast(t: Table, ops: seq<Request>, op: Request)
    ensures Run(t, ops + [op]) == Apply(Run(t, ops), op)
    decreases |ops|
  {
    hide Apply;
    if ops == [] {
      assert ops + [op] == [op] && [op][1..] == [];
    } else {
      assert (ops + [op])[1..] == ops[1..] + [op];
      RunLast(Apply(t, ops[0]), ops[1..], op);
    }
  }
}
