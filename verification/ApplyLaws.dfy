/** Runs of apply and prune keep references intact at every step and end in exactly what is declared. */
module ApplyLaws {
  import opened Ordering
  import opened Services
  import opened Workloads
  import opened Manifest
  import opened Edits
  import opened Applying

  const NOTHING: Live := Live(map[], map[], map[])

  ghost function After(l: Live, ops: seq<Op>): Live
    decreases |ops|
  {
    if ops == [] then l else After(Perform(l, ops[0]), ops[1..])
  }

  lemma {:induction false} AfterConcat(l: Live, a: seq<Op>, b: seq<Op>)
    ensures After(l, a + b) == After(After(l, a), b)
    decreases |a|
  {
    hide Perform;
    if a == [] {
      assert a + b == b;
    } else {
      assert (a + b)[1..] == a[1..] + b;
      AfterConcat(Perform(l, a[0]), a[1..], b);
    }
  }

  lemma {:induction false} IssueCompletes(l: Live, ops: seq<Op>, net: Net, k: nat)
    requires Issue(l, ops, net, k).done == |ops|
    ensures Issue(l, ops, net, k).live == After(l, ops)
    decreases |ops|
  {
    hide Perform;
    if ops != [] {
      IssueCompletes(Perform(l, ops[0]), ops[1..], net, k + 1);
    }
  }

  // ----- References -----

  /** Every service's workload and every ingress's service exist. */
  ghost predicate Intact(l: Live) {
    && (forall n | n in l.services :: l.services[n].workload in l.workloads)
    && (forall h | h in l.ingresses :: l.ingresses[h] in l.services)
  }

  /** The operation adds no reference to something missing and removes nothing that is referred to. */
  ghost predicate Safe(l: Live, op: Op) {
    match op
    case PutService(s) => s.workload in l.workloads
    case PutIngress(g) => g.service in l.services
    case DropService(name) => forall h | h in l.ingresses :: l.ingresses[h] != name
    case DropWorkload(id) => forall n | n in l.services :: l.services[n].workload != id
    case _ => true
  }

  lemma SafeIff(l: Live, op: Op)
    requires Intact(l)
    ensures Intact(Perform(l, op)) <==> Safe(l, op)
  {
    var l' := Perform(l, op);
    match op
    case PutService(s) => assert s.name in l'.services && l'.services[s.name] == s;
    case PutIngress(g) => assert g.host in l'.ingresses && l'.ingresses[g.host] == g.service;
    case DropService(name) =>
      assert forall h | h in l.ingresses && l.ingresses[h] == name ::
          h in l'.ingresses && l'.ingresses[h] !in l'.services;
    case DropWorkload(id) =>
      assert forall n | n in l.services && l.services[n].workload == id ::
          n in l'.services && l'.services[n].workload !in l'.workloads;
    case _ =>
  }

  ghost predicate AllSafe(l: Live, ops: seq<Op>)
    decreases |ops|
  {
    ops == [] || (Safe(l, ops[0]) && AllSafe(Perform(l, ops[0]), ops[1..]))
  }

  lemma {:induction false} AllSafeConcat(l: Live, a: seq<Op>, b: seq<Op>)
    requires AllSafe(l, a) && AllSafe(After(l, a), b)
    ensures AllSafe(l, a + b)
    decreases |a|
  {
    hide Perform, Safe;
    if a == [] {
      assert a + b == b;
    } else {
      assert (a + b)[1..] == a[1..] + b;
      AllSafeConcat(Perform(l, a[0]), a[1..], b);
    }
  }

  lemma {:induction false} IssueIntact(l: Live, ops: seq<Op>, net: Net, k: nat)
    requires Intact(l) && AllSafe(l, ops)
    ensures Intact(Issue(l, ops, net, k).live)
    decreases |ops|
  {
    hide Perform, Safe, Intact;
    if ops != [] {
      SafeIff(l, ops[0]);
      if net(k) == Done {
        IssueIntact(Perform(l, ops[0]), ops[1..], net, k + 1);
      }
    }
  }

  // ----- Runs as edits of the three tables -----

  function WorkloadEdit(op: Op): seq<Edit<Workload>> {
    match op case PutWorkload(w) => [Set(w.id, w)] case DropWorkload(id) => [Unset(id)] case _ => []
  }

  function ServiceEdit(op: Op): seq<Edit<Service>> {
    match op case PutService(s) => [Set(s.name, s)] case DropService(name) => [Unset(name)] case _ => []
  }

  function IngressEdit(op: Op): seq<Edit<string>> {
    match op case PutIngress(g) => [Set(g.host, g.service)] case DropIngress(host) => [Unset(host)] case _ => []
  }

  function WorkloadEdits(ops: seq<Op>): seq<Edit<Workload>> {
    if ops == [] then [] else WorkloadEdit(ops[0]) + WorkloadEdits(ops[1..])
  }

  function ServiceEdits(ops: seq<Op>): seq<Edit<Service>> {
    if ops == [] then [] else ServiceEdit(ops[0]) + ServiceEdits(ops[1..])
  }

  function IngressEdits(ops: seq<Op>): seq<Edit<string>> {
    if ops == [] then [] else IngressEdit(ops[0]) + IngressEdits(ops[1..])
  }

  predicate Steps<V(==)>(m: map<string, V>, e: seq<Edit<V>>, m': map<string, V>) {
    (e == [] && m' == m) || (|e| == 1 && m' == One(m, e[0]))
  }

  lemma PerformSteps(l: Live, op: Op)
    ensures var l' := Perform(l, op);
      && Steps(l.workloads, WorkloadEdit(op), l'.workloads) && Steps(l.services, ServiceEdit(op), l'.services)
      && Steps(l.ingresses, IngressEdit(op), l'.ingresses)
  {
  }

  lemma {:induction false} EditOne<V>(m: map<string, V>, m': map<string, V>, e: seq<Edit<V>>, rest: seq<Edit<V>>)
    requires Steps(m, e, m')
    ensures Edited(m, e + rest) == Edited(m', rest)
  {
    if e == [] {
      assert e + rest == rest;
    } else {
      assert e == [e[0]];
      EditedFirst(m, e[0], rest);
    }
  }

  lemma {:induction false} AfterIsEdited(l: Live, ops: seq<Op>)
    ensures After(l, ops) == Live(Edited(l.workloads, WorkloadEdits(ops)), Edited(l.services, ServiceEdits(ops)),
                                  Edited(l.ingresses, IngressEdits(ops)))
    decreases |ops|
  {
    hide Edited, Perform, WorkloadEdit, ServiceEdit, IngressEdit, Steps;
    if ops == [] {
      EditedNone(l.workloads);
      EditedNone(l.services);
      EditedNone(l.ingresses);
    } else {
      var op, rest := ops[0], ops[1..];
      var l' := Perform(l, op);
      AfterIsEdited(l', rest);
      PerformSteps(l, op);
      EditOne(l.workloads, l'.workloads, WorkloadEdit(op), WorkloadEdits(rest));
      EditOne(l.services, l'.services, ServiceEdit(op), ServiceEdits(rest));
      EditOne(l.ingresses, l'.ingresses, IngressEdit(op), IngressEdits(rest));
    }
  }

  lemma {:induction false} EditedNone<V>(m: map<string, V>)
    ensures Edited(m, []) == m
  {
  }

  lemma {:induction false} WorkloadEditsFrom(ops: seq<Op>)
    ensures forall e :: e in WorkloadEdits(ops) <==>
      if e.Set? then PutWorkload(e.value) in ops && e.key == e.value.id else DropWorkload(e.key) in ops
  {
    if ops != [] {
      assert forall op :: op in ops <==> op == ops[0] || op in ops[1..];
      WorkloadEditsFrom(ops[1..]);
    }
  }

  lemma {:induction false} ServiceEditsFrom(ops: seq<Op>)
    ensures forall e :: e in ServiceEdits(ops) <==>
      if e.Set? then PutService(e.value) in ops && e.key == e.value.name else DropService(e.key) in ops
  {
    if ops != [] {
      assert forall op :: op in ops <==> op == ops[0] || op in ops[1..];
      ServiceEditsFrom(ops[1..]);
    }
  }

  lemma {:induction false} IngressEditsFrom(ops: seq<Op>)
    ensures forall e :: e in IngressEdits(ops) <==>
      if e.Set? then PutIngress(Ingress(e.key, e.value)) in ops else DropIngress(e.key) in ops
  {
    if ops != [] {
      assert forall op :: op in ops <==> op == ops[0] || op in ops[1..];
      IngressEditsFrom(ops[1..]);
    }
  }

  // ----- Which operations a run issues -----

  ghost predicate DeclaresWorkload(bs: seq<Bundle>, w: Workload) {
    exists b :: b in bs && b.res.workload == w
  }

  ghost predicate DeclaresService(bs: seq<Bundle>, s: Service) {
    exists b :: b in bs && s in b.res.services
  }

  ghost predicate DeclaresIngress(bs: seq<Bundle>, g: Ingress) {
    exists b :: b in bs && g in b.res.ingresses
  }

  lemma {:induction false} WorkloadOpsFrom(bs: seq<Bundle>)
    ensures forall op :: op in WorkloadOps(bs) <==> op.PutWorkload? && DeclaresWorkload(bs, op.w)
  {
    if bs != [] {
      var n := |bs| - 1;
      WorkloadOpsFrom(bs[..n]);
      assert bs == bs[..n] + [bs[n]];
      forall w ensures DeclaresWorkload(bs, w) <==> DeclaresWorkload(bs[..n], w) || w == bs[n].res.workload {
        assert forall b :: b in bs <==> b in bs[..n] || b == bs[n];
      }
    }
  }

  lemma {:induction false} ServiceOpsFrom(bs: seq<Bundle>)
    ensures forall op :: op in ServiceOps(bs) <==> op.PutService? && DeclaresService(bs, op.s)
  {
    if bs != [] {
      var n := |bs| - 1;
      ServiceOpsFrom(bs[..n]);
      assert bs == bs[..n] + [bs[n]];
      forall s ensures DeclaresService(bs, s) <==> DeclaresService(bs[..n], s) || s in bs[n].res.services {
        assert forall b :: b in bs <==> b in bs[..n] || b == bs[n];
      }
      PutServicesFrom(bs[n].res.services);
    }
  }

  lemma PutServicesFrom(ss: seq<Service>)
    ensures forall op :: op in PutServices(ss) <==> op.PutService? && op.s in ss
  {
    var ops := PutServices(ss);
    forall op: Op | op.PutService? && op.s in ss ensures op in ops {
      var i :| 0 <= i < |ss| && ss[i] == op.s;
      assert ops[i] == op;
    }
  }

  lemma {:induction false} IngressOpsFrom(bs: seq<Bundle>)
    ensures forall op :: op in IngressOps(bs) <==> op.PutIngress? && DeclaresIngress(bs, op.g)
  {
    if bs != [] {
      var n := |bs| - 1;
      IngressOpsFrom(bs[..n]);
      assert bs == bs[..n] + [bs[n]];
      forall g ensures DeclaresIngress(bs, g) <==> DeclaresIngress(bs[..n], g) || g in bs[n].res.ingresses {
        assert forall b :: b in bs <==> b in bs[..n] || b == bs[n];
      }
      PutIngressesFrom(bs[n].res.ingresses);
    }
  }

  lemma PutIngressesFrom(gs: seq<Ingress>)
    ensures forall op :: op in PutIngresses(gs) <==> op.PutIngress? && op.g in gs
  {
    var ops := PutIngresses(gs);
    forall op: Op | op.PutIngress? && op.g in gs ensures op in ops {
      var i :| 0 <= i < |gs| && gs[i] == op.g;
      assert ops[i] == op;
    }
  }

  lemma DropsFrom(kind: Kind, keys: set<string>, op: Op)
    ensures op in Drops(kind, Sorted(keys)) <==> exists k :: k in keys && Drop(kind, k) == op
  {
    hide Drop;
    StringsTotal(keys);
    var q := Sorted(keys);
    var ops := Drops(kind, q);
    if k :| k in keys && Drop(kind, k) == op {
      assert k in q;
      var i :| 0 <= i < |q| && q[i] == k;
      assert ops[i] == op;
    }
    if op in ops {
      var i :| 0 <= i < |q| && ops[i] == op;
      assert q[i] in keys;
    }
  }

  lemma PruneOpsFrom(l: Live, bs: seq<Bundle>)
    ensures forall op :: op in IngressDrops(l, bs) <==>
              op.DropIngress? && op.host in l.ingresses && op.host !in Hosts(bs)
    ensures forall op :: op in ServiceDrops(l, bs) <==>
              op.DropService? && op.name in l.services && op.name !in ServiceNames(bs)
    ensures forall op :: op in WorkloadDrops(l, bs) <==>
              op.DropWorkload? && op.id in l.workloads && op.id !in WorkloadIds(bs)
  {
    hide Hosts, ServiceNames, WorkloadIds, Sorted, Drops;
    forall op: Op
      ensures op in IngressDrops(l, bs) <==> op.DropIngress? && op.host in l.ingresses && op.host !in Hosts(bs)
      ensures op in ServiceDrops(l, bs) <==> op.DropService? && op.name in l.services && op.name !in ServiceNames(bs)
      ensures op in WorkloadDrops(l, bs) <==> op.DropWorkload? && op.id in l.workloads && op.id !in WorkloadIds(bs)
    {
      DropsFrom(AnIngress, l.ingresses.Keys - Hosts(bs), op);
      DropsFrom(AService, l.services.Keys - ServiceNames(bs), op);
      DropsFrom(AWorkload, l.workloads.Keys - WorkloadIds(bs), op);
      assert op.DropIngress? ==> op == Drop(AnIngress, op.host);
      assert op.DropService? ==> op == Drop(AService, op.name);
      assert op.DropWorkload? ==> op == Drop(AWorkload, op.id);
    }
  }
}
