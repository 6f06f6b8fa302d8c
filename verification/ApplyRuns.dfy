/** The whole run: apply everything, then prune. */
module ApplyRuns {
  import opened Services
  import opened Manifest
  import opened Edits
  import opened Applying
  import opened ApplyLaws

  /** What the bundles build from an empty cluster. */
  ghost function Declared(bs: seq<Bundle>): Live {
    After(NOTHING, ApplyOps(bs))
  }

  ghost predicate AllWired(bs: seq<Bundle>) {
    forall b | b in bs :: Wired(b.res)
  }

  // ----- The edits of the apply phase -----

  lemma ApplyOpsFrom(bs: seq<Bundle>)
    ensures forall w :: PutWorkload(w) in ApplyOps(bs) <==> DeclaresWorkload(bs, w)
    ensures forall s :: PutService(s) in ApplyOps(bs) <==> DeclaresService(bs, s)
    ensures forall g :: PutIngress(g) in ApplyOps(bs) <==> DeclaresIngress(bs, g)
    ensures forall op | op in ApplyOps(bs) :: op.PutWorkload? || op.PutService? || op.PutIngress?
  {
    hide WorkloadOps, ServiceOps, IngressOps, DeclaresWorkload, DeclaresService, DeclaresIngress;
    WorkloadOpsFrom(bs);
    ServiceOpsFrom(bs);
    IngressOpsFrom(bs);
  }

  lemma WorkloadSets(bs: seq<Bundle>)
    ensures var es := WorkloadEdits(ApplyOps(bs)); AllSets(es) && Keys(es) == WorkloadIds(bs)
  {
    hide ApplyOps, WorkloadEdits;
    var es := WorkloadEdits(ApplyOps(bs));
    WorkloadEditsFrom(ApplyOps(bs));
    ApplyOpsFrom(bs);
    forall b | b in bs ensures b.res.workload.id in Keys(es) {
      assert DeclaresWorkload(bs, b.res.workload);
      assert Set(b.res.workload.id, b.res.workload) in es;
    }
  }

  lemma ServiceSets(bs: seq<Bundle>)
    ensures var es := ServiceEdits(ApplyOps(bs)); AllSets(es) && Keys(es) == ServiceNames(bs)
  {
    hide ApplyOps, ServiceEdits;
    var es := ServiceEdits(ApplyOps(bs));
    ServiceEditsFrom(ApplyOps(bs));
    ApplyOpsFrom(bs);
    forall b, s | b in bs && s in b.res.services ensures s.name in Keys(es) {
      assert DeclaresService(bs, s);
      assert Set(s.name, s) in es;
    }
  }

  lemma IngressSets(bs: seq<Bundle>)
    ensures var es := IngressEdits(ApplyOps(bs)); AllSets(es) && Keys(es) == Hosts(bs)
  {
    hide ApplyOps, IngressEdits;
    var es := IngressEdits(ApplyOps(bs));
    IngressEditsFrom(ApplyOps(bs));
    ApplyOpsFrom(bs);
    forall b, g | b in bs && g in b.res.ingresses ensures g.host in Keys(es) {
      assert DeclaresIngress(bs, g);
      assert Set(g.host, g.service) in es;
    }
  }

  /** The declared keys, and no dangling reference among what is declared. */
  lemma DeclaredKeys(bs: seq<Bundle>)
    ensures var d := Declared(bs);
      d.workloads.Keys == WorkloadIds(bs) && d.services.Keys == ServiceNames(bs) && d.ingresses.Keys == Hosts(bs)
  {
    hide ApplyOps, WorkloadEdits, ServiceEdits, IngressEdits, Edited, After, WorkloadIds, ServiceNames, Hosts, Keys,
         AllSets;
    AfterIsEdited(NOTHING, ApplyOps(bs));
    WorkloadSets(bs);
    ServiceSets(bs);
    IngressSets(bs);
    SetsFrom(WorkloadEdits(ApplyOps(bs)));
    SetsFrom(ServiceEdits(ApplyOps(bs)));
    SetsFrom(IngressEdits(ApplyOps(bs)));
  }

  lemma DeclaredServices(bs: seq<Bundle>, n: string)
    requires AllWired(bs) && n in Declared(bs).services
    ensures Declared(bs).services[n].workload in WorkloadIds(bs)
  {
    hide ApplyOps, ServiceEdits, WorkloadEdits, IngressEdits, Edited, After, Keys, ServiceNames;
    AfterIsEdited(NOTHING, ApplyOps(bs));
    ServiceSets(bs);
    SetsFrom(ServiceEdits(ApplyOps(bs)));
    ServiceEditsFrom(ApplyOps(bs));
    ApplyOpsFrom(bs);
    var s := Declared(bs).services[n];
    assert DeclaresService(bs, s);
    var b :| b in bs && s in b.res.services;
  }

  lemma DeclaredIngresses(bs: seq<Bundle>, h: string)
    requires AllWired(bs) && h in Declared(bs).ingresses
    ensures Declared(bs).ingresses[h] in ServiceNames(bs)
  {
    hide ApplyOps, ServiceEdits, WorkloadEdits, IngressEdits, Edited, After, Keys, Hosts;
    AfterIsEdited(NOTHING, ApplyOps(bs));
    IngressSets(bs);
    SetsFrom(IngressEdits(ApplyOps(bs)));
    IngressEditsFrom(ApplyOps(bs));
    ApplyOpsFrom(bs);
    var g := Ingress(h, Declared(bs).ingresses[h]);
    assert DeclaresIngress(bs, g);
    var b :| b in bs && g in b.res.ingresses;
    var s :| s in b.res.services && s.name == g.service;
  }

  // ----- Phases that leave a table alone -----

  lemma {:induction false} KeepsWorkloads(l: Live, ops: seq<Op>)
    requires forall op | op in ops :: !op.PutWorkload? && !op.DropWorkload?
    ensures After(l, ops).workloads == l.workloads
  {
    hide ServiceEdits, IngressEdits, WorkloadEdits, After;
    AfterIsEdited(l, ops);
    WorkloadEditsFrom(ops);
    SomeElement(WorkloadEdits(ops));
  }

  lemma {:induction false} KeepsServices(l: Live, ops: seq<Op>)
    requires forall op | op in ops :: !op.PutService? && !op.DropService?
    ensures After(l, ops).services == l.services
  {
    hide ServiceEdits, IngressEdits, WorkloadEdits, After;
    AfterIsEdited(l, ops);
    ServiceEditsFrom(ops);
    SomeElement(ServiceEdits(ops));
  }

  lemma {:induction false} KeepsIngresses(l: Live, ops: seq<Op>)
    requires forall op | op in ops :: !op.PutIngress? && !op.DropIngress?
    ensures After(l, ops).ingresses == l.ingresses
  {
    hide ServiceEdits, IngressEdits, WorkloadEdits, After;
    AfterIsEdited(l, ops);
    IngressEditsFrom(ops);
    SomeElement(IngressEdits(ops));
  }

  // ----- One more bundle -----

  lemma {:induction false} DeclaredParts(bs: seq<Bundle>)
    ensures var d := Declared(bs);
      && d.workloads == After(NOTHING, WorkloadOps(bs)).workloads
      && d.services == After(NOTHING, ServiceOps(bs)).services
      && d.ingresses == After(NOTHING, IngressOps(bs)).ingresses
  {
    hide After, WorkloadOps, ServiceOps, IngressOps;
    var l1 := After(NOTHING, WorkloadOps(bs));
    var l2 := After(l1, ServiceOps(bs));
    AfterConcat(NOTHING, WorkloadOps(bs) + ServiceOps(bs), IngressOps(bs));
    AfterConcat(NOTHING, WorkloadOps(bs), ServiceOps(bs));
    WorkloadOpsFrom(bs);
    ServiceOpsFrom(bs);
    IngressOpsFrom(bs);
    KeepsWorkloads(l1, ServiceOps(bs));
    KeepsWorkloads(l2, IngressOps(bs));
    KeepsServices(NOTHING, WorkloadOps(bs));
    KeepsServices(l2, IngressOps(bs));
    KeepsIngresses(NOTHING, WorkloadOps(bs));
    KeepsIngresses(l1, ServiceOps(bs));
    SameTables(NOTHING, l1, ServiceOps(bs));
    SameTables(NOTHING, l2, IngressOps(bs));
  }

  /** What happens to a table depends on that table only. */
  lemma {:induction false} SameTables(l: Live, m: Live, ops: seq<Op>)
    ensures l.services == m.services ==> After(l, ops).services == After(m, ops).services
    ensures l.ingresses == m.ingresses ==> After(l, ops).ingresses == After(m, ops).ingresses
  {
    hide After, Edited, WorkloadEdits, ServiceEdits, IngressEdits;
    AfterIsEdited(l, ops);
    AfterIsEdited(m, ops);
  }

  lemma {:induction false} PutServicesOverlay(l: Live, ss: seq<Service>, n: string)
    ensures var t := After(l, PutServices(ss)).services;
      if exists s :: s in ss && s.name == n then n in t && t[n] in ss && t[n].name == n
      else (n in t <==> n in l.services) && (n in t ==> t[n] == l.services[n])
  {
    hide After, Edited, ServiceEdits, WorkloadEdits, IngressEdits;
    var ops := PutServices(ss);
    var es := ServiceEdits(ops);
    AfterIsEdited(l, ops);
    ServiceEditsFrom(ops);
    SetsOverlay(l.services, es);
    SetsFrom(es);
    if s :| s in ss && s.name == n {
      var i :| 0 <= i < |ss| && ss[i] == s;
      assert ops[i] == PutService(s);
      assert Set(n, s) in es;
    }
  }

  lemma {:induction false} PutIngressesOverlay(l: Live, gs: seq<Ingress>, h: string)
    ensures var t := After(l, PutIngresses(gs)).ingresses;
      if exists g :: g in gs && g.host == h then h in t && Ingress(h, t[h]) in gs
      else (h in t <==> h in l.ingresses) && (h in t ==> t[h] == l.ingresses[h])
  {
    hide After, Edited, ServiceEdits, WorkloadEdits, IngressEdits;
    var ops := PutIngresses(gs);
    var es := IngressEdits(ops);
    AfterIsEdited(l, ops);
    IngressEditsFrom(ops);
    SetsOverlay(l.ingresses, es);
    SetsFrom(es);
    if g :| g in gs && g.host == h {
      var i :| 0 <= i < |gs| && gs[i] == g;
      assert ops[i] == PutIngress(g);
      assert Set(h, g.service) in es;
    }
  }

  /** A bundle overrides the ones before it: its workload, services and ingresses replace those of the same key, and
      everything else stays as it was declared. */
  lemma {:induction false} DeclaredNext(bs: seq<Bundle>, b: Bundle, k: string)
    ensures var d, d' := Declared(bs), Declared(bs + [b]);
      && d'.workloads == d.workloads[b.res.workload.id := b.res.workload]
      && (if exists s :: s in b.res.services && s.name == k
          then k in d'.services && d'.services[k] in b.res.services && d'.services[k].name == k
          else (k in d'.services <==> k in d.services) && (k in d.services ==> d'.services[k] == d.services[k]))
      && (if exists g :: g in b.res.ingresses && g.host == k
          then k in d'.ingresses && Ingress(k, d'.ingresses[k]) in b.res.ingresses
          else (k in d'.ingresses <==> k in d.ingresses) && (k in d.ingresses ==> d'.ingresses[k] == d.ingresses[k]))
  {
    hide After, Declared, Perform, PutServices, PutIngresses;
    var both, w := bs + [b], PutWorkload(b.res.workload);
    assert both[..|both| - 1] == bs;
    DeclaredParts(bs);
    DeclaredParts(both);
    AfterConcat(NOTHING, WorkloadOps(bs), [w]);
    AfterOne(After(NOTHING, WorkloadOps(bs)), w);
    AfterConcat(NOTHING, ServiceOps(bs), PutServices(b.res.services));
    PutServicesOverlay(After(NOTHING, ServiceOps(bs)), b.res.services, k);
    AfterConcat(NOTHING, IngressOps(bs), PutIngresses(b.res.ingresses));
    PutIngressesOverlay(After(NOTHING, IngressOps(bs)), b.res.ingresses, k);
  }

  lemma {:induction false} AfterOne(l: Live, op: Op)
    ensures After(l, [op]) == Perform(l, op)
    ensures op.PutWorkload? ==> Perform(l, op).workloads == l.workloads[op.w.id := op.w]
  {
    assert [op][1..] == [];
    assert After(Perform(l, op), []) == Perform(l, op);
  }

  // ----- The prune phase -----

  lemma {:induction false} IngressesPruned(l: Live, bs: seq<Bundle>)
    ensures After(After(l, ApplyOps(bs)), IngressDrops(l, bs)).ingresses == Declared(bs).ingresses
  {
    hide ApplyOps, IngressDrops, ServiceEdits, WorkloadEdits, IngressEdits, Edited, After, Hosts;
    var puts, drops := ApplyOps(bs), IngressDrops(l, bs);
    AfterIsEdited(l, puts);
    AfterIsEdited(NOTHING, puts);
    AfterIsEdited(After(l, puts), drops);
    IngressSets(bs);
    PruneOpsFrom(l, bs);
    IngressEditsFrom(drops);
    var sets, unsets := IngressEdits(puts), IngressEdits(drops);
    forall h | h in l.ingresses.Keys - Hosts(bs) ensures h in Keys(unsets) {
      assert DropIngress(h) in drops;
      assert Unset(h) in unsets;
    }
    assert Keys(unsets) == l.ingresses.Keys - Keys(sets);
    SetsThenUnsets(l.ingresses, sets, unsets);
  }

  lemma {:induction false} ServicesPruned(l: Live, bs: seq<Bundle>, m: Live)
    requires m.services == After(l, ApplyOps(bs)).services
    ensures After(m, ServiceDrops(l, bs)).services == Declared(bs).services
  {
    hide ApplyOps, ServiceDrops, ServiceEdits, WorkloadEdits, IngressEdits, Edited, After, ServiceNames;
    var puts, drops := ApplyOps(bs), ServiceDrops(l, bs);
    AfterIsEdited(l, puts);
    AfterIsEdited(NOTHING, puts);
    AfterIsEdited(m, drops);
    ServiceSets(bs);
    PruneOpsFrom(l, bs);
    ServiceEditsFrom(drops);
    var sets, unsets := ServiceEdits(puts), ServiceEdits(drops);
    forall n | n in l.services.Keys - ServiceNames(bs) ensures n in Keys(unsets) {
      assert DropService(n) in drops;
      assert Unset(n) in unsets;
    }
    assert Keys(unsets) == l.services.Keys - Keys(sets);
    SetsThenUnsets(l.services, sets, unsets);
  }

  lemma {:induction false} WorkloadsPruned(l: Live, bs: seq<Bundle>, m: Live)
    requires m.workloads == After(l, ApplyOps(bs)).workloads
    ensures After(m, WorkloadDrops(l, bs)).workloads == Declared(bs).workloads
  {
    hide ApplyOps, WorkloadDrops, ServiceEdits, WorkloadEdits, IngressEdits, Edited, After, WorkloadIds;
    var puts, drops := ApplyOps(bs), WorkloadDrops(l, bs);
    AfterIsEdited(l, puts);
    AfterIsEdited(NOTHING, puts);
    AfterIsEdited(m, drops);
    WorkloadSets(bs);
    PruneOpsFrom(l, bs);
    WorkloadEditsFrom(drops);
    var sets, unsets := WorkloadEdits(puts), WorkloadEdits(drops);
    forall id | id in l.workloads.Keys - WorkloadIds(bs) ensures id in Keys(unsets) {
      assert DropWorkload(id) in drops;
      assert Unset(id) in unsets;
    }
    assert Keys(unsets) == l.workloads.Keys - Keys(sets);
    SetsThenUnsets(l.workloads, sets, unsets);
  }

  /** The state between the phases of a prune, each table final once its own phase is over. */
  lemma {:induction false} PruneStages(l: Live, bs: seq<Bundle>)
    ensures var l3 := After(l, ApplyOps(bs));
      var l4 := After(l3, IngressDrops(l, bs));
      var l5 := After(l4, ServiceDrops(l, bs));
      && l4.ingresses == l5.ingresses == Declared(bs).ingresses && l5.services == Declared(bs).services
      && After(l5, WorkloadDrops(l, bs)) == Declared(bs)
  {
    hide After, Declared, ApplyOps, IngressDrops, ServiceDrops, WorkloadDrops, Hosts, ServiceNames, WorkloadIds;
    var l3 := After(l, ApplyOps(bs));
    var l4 := After(l3, IngressDrops(l, bs));
    var l5 := After(l4, ServiceDrops(l, bs));
    PruneOpsFrom(l, bs);
    IngressesPruned(l, bs);
    KeepsServices(l3, IngressDrops(l, bs));
    KeepsWorkloads(l3, IngressDrops(l, bs));
    ServicesPruned(l, bs, l4);
    KeepsIngresses(l4, ServiceDrops(l, bs));
    KeepsWorkloads(l4, ServiceDrops(l, bs));
    WorkloadsPruned(l, bs, l5);
    KeepsIngresses(l5, WorkloadDrops(l, bs));
    KeepsServices(l5, WorkloadDrops(l, bs));
  }

  /** Applying and pruning ends in what the bundles declare, whatever the cluster held. */
  lemma {:induction false} RunIsDeclared(l: Live, bs: seq<Bundle>)
    ensures After(l, RunOps(l, bs, true)) == Declared(bs)
  {
    hide After, Declared, ApplyOps, IngressDrops, ServiceDrops, WorkloadDrops;
    PruneStages(l, bs);
    AfterConcat(l, ApplyOps(bs), PruneOps(l, bs));
    var l3 := After(l, ApplyOps(bs));
    AfterConcat(l3, IngressDrops(l, bs) + ServiceDrops(l, bs), WorkloadDrops(l, bs));
    AfterConcat(l3, IngressDrops(l, bs), ServiceDrops(l, bs));
  }

  /** What a prune deletes is the same before and after the declared resources are applied. */
  lemma {:induction false} PrunePlanStable(l: Live, bs: seq<Bundle>)
    ensures PruneOps(After(l, ApplyOps(bs)), bs) == PruneOps(l, bs)
  {
    hide After, ApplyOps, Sorted, Drops, WorkloadIds, ServiceNames, Hosts, Edited, WorkloadEdits, ServiceEdits,
         IngressEdits;
    var l' := After(l, ApplyOps(bs));
    AfterIsEdited(l, ApplyOps(bs));
    WorkloadSets(bs);
    ServiceSets(bs);
    IngressSets(bs);
    SetsOverlay(l.workloads, WorkloadEdits(ApplyOps(bs)));
    SetsOverlay(l.services, ServiceEdits(ApplyOps(bs)));
    SetsOverlay(l.ingresses, IngressEdits(ApplyOps(bs)));
    SetsFrom(WorkloadEdits(ApplyOps(bs)));
    SetsFrom(ServiceEdits(ApplyOps(bs)));
    SetsFrom(IngressEdits(ApplyOps(bs)));
    assert l'.workloads.Keys - WorkloadIds(bs) == l.workloads.Keys - WorkloadIds(bs);
    assert l'.services.Keys - ServiceNames(bs) == l.services.Keys - ServiceNames(bs);
    assert l'.ingresses.Keys - Hosts(bs) == l.ingresses.Keys - Hosts(bs);
  }

  // ----- Safety -----

  lemma {:induction false} FreeSafe(l: Live, ops: seq<Op>)
    requires forall op | op in ops :: op.PutWorkload? || op.DropIngress?
    ensures AllSafe(l, ops)
    decreases |ops|
  {
    hide Perform;
    if ops != [] {
      assert ops[0] in ops;
      FreeSafe(Perform(l, ops[0]), ops[1..]);
    }
  }

  lemma {:induction false} PutServicesSafe(l: Live, ops: seq<Op>)
    requires forall op | op in ops :: op.PutService? && op.s.workload in l.workloads
    ensures AllSafe(l, ops)
    decreases |ops|
  {
    if ops != [] {
      assert ops[0] in ops;
      PutServicesSafe(Perform(l, ops[0]), ops[1..]);
    }
  }

  lemma {:induction false} PutIngressesSafe(l: Live, ops: seq<Op>)
    requires forall op | op in ops :: op.PutIngress? && op.g.service in l.services
    ensures AllSafe(l, ops)
    decreases |ops|
  {
    if ops != [] {
      assert ops[0] in ops;
      PutIngressesSafe(Perform(l, ops[0]), ops[1..]);
    }
  }

  lemma {:induction false} DropServicesSafe(l: Live, ops: seq<Op>)
    requires forall op, h | op in ops && h in l.ingresses :: op.DropService? && l.ingresses[h] != op.name
    requires forall op | op in ops :: op.DropService?
    ensures AllSafe(l, ops)
    decreases |ops|
  {
    if ops != [] {
      assert ops[0] in ops;
      DropServicesSafe(Perform(l, ops[0]), ops[1..]);
    }
  }

  lemma {:induction false} DropWorkloadsSafe(l: Live, ops: seq<Op>)
    requires forall op, n | op in ops && n in l.services :: op.DropWorkload? && l.services[n].workload != op.id
    requires forall op | op in ops :: op.DropWorkload?
    ensures AllSafe(l, ops)
    decreases |ops|
  {
    if ops != [] {
      assert ops[0] in ops;
      DropWorkloadsSafe(Perform(l, ops[0]), ops[1..]);
    }
  }

  lemma {:induction false} WorkloadsThere(l: Live, bs: seq<Bundle>)
    ensures WorkloadIds(bs) <= After(l, WorkloadOps(bs)).workloads.Keys
  {
    hide WorkloadOps, ServiceEdits, WorkloadEdits, IngressEdits, Edited, After;
    var ops := WorkloadOps(bs);
    var es := WorkloadEdits(ops);
    AfterIsEdited(l, ops);
    WorkloadOpsFrom(bs);
    WorkloadEditsFrom(ops);
    SetsOverlay(l.workloads, es);
    SetsFrom(es);
    forall b | b in bs ensures b.res.workload.id in Keys(es) {
      assert DeclaresWorkload(bs, b.res.workload);
      assert PutWorkload(b.res.workload) in ops;
      assert Set(b.res.workload.id, b.res.workload) in es;
    }
  }

  lemma {:induction false} ServicesThere(l: Live, bs: seq<Bundle>)
    ensures ServiceNames(bs) <= After(l, ServiceOps(bs)).services.Keys
  {
    hide ServiceOps, ServiceEdits, WorkloadEdits, IngressEdits, Edited, After;
    var ops := ServiceOps(bs);
    var es := ServiceEdits(ops);
    AfterIsEdited(l, ops);
    ServiceOpsFrom(bs);
    ServiceEditsFrom(ops);
    SetsOverlay(l.services, es);
    SetsFrom(es);
    forall b, s | b in bs && s in b.res.services ensures s.name in Keys(es) {
      assert DeclaresService(bs, s);
      assert PutService(s) in ops;
      assert Set(s.name, s) in es;
    }
  }

  lemma {:induction false} ServiceOpsSafe(l: Live, bs: seq<Bundle>)
    requires AllWired(bs) && WorkloadIds(bs) <= l.workloads.Keys
    ensures AllSafe(l, ServiceOps(bs))
  {
    hide ServiceOps, AllSafe;
    ServiceOpsFrom(bs);
    forall op | op in ServiceOps(bs) ensures op.s.workload in l.workloads {
      var b :| b in bs && op.s in b.res.services;
      assert b.res.workload.id in WorkloadIds(bs);
    }
    PutServicesSafe(l, ServiceOps(bs));
  }

  lemma {:induction false} IngressOpsSafe(l: Live, bs: seq<Bundle>)
    requires AllWired(bs) && ServiceNames(bs) <= l.services.Keys
    ensures AllSafe(l, IngressOps(bs))
  {
    hide IngressOps, AllSafe;
    IngressOpsFrom(bs);
    forall op | op in IngressOps(bs) ensures op.g.service in l.services {
      var b :| b in bs && op.g in b.res.ingresses;
      var s :| s in b.res.services && s.name == op.g.service;
      assert s.name in ServiceNames(bs);
    }
    PutIngressesSafe(l, IngressOps(bs));
  }

  lemma {:induction false} ApplySafe(l: Live, bs: seq<Bundle>)
    requires AllWired(bs)
    ensures AllSafe(l, ApplyOps(bs))
  {
    hide WorkloadOps, ServiceOps, IngressOps, After, AllSafe, WorkloadIds, ServiceNames, AllWired;
    var l1 := After(l, WorkloadOps(bs));
    var l2 := After(l1, ServiceOps(bs));
    WorkloadOpsFrom(bs);
    FreeSafe(l, WorkloadOps(bs));
    WorkloadsThere(l, bs);
    ServiceOpsSafe(l1, bs);
    ServicesThere(l1, bs);
    IngressOpsSafe(l2, bs);
    AllSafeConcat(l, WorkloadOps(bs), ServiceOps(bs));
    AfterConcat(l, WorkloadOps(bs), ServiceOps(bs));
    AllSafeConcat(l, WorkloadOps(bs) + ServiceOps(bs), IngressOps(bs));
  }

  lemma {:induction false} ServiceDropsSafe(l: Live, bs: seq<Bundle>, m: Live)
    requires AllWired(bs) && m.ingresses == Declared(bs).ingresses
    ensures AllSafe(m, ServiceDrops(l, bs))
  {
    hide ServiceDrops, AllSafe, Declared, AllWired, ServiceNames;
    PruneOpsFrom(l, bs);
    forall op, h | op in ServiceDrops(l, bs) && h in m.ingresses ensures m.ingresses[h] != op.name {
      DeclaredIngresses(bs, h);
    }
    DropServicesSafe(m, ServiceDrops(l, bs));
  }

  lemma {:induction false} WorkloadDropsSafe(l: Live, bs: seq<Bundle>, m: Live)
    requires AllWired(bs) && m.services == Declared(bs).services
    ensures AllSafe(m, WorkloadDrops(l, bs))
  {
    hide WorkloadDrops, AllSafe, Declared, AllWired, WorkloadIds;
    PruneOpsFrom(l, bs);
    forall op, n | op in WorkloadDrops(l, bs) && n in m.services ensures m.services[n].workload != op.id {
      DeclaredServices(bs, n);
    }
    DropWorkloadsSafe(m, WorkloadDrops(l, bs));
  }

  lemma {:induction false} RunSafe(l: Live, bs: seq<Bundle>, prune: bool)
    requires AllWired(bs)
    ensures AllSafe(l, RunOps(l, bs, prune))
  {
    hide After, AllSafe, ApplyOps, IngressDrops, ServiceDrops, WorkloadDrops, Declared, AllWired;
    ApplySafe(l, bs);
    if prune {
      PruneStages(l, bs);
      var l3 := After(l, ApplyOps(bs));
      var l4 := After(l3, IngressDrops(l, bs));
      PruneOpsFrom(l, bs);
      FreeSafe(l3, IngressDrops(l, bs));
      ServiceDropsSafe(l, bs, l4);
      WorkloadDropsSafe(l, bs, After(l4, ServiceDrops(l, bs)));
      AllSafeConcat(l3, IngressDrops(l, bs), ServiceDrops(l, bs));
      AfterConcat(l3, IngressDrops(l, bs), ServiceDrops(l, bs));
      AllSafeConcat(l3, IngressDrops(l, bs) + ServiceDrops(l, bs), WorkloadDrops(l, bs));
      AllSafeConcat(l, ApplyOps(bs), PruneOps(l, bs));
    }
  }

  // ----- The theorems -----

  /** However its calls fare, a run started with no dangling reference stops with none: after every call that was
      made, and after one that failed or took effect without being acknowledged. */
  lemma {:induction false} RunKeepsIntact(l: Live, bs: seq<Bundle>, prune: bool, net: Net, k: nat)
    requires Intact(l) && AllWired(bs)
    ensures Intact(Issue(l, RunOps(l, bs, prune), net, k).live)
  {
    hide RunOps, Intact, Issue, AllSafe, AllWired;
    RunSafe(l, bs, prune);
    IssueIntact(l, RunOps(l, bs, prune), net, k);
  }

  /** A completed run with prune leaves exactly the declared resources, with no dangling reference even if there
      was one before; running it again deletes nothing and changes nothing. */
  lemma {:induction false} CompletedRun(l: Live, bs: seq<Bundle>, net: Net, k: nat)
    requires AllWired(bs)
    requires Issue(l, RunOps(l, bs, true), net, k).done == |RunOps(l, bs, true)|
    ensures var l' := Issue(l, RunOps(l, bs, true), net, k).live;
      && l' == Declared(bs) && Intact(l')
      && l'.workloads.Keys == WorkloadIds(bs) && l'.services.Keys == ServiceNames(bs) && l'.ingresses.Keys == Hosts(bs)
      && PruneOps(l', bs) == [] && After(l', RunOps(l', bs, true)) == l'
  {
    hide After, Issue, RunOps, ApplyOps, Declared, WorkloadIds, ServiceNames, Hosts, AllWired;
    IssueCompletes(l, RunOps(l, bs, true), net, k);
    RunIsDeclared(l, bs);
    DeclaredKeys(bs);
    var l' := Declared(bs);
    forall n | n in l'.services ensures l'.services[n].workload in l'.workloads {
      DeclaredServices(bs, n);
    }
    forall h | h in l'.ingresses ensures l'.ingresses[h] in l'.services {
      DeclaredIngresses(bs, h);
    }
    RunIsDeclared(l', bs);
    NothingToPrune(l', bs);
  }

  lemma NothingToPrune(l: Live, bs: seq<Bundle>)
    requires l.workloads.Keys <= WorkloadIds(bs) && l.services.Keys <= ServiceNames(bs) && l.ingresses.Keys <= Hosts(bs)
    ensures PruneOps(l, bs) == []
  {
    hide WorkloadIds, ServiceNames, Hosts;
    PruneOpsFrom(l, bs);
    SomeElement(IngressDrops(l, bs));
    SomeElement(ServiceDrops(l, bs));
    SomeElement(WorkloadDrops(l, bs));
  }

  /** Bundles that come from acceptable manifests are wired, overlay or not. */
  lemma {:induction false} LoadedWired(srcs: seq<Source>)
    requires Loadable(srcs)
    ensures AllWired(Bundles(srcs))
  {
    hide Acceptable, Lowered, Wired;
    forall b | b in Bundles(srcs) ensures Wired(b.res) {
      var i :| 0 <= i < |srcs| && Bundles(srcs)[i] == b;
      assert srcs[i] in srcs;
      LoweredWired(srcs[i].app);
      MergeWired(Lowered(srcs[i].app), srcs[i].overlay);
    }
  }

  lemma MergeWired(res: Resolved, overlay: Overlay)
    requires Wired(res)
    ensures Wired(Merge(res, overlay).res)
  {
  }
}
