/** `smith apply` as a program over a cluster, proved against the runs it should make. */
module Applier {
  import opened Ordering
  import opened Services
  import opened Manifest
  import opened Applying
  import opened ApplyLaws
  import opened ApplyRuns

  // ----- Sorting with repeats -----

  ghost predicate Ascending(q: seq<string>) {
    forall i, j | 0 <= i < j < |q| :: !StringLess(q[j], q[i])
  }

  lemma {:induction false} CountOne(q: seq<string>, x: string)
    requires Distinct(q)
    ensures multiset(q)[x] <= 1
  {
    if q != [] {
      var n := |q| - 1;
      assert q == q[..n] + [q[n]];
      CountOne(q[..n], x);
      assert q[n] !in q[..n];
    }
  }

  lemma CountTwo(q: seq<string>, i: nat, j: nat)
    requires i < j < |q|
    ensures q[i] == q[j] ==> multiset(q)[q[j]] >= 2
  {
    if q[i] == q[j] {
      assert q == q[..j] + [q[j]] + q[j + 1..];
      assert q[i] in multiset(q[..j]);
    }
  }

  /** A sorted arrangement of distinct keys is the sorted arrangement. */
  lemma SortedDistinct(q: seq<string>, s: seq<string>)
    requires Ascending(q) && multiset(q) == multiset(s) && Distinct(s)
    ensures q == Sorted(Elements(s))
  {
    forall i, j | 0 <= i < j < |q| ensures StringLess(q[i], q[j]) {
      StringLessTrichotomy(q[i], q[j]);
      CountTwo(q, i, j);
      CountOne(s, q[j]);
    }
    assert forall x :: x in q <==> x in multiset(q);
    assert forall x :: x in s <==> x in multiset(s);
    StringsTotal(Elements(s));
    ArrangeUnique(q, Elements(s), StringLess);
  }

  /** Insert before the first element that is not smaller. */
  method Insert(q: seq<string>, x: string) returns (r: seq<string>)
    requires Ascending(q)
    ensures Ascending(r) && multiset(r) == multiset(q) + multiset{x}
  {
    var k := 0;
    while k < |q| && StringLess(q[k], x)
      invariant 0 <= k <= |q| && forall i | 0 <= i < k :: StringLess(q[i], x)
    {
      k := k + 1;
    }
    assert q == q[..k] + q[k..];
    r := q[..k] + [x] + q[k..];
    InsertAscending(q, x, k);
  }

  lemma {:induction false} InsertAscending(q: seq<string>, x: string, k: nat)
    requires Ascending(q) && k <= |q| && (forall i | 0 <= i < k :: StringLess(q[i], x))
    requires k < |q| ==> !StringLess(q[k], x)
    ensures Ascending(q[..k] + [x] + q[k..])
  {
    hide StringLess;
    forall i | 0 <= i < k ensures !StringLess(x, q[i]) {
      StringLessTrichotomy(x, q[i]);
    }
    forall j | k <= j < |q| ensures !StringLess(q[j], x) {
      NotBefore(q[k], q[j], x);
    }
  }

  lemma {:induction false} NotBefore(a: string, b: string, x: string)
    requires !StringLess(a, x) && (a == b || !StringLess(b, a))
    ensures !StringLess(b, x)
  {
    hide StringLess;
    StringLessTrichotomy(a, x);
    if StringLess(b, x) && StringLess(x, a) {
      StringLessTransitive(b, x, a);
    }
  }

  method SortStrings(s: seq<string>) returns (r: seq<string>)
    ensures Ascending(r) && multiset(r) == multiset(s)
    ensures Distinct(s) ==> r == Sorted(Elements(s))
  {
    r := [];
    for i := 0 to |s|
      invariant Ascending(r) && multiset(r) == multiset(s[..i])
    {
      assert s[..i + 1] == s[..i] + [s[i]];
      r := Insert(r, s[i]);
    }
    assert s[..|s|] == s;
    if Distinct(s) {
      SortedDistinct(r, s);
    }
  }

  // ----- Delta -----

  /** Partition of the declared keys by whether they are live, and the live keys that are not declared. */
  method Delta(desired: seq<string>, live: seq<string>)
    returns (create: seq<string>, del: seq<string>, inSync: seq<string>)
    ensures Ascending(create) && Ascending(del) && Ascending(inSync)
    ensures multiset(create) + multiset(inSync) == multiset(desired)
    ensures (forall k | k in create :: k !in live) && forall k | k in inSync :: k in live
    ensures forall k :: multiset(del)[k] == if k in desired then 0 else multiset(live)[k]
    ensures Distinct(live) ==> del == Sorted(Elements(live) - Elements(desired))
  {
    var desiredSet, liveSet := set k | k in desired, set k | k in live;
    create, del, inSync := [], [], [];
    for i := 0 to |desired|
      invariant multiset(create) + multiset(inSync) == multiset(desired[..i])
      invariant (forall k | k in create :: k !in live) && forall k | k in inSync :: k in live
    {
      assert desired[..i + 1] == desired[..i] + [desired[i]];
      if desired[i] in liveSet {
        inSync := inSync + [desired[i]];
      } else {
        create := create + [desired[i]];
      }
    }
    assert desired[..|desired|] == desired;
    del := LiveOnly(live, desiredSet);
    ghost var picked := create;
    create := SortStrings(create);
    assert forall k :: k in create <==> k in multiset(create);
    assert forall k :: k in picked <==> k in multiset(picked);
    picked := inSync;
    inSync := SortStrings(inSync);
    assert forall k :: k in inSync <==> k in multiset(inSync);
    assert forall k :: k in picked <==> k in multiset(picked);
    del := SortStrings(del);
  }

  method LiveOnly(live: seq<string>, desired: set<string>) returns (del: seq<string>)
    ensures forall k :: multiset(del)[k] == if k in desired then 0 else multiset(live)[k]
    ensures Distinct(live) ==> Distinct(del)
    ensures Elements(del) == Elements(live) - desired
  {
    del := [];
    for i := 0 to |live|
      invariant forall k :: multiset(del)[k] == if k in desired then 0 else multiset(live[..i])[k]
      invariant Distinct(live) ==> Distinct(del)
      invariant forall k :: k in del <==> k in live[..i] && k !in desired
    {
      assert live[..i + 1] == live[..i] + [live[i]];
      assert Distinct(live) ==> live[i] !in live[..i];
      if live[i] !in desired {
        del := del + [live[i]];
      }
    }
    assert live[..|live|] == live;
  }

  // ----- Keys -----

  function KeyOf(op: Op): string {
    match op
    case PutWorkload(w) => w.id
    case PutService(s) => s.name
    case PutIngress(g) => g.host
    case DropIngress(host) => host
    case DropService(name) => name
    case DropWorkload(id) => id
  }

  function KeysOf(ops: seq<Op>): (ks: seq<string>)
    ensures |ks| == |ops| && forall i | 0 <= i < |ops| :: ks[i] == KeyOf(ops[i])
  {
    seq(|ops|, i requires 0 <= i < |ops| => KeyOf(ops[i]))
  }

  lemma KeysConcat(a: seq<Op>, b: seq<Op>)
    ensures KeysOf(a + b) == KeysOf(a) + KeysOf(b)
  {
  }

  method ServiceKeys(ss: seq<Service>) returns (names: seq<string>)
    ensures names == KeysOf(PutServices(ss))
  {
    names := [];
    for j := 0 to |ss|
      invariant names == KeysOf(PutServices(ss))[..j]
    {
      names := names + [ss[j].name];
    }
  }

  method IngressKeys(gs: seq<Ingress>) returns (hosts: seq<string>)
    ensures hosts == KeysOf(PutIngresses(gs))
  {
    hosts := [];
    for j := 0 to |gs|
      invariant hosts == KeysOf(PutIngresses(gs))[..j]
    {
      hosts := hosts + [gs[j].host];
    }
  }

  /** The declared keys of each kind, in the order in which they are applied. */
  method DesiredKeys(bs: seq<Bundle>) returns (ws: seq<string>, ss: seq<string>, gs: seq<string>)
    ensures ws == KeysOf(WorkloadOps(bs)) && ss == KeysOf(ServiceOps(bs)) && gs == KeysOf(IngressOps(bs))
    ensures Elements(ws) == WorkloadIds(bs) && Elements(ss) == ServiceNames(bs) && Elements(gs) == Hosts(bs)
  {
    hide KeysOf, PutServices, PutIngresses;
    ws, ss, gs := [], [], [];
    for i := 0 to |bs|
      invariant ws == KeysOf(WorkloadOps(bs[..i])) && ss == KeysOf(ServiceOps(bs[..i]))
      invariant gs == KeysOf(IngressOps(bs[..i]))
    {
      var r := bs[i].res;
      assert bs[..i + 1][..i] == bs[..i];
      KeysConcat(WorkloadOps(bs[..i]), [PutWorkload(r.workload)]);
      KeysConcat(ServiceOps(bs[..i]), PutServices(r.services));
      KeysConcat(IngressOps(bs[..i]), PutIngresses(r.ingresses));
      ws := ws + [r.workload.id];
      var names := ServiceKeys(r.services);
      var hosts := IngressKeys(r.ingresses);
      ss, gs := ss + names, gs + hosts;
    }
    assert bs[..|bs|] == bs;
    KeySets(bs);
  }

  lemma {:induction false} KeySets(bs: seq<Bundle>)
    ensures Elements(KeysOf(WorkloadOps(bs))) == WorkloadIds(bs)
    ensures Elements(KeysOf(ServiceOps(bs))) == ServiceNames(bs)
    ensures Elements(KeysOf(IngressOps(bs))) == Hosts(bs)
  {
    hide WorkloadOps, ServiceOps, IngressOps;
    WorkloadOpsFrom(bs);
    ServiceOpsFrom(bs);
    IngressOpsFrom(bs);
    forall k | k in KeysOf(ServiceOps(bs)) ensures k in ServiceNames(bs) {
      var i :| 0 <= i < |ServiceOps(bs)| && KeyOf(ServiceOps(bs)[i]) == k;
      var s := ServiceOps(bs)[i].s;
      assert DeclaresService(bs, s);
      var b :| b in bs && s in b.res.services;
      assert s.name in ServiceNames(bs);
    }
    forall k | k in KeysOf(IngressOps(bs)) ensures k in Hosts(bs) {
      var i :| 0 <= i < |IngressOps(bs)| && KeyOf(IngressOps(bs)[i]) == k;
      var g := IngressOps(bs)[i].g;
      assert DeclaresIngress(bs, g);
      var b :| b in bs && g in b.res.ingresses;
      assert g.host in Hosts(bs);
    }
    forall b | b in bs ensures b.res.workload.id in KeysOf(WorkloadOps(bs)) {
      assert DeclaresWorkload(bs, b.res.workload);
      KeyThere(WorkloadOps(bs), PutWorkload(b.res.workload));
    }
    forall b, s | b in bs && s in b.res.services ensures s.name in KeysOf(ServiceOps(bs)) {
      assert DeclaresService(bs, s);
      KeyThere(ServiceOps(bs), PutService(s));
    }
    forall b, g | b in bs && g in b.res.ingresses ensures g.host in KeysOf(IngressOps(bs)) {
      assert DeclaresIngress(bs, g);
      KeyThere(IngressOps(bs), PutIngress(g));
    }
  }

  lemma KeyThere(ops: seq<Op>, op: Op)
    requires op in ops
    ensures KeyOf(op) in KeysOf(ops)
  {
    var i :| 0 <= i < |ops| && ops[i] == op;
    assert KeysOf(ops)[i] == KeyOf(op);
  }

  /** The live keys of each kind; fails when the cluster cannot be listed. */
  method LiveKeys(cluster: Cluster, listable: bool)
    returns (ok: bool, ws: seq<string>, ss: seq<string>, gs: seq<string>)
    ensures ok == listable
    ensures ok ==> Distinct(ws) && Distinct(ss) && Distinct(gs)
    ensures ok ==> Elements(ws) == cluster.live.workloads.Keys && Elements(ss) == cluster.live.services.Keys
                   && Elements(gs) == cluster.live.ingresses.Keys
  {
    if !listable {
      return false, [], [], [];
    }
    ok := true;
    ws := cluster.List(cluster.live.workloads.Keys);
    ss := cluster.List(cluster.live.services.Keys);
    gs := cluster.List(cluster.live.ingresses.Keys);
  }

  /** The operations that would remove everything live and not declared. */
  method PrunePlan(cluster: Cluster, bs: seq<Bundle>, listable: bool)
    returns (ok: bool, delIng: seq<string>, delSvc: seq<string>, delWl: seq<string>)
    ensures ok == listable
    ensures ok ==> Drops(AnIngress, delIng) + Drops(AService, delSvc) + Drops(AWorkload, delWl)
                   == PruneOps(cluster.live, bs)
  {
    hide Sorted, Drops, WorkloadIds, ServiceNames, Hosts, WorkloadOps, ServiceOps, IngressOps;
    delIng, delSvc, delWl := [], [], [];
    var dw, ds, di := DesiredKeys(bs);
    var lw, ls, li;
    ok, lw, ls, li := LiveKeys(cluster, listable);
    if !ok {
      return;
    }
    var create, inSync;
    create, delIng, inSync := Delta(di, li);
    create, delSvc, inSync := Delta(ds, ls);
    create, delWl, inSync := Delta(dw, lw);
  }

  // ----- Issuing operations -----

  /** Make the calls in order, stopping at the first error. */
  method IssueAll(cluster: Cluster, ops: seq<Op>, net: Net) returns (done: seq<Op>, ok: bool)
    modifies cluster
    ensures Follows(old(cluster.live), old(cluster.calls), ops, net, cluster.live, cluster.calls, done, ok)
  {
    hide Follows;
    done := [];
    assert Follows(old(cluster.live), old(cluster.calls), [], net, cluster.live, cluster.calls, [], true) by {
      FollowsNone(cluster.live, cluster.calls, net);
    }
    for i := 0 to |ops|
      invariant done == ops[..i]
      invariant Follows(old(cluster.live), old(cluster.calls), ops[..i], net, cluster.live, cluster.calls, ops[..i],
                        true)
    {
      ghost var l, k := cluster.live, cluster.calls;
      ok := cluster.Call(ops[i], net);
      ghost var last := if ok then [ops[i]] else [];
      FollowsThen(old(cluster.live), old(cluster.calls), ops[..i], l, k, [ops[i]], net,
                  cluster.live, cluster.calls, last, ok);
      assert ops[..i + 1] == ops[..i] + [ops[i]] && ops[..i] + [] == ops[..i];
      if !ok {
        FollowsStop(old(cluster.live), old(cluster.calls), ops[..i + 1], ops, net, cluster.live, cluster.calls, done);
        return;
      }
      done := done + [ops[i]];
    }
    assert ops[..|ops|] == ops;
    ok := true;
  }

  lemma FollowsNone(l: Live, k: nat, net: Net)
    ensures Follows(l, k, [], net, l, k, [], true)
  {
  }

  function Part(kind: Kind, b: Bundle): seq<Op> {
    match kind
    case AWorkload => [PutWorkload(b.res.workload)]
    case AService => PutServices(b.res.services)
    case AnIngress => PutIngresses(b.res.ingresses)
  }

  function OpsOf(kind: Kind, bs: seq<Bundle>): seq<Op> {
    match kind case AWorkload => WorkloadOps(bs) case AService => ServiceOps(bs) case AnIngress => IngressOps(bs)
  }

  lemma OpsNext(kind: Kind, bs: seq<Bundle>, i: nat)
    requires i < |bs|
    ensures OpsOf(kind, bs[..i + 1]) == OpsOf(kind, bs[..i]) + Part(kind, bs[i])
  {
    assert bs[..i + 1][..i] == bs[..i];
  }

  lemma {:induction false} OpsPrefix(kind: Kind, bs: seq<Bundle>, i: nat)
    requires i <= |bs|
    ensures OpsOf(kind, bs[..i]) <= OpsOf(kind, bs)
    decreases |bs| - i
  {
    hide OpsOf, Part;
    if i == |bs| {
      assert bs[..i] == bs;
    } else {
      OpsNext(kind, bs, i);
      OpsPrefix(kind, bs, i + 1);
    }
  }

  /** Apply one kind of resource of every bundle, in bundle order. */
  method ApplyKind(cluster: Cluster, kind: Kind, bs: seq<Bundle>, net: Net) returns (done: seq<Op>, ok: bool)
    modifies cluster
    ensures Follows(old(cluster.live), old(cluster.calls), OpsOf(kind, bs), net, cluster.live, cluster.calls, done, ok)
  {
    hide Follows, OpsOf, Part;
    done := [];
    assert OpsOf(kind, bs[..0]) == [] by {
      OpsNone(kind, bs[..0]);
    }
    FollowsNone(cluster.live, cluster.calls, net);
    for i := 0 to |bs|
      invariant done == OpsOf(kind, bs[..i])
      invariant Follows(old(cluster.live), old(cluster.calls), done, net, cluster.live, cluster.calls, done, true)
    {
      ghost var l, k := cluster.live, cluster.calls;
      var some;
      some, ok := IssueAll(cluster, Part(kind, bs[i]), net);
      FollowsThen(old(cluster.live), old(cluster.calls), done, l, k, Part(kind, bs[i]), net,
                  cluster.live, cluster.calls, some, ok);
      OpsNext(kind, bs, i);
      done := done + some;
      if !ok {
        OpsPrefix(kind, bs, i + 1);
        FollowsStop(old(cluster.live), old(cluster.calls), OpsOf(kind, bs[..i + 1]), OpsOf(kind, bs), net,
                    cluster.live, cluster.calls, done);
        return;
      }
      FollowsAll(old(cluster.live), old(cluster.calls), OpsOf(kind, bs[..i + 1]), net,
                 cluster.live, cluster.calls, done);
    }
    assert bs[..|bs|] == bs;
    ok := true;
  }

  lemma OpsNone(kind: Kind, bs: seq<Bundle>)
    requires bs == []
    ensures OpsOf(kind, bs) == []
  {
  }

  lemma FollowsAll(l: Live, k: nat, ops: seq<Op>, net: Net, l': Live, k': nat, done: seq<Op>)
    requires Follows(l, k, ops, net, l', k', done, true)
    ensures done == ops
  {
  }

  /** Delete what is live and not declared: ingresses, then services, then workloads. */
  method PruneDrift(cluster: Cluster, bs: seq<Bundle>, listable: bool, net: Net) returns (done: seq<Op>, ok: bool)
    modifies cluster
    ensures !listable ==> !ok && done == [] && cluster.live == old(cluster.live) && cluster.calls == old(cluster.calls)
    ensures listable ==> Follows(old(cluster.live), old(cluster.calls), PruneOps(old(cluster.live), bs), net,
                                 cluster.live, cluster.calls, done, ok)
  {
    hide Follows, Drops, PruneOps;
    done := [];
    var delIng, delSvc, delWl;
    ok, delIng, delSvc, delWl := PrunePlan(cluster, bs, listable);
    if !ok {
      return;
    }
    done, ok := IssueThree(cluster, Drops(AnIngress, delIng), Drops(AService, delSvc), Drops(AWorkload, delWl), net);
  }

  /** Three lists of calls, one after the other. */
  method IssueThree(cluster: Cluster, a: seq<Op>, b: seq<Op>, c: seq<Op>, net: Net) returns (done: seq<Op>, ok: bool)
    modifies cluster
    ensures Follows(old(cluster.live), old(cluster.calls), a + b + c, net, cluster.live, cluster.calls, done, ok)
  {
    hide Follows;
    ghost var l0, k0 := cluster.live, cluster.calls;
    done, ok := IssueAll(cluster, a, net);
    if !ok {
      FollowsStop(l0, k0, a, a + b + c, net, cluster.live, cluster.calls, done);
      return;
    }
    FollowsAll(l0, k0, a, net, cluster.live, cluster.calls, done);
    ghost var l1, k1 := cluster.live, cluster.calls;
    var some;
    some, ok := IssueAll(cluster, b, net);
    FollowsThen(l0, k0, a, l1, k1, b, net, cluster.live, cluster.calls, some, ok);
    done := done + some;
    if !ok {
      FollowsStop(l0, k0, a + b, a + b + c, net, cluster.live, cluster.calls, done);
      return;
    }
    FollowsAll(l0, k0, a + b, net, cluster.live, cluster.calls, done);
    ghost var l2, k2 := cluster.live, cluster.calls;
    some, ok := IssueAll(cluster, c, net);
    FollowsThen(l0, k0, a + b, l2, k2, c, net, cluster.live, cluster.calls, some, ok);
    done := done + some;
  }

  /** All workloads, then all services, then all ingresses. */
  method ApplyAll(cluster: Cluster, bs: seq<Bundle>, net: Net) returns (done: seq<Op>, ok: bool)
    modifies cluster
    ensures Follows(old(cluster.live), old(cluster.calls), ApplyOps(bs), net, cluster.live, cluster.calls, done, ok)
  {
    hide Follows, WorkloadOps, ServiceOps, IngressOps;
    ghost var l0, k0 := cluster.live, cluster.calls;
    ghost var a, b, c := WorkloadOps(bs), ServiceOps(bs), IngressOps(bs);
    done, ok := ApplyKind(cluster, AWorkload, bs, net);
    if !ok {
      FollowsStop(l0, k0, a, a + b + c, net, cluster.live, cluster.calls, done);
      return;
    }
    FollowsAll(l0, k0, a, net, cluster.live, cluster.calls, done);
    ghost var l1, k1 := cluster.live, cluster.calls;
    var some;
    some, ok := ApplyKind(cluster, AService, bs, net);
    FollowsThen(l0, k0, a, l1, k1, b, net, cluster.live, cluster.calls, some, ok);
    done := done + some;
    if !ok {
      FollowsStop(l0, k0, a + b, a + b + c, net, cluster.live, cluster.calls, done);
      return;
    }
    FollowsAll(l0, k0, a + b, net, cluster.live, cluster.calls, done);
    ghost var l2, k2 := cluster.live, cluster.calls;
    some, ok := ApplyKind(cluster, AnIngress, bs, net);
    FollowsThen(l0, k0, a + b, l2, k2, c, net, cluster.live, cluster.calls, some, ok);
    done := done + some;
  }

  /** A real run: although it lists what is live only after applying, it deletes what the initial state calls for. */
  method ApplyAndPrune(cluster: Cluster, bs: seq<Bundle>, prune: bool, listable: bool, net: Net)
    returns (done: seq<Op>, ok: bool)
    modifies cluster
    ensures var ops := RunOps(old(cluster.live), bs, prune && listable);
      && Follows(old(cluster.live), old(cluster.calls), ops, net, cluster.live, cluster.calls, done, done == ops)
      && ok == (done == ops && (prune ==> listable))
  {
    hide Follows, ApplyOps, PruneOps, After;
    ghost var l0, k0 := cluster.live, cluster.calls;
    ghost var ops := RunOps(l0, bs, prune && listable);
    done, ok := ApplyAll(cluster, bs, net);
    FollowsDone(l0, k0, ApplyOps(bs), net, cluster.live, cluster.calls, done, ok);
    if !ok {
      FollowsStop(l0, k0, ApplyOps(bs), ops, net, cluster.live, cluster.calls, done);
      FollowsDone(l0, k0, ops, net, cluster.live, cluster.calls, done, false);
      return;
    }
    if prune {
      ghost var l1, k1 := cluster.live, cluster.calls;
      PrunePlanStable(l0, bs);
      var some;
      some, ok := PruneDrift(cluster, bs, listable, net);
      if listable {
        FollowsThen(l0, k0, ApplyOps(bs), l1, k1, PruneOps(l0, bs), net, cluster.live, cluster.calls, some, ok);
      }
      done := done + some;
      if listable {
        FollowsDone(l0, k0, ops, net, cluster.live, cluster.calls, done, ok);
      }
    }
  }

  lemma {:induction false} FollowsDone(l: Live, k: nat, ops: seq<Op>, net: Net, l': Live, k': nat,
                                       done: seq<Op>, ok: bool)
    requires Follows(l, k, ops, net, l', k', done, ok)
    ensures ok <==> done == ops
    ensures ok ==> l' == After(l, ops)
  {
    if ok {
      IssueCompletes(l, ops, net, k);
    }
  }

  // ----- The dry-run plan -----

  /** A line of the plan; the value of an environment variable is left out when it came from the overlay. */
  datatype Line =
    | WorkloadLine(id: string, image: string, replicas: int) | EnvLine(key: string, value: Option<string>)
    | ServiceLine(name: string, port: int, nodePort: int) | IngressLine(host: string, service: string)

  ghost function EnvLines(env: map<string, string>, hidden: set<string>, keys: seq<string>): seq<Line>
    requires forall k | k in keys :: k in env
  {
    seq(|keys|, i requires 0 <= i < |keys| =>
      EnvLine(keys[i], if keys[i] in hidden then None else Some(env[keys[i]])))
  }

  ghost function WorkloadLines(b: Bundle): seq<Line> {
    var w := b.res.workload;
    SortedMembers(w.spec.env.Keys);
    [WorkloadLine(w.id, w.spec.image, w.replicas)] + EnvLines(w.spec.env, b.hidden, Sorted(w.spec.env.Keys))
  }

  function ServiceLines(ss: seq<Service>): seq<Line> {
    seq(|ss|, i requires 0 <= i < |ss| => ServiceLine(ss[i].name, ss[i].port, ss[i].nodePort))
  }

  function IngressLines(gs: seq<Ingress>): seq<Line> {
    seq(|gs|, i requires 0 <= i < |gs| => IngressLine(gs[i].host, gs[i].service))
  }

  ghost function LinesOf(kind: Kind, bs: seq<Bundle>): seq<Line> {
    if bs == [] then []
    else
      var b := bs[|bs| - 1];
      LinesOf(kind, bs[..|bs| - 1]) + BundleLines(kind, b)
  }

  ghost function BundleLines(kind: Kind, b: Bundle): seq<Line> {
    match kind
    case AWorkload => WorkloadLines(b)
    case AService => ServiceLines(b.res.services)
    case AnIngress => IngressLines(b.res.ingresses)
  }

  ghost function PlanLines(bs: seq<Bundle>): seq<Line> {
    LinesOf(AWorkload, bs) + LinesOf(AService, bs) + LinesOf(AnIngress, bs)
  }

  lemma SortedMembers(keys: set<string>)
    ensures forall k :: k in Sorted(keys) <==> k in keys
  {
    StringsTotal(keys);
  }

  method PrintEnv(env: map<string, string>, hidden: set<string>, keys: seq<string>) returns (out: seq<Line>)
    requires forall k | k in keys :: k in env
    ensures out == EnvLines(env, hidden, keys)
  {
    out := [];
    for i := 0 to |keys|
      invariant out == EnvLines(env, hidden, keys)[..i]
    {
      assert keys[i] in keys;
      if keys[i] in hidden {
        out := out + [EnvLine(keys[i], None)];
      } else {
        out := out + [EnvLine(keys[i], Some(env[keys[i]]))];
      }
    }
  }

  method SortedKeys(cluster: Cluster, env: map<string, string>) returns (keys: seq<string>)
    ensures keys == Sorted(env.Keys)
  {
    hide Sorted;
    keys := cluster.List(env.Keys);
    keys := SortStrings(keys);
  }

  method PrintKind(cluster: Cluster, kind: Kind, bs: seq<Bundle>) returns (out: seq<Line>)
    ensures out == LinesOf(kind, bs)
  {
    hide Sorted, EnvLines;
    out := [];
    for i := 0 to |bs|
      invariant out == LinesOf(kind, bs[..i])
    {
      assert bs[..i + 1][..i] == bs[..i];
      var r := bs[i].res;
      match kind {
        case AWorkload =>
          var keys := SortedKeys(cluster, r.workload.spec.env);
          SortedMembers(r.workload.spec.env.Keys);
          var env := PrintEnv(r.workload.spec.env, bs[i].hidden, keys);
          out := out + ([WorkloadLine(r.workload.id, r.workload.spec.image, r.workload.replicas)] + env);
        case AService => out := out + ServiceLines(r.services);
        case AnIngress => out := out + IngressLines(r.ingresses);
      }
    }
    assert bs[..|bs|] == bs;
  }

  method PrintPlan(cluster: Cluster, bs: seq<Bundle>) returns (out: seq<Line>)
    ensures out == PlanLines(bs)
  {
    hide LinesOf;
    var ws := PrintKind(cluster, AWorkload, bs);
    var ss := PrintKind(cluster, AService, bs);
    var gs := PrintKind(cluster, AnIngress, bs);
    out := ws + ss + gs;
  }

  // ----- Apply -----

  /** `ops` is what was done or, on a dry run, what prune would do.
      A dry run and a run over bad manifests touch nothing. */
  method Apply(srcs: seq<Source>, cluster: Cluster, dryRun: bool, prune: bool, listable: bool, net: Net)
    returns (ok: bool, plan: seq<Line>, ops: seq<Op>)
    modifies cluster
    ensures dryRun || !Loadable(srcs) ==> cluster.live == old(cluster.live) && cluster.calls == old(cluster.calls)
    ensures !Loadable(srcs) ==> !ok && plan == [] && ops == []
    ensures Loadable(srcs) && dryRun ==>
      && ok == (prune ==> listable) && plan == PlanLines(Bundles(srcs))
      && ops == if prune && listable then PruneOps(cluster.live, Bundles(srcs)) else []
    ensures Loadable(srcs) && !dryRun ==>
      var all := RunOps(old(cluster.live), Bundles(srcs), prune && listable);
      && Follows(old(cluster.live), old(cluster.calls), all, net, cluster.live, cluster.calls, ops, ops == all)
      && ok == (ops == all && (prune ==> listable))
    ensures Intact(old(cluster.live)) ==> Intact(cluster.live)
    ensures ok && prune && !dryRun ==> Loadable(srcs) && cluster.live == Declared(Bundles(srcs))
  {
    hide Follows, RunOps, PruneOps, PlanLines, Intact, Declared, Loadable;
    plan, ops := [], [];
    var loaded := LoadBundles(srcs);
    if loaded.None? {
      return false, [], [];
    }
    var bs := loaded.value;
    if dryRun {
      plan := PrintPlan(cluster, bs);
      ok := true;
      if prune {
        var delIng, delSvc, delWl;
        ok, delIng, delSvc, delWl := PrunePlan(cluster, bs, listable);
        if ok {
          ops := Drops(AnIngress, delIng) + Drops(AService, delSvc) + Drops(AWorkload, delWl);
        }
      }
      return;
    }
    ops, ok := ApplyAndPrune(cluster, bs, prune, listable, net);
    LoadedWired(srcs);
    RunOutcome(old(cluster.live), old(cluster.calls), bs, prune && listable, net, cluster.live, cluster.calls, ops);
  }

  lemma RunOutcome(l: Live, k: nat, bs: seq<Bundle>, prune: bool, net: Net, l': Live, k': nat, done: seq<Op>)
    requires AllWired(bs)
    requires Follows(l, k, RunOps(l, bs, prune), net, l', k', done, done == RunOps(l, bs, prune))
    ensures Intact(l) ==> Intact(l')
    ensures prune && done == RunOps(l, bs, prune) ==> l' == Declared(bs)
  {
    hide RunOps, Intact, Declared, Issue, AllWired, PruneOps, After, WorkloadIds, ServiceNames, Hosts;
    if Intact(l) {
      RunKeepsIntact(l, bs, prune, net, k);
    }
    if prune && done == RunOps(l, bs, prune) {
      CompletedRun(l, bs, net, k);
    }
  }

  /** The plan shows nothing of a secret but its name: overlays with the same keys give the same plan. */
  lemma {:induction false} PlanHidesSecrets(a: seq<Source>, b: seq<Source>, kind: Kind)
    requires |a| == |b| && (forall s | s in a :: s.Parsed?) && forall s | s in b :: s.Parsed?
    requires forall i | 0 <= i < |a| :: a[i].app == b[i].app && SameKeys(a[i].overlay, b[i].overlay)
    ensures LinesOf(kind, Bundles(a)) == LinesOf(kind, Bundles(b))
  {
    hide Lowered, Merge, SameKeys, BundleLines;
    if a != [] {
      var n := |a| - 1;
      var a', b' := a[..n], b[..n];
      PlanHidesSecrets(a', b', kind);
      assert Bundles(a)[..n] == Bundles(a') && Bundles(b)[..n] == Bundles(b');
      HiddenAlike(Lowered(a[n].app), a[n].overlay, b[n].overlay, kind);
    }
  }

  ghost predicate SameKeys(x: Overlay, y: Overlay) {
    if x.Secret? then y.Secret? && x.env.Keys == y.env.Keys else !y.Secret?
  }

  lemma EnvAlike(e: map<string, string>, f: map<string, string>, hidden: set<string>, keys: seq<string>)
    requires forall k | k in keys :: k in e && k in f && (k in hidden || e[k] == f[k])
    ensures EnvLines(e, hidden, keys) == EnvLines(f, hidden, keys)
  {
    assert forall i | 0 <= i < |keys| :: keys[i] in keys;
  }

  lemma HiddenAlike(res: Resolved, x: Overlay, y: Overlay, kind: Kind)
    requires SameKeys(x, y)
    ensures BundleLines(kind, Merge(res, x)) == BundleLines(kind, Merge(res, y))
  {
    hide EnvLines, Sorted;
    var p, q := Merge(res, x), Merge(res, y);
    var e, f := p.res.workload.spec.env, q.res.workload.spec.env;
    assert e.Keys == f.Keys;
    SortedMembers(e.Keys);
    EnvAlike(e, f, p.hidden, Sorted(e.Keys));
  }
}
