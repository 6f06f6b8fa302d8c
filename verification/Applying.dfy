/** Applying app bundles to a cluster, and pruning what they do not declare. */
module Applying {
  import opened Ordering
  import opened Workloads
  import opened Services
  import opened Manifest

  /** The three kinds of live resources; what the control plane itself assigns to a service is not part of it. */
  datatype Live = Live(workloads: map<string, Workload>, services: map<string, Service>, ingresses: map<string, string>)

  datatype Op =
    | PutWorkload(w: Workload) | PutService(s: Service) | PutIngress(g: Ingress)
    | DropIngress(host: string) | DropService(name: string) | DropWorkload(id: string)

  function Perform(l: Live, op: Op): Live {
    match op
    case PutWorkload(w) => l.(workloads := l.workloads[w.id := w])
    case PutService(s) => l.(services := l.services[s.name := s])
    case PutIngress(g) => l.(ingresses := l.ingresses[g.host := g.service])
    case DropIngress(host) => l.(ingresses := l.ingresses - {host})
    case DropService(name) => l.(services := l.services - {name})
    case DropWorkload(id) => l.(workloads := l.workloads - {id})
  }

  /** A call succeeds, fails without effect, or takes effect and still reports an error. */
  datatype Outcome = Done | Refused | Unanswered

  /** The fate of every call, by its number. */
  type Net = nat -> Outcome

  datatype Ran = Ran(live: Live, done: nat)

  /** Issue `ops` in order until one reports an error; `done` counts those that did not. */
  function Issue(l: Live, ops: seq<Op>, net: Net, k: nat): (r: Ran)
    ensures r.done <= |ops|
    decreases |ops|
  {
    if ops == [] then Ran(l, 0)
    else
      match net(k)
      case Refused => Ran(l, 0)
      case Unanswered => Ran(Perform(l, ops[0]), 0)
      case Done => var r := Issue(Perform(l, ops[0]), ops[1..], net, k + 1); Ran(r.live, r.done + 1)
  }

  /** The call log `done` is what running `ops` from `l0` yields, ending in `l1`. */
  ghost predicate Follows(l0: Live, k0: nat, ops: seq<Op>, net: Net, l1: Live, k1: nat, done: seq<Op>, ok: bool) {
    && done <= ops && Issue(l0, ops, net, k0) == Ran(l1, |done|)
    && (ok <==> done == ops) && (ok ==> k1 == k0 + |ops|)
  }

  lemma {:induction false} IssueConcat(l: Live, a: seq<Op>, b: seq<Op>, net: Net, k: nat)
    ensures Issue(l, a + b, net, k) ==
            var r := Issue(l, a, net, k);
            if r.done < |a| then r else var s := Issue(r.live, b, net, k + |a|); Ran(s.live, |a| + s.done)
    decreases |a|
  {
    hide Perform;
    if a == [] {
      assert a + b == b;
    } else {
      assert (a + b)[1..] == a[1..] + b && (a + b)[0] == a[0];
      IssueConcat(Perform(l, a[0]), a[1..], b, net, k + 1);
    }
  }

  lemma FollowsThen(l0: Live, k0: nat, a: seq<Op>, l1: Live, k1: nat, b: seq<Op>, net: Net, l2: Live, k2: nat,
                    done: seq<Op>, ok: bool)
    requires Follows(l0, k0, a, net, l1, k1, a, true) && Follows(l1, k1, b, net, l2, k2, done, ok)
    ensures Follows(l0, k0, a + b, net, l2, k2, a + done, ok)
  {
    hide Issue;
    IssueConcat(l0, a, b, net, k0);
    assert a + done == a + b ==> done == b by {
      assert (a + done)[|a|..] == done && (a + b)[|a|..] == b;
    }
  }

  lemma FollowsStop(l0: Live, k0: nat, a: seq<Op>, ops: seq<Op>, net: Net, l1: Live, k1: nat, done: seq<Op>)
    requires Follows(l0, k0, a, net, l1, k1, done, false) && a <= ops
    ensures Follows(l0, k0, ops, net, l1, k1, done, false)
  {
    hide Issue;
    assert ops == a + ops[|a|..];
    IssueConcat(l0, a, ops[|a|..], net, k0);
  }

  class Cluster {
    var live: Live
    var calls: nat

    constructor (l: Live)
      ensures live == l && calls == 0
    {
      live, calls := l, 0;
    }

    method Call(op: Op, net: Net) returns (ok: bool)
      modifies this
      ensures Follows(old(live), old(calls), [op], net, live, calls, if ok then [op] else [], ok)
    {
      if net(calls) != Refused {
        live := Perform(live, op);
      }
      ok := net(calls) == Done;
      calls := calls + 1;
    }

    /** The keys of one kind, each once, in no particular order. */
    method List(keys: set<string>) returns (out: seq<string>)
      ensures Distinct(out) && Elements(out) == keys
    {
      out := [];
      var rest := keys;
      while rest != {}
        invariant rest <= keys && Distinct(out) && Elements(out) == keys - rest
        decreases rest
      {
        var k :| k in rest;
        assert k !in Elements(out);
        rest := rest - {k};
        out := out + [k];
      }
    }
  }

  // ----- Bundles -----

  datatype Overlay = NoOverlay | Undecryptable | Secret(env: map<string, string>)

  /** A manifest file: unreadable, or an app with its sibling secret overlay. */
  datatype Source = Unreadable | Parsed(app: App, overlay: Overlay)

  /** A resolved bundle and the environment keys that came from its overlay. */
  datatype Bundle = Bundle(res: Resolved, hidden: set<string>)

  function Merge(res: Resolved, overlay: Overlay): Bundle {
    match overlay
    case Secret(env) =>
      var spec := res.workload.spec;
      Bundle(res.(workload := res.workload.(spec := spec.(env := spec.env + env))), env.Keys)
    case _ => Bundle(res, {})
  }

  ghost predicate Loadable(srcs: seq<Source>) {
    srcs != [] && forall s | s in srcs :: s.Parsed? && Acceptable(s.app) && !s.overlay.Undecryptable?
  }

  function Bundles(srcs: seq<Source>): (bs: seq<Bundle>)
    requires forall s | s in srcs :: s.Parsed?
    ensures |bs| == |srcs| && forall i | 0 <= i < |srcs| :: bs[i] == Merge(Lowered(srcs[i].app), srcs[i].overlay)
  {
    if srcs == [] then []
    else Bundles(srcs[..|srcs| - 1]) + [Merge(Lowered(srcs[|srcs| - 1].app), srcs[|srcs| - 1].overlay)]
  }

  /** Environment values of the overlay win. */
  method MergeOverlay(res: Resolved, overlay: Overlay) returns (b: Option<Bundle>)
    ensures b == if overlay.Undecryptable? then None else Some(Merge(res, overlay))
  {
    match overlay
    case NoOverlay => return Some(Bundle(res, {}));
    case Undecryptable => return None;
    case Secret(secret) =>
      var env := res.workload.spec.env;
      var keys: set<string> := {};
      var rest := secret.Keys;
      while rest != {}
        invariant rest <= secret.Keys && keys == secret.Keys - rest
        invariant env.Keys == res.workload.spec.env.Keys + keys
        invariant forall k | k in env :: env[k] == if k in keys then secret[k] else res.workload.spec.env[k]
        decreases rest
      {
        var k :| k in rest;
        rest := rest - {k};
        env := env[k := secret[k]];
        keys := keys + {k};
      }
      assert keys == secret.Keys && env == res.workload.spec.env + secret;
      var w := res.workload;
      return Some(Bundle(res.(workload := w.(spec := w.spec.(env := env))), keys));
  }

  /** All or nothing: every manifest is validated and every overlay decrypted before anything is applied. */
  method LoadBundles(srcs: seq<Source>) returns (r: Option<seq<Bundle>>)
    ensures r.Some? <==> Loadable(srcs)
    ensures r.Some? ==> r.value == Bundles(srcs)
  {
    hide Acceptable, Merge, Lowered;
    if |srcs| == 0 {
      return None;
    }
    var resolved: seq<Resolved> := [];
    for i := 0 to |srcs|
      invariant forall j | 0 <= j < i :: srcs[j].Parsed? && Acceptable(srcs[j].app)
      invariant |resolved| == i && forall j | 0 <= j < i :: resolved[j] == Lowered(srcs[j].app)
    {
      if srcs[i].Unreadable? {
        assert srcs[i] in srcs;
        return None;
      }
      var res := Resolve(srcs[i].app);
      ResolvesIff(srcs[i].app);
      if res.Err? {
        assert srcs[i] in srcs;
        return None;
      }
      resolved := resolved + [res.value];
    }
    var bundles: seq<Bundle> := [];
    for i := 0 to |srcs|
      invariant forall j | 0 <= j < i :: !srcs[j].overlay.Undecryptable?
      invariant |bundles| == i && forall j | 0 <= j < i :: bundles[j] == Merge(Lowered(srcs[j].app), srcs[j].overlay)
    {
      var b := MergeOverlay(resolved[i], srcs[i].overlay);
      if b.None? {
        assert srcs[i] in srcs;
        return None;
      }
      bundles := bundles + [b.value];
    }
    assert bundles == Bundles(srcs);
    return Some(bundles);
  }

  // ----- The operations a run issues -----

  function PutServices(ss: seq<Service>): (ops: seq<Op>)
    ensures |ops| == |ss| && forall i | 0 <= i < |ss| :: ops[i] == PutService(ss[i])
  {
    seq(|ss|, i requires 0 <= i < |ss| => PutService(ss[i]))
  }

  function PutIngresses(gs: seq<Ingress>): (ops: seq<Op>)
    ensures |ops| == |gs| && forall i | 0 <= i < |gs| :: ops[i] == PutIngress(gs[i])
  {
    seq(|gs|, i requires 0 <= i < |gs| => PutIngress(gs[i]))
  }

  function WorkloadOps(bs: seq<Bundle>): seq<Op> {
    if bs == [] then [] else WorkloadOps(bs[..|bs| - 1]) + [PutWorkload(bs[|bs| - 1].res.workload)]
  }

  function ServiceOps(bs: seq<Bundle>): seq<Op> {
    if bs == [] then [] else ServiceOps(bs[..|bs| - 1]) + PutServices(bs[|bs| - 1].res.services)
  }

  function IngressOps(bs: seq<Bundle>): seq<Op> {
    if bs == [] then [] else IngressOps(bs[..|bs| - 1]) + PutIngresses(bs[|bs| - 1].res.ingresses)
  }

  /** Referents first: all workloads, then all services, then all ingresses. */
  function ApplyOps(bs: seq<Bundle>): seq<Op> {
    WorkloadOps(bs) + ServiceOps(bs) + IngressOps(bs)
  }

  ghost function WorkloadIds(bs: seq<Bundle>): set<string> {
    set b | b in bs :: b.res.workload.id
  }

  ghost function ServiceNames(bs: seq<Bundle>): set<string> {
    set b, s | b in bs && s in b.res.services :: s.name
  }

  ghost function Hosts(bs: seq<Bundle>): set<string> {
    set b, g | b in bs && g in b.res.ingresses :: g.host
  }

  datatype Kind = AnIngress | AService | AWorkload

  function Drop(kind: Kind, key: string): Op {
    match kind case AnIngress => DropIngress(key) case AService => DropService(key) case AWorkload => DropWorkload(key)
  }

  function Drops(kind: Kind, keys: seq<string>): (ops: seq<Op>)
    ensures |ops| == |keys| && forall i | 0 <= i < |keys| :: ops[i] == Drop(kind, keys[i])
  {
    seq(|keys|, i requires 0 <= i < |keys| => Drop(kind, keys[i]))
  }

  /** The keys in alphabetical order. */
  ghost function Sorted(s: set<string>): seq<string> {
    StringsTotal(s);
    Arrange(s, StringLess)
  }

  ghost function IngressDrops(l: Live, bs: seq<Bundle>): seq<Op> {
    Drops(AnIngress, Sorted(l.ingresses.Keys - Hosts(bs)))
  }

  ghost function ServiceDrops(l: Live, bs: seq<Bundle>): seq<Op> {
    Drops(AService, Sorted(l.services.Keys - ServiceNames(bs)))
  }

  ghost function WorkloadDrops(l: Live, bs: seq<Bundle>): seq<Op> {
    Drops(AWorkload, Sorted(l.workloads.Keys - WorkloadIds(bs)))
  }

  /** Referrers first: what is live and not declared, ingresses, then services, then workloads. */
  ghost function PruneOps(l: Live, bs: seq<Bundle>): seq<Op> {
    IngressDrops(l, bs) + ServiceDrops(l, bs) + WorkloadDrops(l, bs)
  }

  ghost function RunOps(l: Live, bs: seq<Bundle>, prune: bool): seq<Op> {
    if prune then ApplyOps(bs) + PruneOps(l, bs) else ApplyOps(bs)
  }
}
