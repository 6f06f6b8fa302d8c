/** A manifest with every default filled in, and what that says about lowering. */
module Spelling {
  import opened Ordering
  import opened Services
  import opened Manifest
  import opened Applying

  function SpellService(s: Service): ServiceSpec {
    ServiceSpec(s.name, s.port, s.targetPort, s.protocol, s.nodePort)
  }

  function SpellIngress(g: Ingress): IngressSpec {
    IngressSpec(g.host, g.service)
  }

  /** The manifest that spells out a resolved bundle: lists only, nothing left to a default. */
  function Spelled(r: Resolved): App {
    var w := r.workload;
    App(w.id, WorkloadSpec(w.spec, w.replicas, w.maxUnavailable), Option.None,
        seq(|r.services|, i requires 0 <= i < |r.services| => SpellService(r.services[i])), Option.None,
        seq(|r.ingresses|, i requires 0 <= i < |r.ingresses| => SpellIngress(r.ingresses[i])))
  }

  /** Nothing in the manifest is left to a default. */
  ghost predicate Explicit(app: App) {
    && app.service.None? && app.ingress.None? && app.workload.replicas != 0 && app.workload.maxUnavailable != 0
    && (forall s | s in app.services :: s.name != "" && s.targetPort != 0 && s.protocol != "")
    && (forall g | g in app.ingresses :: g.service != "")
  }

  /** Lowering loses and changes nothing that a manifest says. */
  lemma ExplicitRoundTrip(app: App)
    requires Explicit(app)
    ensures Spelled(Lowered(app)) == app
  {
  }

  lemma SpelledServices(app: App, i: nat)
    requires Acceptable(app) && i < |ServiceSpecs(app)|
    ensures var s := Lowered(app).services[i];
      s.name != "" && s.targetPort != 0 && s.protocol != "" && LowerService(Spelled(Lowered(app)), SpellService(s)) == s
  {
  }

  lemma SpelledIngresses(app: App, i: nat)
    requires Acceptable(app) && i < |IngressSpecs(app)|
    ensures Lowered(app).ingresses[i].service != ""
  {
  }

  /** Spelling a bundle out and lowering it again gives the same bundle. */
  lemma LoweredRoundTrip(app: App)
    requires Acceptable(app)
    ensures Explicit(Spelled(Lowered(app))) && Lowered(Spelled(Lowered(app))) == Lowered(app)
  {
    hide Acceptable, LowerService, TargetOf;
    var r := Lowered(app);
    var e := Spelled(r);
    LoweredWired(app);
    forall i | 0 <= i < |r.services|
      ensures e.services[i].name != "" && e.services[i].targetPort != 0 && e.services[i].protocol != ""
      ensures Lowered(e).services[i] == r.services[i]
    {
      SpelledServices(app, i);
    }
    forall i | 0 <= i < |r.ingresses|
      ensures e.ingresses[i].service != "" && Lowered(e).ingresses[i] == r.ingresses[i]
    {
      SpelledIngresses(app, i);
      NamedTarget(e, e.ingresses[i]);
    }
    assert Lowered(e).services == r.services && Lowered(e).ingresses == r.ingresses;
  }

  lemma NamedTarget(app: App, g: IngressSpec)
    requires g.service != ""
    ensures TargetOf(app, g) == g.service
  {
  }

  /** What is left out means: one replica, one unavailable at a time, tcp, the service's own port as target. */
  lemma DefaultsMean(app: App, s: ServiceSpec)
    ensures var w := app.workload;
      && LowerWorkload(app.(workload := w.(replicas := 0))) == LowerWorkload(app.(workload := w.(replicas := 1)))
      && LowerWorkload(app.(workload := w.(maxUnavailable := 0)))
         == LowerWorkload(app.(workload := w.(maxUnavailable := 1)))
    ensures LowerService(app, s.(protocol := "")) == LowerService(app, s.(protocol := "tcp"))
    ensures LowerService(app, s.(targetPort := 0)) == LowerService(app, s.(targetPort := s.port))
  {
  }

  /** A single service without a name has the app's, and an ingress without a service goes to the only one there is. */
  lemma ImpliedNames(app: App, s: ServiceSpec, host: string)
    ensures var lone := app.(service := Option.Some(s.(name := "")));
      LowerService(lone, s.(name := "")) == LowerService(lone, s.(name := app.name))
    ensures TargetOf(app.(service := Option.Some(s)), IngressSpec(host, ""))
         == TargetOf(app.(service := Option.Some(s)), IngressSpec(host, s.name))
  {
  }

  /** Merging an overlay changes the environment alone: a variable has the overlay's value if the overlay sets it, and
      otherwise the manifest's. The variables the overlay sets, and no others, are hidden. */
  lemma MergedEnv(res: Resolved, overlay: Overlay, k: string)
    ensures var b, was := Merge(res, overlay), res.workload.spec.env;
      var env := b.res.workload.spec.env;
      && b.res == res.(workload := res.workload.(spec := res.workload.spec.(env := env)))
      && (k in b.hidden <==> overlay.Secret? && k in overlay.env)
      && (k in env <==> k in b.hidden || k in was)
      && (k in env ==> env[k] == if k in b.hidden then overlay.env[k] else was[k])
  {
  }
}
