/** App bundles: validation, and lowering to the resources the control plane accepts. */
module Manifest {
  import opened Ordering
  import opened Workloads
  import opened Services

  datatype ServiceSpec = ServiceSpec(name: string, port: int, targetPort: int, protocol: string, nodePort: int)
  datatype IngressSpec = IngressSpec(host: string, service: string)
  datatype WorkloadSpec = WorkloadSpec(container: Spec, replicas: int, maxUnavailable: int)

  datatype App = App(name: string, workload: WorkloadSpec, service: Option<ServiceSpec>, services: seq<ServiceSpec>,
                     ingress: Option<IngressSpec>, ingresses: seq<IngressSpec>)

  datatype Ingress = Ingress(host: string, service: string)
  datatype Resolved = Resolved(workload: Workload, services: seq<Service>, ingresses: seq<Ingress>)

  datatype Fault =
    | NameMissing | NameBad | BothServices | BothIngresses
    | ImageMissing | ReplicasNegative | UnavailableNegative | VolumesReplicated
    | VolumeName(i: nat) | VolumeTwice(i: nat) | VolumePath(i: nat)
    | ServiceNameMissing(i: nat) | ServiceName(i: nat) | ServiceTwice(i: nat)
    | ServicePort(i: nat) | ServiceProtocol(i: nat)
    | HostMissing(i: nat) | TargetMissing(i: nat) | TargetUnknown(i: nat)

  datatype Result<T> = Ok(value: T) | Err(fault: Fault)

  predicate GoodName(s: string) {
    s != "" && forall c | c in s :: 'a' <= c <= 'z' || '0' <= c <= '9' || c == '-'
  }

  function Replicas(w: WorkloadSpec): int {
    if w.replicas == 0 then 1 else w.replicas
  }

  function ServiceSpecs(app: App): seq<ServiceSpec> {
    if app.service.Some? then [app.service.value] else app.services
  }

  function IngressSpecs(app: App): seq<IngressSpec> {
    if app.ingress.Some? then [app.ingress.value] else app.ingresses
  }

  /** In singular mode a service without a name takes the app's. */
  function NameOf(app: App, s: ServiceSpec): string {
    if s.name == "" && app.service.Some? then app.name else s.name
  }

  // ----- What is wrong, in the order it is looked for -----

  function VolumeFault(vols: seq<Volume>, i: nat): Option<Fault>
    requires i < |vols|
  {
    if !GoodName(vols[i].name) then Some(VolumeName(i))
    else if exists j | 0 <= j < i :: vols[j].name == vols[i].name then Some(VolumeTwice(i))
    else if !("/" <= vols[i].path) then Some(VolumePath(i))
    else None
  }

  function FirstVolumeFault(vols: seq<Volume>, i: nat): Option<Fault>
    requires i <= |vols|
    decreases |vols| - i
  {
    if i == |vols| then None
    else if VolumeFault(vols, i).Some? then VolumeFault(vols, i)
    else FirstVolumeFault(vols, i + 1)
  }

  function WorkloadFault(w: WorkloadSpec): Option<Fault> {
    if w.container.image == "" then Some(ImageMissing)
    else if w.replicas < 0 then Some(ReplicasNegative)
    else if w.maxUnavailable < 0 then Some(UnavailableNegative)
    else if w.container.volumes != [] && Replicas(w) > 1 then Some(VolumesReplicated)
    else FirstVolumeFault(w.container.volumes, 0)
  }

  function ServiceFault(app: App, i: nat): Option<Fault>
    requires i < |ServiceSpecs(app)|
  {
    var s := ServiceSpecs(app)[i];
    var name := NameOf(app, s);
    if name == "" && app.service.None? then Some(ServiceNameMissing(i))
    else if !GoodName(name) then Some(ServiceName(i))
    else if exists j | 0 <= j < i :: NameOf(app, ServiceSpecs(app)[j]) == name then Some(ServiceTwice(i))
    else if s.port <= 0 then Some(ServicePort(i))
    else if s.protocol !in {"", "tcp", "udp"} then Some(ServiceProtocol(i))
    else None
  }

  function FirstServiceFault(app: App, i: nat): Option<Fault>
    requires i <= |ServiceSpecs(app)|
    decreases |ServiceSpecs(app)| - i
  {
    if i == |ServiceSpecs(app)| then None
    else if ServiceFault(app, i).Some? then ServiceFault(app, i)
    else FirstServiceFault(app, i + 1)
  }

  function IngressFault(app: App, i: nat): Option<Fault>
    requires i < |IngressSpecs(app)|
  {
    var g, specs := IngressSpecs(app)[i], ServiceSpecs(app);
    if g.host == "" then Some(HostMissing(i))
    else if g.service == "" then (if |specs| != 1 then Some(TargetMissing(i)) else None)
    else if forall j | 0 <= j < |specs| :: NameOf(app, specs[j]) != g.service then Some(TargetUnknown(i))
    else None
  }

  function FirstIngressFault(app: App, i: nat): Option<Fault>
    requires i <= |IngressSpecs(app)|
    decreases |IngressSpecs(app)| - i
  {
    if i == |IngressSpecs(app)| then None
    else if IngressFault(app, i).Some? then IngressFault(app, i)
    else FirstIngressFault(app, i + 1)
  }

  function FirstFault(app: App): Option<Fault> {
    if app.name == "" then Some(NameMissing)
    else if !GoodName(app.name) then Some(NameBad)
    else if app.service.Some? && app.services != [] then Some(BothServices)
    else if app.ingress.Some? && app.ingresses != [] then Some(BothIngresses)
    else if WorkloadFault(app.workload).Some? then WorkloadFault(app.workload)
    else if FirstServiceFault(app, 0).Some? then FirstServiceFault(app, 0)
    else FirstIngressFault(app, 0)
  }

  // ----- What a valid bundle becomes -----

  function LowerWorkload(app: App): Workload {
    var w := app.workload;
    Workload(app.name, w.container, Replicas(w), if w.maxUnavailable == 0 then 1 else w.maxUnavailable)
  }

  /** The ClusterIP is left for the control plane to assign. */
  function LowerService(app: App, s: ServiceSpec): Service {
    Service(NameOf(app, s), app.name, s.port, if s.targetPort == 0 then s.port else s.targetPort,
            if s.protocol == "" then "tcp" else s.protocol, 0, s.nodePort)
  }

  function LowerServices(app: App, n: nat): (r: seq<Service>)
    requires n <= |ServiceSpecs(app)|
    ensures |r| == n && forall i | 0 <= i < n :: r[i] == LowerService(app, ServiceSpecs(app)[i])
  {
    if n == 0 then [] else LowerServices(app, n - 1) + [LowerService(app, ServiceSpecs(app)[n - 1])]
  }

  /** An ingress without a service goes to the app's only one. */
  function TargetOf(app: App, g: IngressSpec): string {
    if g.service == "" && |ServiceSpecs(app)| == 1 then NameOf(app, ServiceSpecs(app)[0]) else g.service
  }

  function LowerIngresses(app: App, n: nat): (r: seq<Ingress>)
    requires n <= |IngressSpecs(app)|
    ensures |r| == n
    ensures forall i | 0 <= i < n :: r[i] == Ingress(IngressSpecs(app)[i].host, TargetOf(app, IngressSpecs(app)[i]))
  {
    if n == 0 then []
    else
      var g := IngressSpecs(app)[n - 1];
      LowerIngresses(app, n - 1) + [Ingress(g.host, TargetOf(app, g))]
  }

  function Lowered(app: App): Resolved {
    Resolved(LowerWorkload(app), LowerServices(app, |ServiceSpecs(app)|), LowerIngresses(app, |IngressSpecs(app)|))
  }

  // ----- The resolver -----

  method ValidateVolumes(vols: seq<Volume>) returns (fault: Option<Fault>)
    ensures fault == FirstVolumeFault(vols, 0)
  {
    hide GoodName;
    var seen: set<string> := {};
    for i := 0 to |vols|
      invariant FirstVolumeFault(vols, 0) == FirstVolumeFault(vols, i)
      invariant forall name :: name in seen <==> exists j | 0 <= j < i :: vols[j].name == name
    {
      var v := vols[i];
      if !GoodName(v.name) {
        return Some(VolumeName(i));
      }
      if v.name in seen {
        return Some(VolumeTwice(i));
      }
      seen := seen + {v.name};
      if !("/" <= v.path) {
        return Some(VolumePath(i));
      }
    }
    return None;
  }

  method ResolveWorkload(app: App) returns (r: Result<Workload>)
    ensures r == match WorkloadFault(app.workload) case Some(f) => Err(f) case None => Ok(LowerWorkload(app))
  {
    var w := app.workload;
    if w.container.image == "" {
      return Err(ImageMissing);
    }
    if w.replicas < 0 {
      return Err(ReplicasNegative);
    }
    if w.maxUnavailable < 0 {
      return Err(UnavailableNegative);
    }
    var replicas := w.replicas;
    if replicas == 0 {
      replicas := 1;
    }
    if |w.container.volumes| > 0 && replicas > 1 {
      return Err(VolumesReplicated);
    }
    var fault := ValidateVolumes(w.container.volumes);
    if fault.Some? {
      return Err(fault.value);
    }
    var maxUnavail := w.maxUnavailable;
    if maxUnavail == 0 {
      maxUnavail := 1;
    }
    return Ok(Workload(app.name, w.container, replicas, maxUnavail));
  }

  /** One service; `seen` holds the names of those before it. */
  method ResolveService(app: App, i: nat, seen: set<string>) returns (r: Result<Service>)
    requires i < |ServiceSpecs(app)|
    requires forall name :: name in seen <==> exists j | 0 <= j < i :: NameOf(app, ServiceSpecs(app)[j]) == name
    ensures r == match ServiceFault(app, i)
                 case Some(f) => Err(f)
                 case None => Ok(LowerService(app, ServiceSpecs(app)[i]))
  {
    hide GoodName, ServiceSpecs;
    var s := ServiceSpecs(app)[i];
    var name := s.name;
    if name == "" {
      if app.service.Some? {
        name := app.name;
      } else {
        return Err(ServiceNameMissing(i));
      }
    }
    assert name == NameOf(app, s);
    if !GoodName(name) {
      return Err(ServiceName(i));
    }
    if name in seen {
      return Err(ServiceTwice(i));
    }
    if s.port <= 0 {
      return Err(ServicePort(i));
    }
    var target := s.targetPort;
    if target == 0 {
      target := s.port;
    }
    var proto := s.protocol;
    if proto == "" {
      proto := "tcp";
    }
    if proto != "tcp" && proto != "udp" {
      return Err(ServiceProtocol(i));
    }
    return Ok(Service(name, app.name, s.port, target, proto, 0, s.nodePort));
  }

  method ResolveServices(app: App) returns (r: Result<seq<Service>>)
    ensures r == match FirstServiceFault(app, 0)
                 case Some(f) => Err(f)
                 case None => Ok(LowerServices(app, |ServiceSpecs(app)|))
  {
    hide NameOf, ServiceSpecs, ServiceFault;
    var specs := ServiceSpecs(app);
    var seen: set<string> := {};
    var out: seq<Service> := [];
    for i := 0 to |specs|
      invariant FirstServiceFault(app, 0) == FirstServiceFault(app, i)
      invariant forall name :: name in seen <==> exists j | 0 <= j < i :: NameOf(app, specs[j]) == name
      invariant out == LowerServices(app, i)
    {
      var svc := ResolveService(app, i, seen);
      if svc.Err? {
        return Err(svc.fault);
      }
      seen := seen + {NameOf(app, specs[i])};
      out := out + [svc.value];
    }
    return Ok(out);
  }

  /** One ingress; `names` are the app's services. */
  method ResolveIngress(app: App, i: nat, svcs: seq<Service>, names: set<string>) returns (r: Result<Ingress>)
    requires i < |IngressSpecs(app)| && svcs == LowerServices(app, |ServiceSpecs(app)|)
    requires forall name :: name in names <==> exists k | 0 <= k < |svcs| :: svcs[k].name == name
    ensures r == match IngressFault(app, i)
                 case Some(f) => Err(f)
                 case None => Ok(Ingress(IngressSpecs(app)[i].host, TargetOf(app, IngressSpecs(app)[i])))
  {
    hide ServiceSpecs, IngressSpecs, NameOf;
    var g := IngressSpecs(app)[i];
    if g.host == "" {
      return Err(HostMissing(i));
    }
    var svc := g.service;
    if svc == "" {
      if |svcs| != 1 {
        return Err(TargetMissing(i));
      }
      svc := svcs[0].name;
    } else if svc !in names {
      return Err(TargetUnknown(i));
    }
    return Ok(Ingress(g.host, svc));
  }

  method ResolveIngresses(app: App, svcs: seq<Service>) returns (r: Result<seq<Ingress>>)
    requires svcs == LowerServices(app, |ServiceSpecs(app)|)
    ensures r == match FirstIngressFault(app, 0)
                 case Some(f) => Err(f)
                 case None => Ok(LowerIngresses(app, |IngressSpecs(app)|))
  {
    hide ServiceSpecs, IngressSpecs, IngressFault, TargetOf, LowerServices;
    var specs := IngressSpecs(app);
    if |specs| == 0 {
      return Ok([]);
    }
    var names: set<string> := {};
    for j := 0 to |svcs|
      invariant forall name :: name in names <==> exists k | 0 <= k < j :: svcs[k].name == name
    {
      names := names + {svcs[j].name};
    }
    var out: seq<Ingress> := [];
    for i := 0 to |specs|
      invariant FirstIngressFault(app, 0) == FirstIngressFault(app, i)
      invariant out == LowerIngresses(app, i)
    {
      var ing := ResolveIngress(app, i, svcs, names);
      if ing.Err? {
        return Err(ing.fault);
      }
      out := out + [ing.value];
    }
    return Ok(out);
  }

  /** Reports the first fault, or lowers the whole bundle. */
  method Resolve(app: App) returns (r: Result<Resolved>)
    ensures r == match FirstFault(app) case Some(f) => Err(f) case None => Ok(Lowered(app))
  {
    if app.name == "" {
      return Err(NameMissing);
    }
    if !GoodName(app.name) {
      return Err(NameBad);
    }
    if app.service.Some? && |app.services| > 0 {
      return Err(BothServices);
    }
    if app.ingress.Some? && |app.ingresses| > 0 {
      return Err(BothIngresses);
    }
    var w := ResolveWorkload(app);
    if w.Err? {
      return Err(w.fault);
    }
    var svcs := ResolveServices(app);
    if svcs.Err? {
      return Err(svcs.fault);
    }
    var ings := ResolveIngresses(app, svcs.value);
    if ings.Err? {
      return Err(ings.fault);
    }
    return Ok(Resolved(w.value, svcs.value, ings.value));
  }

  // ----- What acceptance means -----

  /** The ingress names a service of the app, or the app has just one. */
  ghost predicate Targeted(app: App, g: IngressSpec) {
    if g.service == "" then |ServiceSpecs(app)| == 1
    else exists s :: s in ServiceSpecs(app) && NameOf(app, s) == g.service
  }

  ghost predicate VolumesGood(vols: seq<Volume>) {
    && (forall v | v in vols :: GoodName(v.name) && "/" <= v.path)
    && (forall i, j | 0 <= i < j < |vols| :: vols[i].name != vols[j].name)
  }

  ghost predicate ServicesGood(app: App) {
    var svcs := ServiceSpecs(app);
    && (forall s | s in svcs :: GoodName(NameOf(app, s)) && s.port > 0 && s.protocol in {"", "tcp", "udp"})
    && (forall i, j | 0 <= i < j < |svcs| :: NameOf(app, svcs[i]) != NameOf(app, svcs[j]))
  }

  ghost predicate IngressesGood(app: App) {
    forall g | g in IngressSpecs(app) :: g.host != "" && Targeted(app, g)
  }

  /** No volume, service or ingress is at fault on its own, and names within the app are told apart. */
  ghost predicate Acceptable(app: App) {
    var w := app.workload;
    && GoodName(app.name) && w.container.image != "" && w.replicas >= 0 && w.maxUnavailable >= 0
    && !(app.service.Some? && app.services != []) && !(app.ingress.Some? && app.ingresses != [])
    && (w.container.volumes != [] ==> w.replicas <= 1)
    && VolumesGood(w.container.volumes) && ServicesGood(app) && IngressesGood(app)
  }

  lemma {:induction false} NoVolumeFault(vols: seq<Volume>, i: nat)
    requires i <= |vols|
    ensures FirstVolumeFault(vols, i).None? <==> forall k | i <= k < |vols| :: VolumeFault(vols, k).None?
    decreases |vols| - i
  {
    hide VolumeFault;
    if i < |vols| {
      NoVolumeFault(vols, i + 1);
    }
  }

  lemma {:induction false} NoServiceFault(app: App, i: nat)
    requires i <= |ServiceSpecs(app)|
    ensures FirstServiceFault(app, i).None? <==>
            forall k | i <= k < |ServiceSpecs(app)| :: ServiceFault(app, k).None?
    decreases |ServiceSpecs(app)| - i
  {
    hide ServiceFault, ServiceSpecs;
    if i < |ServiceSpecs(app)| {
      NoServiceFault(app, i + 1);
    }
  }

  lemma {:induction false} NoIngressFault(app: App, i: nat)
    requires i <= |IngressSpecs(app)|
    ensures FirstIngressFault(app, i).None? <==>
            forall k | i <= k < |IngressSpecs(app)| :: IngressFault(app, k).None?
    decreases |IngressSpecs(app)| - i
  {
    hide IngressFault, IngressSpecs;
    if i < |IngressSpecs(app)| {
      NoIngressFault(app, i + 1);
    }
  }

  lemma {:induction false} VolumesFine(vols: seq<Volume>)
    ensures FirstVolumeFault(vols, 0).None? <==> VolumesGood(vols)
  {
    hide GoodName, FirstVolumeFault;
    NoVolumeFault(vols, 0);
    if forall k | 0 <= k < |vols| :: VolumeFault(vols, k).None? {
      forall i, j | 0 <= i < j < |vols| ensures vols[i].name != vols[j].name {
        assert VolumeFault(vols, j).None?;
      }
      forall v | v in vols ensures GoodName(v.name) && "/" <= v.path {
        var k :| 0 <= k < |vols| && vols[k] == v;
        assert VolumeFault(vols, k).None?;
      }
    }
  }

  lemma {:induction false} ServicesFine(app: App)
    ensures FirstServiceFault(app, 0).None? <==> ServicesGood(app)
  {
    hide ServiceSpecs, NameOf, FirstServiceFault;
    NoServiceFault(app, 0);
    var svcs := ServiceSpecs(app);
    if forall k | 0 <= k < |svcs| :: ServiceFault(app, k).None? {
      forall i, j | 0 <= i < j < |svcs| ensures NameOf(app, svcs[i]) != NameOf(app, svcs[j]) {
        assert ServiceFault(app, j).None?;
      }
      forall s | s in svcs ensures GoodName(NameOf(app, s)) && s.port > 0 && s.protocol in {"", "tcp", "udp"} {
        var k :| 0 <= k < |svcs| && svcs[k] == s;
        assert ServiceFault(app, k).None?;
      }
    }
  }

  lemma {:induction false} IngressesFine(app: App)
    ensures FirstIngressFault(app, 0).None? <==> IngressesGood(app)
  {
    hide ServiceSpecs, IngressSpecs, NameOf, FirstIngressFault;
    NoIngressFault(app, 0);
    var svcs, ings := ServiceSpecs(app), IngressSpecs(app);
    forall g: IngressSpec
      ensures (exists s :: s in svcs && NameOf(app, s) == g.service) <==>
              (exists j | 0 <= j < |svcs| :: NameOf(app, svcs[j]) == g.service)
    {
    }
    if forall k | 0 <= k < |ings| :: IngressFault(app, k).None? {
      forall g | g in ings
        ensures g.host != "" && Targeted(app, g)
      {
        var k :| 0 <= k < |ings| && ings[k] == g;
        assert IngressFault(app, k).None?;
      }
    }
  }

  lemma WorkloadFine(w: WorkloadSpec)
    ensures WorkloadFault(w).None? <==>
      && w.container.image != "" && w.replicas >= 0 && w.maxUnavailable >= 0
      && (w.container.volumes != [] ==> w.replicas <= 1)
      && FirstVolumeFault(w.container.volumes, 0).None?
  {
    hide FirstVolumeFault;
  }

  /** A bundle is lowered exactly when it is acceptable. */
  lemma ResolvesIff(app: App)
    ensures FirstFault(app).None? <==> Acceptable(app)
  {
    assert !GoodName("");
    hide GoodName, VolumesGood, ServicesGood, IngressesGood, FirstVolumeFault, FirstServiceFault, FirstIngressFault,
         WorkloadFault;
    WorkloadFine(app.workload);
    VolumesFine(app.workload.container.volumes);
    ServicesFine(app);
    IngressesFine(app);
  }

  // ----- References -----

  /** Services belong to the bundle's workload, their names differ, and ingresses go to the bundle's services. */
  ghost predicate Wired(r: Resolved) {
    && (forall s | s in r.services :: s.workload == r.workload.id)
    && (forall i, j | 0 <= i < j < |r.services| :: r.services[i].name != r.services[j].name)
    && (forall g | g in r.ingresses :: exists s :: s in r.services && s.name == g.service)
  }

  lemma TargetDeclared(app: App, g: IngressSpec)
    requires Targeted(app, g)
    ensures exists j | 0 <= j < |ServiceSpecs(app)| :: NameOf(app, ServiceSpecs(app)[j]) == TargetOf(app, g)
  {
    hide ServiceSpecs, NameOf;
    if g.service == "" {
      assert NameOf(app, ServiceSpecs(app)[0]) == TargetOf(app, g);
    }
  }

  /** A lowered bundle is wired, asks for at least one replica, rolls at least one at a time, and never runs two
      writers on one volume. */
  lemma LoweredWired(app: App)
    requires Acceptable(app)
    ensures Wired(Lowered(app))
    ensures var w := Lowered(app).workload;
      w.id == app.name && w.replicas >= 1 && w.maxUnavailable >= 1 && (w.spec.volumes != [] ==> w.replicas == 1)
  {
    hide GoodName, NameOf, ServiceSpecs, IngressSpecs, Targeted, TargetOf;
    var r, ings := Lowered(app), IngressSpecs(app);
    forall g | g in r.ingresses ensures exists s :: s in r.services && s.name == g.service {
      var i :| 0 <= i < |ings| && r.ingresses[i] == g;
      assert ings[i] in ings;
      TargetDeclared(app, ings[i]);
      var j :| 0 <= j < |ServiceSpecs(app)| && NameOf(app, ServiceSpecs(app)[j]) == TargetOf(app, ings[i]);
      assert r.services[j] == LowerService(app, ServiceSpecs(app)[j]);
    }
  }

  /** The control plane's own check of a lowered service fails exactly on a negative target port, which the
      resolver lets through. */
  lemma StoreRejectsIff(app: App, i: nat, t: Table)
    requires Acceptable(app) && i < |ServiceSpecs(app)|
    ensures AddTo(t, Lowered(app).services[i]).1 in {EmptyName, EmptyWorkload, BadPort} <==>
            ServiceSpecs(app)[i].targetPort < 0
  {
    hide ServiceSpecs, NameOf, UsedIps, UsedPorts, Defaulted;
    assert ServiceSpecs(app)[i] in ServiceSpecs(app);
  }

  /** An app with one service whose target port is -1: acceptable, and refused by the control plane. */
  lemma NegativeTargetPort(t: Table)
    ensures var spec := Spec("img", [], map[], [], Option.None, []);
      var svc := ServiceSpec("", 80, -1, "", 0);
      var app := App("app", WorkloadSpec(spec, 1, 1), Option.Some(svc), [], Option.None, []);
      Acceptable(app) && AddTo(t, Lowered(app).services[0]).1 == BadPort
  {
    var app := App("app", WorkloadSpec(Spec("img", [], map[], [], Option.None, []), 1, 1),
                   Option.Some(ServiceSpec("", 80, -1, "", 0)), [], Option.None, []);
    assert GoodName("app");
    assert ServiceSpecs(app) == [ServiceSpec("", 80, -1, "", 0)];
  }
}
