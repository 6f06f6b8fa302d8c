/** Replicas that have stopped running are started again. */
module Recovery {
  import opened Ordering
  import opened Registry
  import opened Placing
  import opened Workloads
  import opened Reconciling
  import opened PassLaws
  import opened SingleCopy
  import opened Rollout
  import opened Budget

  /** Which records a pass leaves: of those there after the replicas were driven, it drops the ones two intervals old or
      more whose replica was not Running, and the ones of replicas that are still assigned and no longer desired. */
  lemma PassForgets(w: World, now: int, net: Net, interval: int, r: string)
    requires WellKeyed(w.nodes)
    ensures var p, w' := Driven(w, now, net), Reconcile(w, now, net, interval);
      && (r in w'.pushed <==>
            && r in p.pushed
            && (now - p.pushed[r].at < 2 * interval || r in RoundOf(w, now, net).running)
            && (r in Expand(w.stored) || r !in p.layout))
      && (r in w'.pushed ==> w'.pushed[r] == p.pushed[r])
  {
    hide Driven, Expand, Running, EvictDead;
  }

  /** Every container of the replica runs the spec `spec`, and its record, if any, names a node that has one. */
  ghost predicate Supplied(c: Containers, pushed: Pushed, spec: Spec, r: string) {
    && (forall n | Slot(n, r) in c :: c[Slot(n, r)].spec == spec)
    && (r in pushed ==> Slot(pushed[r].node, r) in c)
  }

  /** Only a record left behind by a container that is gone: none of the replica's containers, and its record, if any,
      is at least `grace` old. */
  ghost predicate Bereft(c: Containers, pushed: Pushed, now: int, grace: int, r: string) {
    (forall n :: Slot(n, r) !in c) && (r in pushed ==> now - pushed[r].at >= grace)
  }

  ghost predicate Supplies(c: Containers, spec: Spec, node: string, r: string) {
    Slot(node, r) in c && c[Slot(node, r)].spec == spec
  }

  // ----- One replica -----

  lemma DeliverSupplies(rd: Round, net: Net, p: Progress, r: string, node: string)
    requires ValidRound(rd) && r in rd.desired && AllAcked(net)
    requires Supplied(p.containers, p.pushed, rd.desired[r].wl.spec, r)
    ensures var p', spec := Deliver(rd, net, p, r, node), rd.desired[r].wl.spec;
      Supplied(p'.containers, p'.pushed, spec, r) && Supplies(p'.containers, spec, node, r)
  {
    hide MayRoll;
    assert net(Start(Slot(node, r))).Acked? && net(Stop(Slot(node, r))).Acked?;
  }

  /** A replica that is gone is started, unless its old record still stands where it is placed. */
  lemma DeliverBereft(rd: Round, net: Net, p: Progress, r: string, node: string, grace: int)
    requires ValidRound(rd) && r in rd.desired && AllAcked(net) && r !in rd.running
    requires Bereft(p.containers, p.pushed, rd.now, grace, r)
    ensures var p' := Deliver(rd, net, p, r, node);
      || Supplied(p'.containers, p'.pushed, rd.desired[r].wl.spec, r)
      || Bereft(p'.containers, p'.pushed, rd.now, grace, r)
  {
    assert net(Start(Slot(node, r))).Acked? && net(Stop(Slot(node, r))).Acked?;
  }

  // ----- The loop -----

  lemma SameSupply(p: Progress, p': Progress, spec: Spec, r: string, now: int, grace: int)
    requires SameFor(p, p', r)
    ensures Supplied(p.containers, p.pushed, spec, r) <==> Supplied(p'.containers, p'.pushed, spec, r)
    ensures Bereft(p.containers, p.pushed, now, grace, r) <==> Bereft(p'.containers, p'.pushed, now, grace, r)
    ensures forall n :: Supplies(p.containers, spec, n, r) <==> Supplies(p'.containers, spec, n, r)
  {
  }

  lemma {:induction false} DriveSupplies(rd: Round, net: Net, p: Progress, q: seq<string>, i: nat)
    requires InRound(q, rd) && Distinct(q) && AllAcked(net) && i < |q|
    requires Supplied(p.containers, p.pushed, rd.desired[q[i]].wl.spec, q[i])
    ensures var p', r := Drive(rd, net, p, q), q[i];
      var spec := rd.desired[r].wl.spec;
      && Supplied(p'.containers, p'.pushed, spec, r)
      && (r in p'.layout ==> Supplies(p'.containers, spec, p'.layout[r].node, r))
  {
    hide DriveOne, Deliver, Supplied, Supplies;
    var q0, q1, r := q[..i], q[..i + 1], q[i];
    var p0, p1, spec := Drive(rd, net, p, q0), Drive(rd, net, p, q1), rd.desired[q[i]].wl.spec;
    assert q1[..i] == q0 && q1[i] == r && r !in q0 && r !in q[i + 1..];
    DriveOutside(rd, net, p, q0, r);
    SameSupply(p, p0, spec, r, rd.now, 0);
    DriveOneSplit(rd, net, p0, r);
    if r in p1.layout {
      DeliverSupplies(rd, net, p0.(layout := p1.layout), r, p1.layout[r].node);
    }
    DriveLater(rd, net, p, q, i + 1, r);
    SameSupply(p1, Drive(rd, net, p, q), spec, r, rd.now, 0);
    DriveLayout(rd, net, p, q1);
    DriveLayout(rd, net, p, q);
    SettlePrefix(rd, p.layout, q, i + 1, r);
  }

  lemma {:induction false} DriveBereft(rd: Round, net: Net, p: Progress, q: seq<string>, i: nat, grace: int)
    requires InRound(q, rd) && Distinct(q) && AllAcked(net) && i < |q| && q[i] !in rd.running
    requires Bereft(p.containers, p.pushed, rd.now, grace, q[i])
    ensures var p', r := Drive(rd, net, p, q), q[i];
      || Supplied(p'.containers, p'.pushed, rd.desired[r].wl.spec, r)
      || Bereft(p'.containers, p'.pushed, rd.now, grace, r)
  {
    hide DriveOne, Deliver, Supplied, Bereft;
    var q0, q1, r := q[..i], q[..i + 1], q[i];
    var p0, p1, spec := Drive(rd, net, p, q0), Drive(rd, net, p, q1), rd.desired[q[i]].wl.spec;
    assert q1[..i] == q0 && q1[i] == r && r !in q0 && r !in q[i + 1..];
    DriveOutside(rd, net, p, q0, r);
    SameSupply(p, p0, spec, r, rd.now, grace);
    DriveOneSplit(rd, net, p0, r);
    if r in p1.layout {
      DeliverBereft(rd, net, p0.(layout := p1.layout), r, p1.layout[r].node, grace);
    }
    DriveLater(rd, net, p, q, i + 1, r);
    SameSupply(p1, Drive(rd, net, p, q), spec, r, rd.now, grace);
  }

  // ----- The pass -----

  /** What clean-up and forgetting leave alone. */
  lemma PassKeepsDesired(w: World, now: int, net: Net, interval: int, r: string)
    requires WellKeyed(w.nodes) && r in Expand(w.stored)
    ensures var p, w' := Driven(w, now, net), Reconcile(w, now, net, interval);
      && (forall n :: (Slot(n, r) in w'.containers <==> Slot(n, r) in p.containers)
                      && (Slot(n, r) in p.containers ==> w'.containers[Slot(n, r)] == p.containers[Slot(n, r)]))
      && (r in w'.layout <==> r in p.layout) && (r in p.layout ==> w'.layout[r] == p.layout[r])
  {
    hide Driven, Expand, Running, EvictDead, Lapse;
    var rd, p := RoundOf(w, now, net), Driven(w, now, net);
    assert forall n :: Slot(n, r) !in StopCalls(rd, p.layout);
  }

  lemma BereftNotRunning(w: World, now: int, net: Net, grace: int, r: string)
    requires Bereft(w.containers, w.pushed, now, grace, r)
    ensures r !in RoundOf(w, now, net).running
    ensures Bereft(Before(w, now, net).containers, Before(w, now, net).pushed, now, grace, r)
  {
    hide Expand, Running, Unavailable;
    var rd, w1 := RoundOf(w, now, net), EvictDead(w, now);
    RunningShows(w1.containers, AliveNodes(w1.nodes, now), net, r);
  }

  /** The pass after a container is gone and its grace period over: the replica is started, or at least forgotten. */
  lemma PassBereft(w: World, now: int, net: Net, interval: int, r: string)
    requires WellKeyed(w.nodes) && r in Expand(w.stored) && AllAcked(net)
    requires Bereft(w.containers, w.pushed, now, 2 * interval, r)
    ensures var w' := Reconcile(w, now, net, interval);
      Supplied(w'.containers, w'.pushed, Expand(w.stored)[r].wl.spec, r)
  {
    hide Expand, Running, EvictDead, Order, Drive, Unavailable, Reconcile;
    RoundValid(w, now, net);
    OrderCovers(Expand(w.stored));
    var rd, q := RoundOf(w, now, net), Order(Expand(w.stored));
    var i :| 0 <= i < |q| && q[i] == r;
    BereftNotRunning(w, now, net, 2 * interval, r);
    DriveBereft(rd, net, Before(w, now, net), q, i, 2 * interval);
    PassForgets(w, now, net, interval, r);
    PassKeepsDesired(w, now, net, interval, r);
  }

  /** A pass keeps a supplied replica supplied, and if it places it, it has a container with the current spec on the
      node it is assigned to. */
  lemma PassSupplies(w: World, now: int, net: Net, interval: int, r: string)
    requires WellKeyed(w.nodes) && r in Expand(w.stored) && AllAcked(net)
    requires Supplied(w.containers, w.pushed, Expand(w.stored)[r].wl.spec, r)
    ensures var w', spec := Reconcile(w, now, net, interval), Expand(w.stored)[r].wl.spec;
      && Supplied(w'.containers, w'.pushed, spec, r)
      && (r in w'.layout ==> Supplies(w'.containers, spec, w'.layout[r].node, r))
  {
    hide Expand, Running, Order, Drive, Unavailable, Reconcile, Evict, DeadIds;
    RoundValid(w, now, net);
    OrderCovers(Expand(w.stored));
    var rd, q, p := RoundOf(w, now, net), Order(Expand(w.stored)), Before(w, now, net);
    var i :| 0 <= i < |q| && q[i] == r;
    assert Supplied(p.containers, p.pushed, Expand(w.stored)[r].wl.spec, r);
    DriveSupplies(rd, net, p, q, i);
    PassForgets(w, now, net, interval, r);
    PassKeepsDesired(w, now, net, interval, r);
  }

  /** Between two passes the replica stays desired as it is, and its record and containers stay; nodes may come and go
      and containers come up. */
  ghost predicate Untouched(w: World, w2: World, r: string) {
    && WellKeyed(w2.nodes) && r in Expand(w.stored) && r in Expand(w2.stored)
    && Expand(w2.stored)[r].wl.spec == Expand(w.stored)[r].wl.spec
    && SameRecord(w.pushed, w2.pushed, r)
    && forall n :: (Slot(n, r) in w.containers <==> Slot(n, r) in w2.containers)
                   && (Slot(n, r) in w.containers ==> w2.containers[Slot(n, r)].spec == w.containers[Slot(n, r)].spec)
  }

  lemma UntouchedSupplied(w: World, w2: World, r: string)
    requires Untouched(w, w2, r) && Supplied(w.containers, w.pushed, Expand(w.stored)[r].wl.spec, r)
    ensures Supplied(w2.containers, w2.pushed, Expand(w2.stored)[r].wl.spec, r)
  {
    hide Expand;
  }

  /** A desired replica whose container is gone and whose record is past the grace period has, two passes later, a
      container with the current spec on the node it is assigned to, if the second pass places it. */
  lemma CrashedRestarts(w: World, now: int, net: Net, interval: int, r: string, w2: World, now2: int, net2: Net)
    requires WellKeyed(w.nodes) && r in Expand(w.stored) && AllAcked(net) && AllAcked(net2)
    requires (forall n :: Slot(n, r) !in w.containers) && (r in w.pushed ==> now - w.pushed[r].at >= 2 * interval)
    requires Untouched(Reconcile(w, now, net, interval), w2, r)
    ensures var w3, spec := Reconcile(w2, now2, net2, interval), Expand(w2.stored)[r].wl.spec;
      r in w3.layout ==>
        Slot(w3.layout[r].node, r) in w3.containers && w3.containers[Slot(w3.layout[r].node, r)].spec == spec
  {
    hide Expand, Finished;
    PassBereft(w, now, net, interval, r);
    UntouchedSupplied(Reconcile(w, now, net, interval), w2, r);
    PassSupplies(w2, now2, net2, interval, r);
  }

  /** A run of passes with nothing happening to the replica in between. */
  ghost predicate Sequel(ws: seq<World>, nows: seq<int>, net: Net, interval: int, r: string) {
    && |ws| == |nows| && (forall i | 0 <= i < |ws| :: WellKeyed(ws[i].nodes))
    && (forall i | 0 <= i < |ws| - 1 :: Untouched(Reconcile(ws[i], nows[i], net, interval), ws[i + 1], r))
  }

  /** So whenever the scheduler places it, however much later. */
  lemma {:induction false} CrashedRestartsLater(ws: seq<World>, nows: seq<int>, net: Net, interval: int, r: string,
                                                j: nat)
    requires Sequel(ws, nows, net, interval, r) && AllAcked(net) && 1 <= j < |ws| && r in Expand(ws[0].stored)
    requires forall n :: Slot(n, r) !in ws[0].containers
    requires r in ws[0].pushed ==> nows[0] - ws[0].pushed[r].at >= 2 * interval
    ensures r in Expand(ws[j].stored) && Supplied(ws[j].containers, ws[j].pushed, Expand(ws[j].stored)[r].wl.spec, r)
    ensures var w', spec := Reconcile(ws[j], nows[j], net, interval), Expand(ws[j].stored)[r].wl.spec;
      r in w'.layout ==> Supplies(w'.containers, spec, w'.layout[r].node, r)
    decreases j
  {
    hide Expand, Supplied, Supplies, Untouched, Reconcile;
    var w' := Reconcile(ws[j - 1], nows[j - 1], net, interval);
    assert Untouched(w', ws[j], r);
    if j == 1 {
      PassBereft(ws[0], nows[0], net, interval, r);
    } else {
      CrashedRestartsLater(ws, nows, net, interval, r, j - 1);
      PassSupplies(ws[j - 1], nows[j - 1], net, interval, r);
    }
    PassStored(ws[j - 1], nows[j - 1], net, interval);
    UntouchedSupplied(w', ws[j], r);
    UntouchedDesired(w', ws[j], r);
    PassSupplies(ws[j], nows[j], net, interval, r);
  }

  lemma PassStored(w: World, now: int, net: Net, interval: int)
    requires WellKeyed(w.nodes)
    ensures Reconcile(w, now, net, interval).stored == w.stored
  {
    hide Finished;
  }

  lemma UntouchedDesired(w: World, w2: World, r: string)
    requires Untouched(w, w2, r)
    ensures r in Expand(w2.stored)
  {
  }
}
