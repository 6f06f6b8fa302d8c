/** Single copies over whole runs of the control plane, and what goes wrong without the hypotheses. */
module CopyRuns {
  import opened Ordering
  import opened Registry
  import opened Layouts
  import opened Placing
  import opened Workloads
  import opened Reconciling
  import opened PassLaws
  import opened SingleCopy

  datatype Event =
    | Pass(now: int)
    | Upsert(wl: Workload)
    | Delete(id: string)
    | Rebalance(now: int)
    | Begin(slot: Slot)              // a started container reaches Running
    | Crash(slot: Slot)              // a container exits and is removed
    | PowerOff(node: string)         // a node loses its containers
    | Register(n: Node, now: int)
    | Beat(id: string, now: int)
    | Decommission(id: string)

  /** `moved`: a rebalance has happened since the last pass. */
  datatype System = System(w: World, moved: bool)

  ghost function Next(s: System, e: Event, net: Net, interval: int): System
    requires WellKeyed(s.w.nodes)
  {
    var w := s.w;
    match e
    case Pass(now) => System(Reconcile(w, now, net, interval), false)
    case Upsert(wl) => s.(w := w.(stored := w.stored[wl.id := wl]))
    case Delete(id) => s.(w := w.(stored := w.stored - {id}))
    case Rebalance(now) => System(w.(layout := Rebalanced(w.layout, AliveNodes(w.nodes, now))), true)
    case Begin(slot) =>
      if slot in w.containers
      then s.(w := w.(containers := w.containers[slot := w.containers[slot].(running := true)])) else s
    case Crash(slot) => s.(w := w.(containers := w.containers - {slot}))
    case PowerOff(node) =>
      s.(w := w.(containers := map c | c in w.containers && c.node != node :: w.containers[c]))
    case Register(n, now) => s.(w := w.(nodes := w.nodes[n.id := n.(heartbeat := now)]))
    case Beat(id, now) =>
      if id in w.nodes then s.(w := w.(nodes := w.nodes[id := w.nodes[id].(heartbeat := now)])) else s
    case Decommission(id) => s.(w := w.(nodes := w.nodes - {id}, layout := Evict(w.layout, {id})))
  }

  /** At a pass: dead nodes host nothing, a container past its grace period is Running, and a rebalance since
      the last pass left only desired replicas on alive nodes. A decommissioned node has been shut down. */
  ghost predicate Allowed(s: System, e: Event, interval: int) {
    match e
    case Pass(now) =>
      && DeadQuiet(s.w, now) && GraceGone(s.w, now, 2 * interval)
      && (s.moved ==> forall r | r in s.w.layout ::
            r in Expand(s.w.stored) && s.w.layout[r].node in AliveNodes(s.w.nodes, now))
    case Decommission(id) => forall c | c in s.w.containers :: c.node != id
    case _ => true
  }

  ghost predicate SystemInv(s: System) {
    Inv(s.w) && (!s.moved ==> Aligned(s.w))
  }

  lemma NextKeepsInv(s: System, e: Event, net: Net, interval: int)
    requires SystemInv(s) && Allowed(s, e, interval) && AllAcked(net) && interval > 0
    ensures SystemInv(Next(s, e, net, interval))
  {
    hide Reconcile, Expand, Target, AliveNodes;
    match e
    case Pass(now) => PassKeepsInv(s.w, now, net, interval);
    case Upsert(_) =>
    case Delete(_) =>
    case Rebalance(_) =>
    case Begin(_) =>
    case Crash(_) =>
    case PowerOff(_) =>
    case Register(_, _) =>
    case Beat(_, _) =>
    case Decommission(_) =>
  }

  lemma NextKeyed(s: System, e: Event, net: Net, interval: int)
    requires WellKeyed(s.w.nodes)
    ensures WellKeyed(Next(s, e, net, interval).w.nodes)
  {
    hide Finished, Rebalanced, AliveNodes;
    if e.Pass? {
      SurvivorsAlive(s.w.nodes, e.now);
    }
  }

  /** Any run, allowed or not. */
  ghost function Play(s: System, es: seq<Event>, net: Net, interval: int): System
    requires WellKeyed(s.w.nodes)
    decreases |es|
  {
    if es == [] then s
    else
      NextKeyed(s, es[0], net, interval);
      Play(Next(s, es[0], net, interval), es[1..], net, interval)
  }

  ghost predicate AllowedRun(s: System, es: seq<Event>, net: Net, interval: int)
    requires SystemInv(s) && AllAcked(net) && interval > 0
    decreases |es|
  {
    es == []
    || (&& Allowed(s, es[0], interval)
        && (NextKeepsInv(s, es[0], net, interval);
            AllowedRun(Next(s, es[0], net, interval), es[1..], net, interval)))
  }

  ghost function Run(s: System, es: seq<Event>, net: Net, interval: int): System
    requires SystemInv(s) && AllAcked(net) && interval > 0 && AllowedRun(s, es, net, interval)
    decreases |es|
  {
    if es == [] then s
    else
      NextKeepsInv(s, es[0], net, interval);
      Run(Next(s, es[0], net, interval), es[1..], net, interval)
  }

  /** All containers of a replica are on one node, the one its push record names. */
  ghost predicate OneCopy(w: World) {
    forall a, b | a in w.containers && b in w.containers && a.replica == b.replica ::
      a == b && a.replica in w.pushed && w.pushed[a.replica].node == a.node
  }

  const EMPTY := World(map[], map[], map[], map[], map[])

  lemma {:induction false} RunKeepsInv(s: System, es: seq<Event>, net: Net, interval: int)
    requires SystemInv(s) && AllAcked(net) && interval > 0 && AllowedRun(s, es, net, interval)
    ensures SystemInv(Run(s, es, net, interval))
    decreases |es|
  {
    if es != [] {
      NextKeepsInv(s, es[0], net, interval);
      RunKeepsInv(Next(s, es[0], net, interval), es[1..], net, interval);
    }
  }

  /** In every allowed run from an empty control plane, no replica ever has two containers. */
  lemma {:induction false} RunSingleCopy(es: seq<Event>, net: Net, interval: int)
    requires AllAcked(net) && interval > 0 && AllowedRun(System(EMPTY, false), es, net, interval)
    ensures OneCopy(Run(System(EMPTY, false), es, net, interval).w)
  {
    hide Next, AllowedRun, Run;
    RunKeepsInv(System(EMPTY, false), es, net, interval);
    TracedOneCopy(Run(System(EMPTY, false), es, net, interval).w);
  }

  lemma TracedOneCopy(w: World)
    requires Inv(w)
    ensures OneCopy(w)
  {
    forall a, b | a in w.containers && b in w.containers && a.replica == b.replica ensures a == b {
      assert a == Slot(a.node, a.replica) && b == Slot(b.node, b.replica);
    }
  }

  // ----- Why the hypotheses are there -----

  /** The container of an undesired replica goes in a pass if and only if the replica is assigned to the container's
      node, that node is alive, and the stop is not lost. */
  lemma UndesiredStoppedIff(w: World, now: int, net: Net, interval: int, s: Slot)
    requires WellKeyed(w.nodes) && s in w.containers && s.replica !in Expand(w.stored)
    ensures s !in Reconcile(w, now, net, interval).containers <==>
      && s.replica in w.layout && w.layout[s.replica].node == s.node && s.node in AliveNodes(w.nodes, now)
      && !net(Stop(s)).Lost?
    ensures s.replica !in Reconcile(w, now, net, interval).layout
    ensures s.replica in w.layout ==> s.replica !in Reconcile(w, now, net, interval).pushed
  {
    hide Expand, Running, Drive, Unavailable, Order, Lapse;
    var rd, q, r := RoundOf(w, now, net), Order(Expand(w.stored)), s.replica;
    RoundValid(w, now, net);
    OrderCovers(Expand(w.stored));
    SurvivorsAlive(w.nodes, now);
    var p0 := Before(w, now, net);
    DriveOutside(rd, net, p0, q, r);
    var p1 := Drive(rd, net, p0, q);
    LapseIsSub(p1.pushed, rd.running, now, 2 * interval);
    assert s == Slot(s.node, r) && s in p1.containers;
    assert s in StopCalls(rd, p1.layout) <==> r in p1.layout && p1.layout[r].node == s.node && s.node in rd.nodes;
  }

  /** A container away from its replica's assigned node survives any pass that finds the replica undesired,
      and is forgotten: the stop goes to the assigned node. */
  lemma UndesiredMovedOrphan(w: World, now: int, net: Net, interval: int, r: string, n: string)
    requires WellKeyed(w.nodes) && r in w.layout && w.layout[r].node != n
    requires Slot(n, r) in w.containers && r !in Expand(w.stored)
    ensures var w' := Reconcile(w, now, net, interval);
      Slot(n, r) in w'.containers && r !in w'.pushed && r !in w'.layout
  {
    hide Reconcile, Expand, AliveNodes;
    UndesiredStoppedIff(w, now, net, interval, Slot(n, r));
  }

  /** One pass after another. */
  ghost function Passes(w: World, nows: seq<int>, nets: seq<Net>, interval: int): (w': World)
    requires WellKeyed(w.nodes) && |nows| == |nets|
    ensures WellKeyed(w'.nodes)
    decreases |nows|
  {
    if nows == [] then w
    else
      SurvivorsAlive(w.nodes, nows[0]);
      Passes(Reconcile(w, nows[0], nets[0], interval), nows[1..], nets[1..], interval)
  }

  /** While the replica stays undesired, no later pass stops such a container. */
  lemma {:induction false} OrphanStays(w: World, nows: seq<int>, nets: seq<Net>, interval: int, r: string, n: string)
    requires WellKeyed(w.nodes) && |nows| == |nets| && r !in Expand(w.stored)
    requires Slot(n, r) in w.containers && r !in w.layout
    ensures Slot(n, r) in Passes(w, nows, nets, interval).containers
    decreases |nows|
  {
    hide Finished, Expand, AliveNodes;
    if nows != [] {
      UndesiredStoppedIff(w, nows[0], nets[0], interval, Slot(n, r));
      SurvivorsAlive(w.nodes, nows[0]);
      OrphanStays(Reconcile(w, nows[0], nets[0], interval), nows[1..], nets[1..], interval, r, n);
    }
  }

  /** A container away from its replica's dead assigned node survives the pass. If the scheduler places the replica on
      a third node, a second copy is started there; if it places it nowhere, the container is forgotten; only if it
      puts the replica back on the container's node is there one copy. */
  lemma EvictedMovedDuplicate(w: World, now: int, net: Net, interval: int, r: string, n: string)
    requires WellKeyed(w.nodes) && r in w.layout && w.layout[r].node != n && AllAcked(net)
    requires w.layout[r].node in DeadIds(w.nodes, now)
    requires Slot(n, r) in w.containers && r in Expand(w.stored)
    ensures var w' := Reconcile(w, now, net, interval);
      && Slot(n, r) in w'.containers
      && (r !in w'.layout ==> r !in w'.pushed)
      && (r in w'.layout && w'.layout[r].node != n ==>
            Slot(w'.layout[r].node, r) in w'.containers && Slot(w'.layout[r].node, r) != Slot(n, r))
  {
    hide Expand, Running, Drive, Unavailable, Order;
    var rd, q := RoundOf(w, now, net), Order(Expand(w.stored));
    RoundValid(w, now, net);
    OrderCovers(Expand(w.stored));
    var p0 := Before(w, now, net);
    var i :| 0 <= i < |q| && q[i] == r;
    assert r !in p0.pushed;
    DriveUnrecorded(rd, net, p0, q, i, n);
    var p1 := Drive(rd, net, p0, q);
    assert forall s | s in StopCalls(rd, p1.layout) :: s.replica !in rd.desired;
  }

  lemma {:induction false} DriveUnrecorded(rd: Round, net: Net, p: Progress, q: seq<string>, i: nat, n: string)
    requires InRound(q, rd) && Distinct(q) && AllAcked(net) && i < |q| && q[i] !in p.pushed
    requires Slot(n, q[i]) in p.containers
    ensures var p', r := Drive(rd, net, p, q), q[i];
      && Slot(n, r) in p'.containers
      && (if r in p'.layout then Slot(p'.layout[r].node, r) in p'.containers else r !in p'.pushed)
    decreases |q|
  {
    hide DriveOne, Deliver;
    var p0, x := Drive(rd, net, p, q[..|q| - 1]), q[|q| - 1];
    DriveOneSplit(rd, net, p0, x);
    var p1 := DriveOne(rd, net, p0, x);
    if i < |q| - 1 {
      DriveUnrecorded(rd, net, p, q[..|q| - 1], i, n);
      assert q[i] in p0.layout <==> q[i] in p0.layout - {x};
      assert q[i] in p1.layout <==> q[i] in p1.layout - {x};
      if x in p1.layout {
        DeliverOthers(rd, net, p0.(layout := p1.layout), x, p1.layout[x].node, q[i]);
      }
    } else {
      DriveOutside(rd, net, p, q[..|q| - 1], x);
      if x in p1.layout {
        DeliverUnrecorded(rd, net, p0.(layout := p1.layout), x, p1.layout[x].node, n);
      }
    }
  }

  lemma DeliverUnrecorded(rd: Round, net: Net, p: Progress, r: string, node: string, n: string)
    requires r in rd.desired && rd.desired[r].parent in rd.stored && AllAcked(net)
    requires r !in p.pushed && Slot(n, r) in p.containers
    ensures var p' := Deliver(rd, net, p, r, node); Slot(n, r) in p'.containers && Slot(node, r) in p'.containers
  {
    assert net(Start(Slot(node, r))).Acked?;
  }

  // ----- The exact condition -----

  /** Where the scheduler alone puts the replicas in the coming pass. */
  ghost function Replacement(w: World, now: int, net: Net): Layout
    requires WellKeyed(w.nodes)
  {
    RoundValid(w, now, net);
    Settle(RoundOf(w, now, net), EvictDead(w, now).layout, Order(Expand(w.stored)))
  }

  /** Each replica hosted away from its assigned node is desired, and that node is alive or the scheduler
      puts the replica back where its container is. */
  ghost predicate MovedSafe(w: World, now: int, net: Net)
    requires WellKeyed(w.nodes)
  {
    forall s | s in w.containers && s.replica in w.layout && w.layout[s.replica].node != s.node ::
      && s.replica in Expand(w.stored)
      && (w.layout[s.replica].node in DeadIds(w.nodes, now) ==>
            s.replica in Replacement(w, now, net) && Replacement(w, now, net)[s.replica].node == s.node)
  }

  lemma ReplacementIsLayout(w: World, now: int, net: Net, interval: int, r: string)
    requires WellKeyed(w.nodes) && r in Expand(w.stored)
    ensures var m, w' := Replacement(w, now, net), Reconcile(w, now, net, interval);
      (r in m <==> r in w'.layout) && (r in m ==> m[r] == w'.layout[r])
  {
    hide Expand, Running, Drive, Settle, Unavailable, Order, EvictDead, Lapse, StopCalls;
    RoundValid(w, now, net);
    DriveLayout(RoundOf(w, now, net), net, Before(w, now, net), Order(Expand(w.stored)));
  }

  /** Each container of `r` is where its record says, or `r` has no record and is about to be placed there. */
  ghost predicate AtHome(c: Containers, pushed: Pushed, nodes: Nodes, m: Layout, r: string) {
    forall n | Slot(n, r) in c ::
      if r in pushed then pushed[r].node == n && n in nodes else r in m && m[r].node == n
  }

  ghost predicate Located(c: Containers, pushed: Pushed, r: string) {
    forall n | Slot(n, r) in c :: r in pushed && pushed[r].node == n
  }

  lemma DeliverLocated(rd: Round, net: Net, p: Progress, r: string, node: string)
    requires r in rd.desired && rd.desired[r].parent in rd.stored && AllAcked(net)
    requires r in p.layout && p.layout[r].node == node && AtHome(p.containers, p.pushed, rd.nodes, p.layout, r)
    ensures var p' := Deliver(rd, net, p, r, node); Located(p'.containers, p'.pushed, r)
  {
    hide MayRoll;
    assert net(Start(Slot(node, r))).Acked? && net(Stop(Slot(node, r))).Acked?;
    if r in p.pushed {
      assert net(Stop(Slot(p.pushed[r].node, r))).Acked?;
    }
  }

  lemma {:induction false} DriveLocated(rd: Round, net: Net, p: Progress, q: seq<string>, i: nat)
    requires InRound(q, rd) && Distinct(q) && AllAcked(net) && i < |q|
    requires AtHome(p.containers, p.pushed, rd.nodes, Drive(rd, net, p, q).layout, q[i])
    ensures var p' := Drive(rd, net, p, q); Located(p'.containers, p'.pushed, q[i])
    decreases |q|
  {
    hide DriveOne, Deliver;
    var p0, x := Drive(rd, net, p, q[..|q| - 1]), q[|q| - 1];
    DriveOneSplit(rd, net, p0, x);
    var p1 := DriveOne(rd, net, p0, x);
    if i < |q| - 1 {
      assert q[i] in p0.layout <==> q[i] in p0.layout - {x};
      assert q[i] in p1.layout <==> q[i] in p1.layout - {x};
      DriveLocated(rd, net, p, q[..|q| - 1], i);
      if x in p1.layout {
        DeliverOthers(rd, net, p0.(layout := p1.layout), x, p1.layout[x].node, q[i]);
      }
    } else {
      DriveOutside(rd, net, p, q[..|q| - 1], x);
      if x in p1.layout {
        DeliverLocated(rd, net, p0.(layout := p1.layout), x, p1.layout[x].node);
      }
    }
  }

  /** A record that still has its container does not lapse. */
  lemma LapseKeeps(rd: Round, net: Net, p: Progress, p': Progress, grace: int, s: Slot)
    requires AllAcked(net) && grace > 0 && rd.running == Running(p.containers, rd.nodes, net)
    requires s in p'.containers && Located(p'.containers, p'.pushed, s.replica)
    requires (s.replica in p'.pushed && p'.pushed[s.replica].at == rd.now) || SameFor(p, p', s.replica)
    requires s in p.containers ==> s.node in rd.nodes
    requires s in p.containers && s.replica in p.pushed && rd.now - p.pushed[s.replica].at >= grace ==>
               p.containers[s].running
    ensures s.replica in Lapse(p'.pushed, rd.running, rd.now, grace)
  {
    var r := s.replica;
    assert s == Slot(s.node, r) && r in p'.pushed;
    if rd.now - p'.pushed[r].at >= grace {
      assert SameFor(p, p', r) && s in p.containers;
      assert net(Status(s.node)).Acked?;
      assert r in rd.running;
    }
  }

  lemma AtHomeBefore(w: World, now: int, net: Net, r: string)
    requires Inv(w) && DeadQuiet(w, now) && MovedSafe(w, now, net) && r in Expand(w.stored)
    ensures var p := Before(w, now, net);
      AtHome(p.containers, p.pushed, RoundOf(w, now, net).nodes, Replacement(w, now, net), r)
  {
    hide Expand, Running, Settle, Unavailable, Order, AliveNodes;
    SurvivorsAlive(w.nodes, now);
    var p, m := Before(w, now, net), Replacement(w, now, net);
    forall n | Slot(n, r) in p.containers
      ensures if r in p.pushed then p.pushed[r].node == n && n in RoundOf(w, now, net).nodes
              else r in m && m[r].node == n
    {
      var s := Slot(n, r);
      assert s in w.containers && w.pushed[s.replica].node == s.node && s.node in w.nodes - DeadIds(w.nodes, now);
      if r !in p.pushed {
        assert w.layout[r].node in DeadIds(w.nodes, now);
      }
    }
  }

  /** In a safe state an assigned, undesired replica is stopped. */
  lemma UndesiredStopped(w: World, now: int, net: Net, interval: int, s: Slot)
    requires Inv(w) && AllAcked(net) && DeadQuiet(w, now) && MovedSafe(w, now, net)
    requires s in w.containers && s.replica in w.layout && s.replica !in Expand(w.stored)
    ensures s !in Reconcile(w, now, net, interval).containers
  {
    hide Reconcile, Expand, AliveNodes, Replacement;
    UndesiredStoppedIff(w, now, net, interval, s);
    assert net(Stop(s)).Acked?;
  }

  lemma LocatedAfter(w: World, now: int, net: Net, interval: int, s: Slot)
    requires Inv(w) && AllAcked(net) && interval > 0
    requires DeadQuiet(w, now) && GraceGone(w, now, 2 * interval) && MovedSafe(w, now, net)
    requires s in Reconcile(w, now, net, interval).containers
    ensures var w' := Reconcile(w, now, net, interval); s.replica in w'.pushed && w'.pushed[s.replica].node == s.node
  {
    hide Expand, Running, Drive, Settle, Unavailable, Order, DriveOne, AliveNodes, Lapse;
    var rd, q, r := RoundOf(w, now, net), Order(Expand(w.stored)), s.replica;
    RoundValid(w, now, net);
    OrderCovers(Expand(w.stored));
    SurvivorsAlive(w.nodes, now);
    var p0 := Before(w, now, net);
    var p1 := Drive(rd, net, p0, q);
    DriveLayout(rd, net, p0, q);
    assert s == Slot(s.node, r);
    if r in q {
      var i :| 0 <= i < |q| && q[i] == r;
      AtHomeBefore(w, now, net, r);
      DriveLocated(rd, net, p0, q, i);
      DriveRecords(rd, net, p0, q, i);
    } else {
      DriveOutside(rd, net, p0, q, r);
      if r in w.layout && s in w.containers {
        UndesiredStopped(w, now, net, interval, s);
      }
    }
    LapseIsSub(p1.pushed, rd.running, now, 2 * interval);
    LapseKeeps(rd, net, p0, p1, 2 * interval, s);
  }

  /** With calls acknowledged, dead nodes quiet and grace periods honoured, a pass from a traced state keeps
      single copies if and only if every moved replica is safe. */
  lemma PassOneCopyIff(w: World, now: int, net: Net, interval: int)
    requires Inv(w) && AllAcked(net) && interval > 0 && DeadQuiet(w, now) && GraceGone(w, now, 2 * interval)
    ensures OneCopy(Reconcile(w, now, net, interval)) <==> MovedSafe(w, now, net)
  {
    hide Reconcile, Expand, Replacement, AliveNodes;
    var w' := Reconcile(w, now, net, interval);
    if MovedSafe(w, now, net) {
      forall a, b | a in w'.containers && b in w'.containers && a.replica == b.replica
        ensures a == b && a.replica in w'.pushed && w'.pushed[a.replica].node == a.node
      {
        LocatedAfter(w, now, net, interval, a);
        LocatedAfter(w, now, net, interval, b);
        assert a == Slot(a.node, a.replica) && b == Slot(b.node, b.replica);
      }
    } else {
      var s :| s in w.containers && s.replica in w.layout && w.layout[s.replica].node != s.node
        && !(s.replica in Expand(w.stored)
             && (w.layout[s.replica].node in DeadIds(w.nodes, now) ==>
                   s.replica in Replacement(w, now, net) && Replacement(w, now, net)[s.replica].node == s.node));
      assert s == Slot(s.node, s.replica);
      if s.replica !in Expand(w.stored) {
        UndesiredMovedOrphan(w, now, net, interval, s.replica, s.node);
      } else {
        EvictedMovedDuplicate(w, now, net, interval, s.replica, s.node);
        ReplacementIsLayout(w, now, net, interval, s.replica);
      }
    }
  }
}
