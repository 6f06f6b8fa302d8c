/** Each replica has at most one container, on the node its push record names. */
module SingleCopy {
  import opened Ordering
  import opened Registry
  import opened Placing
  import opened Workloads
  import opened Reconciling
  import opened PassLaws

  /** Every container is where its replica's push record says, with the spec it says, on a registered node. */
  ghost predicate Traced(c: Containers, pushed: Pushed, nodes: Nodes) {
    forall s | s in c ::
      && s.replica in pushed && s.node in nodes
      && pushed[s.replica].node == s.node && pushed[s.replica].spec == c[s].spec
  }

  ghost predicate SameRecord(a: Pushed, b: Pushed, r: string) {
    (r in a <==> r in b) && (r in a ==> a[r] == b[r])
  }

  ghost predicate SameContainers(a: Containers, b: Containers, r: string) {
    forall n :: (Slot(n, r) in a <==> Slot(n, r) in b) && (Slot(n, r) in a ==> a[Slot(n, r)] == b[Slot(n, r)])
  }

  ghost predicate SameFor(p: Progress, p': Progress, r: string) {
    SameRecord(p.pushed, p'.pushed, r) && SameContainers(p.containers, p'.containers, r)
  }

  // ----- One replica -----

  lemma PlaceOthers(rd: Round, net: Net, p: Progress, r: string, node: string, spec: Spec, other: string)
    requires other != r
    ensures SameFor(p, Push(rd, net, p, r, node, spec), other)
  {
  }

  lemma StopOthers(net: Net, p: Progress, slot: Slot, other: string)
    requires other != slot.replica
    ensures SameFor(p, SendStop(p, slot, net), other)
  {
  }

  /** Whatever becomes of the calls, other replicas are left alone. */
  lemma DeliverOthers(rd: Round, net: Net, p: Progress, r: string, node: string, other: string)
    requires r in rd.desired && rd.desired[r].parent in rd.stored && other != r
    ensures SameFor(p, Deliver(rd, net, p, r, node), other)
  {
    hide MayRoll, Push, SendStop;
    var spec := rd.desired[r].wl.spec;
    PlaceOthers(rd, net, p, r, node, spec, other);
    StopOthers(net, p, Slot(node, r), other);
    PlaceOthers(rd, net, SendStop(p, Slot(node, r), net), r, node, spec, other);
    if r in p.pushed {
      var from := Slot(p.pushed[r].node, r);
      StopOthers(net, p, from, other);
      PlaceOthers(rd, net, SendStop(p, from, net), r, node, spec, other);
    }
  }

  /** With calls acknowledged, the replica's record names its node, and is new unless nothing changed. */
  lemma DeliverRecords(rd: Round, net: Net, p: Progress, r: string, node: string)
    requires r in rd.desired && rd.desired[r].parent in rd.stored && AllAcked(net)
    ensures var p' := Deliver(rd, net, p, r, node);
      && r in p'.pushed && p'.pushed[r].node == node
      && (p'.pushed[r].at == rd.now || SameFor(p, p', r))
  {
    hide MayRoll;
    assert net(Start(Slot(node, r))).Acked? && net(Stop(Slot(node, r))).Acked?;
  }

  lemma StartTraced(c: Containers, pushed: Pushed, nodes: Nodes, r: string, node: string, rec: PushRecord)
    requires Traced(c, pushed, nodes) && node in nodes && rec.node == node
    requires forall s | s in c :: s.replica != r
    ensures Traced(Started(c, Slot(node, r), rec.spec, Acked), pushed[r := rec], nodes)
  {
  }

  lemma DeliverTraced(rd: Round, net: Net, p: Progress, r: string, node: string)
    requires r in rd.desired && rd.desired[r].parent in rd.stored && AllAcked(net) && node in rd.nodes
    requires Traced(p.containers, p.pushed, rd.nodes)
    ensures var p' := Deliver(rd, net, p, r, node); Traced(p'.containers, p'.pushed, rd.nodes)
  {
    hide MayRoll;
    var spec := rd.desired[r].wl.spec;
    var rec := PushRecord(node, rd.now, spec);
    assert net(Start(Slot(node, r))).Acked? && net(Stop(Slot(node, r))).Acked?;
    if r !in p.pushed {
      StartTraced(p.containers, p.pushed, rd.nodes, r, node, rec);
    } else {
      var from := p.pushed[r].node;
      assert net(Stop(Slot(from, r))).Acked?;
      var c := if from in rd.nodes then p.containers - {Slot(from, r)} else p.containers;
      assert forall s | s in c :: s.replica != r;
      StartTraced(c, p.pushed, rd.nodes, r, node, rec);
    }
  }

  // ----- The loop -----

  lemma DriveOneSplit(rd: Round, net: Net, p: Progress, r: string)
    requires ValidRound(rd) && r in rd.desired
    ensures var p' := DriveOne(rd, net, p, r);
      && p'.layout - {r} == p.layout - {r}
      && (r !in p'.layout ==> p' == p.(layout := p'.layout))
      && (r in p'.layout ==> p'.layout[r].node in rd.nodes
                             && p' == Deliver(rd, net, p.(layout := p'.layout), r, p'.layout[r].node))
  {
    hide Assign, Deliver;
    AssignFrame(p.layout, rd.nodes, rd.now, r, rd.desired[r].parent, RequestOf(rd.desired[r].wl));
    var (layout, res) := Assign(p.layout, rd.nodes, rd.now, r, rd.desired[r].parent, RequestOf(rd.desired[r].wl));
    if res.Assigned? {
      DeliverLayout(rd, net, p.(layout := layout), r, res.node);
    }
  }

  /** Replicas outside the queue keep placement, record and containers. */
  lemma {:induction false} DriveOutside(rd: Round, net: Net, p: Progress, q: seq<string>, r: string)
    requires InRound(q, rd) && r !in q
    ensures var p' := Drive(rd, net, p, q);
      SameFor(p, p', r) && (r in p.layout <==> r in p'.layout) && (r in p.layout ==> p.layout[r] == p'.layout[r])
    decreases |q|
  {
    hide DriveOne, Deliver;
    if q != [] {
      var p0, x := Drive(rd, net, p, q[..|q| - 1]), q[|q| - 1];
      DriveOutside(rd, net, p, q[..|q| - 1], r);
      DriveOneSplit(rd, net, p0, x);
      var p1 := DriveOne(rd, net, p0, x);
      assert r in p0.layout <==> r in p0.layout - {x};
      assert r in p1.layout <==> r in p1.layout - {x};
      if x in p1.layout {
        DeliverOthers(rd, net, p0.(layout := p1.layout), x, p1.layout[x].node, r);
      }
    }
  }

  /** With calls acknowledged: containers stay traced, every placed replica of the queue is recorded where
      it is placed, and a record is new unless nothing about its replica changed. */
  lemma {:induction false} DriveTraced(rd: Round, net: Net, p: Progress, q: seq<string>)
    requires InRound(q, rd) && Distinct(q) && AllAcked(net)
    requires Traced(p.containers, p.pushed, rd.nodes)
    ensures var p' := Drive(rd, net, p, q); Traced(p'.containers, p'.pushed, rd.nodes)
    decreases |q|
  {
    hide DriveOne, Deliver;
    if q != [] {
      var p0, x := Drive(rd, net, p, q[..|q| - 1]), q[|q| - 1];
      DriveTraced(rd, net, p, q[..|q| - 1]);
      DriveOneSplit(rd, net, p0, x);
      var p1 := DriveOne(rd, net, p0, x);
      if x in p1.layout {
        DeliverTraced(rd, net, p0.(layout := p1.layout), x, p1.layout[x].node);
      }
    }
  }

  lemma {:induction false} DriveRecords(rd: Round, net: Net, p: Progress, q: seq<string>, i: nat)
    requires InRound(q, rd) && Distinct(q) && AllAcked(net) && i < |q|
    ensures var p', r := Drive(rd, net, p, q), q[i];
      && (r in p'.layout ==> r in p'.pushed && p'.pushed[r].node == p'.layout[r].node)
      && ((r in p'.pushed && p'.pushed[r].at == rd.now) || SameFor(p, p', r))
    decreases |q|
  {
    hide DriveOne, Deliver;
    var p0, x := Drive(rd, net, p, q[..|q| - 1]), q[|q| - 1];
    DriveOneSplit(rd, net, p0, x);
    var p1 := DriveOne(rd, net, p0, x);
    if i < |q| - 1 {
      DriveRecords(rd, net, p, q[..|q| - 1], i);
      assert q[i] in p0.layout <==> q[i] in p0.layout - {x};
      assert q[i] in p1.layout <==> q[i] in p1.layout - {x};
      if x in p1.layout {
        DeliverOthers(rd, net, p0.(layout := p1.layout), x, p1.layout[x].node, q[i]);
      }
    } else {
      DriveOutside(rd, net, p, q[..|q| - 1], x);
      if x in p1.layout {
        DeliverRecords(rd, net, p0.(layout := p1.layout), x, p1.layout[x].node);
      }
    }
  }

  // ----- The pass -----

  /** A replica whose record and placement disagree (a rebalance moved it) is still desired, and its new
      node is alive. */
  ghost predicate PassSafe(w: World, now: int) {
    forall r | r in w.layout && r in w.pushed && w.pushed[r].node != w.layout[r].node ::
      r in Expand(w.stored) && w.layout[r].node in AliveNodes(w.nodes, now)
  }

  /** Nodes past their heartbeat window host nothing. */
  ghost predicate DeadQuiet(w: World, now: int) {
    forall s | s in w.containers :: s.node in AliveNodes(w.nodes, now)
  }

  /** A container that exists past its replica's grace period is Running. */
  ghost predicate GraceGone(w: World, now: int, grace: int) {
    forall s | s in w.containers && s.replica in w.pushed && now - w.pushed[s.replica].at >= grace ::
      w.containers[s].running
  }

  /** Placed replicas are recorded where they are placed. */
  ghost predicate Aligned(w: World) {
    forall r | r in w.layout && r in w.pushed :: w.pushed[r].node == w.layout[r].node
  }

  ghost predicate Inv(w: World) {
    WellKeyed(w.nodes) && Traced(w.containers, w.pushed, w.nodes)
  }

  lemma EvictTraced(w: World, now: int)
    requires Inv(w) && PassSafe(w, now) && DeadQuiet(w, now)
    ensures var w1 := EvictDead(w, now);
      && Traced(w1.containers, w1.pushed, w1.nodes)
      && (forall r | r in w1.layout && r in w1.pushed && r !in Expand(w.stored) ::
            w1.pushed[r].node == w1.layout[r].node)
  {
    hide Expand;
    var w1 := EvictDead(w, now);
    SurvivorsAlive(w.nodes, now);
    forall s | s in w1.containers ensures s.replica in w1.pushed && s.node in w1.nodes {
      if s.replica in w.layout && s.replica !in w1.layout {
        assert w.layout[s.replica].node in DeadIds(w.nodes, now);
      }
    }
  }

  /** Records that lapse belong to replicas with no container left. */
  lemma LapseTraced(rd: Round, net: Net, p: Progress, p': Progress, grace: int)
    requires AllAcked(net) && grace > 0
    requires rd.running == Running(p.containers, rd.nodes, net)
    requires Traced(p'.containers, p'.pushed, rd.nodes)
    requires forall r :: (r in p'.pushed && p'.pushed[r].at == rd.now) || SameFor(p, p', r)
    requires forall s | s in p.containers && s.replica in p.pushed && rd.now - p.pushed[s.replica].at >= grace ::
               p.containers[s].running
    ensures Traced(p'.containers, Lapse(p'.pushed, rd.running, rd.now, grace), rd.nodes)
  {
    forall s | s in p'.containers ensures s.replica in Lapse(p'.pushed, rd.running, rd.now, grace) {
      var r := s.replica;
      if rd.now - p'.pushed[r].at >= grace {
        assert SameFor(p, p', r);
        assert s == Slot(s.node, r) && s in p.containers;
        assert net(Status(s.node)).Acked?;
        assert r in rd.running;
      }
    }
  }

  /** Stopping undesired replicas leaves no untraced container, when each sits where it is assigned. */
  lemma CleanupTraced(rd: Round, net: Net, p: Progress)
    requires AllAcked(net) && Traced(p.containers, p.pushed, rd.nodes)
    requires forall r | r in p.layout && r in p.pushed && r !in rd.desired :: p.pushed[r].node == p.layout[r].node
    ensures var p' := Cleanup(rd, net, p); Traced(p'.containers, p'.pushed, rd.nodes)
  {
    var p' := Cleanup(rd, net, p);
    forall s | s in p.containers && s.replica in Undesired(rd, p.layout) ensures s !in p'.containers {
      assert p.layout[s.replica].node == s.node;
      assert s == Slot(s.node, s.replica) && s in StopCalls(rd, p.layout);
      assert net(Stop(s)).Acked?;
    }
  }

  /** A pass with acknowledged calls keeps every container traced, and ends with placements and records
      in agreement. */
  lemma PassKeepsInv(w: World, now: int, net: Net, interval: int)
    requires Inv(w) && AllAcked(net) && interval > 0
    requires PassSafe(w, now) && DeadQuiet(w, now) && GraceGone(w, now, 2 * interval)
    ensures var w' := Reconcile(w, now, net, interval); Inv(w') && Aligned(w')
  {
    hide Expand, EvictDead, Running, Lapse, Order, Drive, Unavailable, StopCalls, AliveNodes, Traced;
    var rd, q := RoundOf(w, now, net), Order(Expand(w.stored));
    RoundValid(w, now, net);
    OrderCovers(Expand(w.stored));
    EvictTraced(w, now);
    var p0 := Before(w, now, net);
    var p1 := Drive(rd, net, p0, q);
    DriveTraced(rd, net, p0, q);
    forall r ensures (r in p1.pushed && p1.pushed[r].at == rd.now) || SameFor(p0, p1, r) {
      DriveAny(rd, net, p0, q, r);
    }
    EvictKeepsGrace(w, now, 2 * interval);
    LapseTraced(rd, net, p0, p1, 2 * interval);
    var p2 := p1.(pushed := Lapse(p1.pushed, rd.running, now, 2 * interval));
    LapseIsSub(p1.pushed, rd.running, now, 2 * interval);
    forall r | r in p2.layout && r in p2.pushed ensures p2.pushed[r].node == p2.layout[r].node {
      DriveAny(rd, net, p0, q, r);
    }
    CleanupTraced(rd, net, p2);
  }

  lemma {:induction false} DriveAny(rd: Round, net: Net, p: Progress, q: seq<string>, r: string)
    requires InRound(q, rd) && Distinct(q) && AllAcked(net) && (forall r :: r in q <==> r in rd.desired)
    requires forall r | r in p.layout && r in p.pushed && r !in rd.desired :: p.pushed[r].node == p.layout[r].node
    ensures var p' := Drive(rd, net, p, q);
      && (r in p'.layout && r in p'.pushed ==> p'.pushed[r].node == p'.layout[r].node)
      && ((r in p'.pushed && p'.pushed[r].at == rd.now) || SameFor(p, p', r))
  {
    hide Drive;
    if r in q {
      var i :| 0 <= i < |q| && q[i] == r;
      DriveRecords(rd, net, p, q, i);
    } else {
      DriveOutside(rd, net, p, q, r);
    }
  }

  lemma EvictKeepsGrace(w: World, now: int, grace: int)
    requires GraceGone(w, now, grace)
    ensures GraceGone(EvictDead(w, now), now, grace)
    ensures EvictDead(w, now).containers == w.containers
    ensures AliveNodes(EvictDead(w, now).nodes, now) == EvictDead(w, now).nodes
  {
    SurvivorsAlive(w.nodes, now);
  }

  lemma LapseIsSub(pushed: Pushed, running: set<string>, now: int, grace: int)
    ensures var l := Lapse(pushed, running, now, grace); forall r | r in l :: r in pushed && l[r] == pushed[r]
  {
  }
}
