/** The reconciler as the control plane runs it, proved against the pass it specifies. */
module Reconciler {
  import opened Ordering
  import opened Registry
  import opened Layouts
  import opened Placing
  import opened Scheduling
  import opened Workloads
  import opened Reconciling

  /** The agents, reached by calls whose fate the network decides. */
  class Fleet {
    var containers: Containers

    method PushAssignment(slot: Slot, spec: Spec, net: Net) returns (ok: bool)
      modifies this
      ensures containers == Started(old(containers), slot, spec, net(Start(slot)))
      ensures ok == net(Start(slot)).Acked?
    {
      var o := net(Start(slot));
      containers := Started(containers, slot, spec, o);
      ok := o.Acked?;
    }

    method PushUnassign(slot: Slot, net: Net) returns (ok: bool)
      modifies this
      ensures containers == Stopped(old(containers), slot, net(Stop(slot)))
      ensures ok == net(Stop(slot)).Acked?
    {
      var o := net(Stop(slot));
      containers := Stopped(containers, slot, o);
      ok := o.Acked?;
    }

    /** One status fetch per alive node; a node whose fetch fails contributes nothing. */
    method ClusterRunning(alive: seq<Node>, net: Net, ghost nodes: Nodes) returns (running: set<string>)
      requires WellKeyed(nodes) && Elements(alive) == nodes.Values
      ensures running == Reconciling.Running(containers, nodes, net)
    {
      running := {};
      var i := 0;
      while i < |alive|
        invariant 0 <= i <= |alive|
        invariant running == set s | s in containers.Keys && FetchedFrom(s.node, alive[..i], net)
                                     && containers[s].running :: s.replica
      {
        ghost var before := running;
        var here: set<string> := {};
        if net(Status(alive[i].id)).Acked? {
          here := set s | s in containers.Keys && s.node == alive[i].id && containers[s].running :: s.replica;
        }
        running := running + here;
        FetchedNext(alive, i, net);
        i := i + 1;
      }
      assert alive[..i] == alive;
      forall n ensures FetchedFrom(n, alive, net) <==> n in nodes && net(Status(n)).Acked? {
        FetchedAll(alive, net, nodes, n);
      }
    }
  }

  ghost predicate FetchedFrom(n: string, nodes: seq<Node>, net: Net) {
    net(Status(n)).Acked? && exists x :: x in nodes && x.id == n
  }

  lemma FetchedNext(nodes: seq<Node>, i: nat, net: Net)
    requires i < |nodes|
    ensures forall n :: FetchedFrom(n, nodes[..i + 1], net)
                   <==> FetchedFrom(n, nodes[..i], net) || (n == nodes[i].id && net(Status(n)).Acked?)
  {
    assert nodes[..i + 1] == nodes[..i] + [nodes[i]];
    forall n ensures FetchedFrom(n, nodes[..i + 1], net)
                <==> FetchedFrom(n, nodes[..i], net) || (n == nodes[i].id && net(Status(n)).Acked?) {
      if n == nodes[i].id {
        assert nodes[i] in nodes[..i + 1];
      }
    }
  }

  lemma FetchedAll(alive: seq<Node>, net: Net, nodes: Nodes, n: string)
    requires WellKeyed(nodes) && Elements(alive) == nodes.Values
    ensures FetchedFrom(n, alive, net) <==> n in nodes && net(Status(n)).Acked?
  {
    if n in nodes {
      assert nodes[n] in alive && nodes[n].id == n;
    }
    if FetchedFrom(n, alive, net) {
      var x :| x in alive && x.id == n;
      assert x in nodes.Values;
    }
  }

  class Controller {
    const registry: NodeTable
    const scheduler: Scheduler
    const fleet: Fleet
    const interval: int
    var pushed: Pushed

    constructor (reg: NodeTable, sched: Scheduler, agents: Fleet, period: int)
      requires sched.registry == reg && sched.Valid()
      ensures registry == reg && scheduler == sched && fleet == agents && interval == period
      ensures pushed == map[] && Valid()
    {
      registry, scheduler, fleet, interval := reg, sched, agents, period;
      pushed := map[];
    }

    ghost predicate Valid()
      reads this, registry, scheduler, scheduler.registry
    {
      scheduler.registry == registry && scheduler.Valid()
    }

    ghost function View(stored: Store): World
      requires Valid()
      reads this, registry, scheduler, scheduler.registry, fleet
    {
      World(stored, registry.nodes, scheduler.View(), pushed, fleet.containers)
    }

    ghost function Stage(unavailable: Tally, rolled: set<string>, sent: set<Call>): Progress
      requires Valid()
      reads this, registry, scheduler, scheduler.registry, fleet
    {
      Progress(scheduler.View(), pushed, fleet.containers, unavailable, rolled, sent)
    }

    method PlaceOn(rd: Round, net: Net, r: string, node: string, spec: Spec,
                   ghost u: Tally, ghost rolled: set<string>, ghost sent: set<Call>)
      returns (ok: bool, ghost sent': set<Call>)
      requires Valid()
      modifies this`pushed, fleet
      ensures Valid() && ok == net(Start(Slot(node, r))).Acked?
      ensures Stage(u, rolled, sent') == Push(rd, net, old(Stage(u, rolled, sent)), r, node, spec)
    {
      ok := fleet.PushAssignment(Slot(node, r), spec, net);
      sent' := sent + {Start(Slot(node, r))};
      if ok {
        pushed := pushed[r := PushRecord(node, rd.now, spec)];
      }
    }

    /** Stop the old container if its node is still registered, whatever comes of that, then start the new. */
    method RelocateTo(rd: Round, net: Net, r: string, node: string, spec: Spec,
                      ghost u: Tally, ghost rolled: set<string>, ghost sent: set<Call>)
      returns (ghost sent': set<Call>)
      requires Valid() && r in pushed && rd.nodes == registry.nodes
      modifies this`pushed, fleet
      ensures Valid()
      ensures Stage(u, rolled, sent') == Relocate(rd, net, old(Stage(u, rolled, sent)), r, node, spec)
    {
      var from := pushed[r].node;
      sent' := sent;
      if from in registry.nodes {
        var _ := fleet.PushUnassign(Slot(from, r), net);
        sent' := sent + {Stop(Slot(from, r))};
      }
      var _, s := PlaceOn(rd, net, r, node, spec, u, rolled, sent');
      sent' := s;
    }

    method RollOn(rd: Round, net: Net, r: string, node: string, spec: Spec, parent: string, u: Tally,
                  ghost rolled: set<string>, ghost sent: set<Call>)
      returns (u': Tally, ghost rolled': set<string>, ghost sent': set<Call>)
      requires Valid()
      modifies this`pushed, fleet
      ensures Valid()
      ensures Stage(u', rolled', sent') == Roll(rd, net, old(Stage(u, rolled, sent)), r, node, spec, parent)
    {
      u', rolled' := u, rolled;
      var ok := fleet.PushUnassign(Slot(node, r), net);
      sent' := sent + {Stop(Slot(node, r))};
      if !ok {
        return;
      }
      var ok', s := PlaceOn(rd, net, r, node, spec, u, rolled, sent');
      sent' := s;
      if !ok' {
        return;
      }
      u' := Bump(u, parent, 1);
      rolled' := rolled + {r};
    }

    method DeliverTo(rd: Round, net: Net, r: string, node: string, u: Tally,
                     ghost rolled: set<string>, ghost sent: set<Call>)
      returns (u': Tally, ghost rolled': set<string>, ghost sent': set<Call>)
      requires Valid() && r in rd.desired && rd.desired[r].parent in rd.stored && rd.nodes == registry.nodes
      modifies this`pushed, fleet
      ensures Valid()
      ensures Stage(u', rolled', sent') == Deliver(rd, net, old(Stage(u, rolled, sent)), r, node)
    {
      hide Push, Relocate, Roll;
      var inst := rd.desired[r];
      u', rolled', sent' := u, rolled, sent;
      if r !in pushed {
        var _, s := PlaceOn(rd, net, r, node, inst.wl.spec, u, rolled, sent);
        sent' := s;
      } else if pushed[r].node != node {
        sent' := RelocateTo(rd, net, r, node, inst.wl.spec, u, rolled, sent);
      } else if pushed[r].spec != inst.wl.spec {
        if r in rd.running && At(u, inst.parent) < MaxUnavailable(rd.stored[inst.parent]) {
          u', rolled', sent' := RollOn(rd, net, r, node, inst.wl.spec, inst.parent, u, rolled, sent);
        }
      }
    }

    method DriveReplica(rd: Round, net: Net, r: string, u: Tally, ghost rolled: set<string>, ghost sent: set<Call>)
      returns (u': Tally, ghost rolled': set<string>, ghost sent': set<Call>)
      requires Valid() && ValidRound(rd) && r in rd.desired && rd.nodes == registry.nodes
      modifies this`pushed, fleet, scheduler
      ensures Valid() && registry.nodes == old(registry.nodes)
      ensures Stage(u', rolled', sent') == DriveOne(rd, net, old(Stage(u, rolled, sent)), r)
    {
      hide Placing.Assign, Deliver;
      var inst := rd.desired[r];
      u', rolled', sent' := u, rolled, sent;
      var res := scheduler.Assign(r, inst.parent, RequestOf(inst.wl), rd.now);
      if !res.Assigned? {
        return;
      }
      if res.node !in registry.nodes {
        scheduler.Unassign(r);
        return;
      }
      u', rolled', sent' := DeliverTo(rd, net, r, res.node, u, rolled, sent);
    }

    method Forget(ids: seq<string>)
      modifies this`pushed
      ensures pushed == old(pushed) - Elements(ids)
    {
      var i := 0;
      while i < |ids|
        invariant 0 <= i <= |ids|
        invariant pushed == old(pushed) - Elements(ids[..i])
      {
        assert ids[..i + 1] == ids[..i] + [ids[i]];
        pushed := pushed - {ids[i]};
        i := i + 1;
      }
      assert ids[..i] == ids;
    }

    /** Evict dead nodes' replicas, forget their records, and drop the nodes. */
    method EvictDeadNodes(now: int, ghost stored: Store)
      requires Valid()
      modifies this`pushed, scheduler, registry
      ensures Valid() && View(stored) == EvictDead(old(View(stored)), now)
    {
      hide Evict, DeadIds;
      var dead := registry.Dead(now);
      ghost var w := View(stored);
      ghost var done: set<string> := {};
      EvictNone(w.layout, w.nodes, w.pushed);
      var i := 0;
      while i < |dead|
        invariant 0 <= i <= |dead| && Valid()
        invariant done == Ids(dead[..i])
        invariant registry.nodes == w.nodes - done
        invariant scheduler.View() == Evict(w.layout, done)
        invariant pushed == w.pushed - (w.layout.Keys - Evict(w.layout, done).Keys)
      {
        var n := dead[i].id;
        var evicted := scheduler.ReassignNode(n);
        EvictMore(w.layout, w.pushed, done, n, Elements(evicted));
        Forget(evicted);
        registry.Remove(n);
        assert dead[..i + 1] == dead[..i] + [dead[i]];
        done := done + {n};
        i := i + 1;
      }
      assert dead[..i] == dead;
      DeadListed(dead, w.nodes, now);
    }

    method DriveAll(rd: Round, net: Net, ids: seq<string>, u: Tally)
      returns (ghost u': Tally, ghost rolled: set<string>, ghost sent: set<Call>)
      requires Valid() && InRound(ids, rd) && rd.nodes == registry.nodes
      modifies this`pushed, fleet, scheduler
      ensures Valid() && registry.nodes == old(registry.nodes)
      ensures Stage(u', rolled, sent) == Drive(rd, net, old(Stage(u, {}, {})), ids)
    {
      hide DriveOne;
      var unavailable := u;
      rolled, sent := {}, {};
      var i := 0;
      while i < |ids|
        invariant 0 <= i <= |ids| && Valid() && registry.nodes == old(registry.nodes)
        invariant Stage(unavailable, rolled, sent) == Drive(rd, net, old(Stage(u, {}, {})), ids[..i])
      {
        assert ids[..i + 1][..i] == ids[..i];
        unavailable, rolled, sent := DriveReplica(rd, net, ids[i], unavailable, rolled, sent);
        i := i + 1;
      }
      assert ids[..i] == ids;
      u' := unavailable;
    }

    /** Forget the records of replicas past their grace period that are not Running. */
    method LapseRecords(running: set<string>, now: int)
      modifies this`pushed
      ensures pushed == Lapse(old(pushed), running, now, 2 * interval)
    {
      ghost var p := pushed;
      var rest := pushed.Keys;
      while rest != {}
        invariant rest <= p.Keys
        invariant forall r :: r in pushed <==>
                              r in p && (r in rest || !(now - p[r].at >= 2 * interval && r !in running))
        invariant forall r | r in pushed :: pushed[r] == p[r]
        decreases rest
      {
        var r :| r in rest;
        rest := rest - {r};
        if now - pushed[r].at >= 2 * interval {
          if r !in running {
            pushed := pushed - {r};
          }
        }
      }
      assert pushed == Lapse(p, running, now, 2 * interval);
    }

    method StopOne(rd: Round, net: Net, r: string, node: string,
                   ghost u: Tally, ghost rolled: set<string>, ghost sent: set<Call>)
      returns (ghost sent': set<Call>)
      requires Valid() && rd.nodes == registry.nodes
      modifies this`pushed, fleet, scheduler
      ensures Valid() && registry.nodes == old(registry.nodes)
      ensures Stage(u, rolled, sent') == StopAssigned(rd, net, old(Stage(u, rolled, sent)), r, node)
    {
      sent' := sent;
      if node in registry.nodes {
        var _ := fleet.PushUnassign(Slot(node, r), net);
        sent' := sent' + {Stop(Slot(node, r))};
      }
      scheduler.Unassign(r);
      pushed := pushed - {r};
    }

    /** Stop what is no longer desired, on the node it is assigned to. */
    method StopUndesired(rd: Round, net: Net, ghost u: Tally, ghost rolled: set<string>, ghost sent: set<Call>)
      returns (ghost sent': set<Call>)
      requires Valid() && rd.nodes == registry.nodes
      modifies this`pushed, fleet, scheduler
      ensures Valid() && registry.nodes == old(registry.nodes)
      ensures Stage(u, rolled, sent') == Cleanup(rd, net, old(Stage(u, rolled, sent)))
    {
      hide CleanupOf, StopAssigned, Cleanup;
      ghost var p := Stage(u, rolled, sent);
      sent' := sent;
      var list := scheduler.ListAssignments();
      ghost var gone: set<string> := {};
      CleanupNone(rd, net, p);
      var i := 0;
      while i < |list|
        invariant 0 <= i <= |list| && Valid() && registry.nodes == old(registry.nodes)
        invariant gone <= p.layout.Keys && gone == Dropped(list[..i], rd.desired.Keys)
        invariant Stage(u, rolled, sent') == CleanupOf(rd, net, p, gone)
      {
        var r, node := list[i].replica, list[i].node;
        assert list[i] in list;
        DroppedNext(list, i, rd.desired.Keys);
        if r !in rd.desired {
          CleanupMore(rd, net, p, gone, r);
          sent' := StopOne(rd, net, r, node, u, rolled, sent');
          gone := gone + {r};
        }
        i := i + 1;
      }
      assert list[..i] == list;
      CleanupAll(rd, net, p, list, gone);
    }

    /** `reconcile`: a failed store read changes nothing. */
    method Reconcile(desired: Option<Store>, now: int, net: Net) returns (ok: bool)
      requires Valid()
      modifies this`pushed, fleet, scheduler, registry
      ensures Valid() && ok == desired.Some?
      ensures desired.Some? ==>
                View(desired.value) == Reconciling.Reconcile(old(View(desired.value)), now, net, interval)
      ensures desired.None? ==> View(map[]) == old(View(map[]))
    {
      if desired.None? {
        return false;
      }
      hide Drive, Cleanup, Lapse, EvictDead, Reconciling.Running, Expand, Unavailable, Order;
      var stored := desired.value;
      var instances := ExpandAll(stored);
      ghost var w := View(stored);
      EvictDeadNodes(now, stored);
      var alive := registry.Alive(now);
      ghost var nodes := AliveNodes(registry.nodes, now);
      var running := fleet.ClusterRunning(alive, net, nodes);
      var rd := Round(stored, instances, registry.nodes, now, running);
      RoundValid(w, now, net);
      EvictKeepsContainers(w, now);
      assert rd == RoundOf(w, now, net);
      var unavailable := CountUnavailable(rd);
      var ids := SortedReplicaIds(instances);
      ghost var u, rolled, sent := DriveAll(rd, net, ids, unavailable);
      LapseRecords(running, now);
      ghost var _ := StopUndesired(rd, net, u, rolled, sent);
      ok := true;
    }
  }

  lemma EvictKeepsContainers(w: World, now: int)
    ensures EvictDead(w, now).containers == w.containers && EvictDead(w, now).stored == w.stored
  {
  }

  method SortedReplicaIds(desired: map<string, Instance>) returns (ids: seq<string>)
    ensures ids == Order(desired)
  {
    var list: seq<string> := [];
    var rest := desired.Keys;
    while rest != {}
      invariant rest <= desired.Keys && Distinct(list) && Elements(list) == desired.Keys - rest
      decreases rest
    {
      var r :| r in rest;
      assert r !in Elements(list);
      rest := rest - {r};
      list := list + [r];
    }
    StringsTotal(desired.Keys);
    assert Elements(list) == desired.Keys;
    ids := SortSlice(list, StringLess);
  }

  /** Per workload, how many desired replicas are not Running. */
  method CountUnavailable(rd: Round) returns (u: Tally)
    ensures u == Unavailable(rd)
  {
    u := map[];
    ghost var seen: map<string, Instance> := map[];
    assert Unavailable(rd.(desired := seen)) == map[];
    var rest := rd.desired.Keys;
    while rest != {}
      invariant rest <= rd.desired.Keys && seen.Keys == rd.desired.Keys - rest
      invariant forall r | r in seen :: seen[r] == rd.desired[r]
      invariant u == Unavailable(rd.(desired := seen))
      decreases rest
    {
      var r :| r in rest;
      rest := rest - {r};
      UnavailableInsert(rd, seen, r, rd.desired[r]);
      seen := seen[r := rd.desired[r]];
      if r !in rd.running {
        u := Bump(u, rd.desired[r].parent, 1);
      }
    }
    assert seen == rd.desired;
  }

  lemma NotRunningInsert(seen: map<string, Instance>, r: string, inst: Instance, parent: string, running: set<string>)
    requires r !in seen
    ensures if r !in running && inst.parent == parent
            then NotRunning(seen[r := inst], parent, running) == NotRunning(seen, parent, running) + {r}
            else NotRunning(seen[r := inst], parent, running) == NotRunning(seen, parent, running)
    ensures r !in NotRunning(seen, parent, running)
  {
  }

  lemma UnavailableInsert(rd: Round, seen: map<string, Instance>, r: string, inst: Instance)
    requires r !in seen
    ensures Unavailable(rd.(desired := seen[r := inst]))
         == if r in rd.running then Unavailable(rd.(desired := seen))
            else Bump(Unavailable(rd.(desired := seen)), inst.parent, 1)
  {
    hide NotRunning, Unavailable;
    var before, after := Unavailable(rd.(desired := seen)), Unavailable(rd.(desired := seen[r := inst]));
    forall parent
      ensures parent in after.Keys <==> parent in before.Keys || (r !in rd.running && parent == inst.parent)
      ensures At(after, parent) == At(before, parent) + if r !in rd.running && parent == inst.parent then 1 else 0
    {
      KeysInsert(rd, seen, r, inst, parent);
      NotRunningInsert(seen, r, inst, parent, rd.running);
      UnavailableCounts(rd.(desired := seen), parent);
      UnavailableCounts(rd.(desired := seen[r := inst]), parent);
    }
  }

  lemma KeysInsert(rd: Round, seen: map<string, Instance>, r: string, inst: Instance, parent: string)
    requires r !in seen
    ensures var before, after := Unavailable(rd.(desired := seen)), Unavailable(rd.(desired := seen[r := inst]));
      parent in after.Keys <==> parent in before.Keys || (r !in rd.running && parent == inst.parent)
  {
    hide NotRunning;
    var d' := seen[r := inst];
    if x :| x in seen && x !in rd.running && seen[x].parent == parent {
      assert x in d' && d'[x].parent == parent;
    }
    if r !in rd.running && parent == inst.parent {
      assert r in d' && d'[r].parent == parent;
    }
  }

  // ----- Facts about the loops -----

  lemma EvictNone(m: Layout, nodes: Nodes, pushed: Pushed)
    ensures Evict(m, {}) == m && nodes - {} == nodes && pushed - (m.Keys - Evict(m, {}).Keys) == pushed
  {
    assert Evict(m, {}) == m;
  }

  lemma EvictMore(m: Layout, pushed: Pushed, done: set<string>, n: string, evicted: set<string>)
    requires forall r :: r in evicted <==> r in Evict(m, done) && Evict(m, done)[r].node == n
    ensures Evict(Evict(m, done), {n}) == Evict(m, done + {n})
    ensures pushed - (m.Keys - Evict(m, done).Keys) - evicted == pushed - (m.Keys - Evict(m, done + {n}).Keys)
  {
    assert m.Keys - Evict(m, done + {n}).Keys == (m.Keys - Evict(m, done).Keys) + evicted;
  }

  lemma DeadListed(dead: seq<Node>, nodes: Nodes, now: int)
    requires WellKeyed(nodes) && forall n :: n in dead <==> n.id in DeadIds(nodes, now) && nodes[n.id] == n
    ensures Ids(dead) == DeadIds(nodes, now)
  {
    forall k | k in DeadIds(nodes, now) ensures k in Ids(dead) {
      assert nodes[k] in dead;
    }
  }

  /** The clean-up after handling only the replicas `gone`. */
  ghost function CleanupOf(rd: Round, net: Net, p: Progress, gone: set<string>): Progress
    requires gone <= p.layout.Keys
  {
    var stops := StopsOf(rd, p.layout, gone);
    p.(layout := p.layout - gone,
       pushed := p.pushed - gone,
       containers := p.containers - (set s | s in stops && !net(Stop(s)).Lost?),
       sent := p.sent + set s | s in stops :: Stop(s))
  }

  ghost function StopsOf(rd: Round, m: Layout, gone: set<string>): set<Slot>
    requires gone <= m.Keys
  {
    set r | r in gone && m[r].node in rd.nodes :: Slot(m[r].node, r)
  }

  lemma CleanupNone(rd: Round, net: Net, p: Progress)
    ensures CleanupOf(rd, net, p, {}) == p
  {
    var stops := StopsOf(rd, p.layout, {});
    assert stops == {} && (set s | s in stops && !net(Stop(s)).Lost?) == {} && (set s | s in stops :: Stop(s)) == {};
    assert p.layout - {} == p.layout && p.pushed - {} == p.pushed && p.containers - {} == p.containers;
  }

  function StopAssigned(rd: Round, net: Net, c: Progress, r: string, node: string): Progress {
    c.(layout := c.layout - {r}, pushed := c.pushed - {r},
       containers := if node in rd.nodes then Stopped(c.containers, Slot(node, r), net(Stop(Slot(node, r))))
                     else c.containers,
       sent := if node in rd.nodes then c.sent + {Stop(Slot(node, r))} else c.sent)
  }

  ghost function Dropped(list: seq<Assignment>, desired: set<string>): set<string> {
    set x | x in list && x.replica !in desired :: x.replica
  }

  lemma DroppedNext(list: seq<Assignment>, i: nat, desired: set<string>)
    requires i < |list|
    ensures if list[i].replica in desired then Dropped(list[..i + 1], desired) == Dropped(list[..i], desired)
            else Dropped(list[..i + 1], desired) == Dropped(list[..i], desired) + {list[i].replica}
  {
    assert list[..i + 1] == list[..i] + [list[i]];
  }

  lemma CleanupAll(rd: Round, net: Net, p: Progress, list: seq<Assignment>, gone: set<string>)
    requires forall x :: x in list <==> x.replica in p.layout && p.layout[x.replica].node == x.node
                                        && p.layout[x.replica].parent == x.parent
    requires gone <= p.layout.Keys && gone == Dropped(list, rd.desired.Keys)
    ensures CleanupOf(rd, net, p, gone) == Cleanup(rd, net, p)
  {
    forall r | r in p.layout && r !in rd.desired ensures r in gone {
      assert Assignment(r, p.layout[r].node, p.layout[r].parent) in list;
    }
    assert gone == Undesired(rd, p.layout);
    assert StopsOf(rd, p.layout, gone) == StopCalls(rd, p.layout);
  }

  lemma CleanupMore(rd: Round, net: Net, p: Progress, gone: set<string>, r: string)
    requires gone <= p.layout.Keys && r in p.layout
    ensures CleanupOf(rd, net, p, gone + {r})
         == StopAssigned(rd, net, CleanupOf(rd, net, p, gone), r, p.layout[r].node)
  {
    hide StopsOf;
    var slot := Slot(p.layout[r].node, r);
    var s0, s1 := StopsOf(rd, p.layout, gone), StopsOf(rd, p.layout, gone + {r});
    assert p.layout - (gone + {r}) == p.layout - gone - {r};
    assert p.pushed - (gone + {r}) == p.pushed - gone - {r};
    StopsMore(rd, p.layout, gone, r);
    StopMore(net, p.containers, s0, slot);
  }

  lemma StopsMore(rd: Round, m: Layout, gone: set<string>, r: string)
    requires gone <= m.Keys && r in m
    ensures if m[r].node in rd.nodes then StopsOf(rd, m, gone + {r}) == StopsOf(rd, m, gone) + {Slot(m[r].node, r)}
            else StopsOf(rd, m, gone + {r}) == StopsOf(rd, m, gone)
  {
  }

  lemma StopMore(net: Net, on: Containers, stops: set<Slot>, slot: Slot)
    ensures (set s | s in stops + {slot} :: Stop(s)) == (set s | s in stops :: Stop(s)) + {Stop(slot)}
    ensures on - (set s | s in stops + {slot} && !net(Stop(s)).Lost?)
         == Stopped(on - (set s | s in stops && !net(Stop(s)).Lost?), slot, net(Stop(slot)))
  {
  }
}
