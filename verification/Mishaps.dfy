/** Small clusters in which a pass or a run breaks what it is meant to keep. */
module Mishaps {
  import opened Ordering
  import opened Registry
  import opened Layouts
  import opened Placing
  import opened Scheduling
  import opened Workloads
  import opened Reconciling
  import opened SingleCopy
  import opened CopyRuns
  import opened Rollout
  import opened Budget
  import opened Convergence

  const A := Node("a", Unset, 1, 100, 0)
  const B := Node("b", Unset, 1, 100, 0)
  const NONE := Resources(0, 0)

  function Both(): Nodes {
    map["a" := A, "b" := B]
  }

  function Runs(image: string): Spec {
    Spec(image, [], map[], [], Option.None, [])
  }

  /** A workload of `n` replicas, at most one of them unavailable. */
  function Sized(n: nat): Workload {
    Workload("w", Runs("new"), n, 1)
  }

  lemma BothAlive()
    ensures WellKeyed(Both()) && AliveNodes(Both(), 0) == Both()
  {
  }

  lemma IdleWithin(m: Layout, nodes: Nodes)
    requires forall r | r in m :: m[r].req == NONE
    ensures AllWithin(m, nodes)
  {
    forall n, d ensures Load(m, n, d) == 0 {
      SumZero(m.Keys, m, n, d);
    }
  }

  // ----- Two replicas -----

  /** Workload "w" is all there is, and its replicas are `r` and `s`. */
  ghost predicate Twins(stored: Store, r: string, s: string) {
    && r != s && Expand(stored).Keys == {r, s} && "w" in stored && MaxUnavailable(stored["w"]) == 1
    && forall x | x in {r, s} ::
      var inst := Expand(stored)[x]; inst.parent == "w" && inst.wl.spec == Runs("new") && RequestOf(inst.wl) == NONE
  }

  lemma OneWorkload(wl: Workload)
    ensures var stored := map[wl.id := wl];
      && Expand(stored).Keys == NamesOf(wl.id, Count(wl))
      && forall r | r in Expand(stored) :: Expand(stored)[r] == InstanceOf(wl, wl.id, r)
  {
    hide ReplicaName, Expand, StripReplicaSuffix, Count;
    var stored := map[wl.id := wl];
    ExpandHonest(stored);
    assert stored[wl.id] == wl;
    assert Names(stored) == NamesOf(wl.id, Count(wl));
  }

  lemma HaveTwins()
    ensures Twins(map["w" := Sized(2)], ReplicaName("w", 0), ReplicaName("w", 1))
  {
    hide ReplicaName, Expand, NamesOf;
    OneWorkload(Sized(2));
    assert Count(Sized(2)) == 2;
    NamesOfNext("w", 0);
    NamesOfNext("w", 1);
    assert {} + {ReplicaName("w", 0)} + {ReplicaName("w", 1)} == {ReplicaName("w", 0), ReplicaName("w", 1)};
  }

  /** Replica `r` on node a as recorded, with image `i0`; replica `s` assigned to node `n`, running on node a with
      image `i1`. */
  function Duo(stored: Store, r: string, s: string, i0: string, n: string, i1: string): World {
    World(stored, Both(),
          map[r := Placement("a", "w", NONE), s := Placement(n, "w", NONE)],
          map[r := PushRecord("a", 0, Runs(i0)), s := PushRecord("a", 0, Runs(i1))],
          map[Slot("a", r) := Container(Runs(i0), true), Slot("a", s) := Container(Runs(i1), true)])
  }

  lemma DuoSafe(w: World, stored: Store, r: string, s: string, i0: string, n: string, i1: string)
    requires Twins(stored, r, s) && n in {"a", "b"} && w == Duo(stored, r, s, i0, n, i1)
    ensures Inv(w) && PassSafe(w, 0) && DeadQuiet(w, 0) && EvictDead(w, 0) == w && AllWithin(w.layout, w.nodes)
  {
    hide Expand, EvictDead, Load, AllWithin;
    BothAlive();
    ReadyEvict(w, 0);
    IdleWithin(w.layout, w.nodes);
  }

  /** The pass finds both replicas Running and leaves their placements as they are. */
  lemma DuoRound(w: World, stored: Store, r: string, s: string, i0: string, n: string, i1: string, net: Net)
    requires Twins(stored, r, s) && n in {"a", "b"} && w == Duo(stored, r, s, i0, n, i1) && net(Status("a")).Acked?
    ensures WellKeyed(w.nodes) && InRound(Order(Expand(stored)), RoundOf(w, 0, net))
    ensures var rd := RoundOf(w, 0, net);
      && rd.desired == Expand(stored) && r in rd.running && s in rd.running
      && Settle(rd, w.layout, Order(Expand(stored))) == w.layout
  {
    hide Expand, Running, Settle, Order, EvictDead, AllWithin, RequestOf;
    BothAlive();
    DuoSafe(w, stored, r, s, i0, n, i1);
    SettledKeepsPlaces(w, 0, net);
    RunningShows(w.containers, Both(), net, r);
    RunningShows(w.containers, Both(), net, s);
    assert Shows(w.containers, Both(), net, "a", r) && Shows(w.containers, Both(), net, "a", s);
  }

  lemma DuoOutlook(w: World, stored: Store, r: string, s: string, i0: string, n: string, i1: string, net: Net)
    requires Twins(stored, r, s) && n in {"a", "b"} && w == Duo(stored, r, s, i0, n, i1) && net(Status("a")).Acked?
    ensures WellKeyed(w.nodes)
    ensures var o, rd, q := OutlookOf(w, 0, net, "w"), RoundOf(w, 0, net), Order(Expand(stored));
      && o.down == {} && o.room == 1 && o.spared == {}
      && o.acked == AckedOf(rd, net, w.pushed, w.layout, "w") && o.moved == MovedOf(rd, net, w.pushed, w.layout, "w")
      && o.taken == Early(q, o.acked, StoppableOf(rd, net, w.pushed, w.layout, "w"), 1)
  {
    hide Expand, Running, Settle, Order, EvictDead, AckedOf, MovedOf, StoppableOf, Early, RoundOf, Duo, MaxUnavailable,
         StraysOf;
    DuoSafe(w, stored, r, s, i0, n, i1);
    DuoRound(w, stored, r, s, i0, n, i1, net);
    DuoStored(w, stored, r, s, i0, n, i1);
    var rd, q := RoundOf(w, 0, net), Order(Expand(stored));
    assert NotRunning(rd.desired, "w", rd.running) == {};
    DuoStrays(w, stored, r, s, i0, n, i1, net);
  }

  /** Both replicas have a record and none is astray. */
  lemma DuoStrays(w: World, stored: Store, r: string, s: string, i0: string, n: string, i1: string, net: Net)
    requires Twins(stored, r, s) && n in {"a", "b"} && w == Duo(stored, r, s, i0, n, i1)
    requires EvictDead(w, 0) == w && Inv(w)
    ensures StraysOf(RoundOf(w, 0, net), net, w.containers, w.pushed) == {}
  {
    hide Expand, EvictDead, Running, Shows, Housed;
    InvHoused(w, 0);
    NoStrays(w, 0, net);
    RoundDesired(w, 0, net);
    assert w.pushed.Keys == {r, s};
  }

  lemma DuoStored(w: World, stored: Store, r: string, s: string, i0: string, n: string, i1: string)
    requires w == Duo(stored, r, s, i0, n, i1)
    ensures w.stored == stored
  {
  }

  /** What the pass finds when `s` is to be moved. */
  lemma MovedSets(w: World, stored: Store, r: string, s: string, rd: Round, net: Net)
    requires Twins(stored, r, s) && w == Duo(stored, r, s, "old", "b", "new") && AllAcked(net)
    requires rd.desired == Expand(stored) && r in rd.running && s in rd.running
    ensures RollableOf(rd, w.pushed, w.layout, "w") == {r} && MovedOf(rd, net, w.pushed, w.layout, "w") == {s}
  {
    hide Expand;
    assert net(Stop(Slot("a", s))).Acked?;
  }

  /** Budget 1, one replica stale, the other moved to another node by a rebalance: a pass with every call acknowledged
      leaves both not Running. */
  lemma MoveAndRollOver(net: Net, interval: int)
    requires AllAcked(net)
    ensures var w := Duo(map["w" := Sized(2)], ReplicaName("w", 0), ReplicaName("w", 1), "old", "b", "new");
      && Inv(w) && PassSafe(w, 0) && DeadQuiet(w, 0) && MaxUnavailable(w.stored["w"]) == 1
      && OutlookOf(w, 0, net, "w").down == {} && |DownAfter(w, 0, net, interval, "w")| == 2
  {
    hide ReplicaName, Expand, Duo;
    HaveTwins();
    var stored, r, s := map["w" := Sized(2)], ReplicaName("w", 0), ReplicaName("w", 1);
    DuoStored(Duo(stored, r, s, "old", "b", "new"), stored, r, s, "old", "b", "new");
    DuoMoved(Duo(stored, r, s, "old", "b", "new"), stored, r, s, net, interval);
  }

  lemma DuoMoved(w: World, stored: Store, r: string, s: string, net: Net, interval: int)
    requires Twins(stored, r, s) && w == Duo(stored, r, s, "old", "b", "new") && AllAcked(net)
    ensures w.stored == stored && Inv(w) && PassSafe(w, 0) && DeadQuiet(w, 0)
    ensures OutlookOf(w, 0, net, "w").down == {} && |DownAfter(w, 0, net, interval, "w")| == 2
  {
    hide Expand, DownAfter, RoundOf, Early, StoppableOf, AckedOf, MovedOf, RollableOf, OutlookOf, MaxUnavailable, Duo,
         PassSafe, DeadQuiet, EvictDead, AllWithin;
    assert net(Status("a")).Acked?;
    DuoStored(w, stored, r, s, "old", "b", "new");
    DuoSafe(w, stored, r, s, "old", "b", "new");
    DuoRound(w, stored, r, s, "old", "b", "new", net);
    DuoOutlook(w, stored, r, s, "old", "b", "new", net);
    MovedSets(w, stored, r, s, RoundOf(w, 0, net), net);
    StoppableAcked(RoundOf(w, 0, net), net, w.pushed, w.layout, "w");
    OutlookSizes(w, 0, net, "w");
    PassBudgetIff(w, 0, net, interval, "w");
    var o := OutlookOf(w, 0, net, "w");
    assert o.taken - o.acked == {};
  }

  /** Stops are acknowledged, starts are lost. */
  ghost predicate StartsLost(net: Net) {
    forall c :: net(c) == if c.Start? then Lost else Acked
  }

  lemma FailedSets(w: World, stored: Store, r: string, s: string, rd: Round, net: Net)
    requires Twins(stored, r, s) && w == Duo(stored, r, s, "old", "a", "old") && StartsLost(net)
    requires rd.desired == Expand(stored) && r in rd.running && s in rd.running
    ensures AckedOf(rd, net, w.pushed, w.layout, "w") == {} && MovedOf(rd, net, w.pushed, w.layout, "w") == {}
    ensures StoppableOf(rd, net, w.pushed, w.layout, "w") == {r, s}
  {
    hide Expand;
    assert net(Start(Slot("a", r))).Lost? && net(Start(Slot("a", s))).Lost?;
    assert net(Stop(Slot("a", r))).Acked? && net(Stop(Slot("a", s))).Acked?;
  }

  /** Budget 1 and two stale Running replicas: when the starts are lost, one pass stops both. */
  lemma FailedRollsOver(net: Net, interval: int)
    requires StartsLost(net)
    ensures var w := Duo(map["w" := Sized(2)], ReplicaName("w", 0), ReplicaName("w", 1), "old", "a", "old");
      && Inv(w) && PassSafe(w, 0) && DeadQuiet(w, 0) && MaxUnavailable(w.stored["w"]) == 1
      && OutlookOf(w, 0, net, "w").down == {} && |DownAfter(w, 0, net, interval, "w")| == 2
  {
    hide ReplicaName, Expand, Duo;
    HaveTwins();
    var stored, r, s := map["w" := Sized(2)], ReplicaName("w", 0), ReplicaName("w", 1);
    DuoStored(Duo(stored, r, s, "old", "a", "old"), stored, r, s, "old", "a", "old");
    DuoFailed(Duo(stored, r, s, "old", "a", "old"), stored, r, s, net, interval);
  }

  lemma DuoFailed(w: World, stored: Store, r: string, s: string, net: Net, interval: int)
    requires Twins(stored, r, s) && w == Duo(stored, r, s, "old", "a", "old") && StartsLost(net)
    ensures w.stored == stored && Inv(w) && PassSafe(w, 0) && DeadQuiet(w, 0)
    ensures OutlookOf(w, 0, net, "w").down == {} && |DownAfter(w, 0, net, interval, "w")| == 2
  {
    hide Expand, DownAfter, RoundOf, Early, StoppableOf, AckedOf, MovedOf, RollableOf, OutlookOf, MaxUnavailable, Duo,
         PassSafe, DeadQuiet, EvictDead, AllWithin, Order;
    assert net(Status("a")).Acked?;
    DuoStored(w, stored, r, s, "old", "a", "old");
    DuoSafe(w, stored, r, s, "old", "a", "old");
    DuoRound(w, stored, r, s, "old", "a", "old", net);
    DuoOutlook(w, stored, r, s, "old", "a", "old", net);
    FailedSets(w, stored, r, s, RoundOf(w, 0, net), net);
    OrderCovers(Expand(stored));
    EarlyAll(Order(Expand(stored)), {r, s}, 1);
    PassBudgetIff(w, 0, net, interval, "w");
    var o := OutlookOf(w, 0, net, "w");
    assert o.taken - o.acked == {r, s};
  }

  lemma EarlyAll(q: seq<string>, s: set<string>, k: int)
    requires Distinct(q) && k > 0 && forall r | r in s :: r in q
    ensures Early(q, {}, s, k) == s
  {
    forall r | r in s ensures r in Early(q, {}, s, k) {
      var i :| 0 <= i < |q| && q[i] == r;
      assert Among(q[..i], {}) == {};
      EarlyAt(q, {}, s, k, i);
    }
    EarlyWithin(q, {}, s, k);
  }

  // ----- One replica: a run that ends with two containers of it -----

  /** Workload "w" is all there is, and `r` is its only replica. */
  ghost predicate Lone(stored: Store, r: string) {
    && Expand(stored).Keys == {r} && "w" in stored
    && var inst := Expand(stored)[r];
      inst.parent == "w" && inst.wl.spec == Runs("new") && RequestOf(inst.wl) == NONE
  }

  lemma HaveLone()
    ensures Lone(map["w" := Sized(1)], ReplicaName("w", 0))
  {
    hide ReplicaName, Expand, NamesOf;
    OneWorkload(Sized(1));
    assert Count(Sized(1)) == 1;
    NamesOfNext("w", 0);
    assert {} + {ReplicaName("w", 0)} == {ReplicaName("w", 0)};
  }

  lemma OrderOfOne(desired: map<string, Instance>, r: string)
    requires desired.Keys == {r}
    ensures Order(desired) == [r]
  {
    OrderCovers(desired);
    var q := Order(desired);
    assert |q| == |desired.Keys| == 1;
    assert q[0] in q;
  }

  lemma AssignFresh(nodes: Nodes, r: string, n: string)
    requires AliveNodes(nodes, 0) == nodes && n in nodes && n != "" && BestNode(nodes, map[], "w", NONE) == n
    ensures Assign(map[], nodes, 0, r, "w", NONE) == (map[r := Placement(n, "w", NONE)], Assigned(n, "w"))
  {
    hide BestNode;
    var none: Layout := map[];
    assert none - {r} == none;
  }

  /** Driving the only replica, not known to the control plane, starts it where the scheduler says. */
  lemma {:induction false} DriveLone(rd: Round, net: Net, p: Progress, r: string, n: string)
    requires ValidRound(rd) && Lone(rd.stored, r) && rd.desired == Expand(rd.stored) && rd.now == 0 && AllAcked(net)
    requires AliveNodes(rd.nodes, 0) == rd.nodes && n in rd.nodes && n != ""
    requires BestNode(rd.nodes, map[], "w", NONE) == n && p.layout == map[] && p.pushed == map[]
    ensures InRound([r], rd)
    ensures var p' := Drive(rd, net, p, [r]);
      && p'.layout == map[r := Placement(n, "w", NONE)] && p'.pushed == map[r := PushRecord(n, 0, Runs("new"))]
      && p'.containers == Started(p.containers, Slot(n, r), Runs("new"), Acked)
  {
    hide BestNode, Expand, Assign;
    AssignFresh(rd.nodes, r, n);
    assert net(Start(Slot(n, r))).Acked?;
    assert Drive(rd, net, p, [r]) == DriveOne(rd, net, Drive(rd, net, p, []), r);
  }

  lemma PassFresh(w: World, r: string, n: string, net: Net, interval: int)
    requires Lone(w.stored, r) && WellKeyed(w.nodes) && AliveNodes(w.nodes, 0) == w.nodes && n in w.nodes && n != ""
    requires w.layout == map[] && w.pushed == map[] && BestNode(w.nodes, map[], "w", NONE) == n
    requires AllAcked(net) && interval > 0
    ensures Reconcile(w, 0, net, interval)
         == World(w.stored, w.nodes, map[r := Placement(n, "w", NONE)], map[r := PushRecord(n, 0, Runs("new"))],
                  Started(w.containers, Slot(n, r), Runs("new"), Acked))
  {
    hide BestNode, Expand, Running, Drive, EvictDead, Order, Unavailable, Cleanup, Lapse;
    ReadyEvict(w, 0);
    RoundValid(w, 0, net);
    OrderOfOne(Expand(w.stored), r);
    var rd, p := RoundOf(w, 0, net), Before(w, 0, net);
    DriveLone(rd, net, p, r, n);
    var p1 := Drive(rd, net, p, [r]);
    FreshStays(p1.pushed, rd.running, interval);
    NoCleanup(rd, net, p1);
  }

  lemma FreshStays(pushed: Pushed, running: set<string>, interval: int)
    requires interval > 0 && forall r | r in pushed :: pushed[r].at == 0
    ensures Lapse(pushed, running, 0, 2 * interval) == pushed
  {
  }

  /** With nothing desired, the pass stops the replica on its assigned node and forgets it. */
  lemma PassNothing(w: World, r: string, net: Net, interval: int)
    requires w.stored == map[] && w.nodes == Both() && w.layout == map[r := Placement("a", "w", NONE)]
    requires w.pushed == map[r := PushRecord("b", 0, Runs("new"))] && AllAcked(net) && interval > 0
    ensures WellKeyed(w.nodes)
    ensures Reconcile(w, 0, net, interval) == World(map[], Both(), map[], map[], w.containers - {Slot("a", r)})
  {
    hide Running, EvictDead, Unavailable, Lapse, Order;
    BothAlive();
    ReadyEvict(w, 0);
    RoundValid(w, 0, net);
    NothingExpands();
    OrderCovers(Expand(w.stored));
    assert Order(Expand(w.stored)) == [] by {
      SomeReplica(Order(Expand(w.stored)));
    }
    FreshStays(w.pushed, RoundOf(w, 0, net).running, interval);
    var rd, p := RoundOf(w, 0, net), Before(w, 0, net);
    assert net(Stop(Slot("a", r))).Acked?;
    CleanupOne(rd, net, p, r);
  }

  lemma SomeReplica(q: seq<string>)
    ensures q != [] ==> exists r :: r in q
  {
    if q != [] {
      assert q[0] in q;
    }
  }

  lemma NothingExpands()
    ensures Expand(map[]) == map[]
  {
    hide ReplicaName;
    assert Names(map[]) == {};
  }

  lemma CleanupOne(rd: Round, net: Net, p: Progress, r: string)
    requires rd.desired == map[] && "a" in rd.nodes && p.layout == map[r := Placement("a", "w", NONE)]
    requires p.pushed.Keys == {r} && net(Stop(Slot("a", r))).Acked?
    ensures var p' := Cleanup(rd, net, p);
      p'.layout == map[] && p'.pushed == map[] && p'.containers == p.containers - {Slot("a", r)}
  {
    assert Undesired(rd, p.layout) == {r};
    assert StopCalls(rd, p.layout) == {Slot("a", r)};
    assert (set s | s in {Slot("a", r)} && !net(Stop(s)).Lost?) == {Slot("a", r)};
  }

  lemma IdleRoom(n: Node)
    ensures Room(map[], n, NONE)
  {
    forall d ensures Load(map[], n.id, d) == 0 {
    }
  }

  lemma OnlyChoice(nodes: Nodes, n: string)
    requires WellKeyed(nodes) && nodes.Keys == {n}
    ensures BestNode(nodes, map[], "w", NONE) == n
  {
    hide BestNode, Room;
    IdleRoom(nodes[n]);
    BestNodeLeast(nodes, map[], "w", NONE);
  }

  /** Of two nodes of the same size, the one with the lower ID is chosen. */
  lemma {:induction false} LowerChoice(nodes: Nodes, n: string, k: string)
    requires WellKeyed(nodes) && nodes.Keys == {n, k} && StringLess(n, k)
    requires nodes[n].cpu == nodes[k].cpu && nodes[n].mem == nodes[k].mem
    ensures BestNode(nodes, map[], "w", NONE) == n
  {
    hide BestNode, Room, CandidateLess, OfferOf;
    IdleRoom(nodes[n]);
    IdleRoom(nodes[k]);
    BestNodeLeast(nodes, map[], "w", NONE);
    LowerOffer(nodes[n], nodes[k]);
  }

  lemma LowerOffer(n: Node, k: Node)
    requires StringLess(n.id, k.id) && n.cpu == k.cpu && n.mem == k.mem
    ensures !CandidateLess(OfferOf(k, map[], "w", NONE), OfferOf(n, map[], "w", NONE))
  {
    hide Schedulable;
    assert Schedulable(n) == Schedulable(k) by {
      SameSchedulable(n, k);
    }
    assert SiblingSet(map[], "w", n.id) == {} && SiblingSet(map[], "w", k.id) == {};
    assert Load(map[], n.id, Cpu) == 0 && Load(map[], k.id, Cpu) == 0;
    assert Load(map[], n.id, Memory) == 0 && Load(map[], k.id, Memory) == 0;
    StringLessTrichotomy(n.id, k.id);
  }

  lemma SameSchedulable(n: Node, k: Node)
    requires n.cpu == k.cpu && n.mem == k.mem
    ensures Schedulable(n) == Schedulable(k)
  {
  }

  lemma Choices()
    ensures BestNode(map["b" := B], map[], "w", NONE) == "b" && BestNode(Both(), map[], "w", NONE) == "a"
  {
    hide BestNode;
    OnlyChoice(map["b" := B], "b");
    assert StringLess("a", "b");
    LowerChoice(Both(), "a", "b");
  }

  /** A rebalance moves the replica from node b to node a. */
  lemma Shift(r: string)
    ensures Rebalanced(map[r := Placement("b", "w", NONE)], Both()) == map[r := Placement("a", "w", NONE)]
  {
    hide BestNode, Queue;
    var m, x := map[r := Placement("b", "w", NONE)], Replica(r, "w", NONE);
    Choices();
    assert r in m && x == Replica(r, m[r].parent, m[r].req);
    QueueOfOne(m, r);
    assert Simulate(Both(), [x]) == SimulateOne(Both(), Simulate(Both(), []), x);
  }

  lemma QueueOfOne(m: Layout, r: string)
    requires m.Keys == {r}
    ensures Queue(m) == [Replica(r, m[r].parent, m[r].req)]
  {
    QueueDistinct(m);
    var q, x := Queue(m), Replica(r, m[r].parent, m[r].req);
    assert r in m && x in Replicas(m);
    assert Replicas(m) == {x};
    ReplicasTotal(m);
    assert |q| == |Replicas(m)| == 1;
    assert q[0] in q;
  }

  // The run, in three parts.

  function Begun(): seq<Event> {
    [Register(B, 0), Upsert(Sized(1)), Pass(0)]
  }

  function Shifted(): seq<Event> {
    [Register(A, 0), Rebalance(0), Delete("w"), Pass(0)]
  }

  function Again(): seq<Event> {
    [Upsert(Sized(1)), Pass(0)]
  }

  lemma {:induction false} PlayConcat(s: System, a: seq<Event>, b: seq<Event>, net: Net, interval: int)
    requires WellKeyed(s.w.nodes)
    ensures WellKeyed(Play(s, a, net, interval).w.nodes)
    ensures Play(s, a + b, net, interval) == Play(Play(s, a, net, interval), b, net, interval)
    decreases |a|
  {
    hide Next;
    if a == [] {
      assert a + b == b;
    } else {
      assert (a + b)[1..] == a[1..] + b;
      NextKeyed(s, a[0], net, interval);
      PlayConcat(Next(s, a[0], net, interval), a[1..], b, net, interval);
    }
  }

  lemma {:induction false} PlayFirst(s: System, e: Event, es: seq<Event>, net: Net, interval: int)
    requires WellKeyed(s.w.nodes)
    ensures WellKeyed(Next(s, e, net, interval).w.nodes)
    ensures Play(s, [e] + es, net, interval) == Play(Next(s, e, net, interval), es, net, interval)
  {
    hide Next;
    NextKeyed(s, e, net, interval);
    assert ([e] + es)[1..] == es;
  }

  function OnNode(stored: Store, nodes: Nodes, r: string, n: string): World {
    World(stored, nodes, map[r := Placement(n, "w", NONE)], map[r := PushRecord("b", 0, Runs("new"))],
          map[Slot("b", r) := Container(Runs("new"), false)])
  }

  /** Node b joins and gets the only replica. */
  lemma {:induction false} PlayBegun(r: string, net: Net, interval: int)
    requires Lone(map["w" := Sized(1)], r) && AllAcked(net) && interval > 0
    ensures Play(System(EMPTY, false), Begun(), net, interval)
         == System(OnNode(map["w" := Sized(1)], map["b" := B], r, "b"), false)
  {
    hide Play, Reconcile, Expand, BestNode;
    var s1 := Next(System(EMPTY, false), Register(B, 0), net, interval);
    var s2 := Next(s1, Upsert(Sized(1)), net, interval);
    assert Begun() == [Register(B, 0)] + ([Upsert(Sized(1))] + ([Pass(0)] + []));
    PlayFirst(System(EMPTY, false), Register(B, 0), [Upsert(Sized(1))] + ([Pass(0)] + []), net, interval);
    PlayFirst(s1, Upsert(Sized(1)), [Pass(0)] + [], net, interval);
    PlayFirst(s2, Pass(0), [], net, interval);
    PlayNone(Next(s2, Pass(0), net, interval), net, interval);
    assert s2.w == World(map["w" := Sized(1)], map["b" := B], map[], map[], map[]);
    assert AliveNodes(map["b" := B], 0) == map["b" := B];
    Choices();
    PassFresh(s2.w, r, "b", net, interval);
  }

  lemma {:induction false} PlayNone(s: System, net: Net, interval: int)
    requires WellKeyed(s.w.nodes)
    ensures Play(s, [], net, interval) == s
  {
  }

  /** Node a joins, a rebalance assigns the replica to it, and before the next pass the workload is deleted: the
      container on node b stays and is forgotten. */
  lemma {:induction false} PlayShifted(r: string, net: Net, interval: int)
    requires AllAcked(net) && interval > 0
    ensures WellKeyed(map["b" := B])
    ensures Play(System(OnNode(map["w" := Sized(1)], map["b" := B], r, "b"), false), Shifted(), net, interval)
         == System(World(map[], Both(), map[], map[], map[Slot("b", r) := Container(Runs("new"), false)]), false)
  {
    hide Play, Reconcile, Expand, Rebalanced;
    var s0 := System(OnNode(map["w" := Sized(1)], map["b" := B], r, "b"), false);
    var s1 := Next(s0, Register(A, 0), net, interval);
    assert s1.w.nodes == Both();
    BothAlive();
    Shift(r);
    var s2 := Next(s1, Rebalance(0), net, interval);
    assert s2.w == OnNode(map["w" := Sized(1)], Both(), r, "a");
    var s3 := Next(s2, Delete("w"), net, interval);
    assert s3.w.stored == map[];
    assert Shifted() == [Register(A, 0)] + ([Rebalance(0)] + ([Delete("w")] + ([Pass(0)] + [])));
    PlayFirst(s0, Register(A, 0), [Rebalance(0)] + ([Delete("w")] + ([Pass(0)] + [])), net, interval);
    PlayFirst(s1, Rebalance(0), [Delete("w")] + ([Pass(0)] + []), net, interval);
    PlayFirst(s2, Delete("w"), [Pass(0)] + [], net, interval);
    PlayFirst(s3, Pass(0), [], net, interval);
    PlayNone(Next(s3, Pass(0), net, interval), net, interval);
    PassNothing(s3.w, r, net, interval);
    assert s3.w.containers - {Slot("a", r)} == s3.w.containers;
  }

  /** The workload is applied again: its replica is started on node a, beside the forgotten container. */
  lemma {:induction false} PlayAgain(r: string, c: Containers, net: Net, interval: int)
    requires Lone(map["w" := Sized(1)], r) && AllAcked(net) && interval > 0
    ensures WellKeyed(Both())
    ensures var s := System(World(map[], Both(), map[], map[], c), false);
      Play(s, Again(), net, interval).w.containers == Started(c, Slot("a", r), Runs("new"), Acked)
  {
    hide Play, Reconcile, Expand, BestNode;
    BothAlive();
    var s := System(World(map[], Both(), map[], map[], c), false);
    var s1 := Next(s, Upsert(Sized(1)), net, interval);
    assert Again() == [Upsert(Sized(1))] + ([Pass(0)] + []);
    PlayFirst(s, Upsert(Sized(1)), [Pass(0)] + [], net, interval);
    PlayFirst(s1, Pass(0), [], net, interval);
    PlayNone(Next(s1, Pass(0), net, interval), net, interval);
    assert s1.w.stored == map["w" := Sized(1)];
    Choices();
    PassFresh(s1.w, r, "a", net, interval);
  }

  /** A run from an empty control plane, every call acknowledged, that ends with two containers of one replica. */
  lemma {:induction false} RunTwoCopies(net: Net, interval: int)
    requires AllAcked(net) && interval > 0
    ensures var w, r := Play(System(EMPTY, false), Begun() + Shifted() + Again(), net, interval).w, ReplicaName("w", 0);
      Slot("a", r) in w.containers && Slot("b", r) in w.containers && !OneCopy(w)
  {
    hide Play, ReplicaName, Expand, Begun, Shifted, Again;
    var s, r := System(EMPTY, false), ReplicaName("w", 0);
    HaveLone();
    PlayConcat(s, Begun() + Shifted(), Again(), net, interval);
    PlayConcat(s, Begun(), Shifted(), net, interval);
    PlayBegun(r, net, interval);
    PlayShifted(r, net, interval);
    PlayAgain(r, map[Slot("b", r) := Container(Runs("new"), false)], net, interval);
    assert Slot("a", r) != Slot("b", r);
  }
}
