/** A rollout finishes, and a finished cluster is left alone. */
module Convergence {
  import opened Ordering
  import opened Registry
  import opened Layouts
  import opened Placing
  import opened Workloads
  import opened Reconciling
  import opened PassLaws
  import opened SingleCopy
  import opened Rollout
  import opened Budget

  // ----- Settled placements -----

  /** After placing, each placed replica of the queue carries its current request. */
  lemma {:induction false} SettleRequests(rd: Round, m: Layout, q: seq<string>, i: nat)
    requires InRound(q, rd) && Distinct(q) && i < |q|
    ensures var m', r := Settle(rd, m, q), q[i];
      r in m' ==> m'[r].req == RequestOf(rd.desired[r].wl) && m'[r].node in rd.nodes
    decreases |q|
  {
    hide Assign;
    var q0, x := q[..|q| - 1], q[|q| - 1];
    AssignFrame(Settle(rd, m, q0), rd.nodes, rd.now, x, rd.desired[x].parent, RequestOf(rd.desired[x].wl));
    if i < |q| - 1 {
      SettleRequests(rd, m, q0, i);
      SettleFrame(rd, m, q, q[i]);
    }
  }

  /** A layout within capacity that already carries the current requests is left alone. */
  lemma {:induction false} SettleFixed(rd: Round, m: Layout, q: seq<string>)
    requires InRound(q, rd) && AllWithin(m, rd.nodes)
    requires forall i | 0 <= i < |q| ::
      q[i] in m && m[q[i]].node in rd.nodes && m[q[i]].req == RequestOf(rd.desired[q[i]].wl)
    ensures Settle(rd, m, q) == m
    decreases |q|
  {
    if q != [] {
      var x := q[|q| - 1];
      SettleFixed(rd, m, q[..|q| - 1]);
      AssignSticks(m, rd.nodes, rd.now, x, rd.desired[x].parent, RequestOf(rd.desired[x].wl));
    }
  }

  lemma AssignSticks(m: Layout, nodes: Nodes, now: int, r: string, parent: string, req: Resources)
    requires WellKeyed(nodes) && AllWithin(m, nodes) && r in m && m[r].node in nodes && m[r].req == req
    ensures Assign(m, nodes, now, r, parent, req).0 == m
  {
    hide PlaceNew;
    assert NodeWithin(m, nodes, m[r].node);
    forall d ensures Load(m - {r}, m[r].node, d) + Amount(req, d) <= Capacity(nodes[m[r].node], d) {
      LoadRemove(m, r, m[r].node, d);
    }
    assert nodes[m[r].node].id == m[r].node;
    assert StillFits(m, nodes, m[r].node, r, req);
    assert m[r := m[r].(req := req)] == m;
  }

  // ----- Passes over a cluster whose replicas are all up -----

  /** Every record names the node its replica ends up on. */
  ghost predicate InPlace(rd: Round, p: Progress, m: Layout, r: string) {
    && r in rd.desired && r in m && r in p.pushed && p.pushed[r].node == m[r].node
    && Slot(m[r].node, r) in p.containers
  }

  lemma DeliverInPlace(rd: Round, net: Net, p: Progress, r: string)
    requires ValidRound(rd) && AllAcked(net) && InPlace(rd, p, p.layout, r) && r !in p.rolled
    ensures var p' := Deliver(rd, net, p, r, p.layout[r].node);
      var spec := rd.desired[r].wl.spec;
      && p'.pushed == (if r in p'.rolled then p.pushed[r := PushRecord(p.layout[r].node, rd.now, spec)] else p.pushed)
      && p'.containers.Keys == p.containers.Keys
      && (r !in p'.rolled ==> p'.containers == p.containers && p'.sent == p.sent)
      && (p.pushed[r].spec == spec ==> r !in p'.rolled)
  {
    var slot := Slot(p.layout[r].node, r);
    assert net(Start(slot)).Acked? && net(Stop(slot)).Acked?;
    assert (p.containers - {slot}).Keys + {slot} == p.containers.Keys;
  }

  /** What the loop does when every replica of the queue stays in place: it only renews the rolled records. */
  ghost predicate OnlyRolled(rd: Round, p: Progress, p': Progress) {
    && p'.pushed.Keys == p.pushed.Keys && p'.containers.Keys == p.containers.Keys
    && p'.rolled <= p.pushed.Keys && p'.rolled <= rd.desired.Keys
    && (forall r | r in p.pushed :: p'.pushed[r] ==
          if r in p'.rolled then PushRecord(p.pushed[r].node, rd.now, rd.desired[r].wl.spec) else p.pushed[r])
    && (p'.rolled == {} ==> p'.sent == p.sent && p'.containers == p.containers)
    && (forall r | r in p'.rolled :: p.pushed[r].spec != rd.desired[r].wl.spec)
  }

  lemma {:induction false} DriveInPlace(rd: Round, net: Net, p: Progress, q: seq<string>)
    requires InRound(q, rd) && Distinct(q) && AllAcked(net) && p.rolled == {}
    requires forall i | 0 <= i < |q| :: InPlace(rd, p, Settle(rd, p.layout, q), q[i])
    ensures OnlyRolled(rd, p, Drive(rd, net, p, q))
    ensures forall r | r in Drive(rd, net, p, q).rolled :: r in q
    decreases |q|
  {
    hide DriveOne, Deliver, Settle, Rollable, MayRoll;
    if q != [] {
      var q0, x := q[..|q| - 1], q[|q| - 1];
      var p0, p1 := Drive(rd, net, p, q0), Drive(rd, net, p, q);
      assert InPlace(rd, p, Settle(rd, p.layout, q), x);
      forall i | 0 <= i < |q0| ensures InPlace(rd, p, Settle(rd, p.layout, q0), q0[i]) {
        assert q0[i] == q[i];
        SettleFrame(rd, p.layout, q, q[i]);
      }
      DriveInPlace(rd, net, p, q0);
      DriveLayout(rd, net, p, q);
      DriveOneSplit(rd, net, p0, x);
      DeliverRolls(rd, net, p0.(layout := p1.layout), x);
      DeliverInPlace(rd, net, p0.(layout := p1.layout), x);
      OnlyRolledNext(rd, p, p0, p1, x);
    }
  }

  lemma OnlyRolledNext(rd: Round, p: Progress, p0: Progress, p1: Progress, x: string)
    requires OnlyRolled(rd, p, p0) && x in p.pushed && x in rd.desired && x !in p0.rolled
    requires p1.rolled == p0.rolled || p1.rolled == p0.rolled + {x}
    requires p1.containers.Keys == p0.containers.Keys
    requires p1.pushed == if x in p1.rolled
                          then p0.pushed[x := PushRecord(p.pushed[x].node, rd.now, rd.desired[x].wl.spec)]
                          else p0.pushed
    requires x !in p1.rolled ==> p1.containers == p0.containers && p1.sent == p0.sent
    requires x in p1.rolled ==> p0.pushed[x].spec != rd.desired[x].wl.spec
    ensures OnlyRolled(rd, p, p1)
  {
  }

  /** All replicas placed, recorded there and Running on alive nodes, and the coming pass moves none. */
  ghost predicate Ready(w: World, now: int, net: Net) {
    && WellKeyed(w.nodes) && AliveNodes(w.nodes, now) == w.nodes
    && w.layout.Keys == w.pushed.Keys == Expand(w.stored).Keys
    && (forall r | r in w.layout ::
          && w.pushed[r].node == w.layout[r].node && w.layout[r].node in w.nodes
          && Slot(w.layout[r].node, r) in w.containers && w.containers[Slot(w.layout[r].node, r)].running)
    && KeepsPlaces(w, now, net)
  }

  ghost predicate KeepsPlaces(w: World, now: int, net: Net)
    requires WellKeyed(w.nodes)
  {
    RoundValid(w, now, net);
    var m := Settle(RoundOf(w, now, net), w.layout, Order(Expand(w.stored)));
    forall r | r in w.layout :: r in m && m[r].node == w.layout[r].node
  }

  ghost function StaleOf(stored: Store, pushed: Pushed, parent: string): set<string> {
    var d := Expand(stored);
    set r | r in d && d[r].parent == parent && r in pushed && pushed[r].spec != d[r].wl.spec
  }

  lemma ReadyEvict(w: World, now: int)
    requires AliveNodes(w.nodes, now) == w.nodes
    ensures EvictDead(w, now) == w
  {
    forall k | k in w.nodes ensures k !in DeadIds(w.nodes, now) {
      assert k in AliveNodes(w.nodes, now);
    }
    assert DeadIds(w.nodes, now) == {};
    assert Evict(w.layout, {}) == w.layout;
    assert w.nodes - {} == w.nodes && w.pushed - {} == w.pushed;
  }

  lemma ReadyRunning(w: World, now: int, net: Net, r: string)
    requires Ready(w, now, net) && AllAcked(net) && r in Expand(w.stored)
    ensures r in RoundOf(w, now, net).running
  {
    hide Expand, KeepsPlaces;
    ReadyEvict(w, now);
    var s := Slot(w.layout[r].node, r);
    assert net(Status(s.node)).Acked? && s in w.containers.Keys && s.replica == r;
  }

  lemma {:induction false} SettleKeys(rd: Round, m: Layout, q: seq<string>)
    requires InRound(q, rd) && forall i | 0 <= i < |q| :: q[i] in m
    ensures Settle(rd, m, q).Keys <= m.Keys
    decreases |q|
  {
    hide Assign;
    if q != [] {
      var x := q[|q| - 1];
      SettleKeys(rd, m, q[..|q| - 1]);
      AssignFrame(Settle(rd, m, q[..|q| - 1]), rd.nodes, rd.now, x, rd.desired[x].parent, RequestOf(rd.desired[x].wl));
      var m0, m1 := Settle(rd, m, q[..|q| - 1]), Settle(rd, m, q);
      forall r | r in m1 && r != x ensures r in m0 {
        assert r in m1 - {x};
      }
    }
  }

  /** A pass over a ready cluster only renews the records of the replicas it rolls. */
  lemma PassReady(w: World, now: int, net: Net, interval: int)
    requires Ready(w, now, net) && AllAcked(net)
    ensures InRound(Order(Expand(w.stored)), RoundOf(w, now, net))
    ensures var p, w' := Finished(w, now, net, interval), Reconcile(w, now, net, interval);
      && OnlyRolled(RoundOf(w, now, net), Before(w, now, net), p)
      && w'.nodes == w.nodes && w'.stored == w.stored
      && w'.layout == Settle(RoundOf(w, now, net), w.layout, Order(Expand(w.stored)))
      && w'.layout.Keys == w.layout.Keys
      && (forall r | r in w.layout :: w'.layout[r].node == w.layout[r].node)
  {
    hide Expand, Running, Drive, Settle, Unavailable, Order, EvictDead, OnlyRolled, Lapse;
    RoundValid(w, now, net);
    OrderCovers(Expand(w.stored));
    ReadyEvict(w, now);
    var rd, q, p0 := RoundOf(w, now, net), Order(Expand(w.stored)), Before(w, now, net);
    var m := Settle(rd, w.layout, q);
    forall i | 0 <= i < |q| ensures InPlace(rd, p0, m, q[i]) {
    }
    DriveInPlace(rd, net, p0, q);
    DriveLayout(rd, net, p0, q);
    SettleKeys(rd, w.layout, q);
    var p1 := Drive(rd, net, p0, q);
    assert m.Keys == w.layout.Keys;
    OnlyRolledKeys(rd, p0, p1);
    forall r | r in p1.pushed ensures r in rd.running {
      ReadyRunning(w, now, net, r);
    }
    NoLapse(p1.pushed, rd.running, now, 2 * interval);
    NoCleanup(rd, net, p1);
  }

  lemma OnlyRolledKeys(rd: Round, p: Progress, p': Progress)
    requires OnlyRolled(rd, p, p')
    ensures p'.pushed.Keys == p.pushed.Keys
  {
  }

  lemma NoLapse(pushed: Pushed, running: set<string>, now: int, grace: int)
    requires forall r | r in pushed :: r in running
    ensures Lapse(pushed, running, now, grace) == pushed
  {
  }

  lemma NoCleanup(rd: Round, net: Net, p: Progress)
    requires p.layout.Keys <= rd.desired.Keys
    ensures Cleanup(rd, net, p) == p
  {
    assert Undesired(rd, p.layout) == {} && StopCalls(rd, p.layout) == {};
    assert (set s | s in StopCalls(rd, p.layout) && !net(Stop(s)).Lost?) == {};
    assert p.layout - {} == p.layout && p.pushed - {} == p.pushed && p.containers - {} == p.containers;
  }

  // ----- Progress -----

  lemma ReadyRollable(w: World, now: int, net: Net, parent: string)
    requires Ready(w, now, net) && AllAcked(net)
    ensures InRound(Order(Expand(w.stored)), RoundOf(w, now, net))
    ensures var rd, q := RoundOf(w, now, net), Order(Expand(w.stored));
      var m := Settle(rd, w.layout, q);
      && AckedOf(rd, net, w.pushed, m, parent) == StaleOf(w.stored, w.pushed, parent)
      && NotRunning(rd.desired, parent, rd.running) == {} && MovedOf(rd, net, w.pushed, m, parent) == {}
  {
    hide Expand, Running, Settle, Order, EvictDead, AckedOf, StoppableOf;
    RoundValid(w, now, net);
    var rd, q := RoundOf(w, now, net), Order(Expand(w.stored));
    forall r | r in rd.desired ensures r in rd.running {
      ReadyRunning(w, now, net, r);
    }
    RollableAgrees(rd, w.stored, w.pushed, Settle(rd, w.layout, q), parent);
    StoppableAcked(rd, net, w.pushed, Settle(rd, w.layout, q), parent);
  }

  lemma RollableAgrees(rd: Round, stored: Store, pushed: Pushed, m: Layout, parent: string)
    requires rd.desired == Expand(stored) && pushed.Keys == rd.desired.Keys <= rd.running
    requires forall r | r in pushed :: r in m && m[r].node == pushed[r].node
    ensures RollableOf(rd, pushed, m, parent) == StaleOf(stored, pushed, parent)
    ensures NotRunning(rd.desired, parent, rd.running) == {}
  {
    hide Expand;
  }

  lemma RenewedNotStale(w: World, rd: Round, p: Progress, p': Progress, parent: string)
    requires OnlyRolled(rd, p, p') && rd.desired == Expand(w.stored) && p.pushed == w.pushed
    ensures StaleOf(w.stored, p'.pushed, parent)
         == StaleOf(w.stored, w.pushed, parent) - RolledOf(rd, p'.rolled, parent)
    ensures RolledOf(rd, p'.rolled, parent) <= StaleOf(w.stored, w.pushed, parent)
  {
    hide Expand;
  }

  lemma SizeOfDifference(a: set<string>, b: set<string>)
    requires b <= a
    ensures |a - b| == |a| - |b|
  {
    assert (a - b) + b == a;
  }

  /** One pass over a ready cluster makes MaxUnavailable of a workload's stale replicas current, or all of them. */
  lemma PassShrinksStale(w: World, now: int, net: Net, interval: int, parent: string)
    requires Ready(w, now, net) && AllAcked(net) && parent in w.stored
    ensures var w' := Reconcile(w, now, net, interval);
      |StaleOf(w.stored, w'.pushed, parent)|
      == Max(0, |StaleOf(w.stored, w.pushed, parent)| - MaxUnavailable(w.stored[parent]))
  {
    hide Expand, Running, Settle, Order, EvictDead, Finished, StaleOf, AckedOf, MovedOf, Early, RolledOf, Unavailable,
         OnlyRolled, NotRunning, KeepsPlaces;
    ReadyEvict(w, now);
    PassRolls(w, now, net, interval, parent);
    ReadyRollable(w, now, net, parent);
    PassReady(w, now, net, interval);
    var p := Finished(w, now, net, interval);
    RenewedNotStale(w, RoundOf(w, now, net), Before(w, now, net), p, parent);
    SizeOfDifference(StaleOf(w.stored, w.pushed, parent), RolledOf(RoundOf(w, now, net), p.rolled, parent));
  }

  ghost predicate SameCapacity(a: Nodes, b: Nodes) {
    a.Keys == b.Keys && forall k | k in a :: a[k].cpu == b[k].cpu && a[k].mem == b[k].mem
  }

  /** Between passes nodes kept beating and replicas returned to Running; nothing else changed. */
  ghost predicate Recovered(w: World, w': World, now: int) {
    && w'.stored == w.stored && w'.layout == w.layout && w'.pushed == w.pushed
    && SameCapacity(w.nodes, w'.nodes) && WellKeyed(w'.nodes) && AliveNodes(w'.nodes, now) == w'.nodes
    && (forall r | r in w.layout ::
          Slot(w.layout[r].node, r) in w'.containers && w'.containers[Slot(w.layout[r].node, r)].running)
  }

  lemma WithinSameCapacity(m: Layout, a: Nodes, b: Nodes)
    requires SameCapacity(a, b) && AllWithin(m, a)
    ensures AllWithin(m, b)
  {
    forall n | n in b ensures NodeWithin(m, b, n) {
      assert NodeWithin(m, a, n);
      forall d ensures Load(m, n, d) <= Capacity(b[n], d) {
        assert Schedulable(a[n]) == Schedulable(b[n]);
      }
    }
  }

  /** Current requests, within capacity: the next pass keeps every replica where it is. */
  lemma SettledKeepsPlaces(w: World, now: int, net: Net)
    requires WellKeyed(w.nodes) && AllWithin(w.layout, w.nodes) && AliveNodes(w.nodes, now) == w.nodes
    requires w.layout.Keys == Expand(w.stored).Keys
    requires forall r | r in w.layout ::
      w.layout[r].node in w.nodes && w.layout[r].req == RequestOf(Expand(w.stored)[r].wl)
    ensures InRound(Order(Expand(w.stored)), RoundOf(w, now, net))
    ensures Settle(RoundOf(w, now, net), w.layout, Order(Expand(w.stored))) == w.layout
  {
    hide Expand, Running, Settle, Order, EvictDead, RequestOf;
    RoundValid(w, now, net);
    OrderCovers(Expand(w.stored));
    ReadyEvict(w, now);
    SettleFixed(RoundOf(w, now, net), w.layout, Order(Expand(w.stored)));
  }

  lemma PassSettles(w: World, now: int, net: Net, interval: int)
    requires Ready(w, now, net) && AllAcked(net)
    ensures var w' := Reconcile(w, now, net, interval);
      && AllWithin(w'.layout, w'.nodes)
      && w'.pushed.Keys == w.pushed.Keys
      && (forall r | r in w'.layout ::
            && w'.layout[r].node in w'.nodes && w'.layout[r].req == RequestOf(Expand(w.stored)[r].wl)
            && r in w'.pushed && w'.pushed[r].node == w'.layout[r].node)
  {
    hide Expand, Running, Settle, Order, EvictDead, RequestOf, Finished, AllWithin, KeepsPlaces, Unavailable;
    PassHeals(w, now, net, interval);
    PassReady(w, now, net, interval);
    ReadyEvict(w, now);
    OrderCovers(Expand(w.stored));
    var rd, q, w' := RoundOf(w, now, net), Order(Expand(w.stored)), Reconcile(w, now, net, interval);
    forall r | r in w'.layout
      ensures w'.layout[r].node in w'.nodes && w'.layout[r].req == RequestOf(Expand(w.stored)[r].wl)
    {
      var i :| 0 <= i < |q| && q[i] == r;
      SettleRequests(rd, w.layout, q, i);
    }
  }

  /** After any pass what is assigned is desired and counts against its node for what its workload declares, or for
      nothing if that declares nothing. */
  lemma PassCommits(w: World, now: int, net: Net, interval: int, r: string)
    requires WellKeyed(w.nodes)
    ensures var w', d := Reconcile(w, now, net, interval), Expand(w.stored);
      r in w'.layout ==>
        && r in d && d[r].parent in w.stored && w'.layout[r].node in w'.nodes
        && var declared := w.stored[d[r].parent].spec.resources;
        w'.layout[r].req == if declared.Some? then declared.value else Resources(0, 0)
  {
    hide Settle, Drive, Lapse, StopCalls, Expand, Running, EvictDead, Unavailable, Order;
    var rd, q := RoundOf(w, now, net), Order(Expand(w.stored));
    RoundValid(w, now, net);
    OrderCovers(Expand(w.stored));
    ExpandMembers(w.stored, r);
    DriveLayout(rd, net, Before(w, now, net), q);
    if r in Reconcile(w, now, net, interval).layout {
      var i :| 0 <= i < |q| && q[i] == r;
      SettleRequests(rd, Before(w, now, net).layout, q, i);
    }
  }

  lemma RecoveredReady(w: World, now: int, net: Net, interval: int, w2: World, now2: int)
    requires Ready(w, now, net) && AllAcked(net)
    requires Recovered(Reconcile(w, now, net, interval), w2, now2)
    ensures Ready(w2, now2, net)
  {
    hide Expand, Reconcile, Settle, Order, EvictDead, RequestOf, AllWithin, Running;
    PassSettles(w, now, net, interval);
    PassReady(w, now, net, interval);
    var w' := Reconcile(w, now, net, interval);
    WithinSameCapacity(w'.layout, w'.nodes, w2.nodes);
    SettledKeepsPlaces(w2, now2, net);
  }

  // ----- Rollouts -----

  /** A run of passes, with replicas recovering in between. */
  ghost predicate RolloutRun(ws: seq<World>, nows: seq<int>, net: Net, interval: int) {
    && |ws| == |nows| && ws != []
    && (forall i | 0 <= i < |ws| :: WellKeyed(ws[i].nodes))
    && (forall i | 0 <= i < |ws| - 1 :: Recovered(Reconcile(ws[i], nows[i], net, interval), ws[i + 1], nows[i + 1]))
  }

  lemma {:induction false} RolloutProgress(ws: seq<World>, nows: seq<int>, net: Net, interval: int, j: nat,
                                           parent: string)
    requires RolloutRun(ws, nows, net, interval) && AllAcked(net) && j < |ws|
    requires Ready(ws[0], nows[0], net) && parent in ws[0].stored
    ensures Ready(ws[j], nows[j], net) && ws[j].stored == ws[0].stored
    ensures |StaleOf(ws[j].stored, ws[j].pushed, parent)|
         == Max(0, |StaleOf(ws[0].stored, ws[0].pushed, parent)| - j * MaxUnavailable(ws[0].stored[parent]))
  {
    hide Ready, StaleOf, Finished, MaxUnavailable;
    if j > 0 {
      RolloutProgress(ws, nows, net, interval, j - 1, parent);
      assert Recovered(Reconcile(ws[j - 1], nows[j - 1], net, interval), ws[j], nows[j]);
      RecoveredReady(ws[j - 1], nows[j - 1], net, interval, ws[j], nows[j]);
      PassShrinksStale(ws[j - 1], nows[j - 1], net, interval, parent);
      var limit := MaxUnavailable(ws[0].stored[parent]);
      MaxUnavailablePositive(ws[0].stored[parent]);
      OneMore(|StaleOf(ws[0].stored, ws[0].pushed, parent)|, j, limit);
    }
  }

  lemma MaxUnavailablePositive(w: Workload)
    ensures MaxUnavailable(w) >= 1
  {
  }

  lemma OneMore(k: int, j: nat, limit: int)
    requires j > 0 && limit >= 1
    ensures Max(0, Max(0, k - (j - 1) * limit) - limit) == Max(0, k - j * limit)
  {
    assert j * limit == (j - 1) * limit + limit;
  }

  function CeilDiv(k: nat, n: int): nat
    requires n >= 1
  {
    (k + n - 1) / n
  }

  /** After ceil(k / MaxUnavailable) passes none of a workload's k stale replicas is left. */
  lemma RolloutFinishes(ws: seq<World>, nows: seq<int>, net: Net, interval: int, parent: string)
    requires RolloutRun(ws, nows, net, interval) && AllAcked(net)
    requires Ready(ws[0], nows[0], net) && parent in ws[0].stored
    requires |ws| > CeilDiv(|StaleOf(ws[0].stored, ws[0].pushed, parent)|, MaxUnavailable(ws[0].stored[parent]))
    ensures var j := CeilDiv(|StaleOf(ws[0].stored, ws[0].pushed, parent)|, MaxUnavailable(ws[0].stored[parent]));
      StaleOf(ws[j].stored, ws[j].pushed, parent) == {}
  {
    hide Ready, StaleOf, RolloutRun, CeilDiv;
    NothingStale(ws, nows, net, interval,
                 CeilDiv(|StaleOf(ws[0].stored, ws[0].pushed, parent)|, MaxUnavailable(ws[0].stored[parent])), parent);
  }

  lemma CeilDivCovers(k: nat, n: int)
    requires n >= 1
    ensures CeilDiv(k, n) * n >= k
  {
    var a := k + n - 1;
    assert a == (a / n) * n + a % n;
  }

  lemma ReadyOutlook(w: World, now: int, net: Net, parent: string)
    requires Ready(w, now, net) && AllAcked(net) && parent in w.stored
    ensures var o := OutlookOf(w, now, net, parent);
      o.down == {} && o.moved == {} && o.acked == StaleOf(w.stored, w.pushed, parent)
  {
    hide Expand, Running, Settle, Order, EvictDead, StaleOf, AckedOf, MovedOf, Early, StoppableOf, NotRunning,
         KeepsPlaces, MaxUnavailable;
    ReadyEvict(w, now);
    ReadyRollable(w, now, net, parent);
  }

  /** A pass over a ready cluster leaves exactly as many replicas not Running as it rolls. */
  lemma ReadyBudget(w: World, now: int, net: Net, interval: int, parent: string)
    requires Ready(w, now, net) && AllAcked(net) && parent in w.stored && Housed(w, now)
    ensures WellKeyed(w.nodes)
    ensures |DownAfter(w, now, net, interval, parent)|
         == Min(|StaleOf(w.stored, w.pushed, parent)|, MaxUnavailable(w.stored[parent]))
  {
    hide Ready, StaleOf, MaxUnavailable, DownAfter, OutlookOf, Housed;
    ReadyKeyed(w, now, net);
    ReadyOutlook(w, now, net, parent);
    PassBudgetIff(w, now, net, interval, parent);
    HousedSpares(w, now, net, interval, parent);
    OutlookRoom(w, now, net, parent);
    OutlookSizes(w, now, net, parent);
    var o := OutlookOf(w, now, net, parent);
    assert o.taken - o.acked == {};
    MaxUnavailablePositive(w.stored[parent]);
  }

  /** In a rollout every pass leaves exactly as many replicas not Running as it rolls, and never more than the
      budget. */
  lemma {:induction false} RolloutBudget(ws: seq<World>, nows: seq<int>, net: Net, interval: int, j: nat,
                                         parent: string)
    requires RolloutRun(ws, nows, net, interval) && AllAcked(net) && j < |ws|
    requires Ready(ws[0], nows[0], net) && parent in ws[0].stored
    requires Housed(ws[j], nows[j])
    ensures parent in ws[j].stored
    ensures var stale, limit := StaleOf(ws[j].stored, ws[j].pushed, parent), MaxUnavailable(ws[j].stored[parent]);
      |DownAfter(ws[j], nows[j], net, interval, parent)| == Min(|stale|, limit) <= limit
  {
    hide Ready, StaleOf, Recovered, MaxUnavailable, DownAfter, Housed, Reconcile;
    RolloutProgress(ws, nows, net, interval, j, parent);
    ReadyBudget(ws[j], nows[j], net, interval, parent);
  }

  lemma ReadyKeyed(w: World, now: int, net: Net)
    requires Ready(w, now, net)
    ensures WellKeyed(w.nodes)
  {
  }

  /** A converged cluster: ready, nothing stale, requests current, nodes within capacity. */
  ghost predicate Converged(w: World, now: int, net: Net) {
    && Ready(w, now, net) && AllWithin(w.layout, w.nodes)
    && (forall r | r in w.layout :: w.layout[r].req == RequestOf(Expand(w.stored)[r].wl))
    && (forall r | r in w.layout :: w.pushed[r].spec == Expand(w.stored)[r].wl.spec)
  }

  /** A pass over a converged cluster sends no assign or unassign and changes nothing. */
  lemma ConvergedFixed(w: World, now: int, net: Net, interval: int)
    requires Converged(w, now, net) && AllAcked(net)
    ensures Finished(w, now, net, interval).sent == {}
    ensures Reconcile(w, now, net, interval) == w
  {
    hide Expand, Running, Settle, Order, EvictDead, Finished, RequestOf, KeepsPlaces, Unavailable;
    ReadyEvict(w, now);
    PassReady(w, now, net, interval);
    SettledKeepsPlaces(w, now, net);
    var p0, p := Before(w, now, net), Finished(w, now, net, interval);
    assert p.rolled == {};
    assert p.pushed == w.pushed;
  }

  /** After the largest of the workloads' ceilings, and at least one pass, a rollout has converged. */
  lemma RolloutConverges(ws: seq<World>, nows: seq<int>, net: Net, interval: int, j: nat)
    requires RolloutRun(ws, nows, net, interval) && AllAcked(net) && Ready(ws[0], nows[0], net) && 1 <= j < |ws|
    requires forall parent | parent in ws[0].stored ::
      j >= CeilDiv(|StaleOf(ws[0].stored, ws[0].pushed, parent)|, MaxUnavailable(ws[0].stored[parent]))
    ensures Converged(ws[j], nows[j], net)
  {
    hide Ready, StaleOf, MaxUnavailable, CeilDiv, Recovered, Expand, RequestOf, AllWithin, Max, Reconcile;
    var w := ws[j];
    RunStep(ws, nows, net, interval, j);
    forall parent | parent in w.stored ensures StaleOf(w.stored, w.pushed, parent) == {} {
      NothingStale(ws, nows, net, interval, j, parent);
    }
    SettledAfter(ws[j - 1], nows[j - 1], net, interval, w, nows[j]);
    ReadyLayout(w, nows[j], net);
    forall r | r in w.layout ensures w.pushed[r].spec == Expand(w.stored)[r].wl.spec {
      CurrentSpec(w, nows[j], net, r);
    }
  }

  lemma RunStep(ws: seq<World>, nows: seq<int>, net: Net, interval: int, j: nat)
    requires RolloutRun(ws, nows, net, interval) && AllAcked(net) && Ready(ws[0], nows[0], net) && 1 <= j < |ws|
    ensures Ready(ws[j - 1], nows[j - 1], net) && Ready(ws[j], nows[j], net) && ws[j].stored == ws[0].stored
    ensures WellKeyed(ws[j - 1].nodes) && Recovered(Reconcile(ws[j - 1], nows[j - 1], net, interval), ws[j], nows[j])
    decreases j
  {
    hide Ready, Recovered, Reconcile;
    if j > 1 {
      RunStep(ws, nows, net, interval, j - 1);
    }
    assert Recovered(Reconcile(ws[j - 1], nows[j - 1], net, interval), ws[j], nows[j]);
    RecoveredReady(ws[j - 1], nows[j - 1], net, interval, ws[j], nows[j]);
    RecoveredStored(ws[j - 1], nows[j - 1], net, interval, ws[j], nows[j]);
  }

  lemma RecoveredStored(w: World, now: int, net: Net, interval: int, w2: World, now2: int)
    requires WellKeyed(w.nodes) && Recovered(Reconcile(w, now, net, interval), w2, now2)
    ensures w2.stored == w.stored
  {
    hide Finished;
  }

  lemma NothingStale(ws: seq<World>, nows: seq<int>, net: Net, interval: int, j: nat, parent: string)
    requires RolloutRun(ws, nows, net, interval) && AllAcked(net) && j < |ws|
    requires Ready(ws[0], nows[0], net) && parent in ws[0].stored
    requires j >= CeilDiv(|StaleOf(ws[0].stored, ws[0].pushed, parent)|, MaxUnavailable(ws[0].stored[parent]))
    ensures StaleOf(ws[j].stored, ws[j].pushed, parent) == {}
  {
    hide Ready, StaleOf, RolloutRun, CeilDiv;
    var k, n := |StaleOf(ws[0].stored, ws[0].pushed, parent)|, MaxUnavailable(ws[0].stored[parent]);
    RolloutProgress(ws, nows, net, interval, j, parent);
    CeilDivCovers(k, n);
    MoreCovers(CeilDiv(k, n), j, n);
  }

  lemma MoreCovers(a: nat, b: nat, n: int)
    requires a <= b && n >= 1
    ensures a * n <= b * n
  {
  }

  lemma SettledAfter(w: World, now: int, net: Net, interval: int, w2: World, now2: int)
    requires Ready(w, now, net) && AllAcked(net) && Recovered(Reconcile(w, now, net, interval), w2, now2)
    ensures AllWithin(w2.layout, w2.nodes)
    ensures Ready(w2, now2, net)
    ensures forall r | r in w2.layout :: w2.layout[r].req == RequestOf(Expand(w2.stored)[r].wl)
  {
    hide Expand, Reconcile, Settle, Order, EvictDead, RequestOf, AllWithin, Running, Ready;
    ReadyKeyed(w, now, net);
    RecoveredReady(w, now, net, interval, w2, now2);
    ReadyLayout(w2, now2, net);
    PassSettles(w, now, net, interval);
    PassReady(w, now, net, interval);
    WithinSameCapacity(w2.layout, Reconcile(w, now, net, interval).nodes, w2.nodes);
  }

  lemma ReadyLayout(w: World, now: int, net: Net)
    requires Ready(w, now, net)
    ensures w.layout.Keys == w.pushed.Keys == Expand(w.stored).Keys
  {
    hide Expand;
  }

  lemma CurrentSpec(w: World, now: int, net: Net, r: string)
    requires Ready(w, now, net) && r in w.layout
    requires forall parent | parent in w.stored :: StaleOf(w.stored, w.pushed, parent) == {}
    ensures r in w.pushed && r in Expand(w.stored) && w.pushed[r].spec == Expand(w.stored)[r].wl.spec
  {
    ExpandHonest(w.stored);
    hide Expand, KeepsPlaces;
    var parent := Expand(w.stored)[r].parent;
    assert r !in StaleOf(w.stored, w.pushed, parent);
  }

  // ----- A fresh control plane -----

  lemma DeliverFresh(rd: Round, net: Net, p: Progress, r: string, node: string)
    requires ValidRound(rd) && r in rd.desired && r !in p.pushed && AllAcked(net)
    ensures var p' := Deliver(rd, net, p, r, node);
      r in p'.pushed && p'.pushed[r] == PushRecord(node, rd.now, rd.desired[r].wl.spec)
  {
    assert net(Start(Slot(node, r))).Acked?;
  }

  /** A replica without a record that is placed gets a new record, with the current spec, where it is placed. */
  lemma {:induction false} DriveFresh(rd: Round, net: Net, p: Progress, q: seq<string>, i: nat)
    requires InRound(q, rd) && Distinct(q) && AllAcked(net) && i < |q| && q[i] !in p.pushed
    ensures var p', r := Drive(rd, net, p, q), q[i];
      r in p'.layout ==>
        r in p'.pushed && p'.pushed[r] == PushRecord(p'.layout[r].node, rd.now, rd.desired[r].wl.spec)
  {
    hide DriveOne, Deliver;
    var q0, q1, r := q[..i], q[..i + 1], q[i];
    var p0, p1 := Drive(rd, net, p, q0), Drive(rd, net, p, q1);
    assert q1[..i] == q0 && q1[i] == r && r !in q0 && r !in q[i + 1..];
    DriveOutside(rd, net, p, q0, r);
    DriveOneSplit(rd, net, p0, r);
    if r in p1.layout {
      DeliverFresh(rd, net, p0.(layout := p1.layout), r, p1.layout[r].node);
    }
    DriveLater(rd, net, p, q, i + 1, r);
    DriveLayout(rd, net, p, q1);
    DriveLayout(rd, net, p, q);
    SettlePrefix(rd, p.layout, q, i + 1, r);
  }

  /** What a pass of a control plane that knows of nothing yet leaves behind, if it places every replica. */
  lemma PassFromScratch(w: World, now: int, net: Net, interval: int)
    requires WellKeyed(w.nodes) && w.layout == map[] && w.pushed == map[] && AllAcked(net) && interval > 0
    requires Reconcile(w, now, net, interval).layout.Keys == Expand(w.stored).Keys
    ensures var w', desired := Reconcile(w, now, net, interval), Expand(w.stored);
      && w'.stored == w.stored && w'.pushed.Keys == w'.layout.Keys && AllWithin(w'.layout, w'.nodes)
      && forall r | r in w'.layout ::
        && w'.layout[r].node in w'.nodes && w'.layout[r].req == RequestOf(desired[r].wl)
        && w'.pushed[r].node == w'.layout[r].node && w'.pushed[r].spec == desired[r].wl.spec
  {
    hide Expand, Running, Settle, Order, EvictDead, RequestOf, AllWithin, Unavailable, Drive, Lapse;
    PassHeals(w, now, net, interval);
    RoundValid(w, now, net);
    OrderCovers(Expand(w.stored));
    var rd, q, p := RoundOf(w, now, net), Order(Expand(w.stored)), Before(w, now, net);
    assert p.layout == map[] && p.pushed == map[] by {
      ScratchEvict(w, now);
    }
    var p1, w' := Drive(rd, net, p, q), Reconcile(w, now, net, interval);
    DriveLayout(rd, net, p, q);
    forall r | r in rd.desired && r in p1.layout
      ensures r in p1.pushed && p1.pushed[r] == PushRecord(p1.layout[r].node, now, rd.desired[r].wl.spec)
      ensures p1.layout[r].req == RequestOf(rd.desired[r].wl) && p1.layout[r].node in rd.nodes
    {
      var i :| 0 <= i < |q| && q[i] == r;
      DriveFresh(rd, net, p, q, i);
      SettleRequests(rd, p.layout, q, i);
    }
    forall r | r !in rd.desired ensures r !in p1.layout && r !in p1.pushed {
      DriveOutside(rd, net, p, q, r);
    }
    NoCleanup(rd, net, p1.(pushed := Lapse(p1.pushed, rd.running, now, 2 * interval)));
    NewRecordsStay(p1.pushed, rd.running, now, 2 * interval);
  }

  lemma NewRecordsStay(pushed: Pushed, running: set<string>, now: int, grace: int)
    requires grace > 0 && forall r | r in pushed :: pushed[r].at == now
    ensures Lapse(pushed, running, now, grace) == pushed
  {
  }

  lemma ScratchEvict(w: World, now: int)
    requires w.layout == map[] && w.pushed == map[]
    ensures EvictDead(w, now).layout == map[] && EvictDead(w, now).pushed == map[]
  {
  }

  /** A control plane that has just started, whatever containers it finds: if its first pass places every replica and
      these come up, the cluster has converged. */
  lemma FreshConverges(w: World, now: int, net: Net, interval: int, w2: World, now2: int)
    requires WellKeyed(w.nodes) && w.layout == map[] && w.pushed == map[] && AllAcked(net) && interval > 0
    requires Reconcile(w, now, net, interval).layout.Keys == Expand(w.stored).Keys
    requires Recovered(Reconcile(w, now, net, interval), w2, now2)
    ensures Ready(w2, now2, net) && Converged(w2, now2, net)
  {
    hide Expand, Reconcile, Settle, Order, EvictDead, RequestOf, AllWithin, Running;
    PassFromScratch(w, now, net, interval);
    var w' := Reconcile(w, now, net, interval);
    WithinSameCapacity(w'.layout, w'.nodes, w2.nodes);
    SettledKeepsPlaces(w2, now2, net);
  }
}
