/** How many replicas of a workload a pass takes down, and when that stays within its budget. */
module Budget {
  import opened Ordering
  import opened Registry
  import opened Layouts
  import opened Workloads
  import opened Reconciling
  import opened PassLaws
  import opened SingleCopy
  import opened CopyRuns
  import opened Rollout

  /** Node `n` reports the replica Running. */
  ghost predicate Shows(c: Containers, nodes: Nodes, net: Net, n: string, r: string) {
    Slot(n, r) in c && n in nodes && net(Status(n)).Acked? && c[Slot(n, r)].running
  }

  lemma RunningShows(c: Containers, nodes: Nodes, net: Net, r: string)
    ensures r in Running(c, nodes, net) <==> exists n :: Shows(c, nodes, net, n, r)
  {
    if n :| Shows(c, nodes, net, n, r) {
      assert Slot(n, r) in c.Keys && Slot(n, r).replica == r;
    }
    if r in Running(c, nodes, net) {
      var s :| s in c.Keys && s.node in nodes && net(Status(s.node)).Acked? && c[s].running && s.replica == r;
      assert s == Slot(s.node, r) && Shows(c, nodes, net, s.node, r);
    }
  }

  /** A node other than the one in the replica's record reports it Running. */
  ghost predicate Astray(c: Containers, pushed: Pushed, nodes: Nodes, net: Net, r: string) {
    exists n :: Shows(c, nodes, net, n, r) && (r in pushed ==> pushed[r].node != n)
  }

  // ----- One replica -----

  /** Delivering the replica takes its container down: it is moved, or rolled while `may` says so, and the stop is
      not lost. */
  predicate Downs(rd: Round, net: Net, pushed: Pushed, r: string, node: string, may: bool)
    requires r in rd.desired
  {
    && r in pushed && !net(Stop(Slot(pushed[r].node, r))).Lost?
    && (pushed[r].node != node || (pushed[r].spec != rd.desired[r].wl.spec && may))
  }

  /** A started container is not Running yet, and one that exists is left alone. */
  lemma PushShows(rd: Round, net: Net, p: Progress, r: string, node: string, spec: Spec, n: string)
    ensures Shows(Push(rd, net, p, r, node, spec).containers, rd.nodes, net, n, r)
       <==> Shows(p.containers, rd.nodes, net, n, r)
  {
  }

  lemma StopShows(nodes: Nodes, net: Net, p: Progress, slot: Slot, n: string)
    ensures Shows(SendStop(p, slot, net).containers, nodes, net, n, slot.replica)
       <==> Shows(p.containers, nodes, net, n, slot.replica) && !(slot.node == n && !net(Stop(slot)).Lost?)
  {
    assert slot == Slot(slot.node, slot.replica);
  }

  lemma DeliverDowns(rd: Round, net: Net, p: Progress, r: string, node: string, n: string)
    requires ValidRound(rd) && r in rd.desired
    ensures var p' := Deliver(rd, net, p, r, node);
      Shows(p'.containers, rd.nodes, net, n, r) <==>
      && Shows(p.containers, rd.nodes, net, n, r)
      && !(Downs(rd, net, p.pushed, r, node, MayRoll(rd, p, r)) && n == p.pushed[r].node)
  {
    hide MayRoll, Push, SendStop;
    var spec := rd.desired[r].wl.spec;
    PushShows(rd, net, p, r, node, spec, n);
    if r in p.pushed {
      var slot := Slot(p.pushed[r].node, r);
      StopShows(rd.nodes, net, p, slot, n);
      PushShows(rd, net, SendStop(p, slot, net), r, node, spec, n);
    }
  }

  // ----- The loop -----

  /** After its turn a replica is left alone. */
  lemma {:induction false} DriveLater(rd: Round, net: Net, p: Progress, q: seq<string>, i: nat, r: string)
    requires InRound(q, rd) && i <= |q| && r !in q[i..]
    ensures SameFor(Drive(rd, net, p, q[..i]), Drive(rd, net, p, q), r)
    decreases |q|
  {
    hide DriveOne, Deliver;
    if i == |q| {
      assert q[..i] == q;
    } else {
      var n := |q| - 1;
      assert q[..n][..i] == q[..i] && q[i..] == q[..n][i..] + [q[n]];
      DriveLater(rd, net, p, q[..n], i, r);
      var p0, x := Drive(rd, net, p, q[..n]), q[n];
      DriveOneSplit(rd, net, p0, x);
      var p1 := DriveOne(rd, net, p0, x);
      if x in p1.layout {
        DeliverOthers(rd, net, p0.(layout := p1.layout), x, p1.layout[x].node, r);
      }
    }
  }

  lemma SameShows(p: Progress, p': Progress, nodes: Nodes, net: Net, n: string, r: string)
    requires SameFor(p, p', r)
    ensures Shows(p.containers, nodes, net, n, r) <==> Shows(p'.containers, nodes, net, n, r)
  {
  }

  /** What one turn does to the replica's container. */
  lemma TurnDowns(rd: Round, net: Net, p: Progress, r: string, n: string)
    requires ValidRound(rd) && r in rd.desired
    ensures var p' := DriveOne(rd, net, p, r);
      Shows(p'.containers, rd.nodes, net, n, r) <==>
      && Shows(p.containers, rd.nodes, net, n, r)
      && !(r in p'.layout && Downs(rd, net, p.pushed, r, p'.layout[r].node,
                                   r in rd.running && InBudget(rd, p, rd.desired[r].parent))
           && n == p.pushed[r].node)
  {
    hide DriveOne, Deliver, MayRoll, InBudget;
    DriveOneSplit(rd, net, p, r);
    var p' := DriveOne(rd, net, p, r);
    if r in p'.layout {
      MayRollInBudget(rd, p, p'.layout, r);
      DeliverDowns(rd, net, p.(layout := p'.layout), r, p'.layout[r].node, n);
    }
  }

  /** What the whole loop does to the container of its `i`-th replica, in terms of the state it starts from. */
  lemma {:induction false} DriveDowns(rd: Round, net: Net, p: Progress, q: seq<string>, m: Layout, i: nat, n: string)
    requires InRound(q, rd) && Distinct(q) && i < |q| && p.rolled == {} && m == Settle(rd, p.layout, q)
    ensures var p', r := Drive(rd, net, p, q), q[i];
      var parent := rd.desired[r].parent;
      var may := |Among(q[..i], AckedOf(rd, net, p.pushed, m, parent))| < Allowance(rd, p, parent);
      Shows(p'.containers, rd.nodes, net, n, r) <==>
      && Shows(p.containers, rd.nodes, net, n, r)
      && !(r in m && Downs(rd, net, p.pushed, r, m[r].node, r in rd.running && may) && n == p.pushed[r].node)
  {
    hide DriveOne, Deliver, Settle, AckedOf, Among, Allowance, InBudget, Shows;
    var r, q0, q1 := q[i], q[..i], q[..i + 1];
    var p0, p1, parent := Drive(rd, net, p, q0), Drive(rd, net, p, q1), rd.desired[r].parent;
    assert r !in q0 && r !in q[i + 1..];
    assert q1[..i] == q0 && q1[i] == r;
    assert p1 == DriveOne(rd, net, p0, r);
    DriveOutside(rd, net, p, q0, r);
    SameShows(p, p0, rd.nodes, net, n, r);
    TurnDowns(rd, net, p0, r, n);
    DriveLater(rd, net, p, q, i + 1, r);
    SameShows(p1, Drive(rd, net, p, q), rd.nodes, net, n, r);
    DriveLayout(rd, net, p, q1);
    SettlePrefix(rd, p.layout, q, i + 1, r);
    TurnBudget(rd, net, p, q, m, i, parent);
    DownsSame(rd, net, p.pushed, p0.pushed, r);
  }

  lemma DownsSame(rd: Round, net: Net, a: Pushed, b: Pushed, r: string)
    requires r in rd.desired && SameRecord(a, b, r)
    ensures forall node, may :: Downs(rd, net, a, r, node, may) == Downs(rd, net, b, r, node, may)
  {
  }

  /** Whether budget is left at a turn, from the state at the start. */
  lemma {:induction false} TurnBudget(rd: Round, net: Net, p: Progress, q: seq<string>, m: Layout, i: nat,
                                      parent: string)
    requires InRound(q, rd) && Distinct(q) && i <= |q| && p.rolled == {} && m == Settle(rd, p.layout, q)
    requires parent in rd.stored
    ensures InBudget(rd, Drive(rd, net, p, q[..i]), parent)
       <==> |Among(q[..i], AckedOf(rd, net, p.pushed, m, parent))| < Allowance(rd, p, parent)
  {
    hide Drive, Settle, Charged, AckedOf, Among, Allowance, InBudget;
    var q0 := q[..i];
    forall j | 0 <= j < |q0| ensures SamePlace(m, Settle(rd, p.layout, q0), q0[j]) {
      assert q0[j] !in q[i..];
      SettlePrefix(rd, p.layout, q, i, q0[j]);
    }
    DriveRolls(rd, net, p, q0, m, parent);
    ChargedBudget(rd, net, p, m, q0, Drive(rd, net, p, q0), parent);
  }

  // ----- The pass -----

  /** Running replicas of the workload that the pass moves to another node, with the stop of the old container not
      lost. */
  ghost function MovedOf(rd: Round, net: Net, pushed: Pushed, m: Layout, parent: string): set<string> {
    set r | r in rd.desired && rd.desired[r].parent == parent && r in rd.running && r in m && r in pushed
            && pushed[r].node != m[r].node && !net(Stop(Slot(pushed[r].node, r))).Lost?
  }

  /** Rollable replicas whose stop would take effect. */
  ghost function StoppableOf(rd: Round, net: Net, pushed: Pushed, m: Layout, parent: string): set<string> {
    set r | r in RollableOf(rd, pushed, m, parent) && !net(Stop(Slot(m[r].node, r))).Lost?
  }

  /** Replicas also Running on a node their record does not name: no stop reaches those containers. */
  ghost function StraysOf(rd: Round, net: Net, c: Containers, pushed: Pushed): set<string> {
    set r | r in rd.desired && Astray(c, pushed, rd.nodes, net, r)
  }

  /** The Running replicas of the workload after the loop: those before, less the moved ones and the rollable ones
      stopped while there was budget, unless they are astray. */
  lemma {:induction false} LoopDowns(rd: Round, net: Net, p: Progress, q: seq<string>, m: Layout, parent: string,
                                     r: string)
    requires InRound(q, rd) && Distinct(q) && (forall x :: x in q <==> x in rd.desired)
    requires p.rolled == {} && m == Settle(rd, p.layout, q) && parent in rd.stored
    requires rd.running == Running(p.containers, rd.nodes, net)
    requires r in rd.desired && rd.desired[r].parent == parent
    ensures var acked := AckedOf(rd, net, p.pushed, m, parent);
      var taken := Early(q, acked, StoppableOf(rd, net, p.pushed, m, parent), Allowance(rd, p, parent));
      r in Running(Drive(rd, net, p, q).containers, rd.nodes, net) <==>
      && r in rd.running
      && (|| r in StraysOf(rd, net, p.containers, p.pushed)
          || (r !in MovedOf(rd, net, p.pushed, m, parent) && r !in taken))
  {
    hide Drive, Settle, Running, AckedOf, Among, Allowance, Early, Shows;
    var i :| 0 <= i < |q| && q[i] == r;
    var p', acked := Drive(rd, net, p, q), AckedOf(rd, net, p.pushed, m, parent);
    var may := |Among(q[..i], acked)| < Allowance(rd, p, parent);
    RunningShows(p.containers, rd.nodes, net, r);
    RunningShows(p'.containers, rd.nodes, net, r);
    EarlyAt(q, acked, StoppableOf(rd, net, p.pushed, m, parent), Allowance(rd, p, parent), i);
    forall n
      ensures Shows(p'.containers, rd.nodes, net, n, r) <==>
        && Shows(p.containers, rd.nodes, net, n, r)
        && !(r in m && Downs(rd, net, p.pushed, r, m[r].node, r in rd.running && may) && n == p.pushed[r].node)
    {
      DriveDowns(rd, net, p, q, m, i, n);
    }
  }

  lemma EarlyAt(q: seq<string>, charged: set<string>, s: set<string>, k: int, i: nat)
    requires Distinct(q) && i < |q|
    ensures q[i] in Early(q, charged, s, k) <==> q[i] in s && |Among(q[..i], charged)| < k
  {
    hide Among;
    if q[i] in Early(q, charged, s, k) {
      var j :| 0 <= j < |q| && q[j] in s && |Among(q[..j], charged)| < k && q[j] == q[i];
      assert j == i;
    }
  }

  /** The workload's replicas that are not Running after the pass. */
  ghost function DownAfter(w: World, now: int, net: Net, interval: int, parent: string): set<string>
    requires WellKeyed(w.nodes)
  {
    var w' := Reconcile(w, now, net, interval);
    NotRunning(Expand(w.stored), parent, Running(w'.containers, AliveNodes(w'.nodes, now), net))
  }

  /** What a pass finds and will do: the replicas down already; the rollable ones whose calls are acknowledged; those
      stopped for a roll, and those moved, that end up not Running; those whose roll is charged and that keep running
      astray; and what is left of the budget. */
  datatype Outlook = Outlook(down: set<string>, acked: set<string>, taken: set<string>, moved: set<string>,
                             spared: set<string>, room: int)

  /** Read off the cluster, the scheduler's placements and the fate of the calls before the pass. */
  ghost function OutlookOf(w: World, now: int, net: Net, parent: string): Outlook
    requires WellKeyed(w.nodes) && parent in w.stored
  {
    RoundValid(w, now, net);
    var rd, w1, q := RoundOf(w, now, net), EvictDead(w, now), Order(Expand(w.stored));
    var m := Settle(rd, w1.layout, q);
    var down := NotRunning(rd.desired, parent, rd.running);
    var acked := AckedOf(rd, net, w1.pushed, m, parent);
    var room := MaxUnavailable(w.stored[parent]) - |down|;
    var strays := StraysOf(rd, net, w1.containers, w1.pushed);
    Outlook(down, acked, Early(q, acked, StoppableOf(rd, net, w1.pushed, m, parent), room) - strays,
            MovedOf(rd, net, w1.pushed, m, parent) - strays, Early(q, acked, acked, room) * strays, room)
  }

  lemma CleanupRunning(rd: Round, net: Net, p: Progress, r: string)
    requires r in rd.desired
    ensures r in Running(Cleanup(rd, net, p).containers, rd.nodes, net) <==> r in Running(p.containers, rd.nodes, net)
  {
    hide Running;
    RunningShows(p.containers, rd.nodes, net, r);
    RunningShows(Cleanup(rd, net, p).containers, rd.nodes, net, r);
    forall n
      ensures Shows(Cleanup(rd, net, p).containers, rd.nodes, net, n, r) <==> Shows(p.containers, rd.nodes, net, n, r)
    {
      assert Slot(n, r) !in StopCalls(rd, p.layout);
    }
  }

  /** A desired replica is Running after the pass when it was, is not moved, and is not stopped for a roll. */
  lemma PassRunning(w: World, now: int, net: Net, interval: int, parent: string, r: string)
    requires WellKeyed(w.nodes) && parent in w.stored
    requires r in Expand(w.stored) && Expand(w.stored)[r].parent == parent
    ensures var o, w' := OutlookOf(w, now, net, parent), Reconcile(w, now, net, interval);
      r in Running(w'.containers, AliveNodes(w'.nodes, now), net) <==>
      r in RoundOf(w, now, net).running && r !in o.moved && r !in o.taken
  {
    hide Expand, EvictDead, Running, Settle, Drive, Lapse, AckedOf, Unavailable, Order, MaxUnavailable, Early,
         AliveNodes, StoppableOf, MovedOf, StraysOf, Cleanup;
    RoundValid(w, now, net);
    OrderCovers(Expand(w.stored));
    var rd, q, p := RoundOf(w, now, net), Order(Expand(w.stored)), Before(w, now, net);
    UnavailableCounts(rd, parent);
    LoopDowns(rd, net, p, q, Settle(rd, p.layout, q), parent, r);
    var p1 := Drive(rd, net, p, q);
    CleanupRunning(rd, net, p1.(pushed := Lapse(p1.pushed, rd.running, now, 2 * interval)), r);
  }

  /** What is found concerns desired replicas of the workload: those down, and Running ones to be taken down. */
  lemma OutlookDesired(w: World, now: int, net: Net, parent: string, r: string)
    requires WellKeyed(w.nodes) && parent in w.stored
    ensures var o, desired := OutlookOf(w, now, net, parent), Expand(w.stored);
      && (r in o.taken || r in o.moved || r in o.down ==> r in desired && desired[r].parent == parent)
      && (r in desired && desired[r].parent == parent ==> (r in o.down <==> r !in RoundOf(w, now, net).running))
  {
    hide Expand, EvictDead, Running, Settle, AckedOf, Order, MaxUnavailable, Early, StoppableOf, MovedOf, StraysOf;
    RoundValid(w, now, net);
    var rd, w1, q := RoundOf(w, now, net), EvictDead(w, now), Order(Expand(w.stored));
    var o := OutlookOf(w, now, net, parent);
    TakenDesired(rd, net, w1.pushed, Settle(rd, w1.layout, q), parent, q, o.acked, o.room);
  }

  /** From any state, for every outcome of the calls: after a pass the replicas that are not Running are those that
      were not, those stopped for a roll while there was budget, and those moved. */
  lemma PassDowns(w: World, now: int, net: Net, interval: int, parent: string)
    requires WellKeyed(w.nodes) && parent in w.stored
    ensures var o := OutlookOf(w, now, net, parent);
      DownAfter(w, now, net, interval, parent) == o.down + o.taken + o.moved
  {
    hide Expand, Running, AliveNodes, OutlookOf, Reconcile, RoundOf;
    var o, desired := OutlookOf(w, now, net, parent), Expand(w.stored);
    forall r ensures r in DownAfter(w, now, net, interval, parent) <==> r in o.down + o.taken + o.moved {
      OutlookDesired(w, now, net, parent, r);
      if r in desired && desired[r].parent == parent {
        PassRunning(w, now, net, interval, parent, r);
      }
    }
  }

  lemma TakenDesired(rd: Round, net: Net, pushed: Pushed, m: Layout, parent: string, q: seq<string>,
                     acked: set<string>, k: int)
    ensures forall r | r in Early(q, acked, StoppableOf(rd, net, pushed, m, parent), k) ::
      && r in rd.desired && rd.desired[r].parent == parent && r in rd.running
      && r !in MovedOf(rd, net, pushed, m, parent)
    ensures forall r | r in MovedOf(rd, net, pushed, m, parent) ::
      r in rd.desired && rd.desired[r].parent == parent && r in rd.running
  {
    hide Among;
  }

  // ----- The budget -----

  lemma StoppableAcked(rd: Round, net: Net, pushed: Pushed, m: Layout, parent: string)
    ensures AckedOf(rd, net, pushed, m, parent) <= StoppableOf(rd, net, pushed, m, parent)
    ensures AllAcked(net) ==> AckedOf(rd, net, pushed, m, parent) == RollableOf(rd, pushed, m, parent)
                              == StoppableOf(rd, net, pushed, m, parent)
  {
    hide Rollable;
    if AllAcked(net) {
      forall r | r in RollableOf(rd, pushed, m, parent) && r in m ensures BothAcked(net, Slot(m[r].node, r)) {
        assert net(Stop(Slot(m[r].node, r))).Acked? && net(Start(Slot(m[r].node, r))).Acked?;
      }
      assert forall r | r in RollableOf(rd, pushed, m, parent) :: Rollable(rd, pushed, m, r);
      RollablePlaced(rd, pushed, m, parent);
    }
  }

  lemma RollablePlaced(rd: Round, pushed: Pushed, m: Layout, parent: string)
    ensures RollableOf(rd, pushed, m, parent) <= m.Keys
  {
  }

  lemma EarlyPart(q: seq<string>, charged: set<string>, s: set<string>, k: int)
    requires charged <= s
    ensures Early(q, charged, s, k) * charged == Early(q, charged, charged, k)
  {
    hide Among;
  }

  /** The numbers: the rolls that are charged, at most what there is room for, take down all but the spared ones. */
  lemma OutlookSizes(w: World, now: int, net: Net, parent: string)
    requires WellKeyed(w.nodes) && parent in w.stored
    ensures var o := OutlookOf(w, now, net, parent);
      && |o.taken * o.acked| + |o.spared| == Min(|o.acked|, Max(0, o.room))
      && o.down !! o.taken && (o.down + o.taken) !! o.moved
      && (AllAcked(net) ==> o.taken <= o.acked)
  {
    hide OutlookOf, Min, Max, AllAcked;
    OutlookCharged(w, now, net, parent);
    OutlookApart(w, now, net, parent);
  }

  lemma OutlookCharged(w: World, now: int, net: Net, parent: string)
    requires WellKeyed(w.nodes) && parent in w.stored
    ensures var o := OutlookOf(w, now, net, parent);
      && |o.taken * o.acked| + |o.spared| == Min(|o.acked|, Max(0, o.room))
      && (AllAcked(net) ==> o.taken <= o.acked)
  {
    hide Expand, EvictDead, Running, Settle, AckedOf, Order, MaxUnavailable, Early, StoppableOf, MovedOf, StraysOf, Min,
         Max, RoundOf, Among, NotRunning;
    RoundValid(w, now, net);
    OrderCovers(Expand(w.stored));
    RoundDesired(w, now, net);
    var rd, w1, q := RoundOf(w, now, net), EvictDead(w, now), Order(Expand(w.stored));
    var m, o := Settle(rd, w1.layout, q), OutlookOf(w, now, net, parent);
    var stoppable, strays := StoppableOf(rd, net, w1.pushed, m, parent), StraysOf(rd, net, w1.containers, w1.pushed);
    StoppableAcked(rd, net, w1.pushed, m, parent);
    AckedAmong(rd, net, w1.pushed, m, parent, q);
    EarlyPart(q, o.acked, stoppable, o.room);
    EarlySize(q, o.acked, o.room);
    EarlyWithin(q, o.acked, stoppable, o.room);
    SparedSizes(Early(q, o.acked, stoppable, o.room), o.acked, Early(q, o.acked, o.acked, o.room), strays);
  }

  lemma OutlookApart(w: World, now: int, net: Net, parent: string)
    requires WellKeyed(w.nodes) && parent in w.stored
    ensures var o := OutlookOf(w, now, net, parent); o.down !! o.taken && (o.down + o.taken) !! o.moved
  {
    hide Expand, EvictDead, Running, Settle, AckedOf, Order, MaxUnavailable, Early, StoppableOf, MovedOf, StraysOf,
         RoundOf;
    RoundValid(w, now, net);
    var rd, w1, q := RoundOf(w, now, net), EvictDead(w, now), Order(Expand(w.stored));
    var o := OutlookOf(w, now, net, parent);
    TakenDesired(rd, net, w1.pushed, Settle(rd, w1.layout, q), parent, q, o.acked, o.room);
  }

  lemma SparedSizes(early: set<string>, acked: set<string>, charged: set<string>, strays: set<string>)
    requires early * acked == charged
    ensures |(early - strays) * acked| + |charged * strays| == |charged|
  {
    assert (early - strays) * acked == charged - strays;
    assert |charged| == |charged - strays| + |charged * strays|;
  }

  lemma EarlyWithin(q: seq<string>, charged: set<string>, s: set<string>, k: int)
    ensures Early(q, charged, s, k) <= s
  {
  }

  lemma SizeOfParts(down: set<string>, taken: set<string>, acked: set<string>, moved: set<string>)
    requires down !! taken && (down + taken) !! moved
    ensures |down + taken + moved| == |down| + |taken * acked| + |taken - acked| + |moved|
    ensures |down + taken| == |down| + |taken * acked| + |taken - acked|
  {
    assert taken == taken * acked + (taken - acked);
    assert |taken| == |taken * acked| + |taken - acked|;
    assert |down + taken| == |down| + |taken|;
  }

  lemma BudgetArithmetic(down: nat, acked: nat, spared: nat, half: nat, moved: nat, limit: int)
    ensures var room := limit - down;
      && (down + Min(acked, Max(0, room)) - spared + half + moved <= Max(limit, down) <==>
          half + moved <= spared + Max(0, room - acked))
      && down + Min(acked, Max(0, room)) <= Max(limit, down)
  {
  }

  lemma OutlookRoom(w: World, now: int, net: Net, parent: string)
    requires WellKeyed(w.nodes) && parent in w.stored
    ensures var o := OutlookOf(w, now, net, parent); o.room == MaxUnavailable(w.stored[parent]) - |o.down|
  {
    hide Expand, EvictDead, Running, Settle, AckedOf, Order, MaxUnavailable, Early, StoppableOf, MovedOf;
  }

  /** The exact condition, from any state and for every outcome of the calls: a pass keeps a workload's replicas that
      are not Running within its budget, or within those down already, if and only if the replicas moved or left half
      rolled are no more than the budget left over by all the rolls, and the charged rolls that took nothing down. */
  lemma PassBudgetIff(w: World, now: int, net: Net, interval: int, parent: string)
    requires WellKeyed(w.nodes) && parent in w.stored
    ensures var o := OutlookOf(w, now, net, parent);
      var half := o.taken - o.acked;
      && |DownAfter(w, now, net, interval, parent)|
         == |o.down| + Min(|o.acked|, Max(0, o.room)) - |o.spared| + |half| + |o.moved|
      && (|DownAfter(w, now, net, interval, parent)| <= Max(MaxUnavailable(w.stored[parent]), |o.down|) <==>
          |half| + |o.moved| <= |o.spared| + Max(0, o.room - |o.acked|))
  {
    hide DownAfter, MaxUnavailable, OutlookOf, Min, Max;
    var o := OutlookOf(w, now, net, parent);
    OutlookRoom(w, now, net, parent);
    PassDowns(w, now, net, interval, parent);
    OutlookSizes(w, now, net, parent);
    SizeOfParts(o.down, o.taken, o.acked, o.moved);
    BudgetArithmetic(|o.down|, |o.acked|, |o.spared|, |o.taken - o.acked|, |o.moved|, MaxUnavailable(w.stored[parent]));
  }

  /** Every container on an alive node whose replica has a record is where the record says. */
  ghost predicate Housed(w: World, now: int) {
    forall s | s in w.containers && s.node in AliveNodes(w.nodes, now) && s.replica in w.pushed ::
      w.pushed[s.replica].node == s.node
  }

  lemma NoStrays(w: World, now: int, net: Net)
    requires WellKeyed(w.nodes) && Housed(w, now)
    ensures var rd, w1 := RoundOf(w, now, net), EvictDead(w, now);
      StraysOf(rd, net, w1.containers, w1.pushed) !! w1.pushed.Keys
  {
    hide Expand, Running;
    SurvivorsAlive(w.nodes, now);
    var rd, w1 := RoundOf(w, now, net), EvictDead(w, now);
    forall r, n | r in w1.pushed && Shows(w1.containers, rd.nodes, net, n, r) ensures w1.pushed[r].node == n {
      assert Slot(n, r) in w.containers && n in AliveNodes(w.nodes, now);
    }
  }

  /** Then no roll is wasted: what is taken down is what is stopped, and with calls acknowledged what is rolled. */
  lemma HousedSpares(w: World, now: int, net: Net, interval: int, parent: string)
    requires WellKeyed(w.nodes) && parent in w.stored && Housed(w, now)
    ensures var o := OutlookOf(w, now, net, parent);
      && o.spared == {}
      && (AllAcked(net) ==> o.taken == RolledOf(RoundOf(w, now, net), Finished(w, now, net, interval).rolled, parent))
  {
    hide Expand, EvictDead, Running, Settle, Order, MaxUnavailable, AckedOf, Early, StoppableOf, MovedOf, RolledOf,
         Finished, StraysOf, RoundOf, Housed;
    RoundValid(w, now, net);
    var rd, w1, q := RoundOf(w, now, net), EvictDead(w, now), Order(Expand(w.stored));
    var m, o := Settle(rd, w1.layout, q), OutlookOf(w, now, net, parent);
    var stoppable := StoppableOf(rd, net, w1.pushed, m, parent);
    NoStrays(w, now, net);
    StoppablePushed(rd, net, w1.pushed, m, parent);
    StoppableAcked(rd, net, w1.pushed, m, parent);
    EarlyWithin(q, o.acked, stoppable, o.room);
    EarlyWithin(q, o.acked, o.acked, o.room);
    assert rd.desired == Expand(w.stored) by {
      RoundDesired(w, now, net);
    }
    LimitIs(w.stored[parent]);
    PassRolls(w, now, net, interval, parent);
  }

  lemma RoundDesired(w: World, now: int, net: Net)
    ensures RoundOf(w, now, net).desired == Expand(w.stored)
  {
    hide Expand, EvictDead, Running;
  }

  lemma StoppablePushed(rd: Round, net: Net, pushed: Pushed, m: Layout, parent: string)
    ensures StoppableOf(rd, net, pushed, m, parent) <= pushed.Keys
  {
  }

  /** With calls acknowledged, the replicas taken down are the rolled and the moved ones. Rolls alone never take the
      count above the budget, or above what was down already; with moves it stays there if and only if there are none,
      or they fit the budget together with all the rollable replicas. */
  lemma AckedPassBudget(w: World, now: int, net: Net, interval: int, parent: string)
    requires WellKeyed(w.nodes) && Housed(w, now) && parent in w.stored && AllAcked(net)
    ensures var o := OutlookOf(w, now, net, parent);
      var rolled := RolledOf(RoundOf(w, now, net), Finished(w, now, net, interval).rolled, parent);
      var limit := MaxUnavailable(w.stored[parent]);
      && DownAfter(w, now, net, interval, parent) == o.down + rolled + o.moved
      && |o.down + rolled| <= Max(limit, |o.down|)
      && (|DownAfter(w, now, net, interval, parent)| <= Max(limit, |o.down|) <==>
          o.moved == {} || |o.acked| + |o.moved| <= o.room)
  {
    hide DownAfter, MaxUnavailable, OutlookOf, Min, Housed, RolledOf, RoundOf, Finished, AllAcked;
    var o := OutlookOf(w, now, net, parent);
    HousedSpares(w, now, net, interval, parent);
    OutlookRoom(w, now, net, parent);
    PassDowns(w, now, net, interval, parent);
    PassBudgetIff(w, now, net, interval, parent);
    OutlookSizes(w, now, net, parent);
    assert o.taken - o.acked == {};
    SizeOfParts(o.down, o.taken, o.acked, o.moved);
    BudgetArithmetic(|o.down|, |o.acked|, 0, 0, |o.moved|, MaxUnavailable(w.stored[parent]));
  }

  lemma InvHoused(w: World, now: int)
    requires Inv(w)
    ensures Housed(w, now)
  {
    hide AliveNodes;
  }

  /** So it is at every pass of every allowed run of the cluster. */
  lemma {:induction false} RunBudget(es: seq<Event>, net: Net, interval: int, now: int, parent: string)
    requires AllAcked(net) && interval > 0 && AllowedRun(System(EMPTY, false), es, net, interval)
    requires parent in Run(System(EMPTY, false), es, net, interval).w.stored
    ensures var w := Run(System(EMPTY, false), es, net, interval).w;
      && WellKeyed(w.nodes)
      && var o, limit := OutlookOf(w, now, net, parent), MaxUnavailable(w.stored[parent]);
      var rolled := RolledOf(RoundOf(w, now, net), Finished(w, now, net, interval).rolled, parent);
      && DownAfter(w, now, net, interval, parent) == o.down + rolled + o.moved
      && |o.down + rolled| <= Max(limit, |o.down|)
      && (|DownAfter(w, now, net, interval, parent)| <= Max(limit, |o.down|) <==>
          o.moved == {} || |o.acked| + |o.moved| <= o.room)
  {
    hide AllowedRun, Run, MaxUnavailable, DownAfter, OutlookOf, RolledOf, RoundOf, Finished, Housed;
    var s := Run(System(EMPTY, false), es, net, interval);
    RunKeepsInv(System(EMPTY, false), es, net, interval);
    InvHoused(s.w, now);
    AckedPassBudget(s.w, now, net, interval, parent);
  }
}
