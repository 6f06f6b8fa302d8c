/** Rolling updates: which replicas a pass rolls, whatever becomes of its calls. */
module Rollout {
  import opened Ordering
  import opened Registry
  import opened Layouts
  import opened Placing
  import opened Workloads
  import opened Reconciling
  import opened PassLaws
  import opened SingleCopy

  function Min(a: int, b: int): int {
    if a < b then a else b
  }

  function Max(a: int, b: int): int {
    if a < b then b else a
  }

  // ----- First come, first served -----

  /** The members of `s` that occur in `q`. */
  ghost function Among(q: seq<string>, s: set<string>): set<string> {
    set r | r in q && r in s
  }

  /** The members of `s` whose turn in `q` comes while fewer than `k` of `charged` have come before. */
  ghost function Early(q: seq<string>, charged: set<string>, s: set<string>, k: int): set<string> {
    set i | 0 <= i < |q| && q[i] in s && |Among(q[..i], charged)| < k :: q[i]
  }

  lemma AmongNext(q: seq<string>, s: set<string>)
    requires q != [] && Distinct(q)
    ensures var q0, x := q[..|q| - 1], q[|q| - 1];
      && x !in Among(q0, s)
      && if x in s then Among(q, s) == Among(q0, s) + {x} else Among(q, s) == Among(q0, s)
  {
    assert q == q[..|q| - 1] + [q[|q| - 1]];
  }

  lemma EarlyNext(q: seq<string>, charged: set<string>, s: set<string>, k: int)
    requires q != [] && Distinct(q)
    ensures var q0, x := q[..|q| - 1], q[|q| - 1];
      && x !in Early(q0, charged, s, k)
      && if x in s && |Among(q0, charged)| < k then Early(q, charged, s, k) == Early(q0, charged, s, k) + {x}
         else Early(q, charged, s, k) == Early(q0, charged, s, k)
  {
    hide Among;
    var n := |q| - 1;
    var q0, x := q[..n], q[n];
    assert q == q0 + [x];
    forall i | 0 <= i < n ensures q0[i] == q[i] && q0[..i] == q[..i] && q[i] != x {
    }
    forall r | r in Early(q, charged, s, k) && r != x ensures r in Early(q0, charged, s, k) {
      var i :| 0 <= i < |q| && q[i] in s && |Among(q[..i], charged)| < k && q[i] == r;
      assert i < n && q0[i] == r && q0[..i] == q[..i];
    }
    forall r | r in Early(q0, charged, s, k) ensures r in Early(q, charged, s, k) && r != x {
      var i :| 0 <= i < n && q0[i] in s && |Among(q0[..i], charged)| < k && q0[i] == r;
      assert q[i] == r && q0[..i] == q[..i];
    }
    if x in s && |Among(q0, charged)| < k {
      assert q[n] == x && q[..n] == q0;
    }
  }

  /** The first `k` of the charged ones are early, or all of them. */
  lemma {:induction false} EarlySize(q: seq<string>, charged: set<string>, k: int)
    requires Distinct(q)
    ensures |Early(q, charged, charged, k)| == Min(|Among(q, charged)|, Max(0, k))
    ensures Early(q, charged, charged, k) <= Among(q, charged)
  {
    hide Early, Among;
    if q == [] {
      NobodyEarly(q, charged, k);
    } else {
      var q0 := q[..|q| - 1];
      EarlySize(q0, charged, k);
      EarlyNext(q, charged, charged, k);
      AmongNext(q, charged);
      OneEarlier(Early(q0, charged, charged, k), Early(q, charged, charged, k), Among(q0, charged), Among(q, charged),
                 q[|q| - 1], q[|q| - 1] in charged, k);
    }
  }

  lemma NobodyEarly(q: seq<string>, charged: set<string>, k: int)
    requires q == []
    ensures Early(q, charged, charged, k) == {} && Among(q, charged) == {}
  {
  }

  lemma OneEarlier(e0: set<string>, e1: set<string>, a0: set<string>, a1: set<string>, x: string, can: bool, k: int)
    requires x !in e0 && x !in a0 && e0 <= a0 && |e0| == Min(|a0|, Max(0, k))
    requires if can then a1 == a0 + {x} else a1 == a0
    requires if can && |a0| < k then e1 == e0 + {x} else e1 == e0
    ensures e1 <= a1 && |e1| == Min(|a1|, Max(0, k))
  {
  }

  // ----- Rolling -----

  /** A stale, Running replica that stays on its node. */
  ghost predicate Rollable(rd: Round, pushed: Pushed, m: Layout, r: string) {
    && r in rd.desired && r in rd.running && r in m && r in pushed
    && pushed[r].node == m[r].node && pushed[r].spec != rd.desired[r].wl.spec
  }

  /** The workload's rollable replicas. */
  ghost function RollableOf(rd: Round, pushed: Pushed, m: Layout, parent: string): set<string> {
    set r | r in rd.desired && Rollable(rd, pushed, m, r) && rd.desired[r].parent == parent
  }

  predicate BothAcked(net: Net, slot: Slot) {
    net(Stop(slot)).Acked? && net(Start(slot)).Acked?
  }

  /** Those whose stop and start will both be acknowledged. */
  ghost function AckedOf(rd: Round, net: Net, pushed: Pushed, m: Layout, parent: string): set<string> {
    set r | r in rd.desired && Rollable(rd, pushed, m, r) && rd.desired[r].parent == parent
            && BothAcked(net, Slot(m[r].node, r))
  }

  ghost function RolledOf(rd: Round, rolled: set<string>, parent: string): set<string> {
    set r | r in rolled && r in rd.desired && rd.desired[r].parent == parent
  }

  ghost predicate InBudget(rd: Round, p: Progress, parent: string)
    requires parent in rd.stored
  {
    At(p.unavailable, parent) < MaxUnavailable(rd.stored[parent])
  }

  lemma DeliverRolls(rd: Round, net: Net, p: Progress, r: string)
    requires ValidRound(rd) && r in rd.desired && r in p.layout
    ensures var p' := Deliver(rd, net, p, r, p.layout[r].node);
      if Rollable(rd, p.pushed, p.layout, r) && MayRoll(rd, p, r) && BothAcked(net, Slot(p.layout[r].node, r))
      then p'.rolled == p.rolled + {r} && p'.unavailable == Bump(p.unavailable, rd.desired[r].parent, 1)
      else p'.rolled == p.rolled && p'.unavailable == p.unavailable
  {
  }

  ghost predicate SamePlace(a: Layout, b: Layout, r: string) {
    (r in a <==> r in b) && (r in a ==> a[r] == b[r])
  }

  /** Placing one more replica leaves earlier ones' placements alone. */
  lemma {:induction false} SettleFrame(rd: Round, m: Layout, q: seq<string>, r: string)
    requires InRound(q, rd) && q != [] && r != q[|q| - 1]
    ensures SamePlace(Settle(rd, m, q[..|q| - 1]), Settle(rd, m, q), r)
  {
    hide Assign;
    var m0, m1, x := Settle(rd, m, q[..|q| - 1]), Settle(rd, m, q), q[|q| - 1];
    AssignFrame(m0, rd.nodes, rd.now, x, rd.desired[x].parent, RequestOf(rd.desired[x].wl));
    assert m1 - {x} == m0 - {x};
    assert r in m0 <==> r in m0 - {x};
    assert r in m1 <==> r in m1 - {x};
  }

  /** A replica's placement is final once its turn is over. */
  lemma {:induction false} SettlePrefix(rd: Round, m: Layout, q: seq<string>, i: nat, r: string)
    requires InRound(q, rd) && Distinct(q) && i <= |q| && r !in q[i..]
    ensures SamePlace(Settle(rd, m, q[..i]), Settle(rd, m, q), r)
    decreases |q|
  {
    hide Settle;
    if i == |q| {
      assert q[..i] == q;
    } else {
      var n := |q| - 1;
      assert q[..n][..i] == q[..i] && q[i..] == q[..n][i..] + [q[n]];
      SettlePrefix(rd, m, q[..n], i, r);
      SettleFrame(rd, m, q, r);
    }
  }

  lemma MayRollInBudget(rd: Round, p: Progress, m: Layout, r: string)
    requires ValidRound(rd) && r in rd.desired
    ensures MayRoll(rd, p.(layout := m), r) == (r in rd.running && InBudget(rd, p, rd.desired[r].parent))
  {
  }

  /** One replica is rolled if it can be, the budget is not used up, and both calls are acknowledged. */
  lemma {:induction false} RollStep(rd: Round, net: Net, p: Progress, q: seq<string>, m: Layout)
    requires InRound(q, rd) && Distinct(q) && q != []
    requires SamePlace(m, Settle(rd, p.layout, q), q[|q| - 1])
    ensures var p0, p1, x := Drive(rd, net, p, q[..|q| - 1]), Drive(rd, net, p, q), q[|q| - 1];
      var parent := rd.desired[x].parent;
      if x in AckedOf(rd, net, p.pushed, m, parent) && InBudget(rd, p0, parent)
      then p1.rolled == p0.rolled + {x} && p1.unavailable == Bump(p0.unavailable, parent, 1)
      else p1.rolled == p0.rolled && p1.unavailable == p0.unavailable
  {
    hide DriveOne, Deliver, Settle, MayRoll;
    var p0, p1, x := Drive(rd, net, p, q[..|q| - 1]), Drive(rd, net, p, q), q[|q| - 1];
    DriveLayout(rd, net, p, q);
    DriveOutside(rd, net, p, q[..|q| - 1], x);
    DriveOneSplit(rd, net, p0, x);
    if x in p1.layout {
      DeliverRolls(rd, net, p0.(layout := p1.layout), x);
      MayRollInBudget(rd, p0, p1.layout, x);
    }
  }

  /** The effect of one replica on the workload's rolled replicas and count of unavailable ones. */
  lemma ChargeOne(rd: Round, p0: Progress, p1: Progress, x: string, parent: string, can: bool)
    requires parent in rd.stored && x in rd.desired && rd.desired[x].parent in rd.stored
    requires if can && InBudget(rd, p0, rd.desired[x].parent)
             then p1.rolled == p0.rolled + {x} && p1.unavailable == Bump(p0.unavailable, rd.desired[x].parent, 1)
             else p1.rolled == p0.rolled && p1.unavailable == p0.unavailable
    ensures var r0, r1 := RolledOf(rd, p0.rolled, parent), RolledOf(rd, p1.rolled, parent);
      if can && rd.desired[x].parent == parent && InBudget(rd, p0, parent)
      then r1 == r0 + {x} && At(p1.unavailable, parent) == At(p0.unavailable, parent) + 1
      else r1 == r0 && At(p1.unavailable, parent) == At(p0.unavailable, parent)
  {
    hide RolledOf, InBudget;
    RolledInsert(rd, p0.rolled, x, parent);
  }

  lemma RolledInsert(rd: Round, rolled: set<string>, x: string, parent: string)
    requires x in rd.desired
    ensures rd.desired[x].parent == parent ==> RolledOf(rd, rolled + {x}, parent) == RolledOf(rd, rolled, parent) + {x}
    ensures rd.desired[x].parent != parent ==> RolledOf(rd, rolled + {x}, parent) == RolledOf(rd, rolled, parent)
  {
  }

  /** What is left of the workload's budget at the start. */
  function Allowance(rd: Round, p: Progress, parent: string): int
    requires parent in rd.stored
  {
    MaxUnavailable(rd.stored[parent]) - At(p.unavailable, parent)
  }

  /** After the replicas of `q`, with final placements `m`: the first acknowledged rolls are made and charged, as many
      as the budget has room for. */
  ghost predicate Charged(rd: Round, net: Net, p: Progress, m: Layout, q: seq<string>, p': Progress, parent: string)
    requires parent in rd.stored
  {
    var acked, rolled := AckedOf(rd, net, p.pushed, m, parent), RolledOf(rd, p'.rolled, parent);
    && rolled == Early(q, acked, acked, Allowance(rd, p, parent))
    && At(p'.unavailable, parent) == At(p.unavailable, parent) + |rolled|
  }

  /** Budget is left when and only when fewer acknowledged rolls came before than it has room for. */
  lemma ChargedBudget(rd: Round, net: Net, p: Progress, m: Layout, q: seq<string>, p': Progress, parent: string)
    requires parent in rd.stored && Distinct(q) && Charged(rd, net, p, m, q, p', parent)
    ensures InBudget(rd, p', parent)
       <==> |Among(q, AckedOf(rd, net, p.pushed, m, parent))| < Allowance(rd, p, parent)
  {
    hide AckedOf, RolledOf, Early, Among, MaxUnavailable;
    EarlySize(q, AckedOf(rd, net, p.pushed, m, parent), Allowance(rd, p, parent));
  }

  lemma ChargedNext(rd: Round, net: Net, p: Progress, m: Layout, q: seq<string>, p0: Progress, p1: Progress,
                    parent: string)
    requires parent in rd.stored && ValidRound(rd) && q != [] && Distinct(q) && q[|q| - 1] in rd.desired
    requires Charged(rd, net, p, m, q[..|q| - 1], p0, parent)
    requires var x := q[|q| - 1];
      var own := rd.desired[x].parent;
      if x in AckedOf(rd, net, p.pushed, m, own) && InBudget(rd, p0, own)
      then p1.rolled == p0.rolled + {x} && p1.unavailable == Bump(p0.unavailable, own, 1)
      else p1.rolled == p0.rolled && p1.unavailable == p0.unavailable
    ensures Charged(rd, net, p, m, q, p1, parent)
  {
    hide Early, Among, MaxUnavailable, InBudget, Rollable, Allowance, RolledOf;
    var q0, x := q[..|q| - 1], q[|q| - 1];
    var acked := AckedOf(rd, net, p.pushed, m, parent);
    ChargeOne(rd, p0, p1, x, parent, x in AckedOf(rd, net, p.pushed, m, rd.desired[x].parent));
    ChargedBudget(rd, net, p, m, q0, p0, parent);
    EarlyNext(q, acked, acked, Allowance(rd, p, parent));
  }

  lemma {:induction false} DriveRolls(rd: Round, net: Net, p: Progress, q: seq<string>, m: Layout, parent: string)
    requires InRound(q, rd) && Distinct(q) && p.rolled == {} && parent in rd.stored
    requires forall i | 0 <= i < |q| :: SamePlace(m, Settle(rd, p.layout, q), q[i])
    ensures Charged(rd, net, p, m, q, Drive(rd, net, p, q), parent)
    decreases |q|
  {
    hide DriveOne, Deliver, Settle, MaxUnavailable;
    if q == [] {
      assert RolledOf(rd, {}, parent) == {};
    } else {
      hide Charged, Early, AckedOf, Among, InBudget;
      var n := |q| - 1;
      forall i | 0 <= i < n ensures SamePlace(m, Settle(rd, p.layout, q[..n]), q[i]) {
        SettleFrame(rd, p.layout, q, q[i]);
      }
      DriveRolls(rd, net, p, q[..n], m, parent);
      RollStep(rd, net, p, q, m);
      ChargedNext(rd, net, p, m, q, Drive(rd, net, p, q[..n]), Drive(rd, net, p, q), parent);
    }
  }

  lemma LimitIs(w: Workload)
    ensures MaxUnavailable(w) == Max(1, w.maxUnavailable)
  {
  }

  /** For every outcome of the calls, a pass rolls as many of a workload's replicas as have both calls acknowledged
      and fit the budget, the first ones in order. */
  lemma PassRolls(w: World, now: int, net: Net, interval: int, parent: string)
    requires WellKeyed(w.nodes) && parent in w.stored
    ensures InRound(Order(Expand(w.stored)), RoundOf(w, now, net))
    ensures var rd, w1, q := RoundOf(w, now, net), EvictDead(w, now), Order(Expand(w.stored));
      var acked := AckedOf(rd, net, w1.pushed, Settle(rd, w1.layout, q), parent);
      var rolled := RolledOf(rd, Finished(w, now, net, interval).rolled, parent);
      var room := Max(1, w.stored[parent].maxUnavailable) - |NotRunning(rd.desired, parent, rd.running)|;
      && rolled == Early(q, acked, acked, room) && rolled <= acked
      && |rolled| == Min(|acked|, Max(0, room))
  {
    hide Expand, EvictDead, Running, Settle, Drive, Lapse, AckedOf, Unavailable, Order, MaxUnavailable, Early, RolledOf;
    RoundValid(w, now, net);
    OrderCovers(Expand(w.stored));
    LimitIs(w.stored[parent]);
    var rd, q, p := RoundOf(w, now, net), Order(Expand(w.stored)), Before(w, now, net);
    var m := Settle(rd, p.layout, q);
    UnavailableCounts(rd, parent);
    DriveRolls(rd, net, p, q, m, parent);
    AckedAmong(rd, net, p.pushed, m, parent, q);
    EarlySize(q, AckedOf(rd, net, p.pushed, m, parent), Allowance(rd, p, parent));
  }

  lemma AckedAmong(rd: Round, net: Net, pushed: Pushed, m: Layout, parent: string, q: seq<string>)
    requires forall r :: r in q <==> r in rd.desired
    ensures Among(q, AckedOf(rd, net, pushed, m, parent)) == AckedOf(rd, net, pushed, m, parent)
  {
    hide Rollable;
  }
}
