/** What every pass does to placements, whatever becomes of its calls. */
module PassLaws {
  import opened Registry
  import opened Layouts
  import opened Placing
  import opened Workloads
  import opened Reconciling

  /** Delivering never touches placements. */
  lemma DeliverLayout(rd: Round, net: Net, p: Progress, r: string, node: string)
    requires r in rd.desired && rd.desired[r].parent in rd.stored
    ensures Deliver(rd, net, p, r, node).layout == p.layout
  {
  }

  /** Placements evolve by the scheduler alone; the missing-node branch is never taken. */
  lemma {:induction false} DriveLayout(rd: Round, net: Net, p: Progress, q: seq<string>)
    requires InRound(q, rd)
    ensures Drive(rd, net, p, q).layout == Settle(rd, p.layout, q)
    decreases |q|
  {
    hide Assign, Deliver;
    if q != [] {
      var p0, r := Drive(rd, net, p, q[..|q| - 1]), q[|q| - 1];
      DriveLayout(rd, net, p, q[..|q| - 1]);
      AssignFrame(p0.layout, rd.nodes, rd.now, r, rd.desired[r].parent, RequestOf(rd.desired[r].wl));
      var (layout, res) := Assign(p0.layout, rd.nodes, rd.now, r, rd.desired[r].parent, RequestOf(rd.desired[r].wl));
      if res.Assigned? {
        DeliverLayout(rd, net, p0.(layout := layout), r, res.node);
      }
    }
  }

  /** No processed replica sits on `n`. */
  ghost predicate Cleared(m: Layout, q: seq<string>, n: string) {
    forall i | 0 <= i < |q| :: q[i] in m ==> m[q[i]].node != n
  }

  /** A node once within capacity stays within; a node never within keeps none of the processed replicas. */
  lemma {:induction false} SettleHeals(rd: Round, m: Layout, q: seq<string>, n: string)
    requires InRound(q, rd) && n in rd.nodes
    ensures NodeWithin(Settle(rd, m, q), rd.nodes, n) || Cleared(Settle(rd, m, q), q, n)
    ensures NodeWithin(m, rd.nodes, n) ==> NodeWithin(Settle(rd, m, q), rd.nodes, n)
    decreases |q|
  {
    hide Assign;
    if q != [] {
      var m0, r := Settle(rd, m, q[..|q| - 1]), q[|q| - 1];
      var m1 := Settle(rd, m, q);
      SettleHeals(rd, m, q[..|q| - 1], n);
      AssignFrame(m0, rd.nodes, rd.now, r, rd.desired[r].parent, RequestOf(rd.desired[r].wl));
      AssignWithin(m0, rd.nodes, rd.now, r, rd.desired[r].parent, RequestOf(rd.desired[r].wl));
      assert m1 - {r} == m0 - {r};
      if !NodeWithin(m1, rd.nodes, n) {
        assert r in m1 ==> m1[r].node != n;
        forall i | 0 <= i < |q| && q[i] in m1 ensures m1[q[i]].node != n {
          if q[i] != r {
            assert q[i] in m1 - {r} && m1[q[i]] == (m1 - {r})[q[i]];
            assert q[i] == q[..|q| - 1][i];
          }
        }
      }
    }
  }

  /** From any state, however overcommitted, one pass leaves every registered node within capacity. */
  lemma PassHeals(w: World, now: int, net: Net, interval: int)
    requires WellKeyed(w.nodes)
    ensures var w' := Reconcile(w, now, net, interval); AllWithin(w'.layout, w'.nodes)
  {
    hide Settle, Drive, Lapse, StopCalls, Expand, Running, EvictDead, Unavailable;
    var rd, q := RoundOf(w, now, net), Order(Expand(w.stored));
    RoundValid(w, now, net);
    var p0 := Before(w, now, net);
    DriveLayout(rd, net, p0, q);
    var m := Settle(rd, p0.layout, q);
    var m' := Reconcile(w, now, net, interval).layout;
    assert m' == m - Undesired(rd, m);
    forall n | n in rd.nodes ensures NodeWithin(m', rd.nodes, n) {
      SettleHeals(rd, p0.layout, q, n);
      forall d ensures Load(m', n, d) <= Capacity(rd.nodes[n], d) {
        if NodeWithin(m, rd.nodes, n) {
          LoadMonotone(m, Undesired(rd, m), n, d);
        } else {
          forall r | r in m' ensures Share(m'[r], n, d) == 0 {
            assert r in rd.desired.Keys;
            assert r in q;
          }
          SumZero(m'.Keys, m', n, d);
        }
      }
    }
  }
}
