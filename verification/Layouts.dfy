/** Where replicas sit, what they ask for, and how full that makes each node. */
module Layouts {
  import opened Registry

  /** CPU in millicores, memory in MB. */
  datatype Resources = Resources(cpu: nat, mem: nat)

  datatype Dimension = Cpu | Memory

  function Amount(r: Resources, d: Dimension): nat {
    match d case Cpu => r.cpu case Memory => r.mem
  }

  /** A node's CPU and memory less the 15% kept for the system. */
  function Schedulable(n: Node): Resources {
    Resources(n.cpu * 1000 * 85 / 100, n.mem * 85 / 100)
  }

  function Capacity(n: Node, d: Dimension): nat {
    Amount(Schedulable(n), d)
  }

  datatype Placement = Placement(node: string, parent: string, req: Resources)

  /** Replica ID -> placement: the scheduler's three maps read together. */
  type Layout = map<string, Placement>

  /** What a placement takes from node `n`. */
  function Share(p: Placement, n: string, d: Dimension): nat {
    if p.node == n then Amount(p.req, d) else 0
  }

  ghost function Pick<T>(s: set<T>): (x: T)
    requires s != {}
    ensures x in s
  {
    var x :| x in s; x
  }

  ghost function Sum(s: set<string>, m: Layout, n: string, d: Dimension): nat
    requires s <= m.Keys
  {
    if s == {} then 0 else Share(m[Pick(s)], n, d) + Sum(s - {Pick(s)}, m, n, d)
  }

  /** The requests committed to node `n`. */
  ghost function Load(m: Layout, n: string, d: Dimension): nat {
    Sum(m.Keys, m, n, d)
  }

  /** The order in which replicas are counted does not matter. */
  lemma {:induction false} SumRemove(s: set<string>, m: Layout, r: string, n: string, d: Dimension)
    requires r in s && s <= m.Keys
    ensures Sum(s, m, n, d) == Share(m[r], n, d) + Sum(s - {r}, m, n, d)
    decreases s
  {
    var q := Pick(s);
    if q != r {
      SumRemove(s - {q}, m, r, n, d);
      SumRemove(s - {r}, m, q, n, d);
      assert s - {q} - {r} == s - {r} - {q};
    }
  }

  lemma {:induction false} SumAgree(s: set<string>, m: Layout, m': Layout, n: string, d: Dimension)
    requires s <= m.Keys && s <= m'.Keys
    requires forall r | r in s :: Share(m[r], n, d) == Share(m'[r], n, d)
    ensures Sum(s, m, n, d) == Sum(s, m', n, d)
    decreases s
  {
    if s != {} {
      SumAgree(s - {Pick(s)}, m, m', n, d);
    }
  }

  lemma {:induction false} SumSplit(s: set<string>, t: set<string>, m: Layout, n: string, d: Dimension)
    requires s !! t && s <= m.Keys && t <= m.Keys
    ensures Sum(s + t, m, n, d) == Sum(s, m, n, d) + Sum(t, m, n, d)
    decreases s
  {
    if s == {} {
      assert s + t == t;
    } else {
      var r := Pick(s);
      SumRemove(s + t, m, r, n, d);
      assert s + t - {r} == (s - {r}) + t;
      SumSplit(s - {r}, t, m, n, d);
    }
  }

  lemma LoadRemove(m: Layout, r: string, n: string, d: Dimension)
    requires r in m
    ensures Load(m, n, d) == Share(m[r], n, d) + Load(m - {r}, n, d)
  {
    SumRemove(m.Keys, m, r, n, d);
    assert (m - {r}).Keys == m.Keys - {r};
    SumAgree(m.Keys - {r}, m, m - {r}, n, d);
  }

  lemma LoadInsert(m: Layout, r: string, p: Placement, n: string, d: Dimension)
    ensures Load(m[r := p], n, d) == Share(p, n, d) + Load(m - {r}, n, d)
    ensures r !in m ==> Load(m[r := p], n, d) == Share(p, n, d) + Load(m, n, d)
  {
    LoadRemove(m[r := p], r, n, d);
    assert m[r := p] - {r} == m - {r};
    assert r !in m ==> m - {r} == m;
  }

  /** Load splits over two layouts with no replica in common. */
  lemma LoadUnion(a: Layout, b: Layout, n: string, d: Dimension)
    requires a.Keys !! b.Keys
    ensures Load(a + b, n, d) == Load(a, n, d) + Load(b, n, d)
  {
    var m := a + b;
    assert m.Keys == a.Keys + b.Keys;
    SumSplit(a.Keys, b.Keys, m, n, d);
    SumAgree(a.Keys, m, a, n, d);
    SumAgree(b.Keys, m, b, n, d);
  }

  /** Taking replicas away never adds load. */
  lemma LoadMonotone(m: Layout, gone: set<string>, n: string, d: Dimension)
    ensures Load(m - gone, n, d) <= Load(m, n, d)
  {
    var kept := m - gone;
    SumSplit(kept.Keys, m.Keys - kept.Keys, m, n, d);
    assert kept.Keys + (m.Keys - kept.Keys) == m.Keys;
    SumAgree(kept.Keys, m, kept, n, d);
  }

  lemma {:induction false} SumZero(s: set<string>, m: Layout, n: string, d: Dimension)
    requires s <= m.Keys && forall r | r in s :: Share(m[r], n, d) == 0
    ensures Sum(s, m, n, d) == 0
    decreases s
  {
    if s != {} {
      SumZero(s - {Pick(s)}, m, n, d);
    }
  }

  ghost function SiblingSet(m: Layout, parent: string, n: string): set<string> {
    set r | r in m && m[r].parent == parent && m[r].node == n
  }

  ghost function Siblings(m: Layout, parent: string, n: string): nat {
    |SiblingSet(m, parent, n)|
  }

  lemma SiblingsInsert(m: Layout, r: string, p: Placement, parent: string, n: string)
    requires r !in m
    ensures Siblings(m[r := p], parent, n)
         == Siblings(m, parent, n) + if p.parent == parent && p.node == n then 1 else 0
  {
    var before, after := SiblingSet(m, parent, n), SiblingSet(m[r := p], parent, n);
    if p.parent == parent && p.node == n {
      assert after == before + {r};
    } else {
      assert after == before;
    }
  }

  /** Node `n` is registered and its committed requests fit what it can schedule. */
  ghost predicate NodeWithin(m: Layout, nodes: Nodes, n: string) {
    n in nodes && forall d :: Load(m, n, d) <= Capacity(nodes[n], d)
  }

  /** No registered node is overcommitted. */
  ghost predicate AllWithin(m: Layout, nodes: Nodes) {
    forall n | n in nodes :: NodeWithin(m, nodes, n)
  }
}
