/** The control plane's in-memory table of worker nodes. Times are in nanoseconds. */
module Registry {
  import opened Ordering

  const SECOND: int := 1_000_000_000
  const HEARTBEAT_TIMEOUT: int := 30 * SECOND

  /** An underlay address as a node reports it: absent, unparsable, or an IPv4 address. */
  datatype HostIp = Unset | Malformed | Ip(addr: nat)

  datatype Node = Node(id: string, hostIp: HostIp, cpu: nat, mem: nat, heartbeat: int)

  type Nodes = map<string, Node>

  /** Every node is filed under its own ID. */
  ghost predicate WellKeyed(nodes: Nodes) {
    forall k | k in nodes :: nodes[k].id == k
  }

  predicate Beating(n: Node, now: int) {
    n.heartbeat > now - HEARTBEAT_TIMEOUT
  }

  function AliveNodes(nodes: Nodes, now: int): Nodes {
    map k | k in nodes && Beating(nodes[k], now) :: nodes[k]
  }

  ghost function DeadIds(nodes: Nodes, now: int): set<string> {
    set k | k in nodes && !Beating(nodes[k], now)
  }

  class NodeTable {
    var nodes: Nodes

    ghost predicate Valid()
      reads this
    {
      WellKeyed(nodes)
    }

    constructor ()
      ensures Valid() && nodes == map[]
    {
      nodes := map[];
    }

    method Register(n: Node, now: int)
      requires Valid()
      modifies this
      ensures Valid()
      ensures nodes == old(nodes)[n.id := n.(heartbeat := now)]
    {
      nodes := nodes[n.id := n.(heartbeat := now)];
    }

    /** Fails exactly when the node is unknown; that failure is what makes an agent re-register. */
    method Heartbeat(id: string, now: int) returns (ok: bool)
      requires Valid()
      modifies this
      ensures Valid()
      ensures ok <==> id in old(nodes)
      ensures ok ==> nodes == old(nodes)[id := old(nodes)[id].(heartbeat := now)]
      ensures !ok ==> nodes == old(nodes)
    {
      ok := id in nodes;
      if ok {
        nodes := nodes[id := nodes[id].(heartbeat := now)];
      }
    }

    method Remove(id: string)
      requires Valid()
      modifies this
      ensures Valid()
      ensures nodes == old(nodes) - {id}
    {
      nodes := nodes - {id};
    }

    /** The nodes within their heartbeat window, in map-iteration (arbitrary) order. */
    method Alive(now: int) returns (out: seq<Node>)
      requires Valid()
      ensures Elements(out) == AliveNodes(nodes, now).Values
      ensures forall n :: n in out <==> n.id in nodes && nodes[n.id] == n && now - n.heartbeat < 30_000_000_000
      ensures Distinct(out)
    {
      out := Select(now, true);
      assert Elements(out) == AliveNodes(nodes, now).Values by {
        forall n | n in out ensures n in AliveNodes(nodes, now).Values {
          assert AliveNodes(nodes, now)[n.id] == n;
        }
      }
    }

    method Dead(now: int) returns (out: seq<Node>)
      requires Valid()
      ensures forall n :: n in out <==> n.id in DeadIds(nodes, now) && nodes[n.id] == n
      ensures forall n :: n in out <==> n.id in nodes && nodes[n.id] == n && now - n.heartbeat >= 30_000_000_000
      ensures Distinct(out)
    {
      out := Select(now, false);
    }

    method Select(now: int, beating: bool) returns (out: seq<Node>)
      requires Valid()
      ensures forall n :: n in out <==> n.id in nodes && nodes[n.id] == n && Beating(n, now) == beating
      ensures Distinct(out)
    {
      out := [];
      var rest := nodes.Keys;
      while rest != {}
        invariant rest <= nodes.Keys
        invariant forall n :: n in out <==> n.id in nodes.Keys - rest && nodes[n.id] == n && Beating(n, now) == beating
        invariant Distinct(out)
        decreases rest
      {
        var k :| k in rest;
        rest := rest - {k};
        if Beating(nodes[k], now) == beating {
          out := out + [nodes[k]];
        }
      }
    }
  }
}
