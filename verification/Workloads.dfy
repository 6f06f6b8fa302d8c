/** Desired workloads, and the replica instances they expand to. */
module Workloads {
  import opened Ordering
  import opened Layouts

  datatype PortMapping = PortMapping(host: int, container: int, protocol: string)
  datatype Volume = Volume(name: string, path: string)

  /** The container-defining fields: what `specHash` digests. The digest is taken to be injective, so
      the fields themselves stand for it. */
  datatype Spec = Spec(image: string, args: seq<string>, env: map<string, string>, ports: seq<PortMapping>,
                       resources: Option<Resources>, volumes: seq<Volume>)

  datatype Workload = Workload(id: string, spec: Spec, replicas: int, maxUnavailable: int)

  type Store = map<string, Workload>

  /** One replica of a workload: a single-container workload plus its parent's ID. */
  datatype Instance = Instance(wl: Workload, parent: string)

  function RequestOf(w: Workload): Resources {
    match w.spec.resources case None => Resources(0, 0) case Some(r) => r
  }

  function MaxUnavailable(w: Workload): int {
    if w.maxUnavailable < 1 then 1 else w.maxUnavailable
  }

  function Count(w: Workload): nat {
    if w.replicas < 1 then 1 else w.replicas
  }

  // ----- Replica names -----

  predicate IsDigit(c: char) {
    '0' <= c <= '9'
  }

  predicate AllDigits(s: string) {
    forall i | 0 <= i < |s| :: IsDigit(s[i])
  }

  function Digit(n: nat): (c: char)
    requires n < 10
    ensures IsDigit(c)
  {
    "0123456789"[n]
  }

  /** `%d` of a non-negative integer. */
  function Decimal(n: nat): (s: string)
    ensures s != "" && AllDigits(s)
  {
    if n < 10 then [Digit(n)] else Decimal(n / 10) + [Digit(n % 10)]
  }

  function ReplicaName(id: string, i: nat): string {
    id + "-" + Decimal(i)
  }

  /** The number of digits at the end of `s`. */
  function DigitTail(s: string): (k: nat)
    ensures k <= |s| && AllDigits(s[|s| - k..])
    ensures k < |s| ==> !IsDigit(s[|s| - k - 1])
  {
    if s == "" || !IsDigit(s[|s| - 1]) then 0 else 1 + DigitTail(s[..|s| - 1])
  }

  /** What the agent strips to recover a parent ID: one "-<digits>" at the end, if there is one. */
  function StripReplicaSuffix(s: string): string {
    var k := DigitTail(s);
    if 0 < k < |s| && s[|s| - k - 1] == '-' then s[..|s| - k - 1] else s
  }

  /** The pattern -\d+$ matches `s` at position `i`. */
  ghost predicate SuffixAt(s: string, i: int) {
    0 <= i && i + 1 < |s| && s[i] == '-' && AllDigits(s[i + 1..])
  }

  /** Stripping removes what the pattern matches, wherever that is, and nothing if it matches nowhere. */
  lemma StripIsPattern(s: string, i: int)
    ensures SuffixAt(s, i) ==> StripReplicaSuffix(s) == s[..i]
    ensures StripReplicaSuffix(s) != s ==> SuffixAt(s, |StripReplicaSuffix(s)|)
  {
    var k := DigitTail(s);
    forall j | |s| - k <= j < |s| ensures IsDigit(s[j]) {
      assert s[|s| - k..][j - (|s| - k)] == s[j];
    }
    if SuffixAt(s, i) {
      forall j | i < j < |s| ensures IsDigit(s[j]) {
        assert s[i + 1..][j - i - 1] == s[j];
      }
      assert |s| - k == i + 1;
    }
  }

  ghost function Value(s: string): nat
    requires AllDigits(s)
  {
    if s == "" then 0 else 10 * Value(s[..|s| - 1]) + (s[|s| - 1] as int - '0' as int)
  }

  /** Reading a number's digits from left to right gives the number, and there is no zero in front. */
  lemma {:induction false} DecimalReads(n: nat)
    ensures Value(Decimal(n)) == n && (Decimal(n)[0] == '0' ==> n == 0 && Decimal(n) == "0")
  {
    var s := Decimal(n);
    if n >= 10 {
      assert s[..|s| - 1] == Decimal(n / 10);
      DecimalReads(n / 10);
    } else {
      assert s[..0] == "";
    }
  }

  lemma {:induction false} DecimalInjective(i: nat, j: nat)
    requires Decimal(i) == Decimal(j)
    ensures i == j
  {
    DecimalReads(i);
    DecimalReads(j);
  }

  /** The agent recovers the parent of every generated name, whatever the parent looks like. */
  lemma StripRecoversParent(id: string, i: nat)
    ensures StripReplicaSuffix(ReplicaName(id, i)) == id
  {
    var s := ReplicaName(id, i);
    assert s[|id| + 1..] == Decimal(i);
    StripIsPattern(s, |id|);
    assert s[..|id|] == id;
  }

  /** Different (workload, index) pairs never share a name. */
  lemma ReplicaNameInjective(id: string, i: nat, id': string, i': nat)
    requires ReplicaName(id, i) == ReplicaName(id', i')
    ensures id == id' && i == i'
  {
    StripRecoversParent(id, i);
    StripRecoversParent(id', i');
    assert ReplicaName(id, i)[|id| + 1..] == Decimal(i);
    assert ReplicaName(id', i')[|id'| + 1..] == Decimal(i');
    DecimalInjective(i, i');
  }

  // ----- Expansion -----

  ghost function NamesOf(id: string, n: nat): set<string> {
    set i | 0 <= i < n :: ReplicaName(id, i)
  }

  ghost function NamesIn(s: set<string>, stored: Store): set<string>
    requires s <= stored.Keys
  {
    set id, i | id in s && 0 <= i < Count(stored[id]) :: ReplicaName(id, i)
  }

  ghost function Names(stored: Store): set<string> {
    NamesIn(stored.Keys, stored)
  }

  function InstanceOf(w: Workload, id: string, name: string): Instance {
    Instance(w.(id := name, replicas := 0), id)
  }

  lemma NameHasParent(stored: Store, r: string)
    requires r in Names(stored)
    ensures StripReplicaSuffix(r) in stored
  {
    var id, i :| id in stored.Keys && 0 <= i < Count(stored[id]) && r == ReplicaName(id, i);
    StripRecoversParent(id, i);
  }

  ghost function Replicate(stored: Store, r: string): Instance
    requires r in Names(stored)
  {
    NameHasParent(stored, r);
    InstanceOf(stored[StripReplicaSuffix(r)], StripReplicaSuffix(r), r)
  }

  /** The desired replicas of a store, each under its own name. */
  ghost function Expand(stored: Store): map<string, Instance> {
    map r | r in Names(stored) :: Replicate(stored, r)
  }

  /** Every entry of `out` is the instance its name says it is. */
  ghost predicate Honest(out: map<string, Instance>, stored: Store) {
    forall r | r in out :: out[r].parent in stored && out[r].parent == StripReplicaSuffix(r)
                           && out[r] == InstanceOf(stored[out[r].parent], out[r].parent, r)
  }

  lemma ExpandHonest(stored: Store)
    ensures Expand(stored).Keys == Names(stored) && Honest(Expand(stored), stored)
  {
    hide Names, StripReplicaSuffix;
    forall r | r in Expand(stored) ensures StripReplicaSuffix(r) in stored {
      NameHasParent(stored, r);
    }
  }

  /** A workload has a replica 0 and one for every other index below its declared count, each with the workload's own
      fields, and there are no other replicas. */
  lemma ExpandMembers(stored: Store, r: string)
    ensures r in Expand(stored) <==>
            exists id, i: nat :: id in stored && (i == 0 || i < stored[id].replicas) && r == ReplicaName(id, i)
    ensures r in Expand(stored) ==>
            var inst := Expand(stored)[r];
            inst.parent in stored && inst.wl == stored[inst.parent].(id := r, replicas := 0)
  {
    hide ReplicaName, StripReplicaSuffix, Expand;
    ExpandHonest(stored);
    if id, i: nat :| id in stored && (i == 0 || i < stored[id].replicas) && r == ReplicaName(id, i) {
      assert i < Count(stored[id]);
    }
    if r in Names(stored) {
      var id, i :| id in stored.Keys && 0 <= i < Count(stored[id]) && r == ReplicaName(id, i);
      assert id in stored && (i == 0 || i < stored[id].replicas);
    }
  }

  lemma HonestIsExpand(out: map<string, Instance>, stored: Store)
    requires Honest(out, stored) && out.Keys == Names(stored)
    ensures out == Expand(stored)
  {
    hide Names, StripReplicaSuffix;
    ExpandHonest(stored);
  }

  method ExpandAll(stored: Store) returns (out: map<string, Instance>)
    ensures out == Expand(stored)
  {
    hide ReplicaName, StripReplicaSuffix, Expand;
    out := map[];
    ghost var seen: set<string> := {};
    var rest := stored.Keys;
    while rest != {}
      invariant rest <= stored.Keys && seen == stored.Keys - rest
      invariant out.Keys == NamesIn(seen, stored)
      invariant Honest(out, stored)
      decreases rest
    {
      var id :| id in rest;
      rest := rest - {id};
      out := ExpandOne(stored, id, out);
      NamesInInsert(seen, id, stored);
      seen := seen + {id};
    }
    HonestIsExpand(out, stored);
  }

  /** The inner loop: one workload's instances. */
  method ExpandOne(stored: Store, id: string, out: map<string, Instance>) returns (out': map<string, Instance>)
    requires id in stored && Honest(out, stored)
    ensures Honest(out', stored) && out'.Keys == out.Keys + NamesOf(id, Count(stored[id]))
  {
    hide ReplicaName, StripReplicaSuffix;
    out' := out;
    var n := Count(stored[id]);
    var i := 0;
    while i < n
      invariant 0 <= i <= n
      invariant out'.Keys == out.Keys + NamesOf(id, i)
      invariant Honest(out', stored)
    {
      var name := ReplicaName(id, i);
      StripRecoversParent(id, i);
      out' := out'[name := InstanceOf(stored[id], id, name)];
      i := i + 1;
    }
  }

  lemma NamesInInsert(s: set<string>, id: string, stored: Store)
    requires s <= stored.Keys && id in stored
    ensures NamesIn(s + {id}, stored) == NamesIn(s, stored) + NamesOf(id, Count(stored[id]))
  {
    hide ReplicaName;
  }

  ghost function Total(s: set<string>, stored: Store): nat
    requires s <= stored.Keys
  {
    if s == {} then 0 else Count(stored[Pick(s)]) + Total(s - {Pick(s)}, stored)
  }

  lemma NamesOfNext(id: string, n: nat)
    ensures NamesOf(id, 0) == {}
    ensures NamesOf(id, n + 1) == NamesOf(id, n) + {ReplicaName(id, n)} && ReplicaName(id, n) !in NamesOf(id, n)
  {
    hide ReplicaName;
    forall i | 0 <= i < n ensures ReplicaName(id, i) != ReplicaName(id, n) {
      if ReplicaName(id, i) == ReplicaName(id, n) {
        ReplicaNameInjective(id, i, id, n);
      }
    }
  }

  lemma {:induction false} NamesOfSize(id: string, n: nat)
    ensures |NamesOf(id, n)| == n
  {
    hide NamesOf, ReplicaName;
    if n == 0 {
      NamesOfNext(id, 0);
    } else {
      NamesOfSize(id, n - 1);
      NamesOfNext(id, n - 1);
      DisjointSize(NamesOf(id, n - 1), {ReplicaName(id, n - 1)});
    }
  }

  lemma DisjointSize(a: set<string>, b: set<string>)
    requires a !! b
    ensures |a + b| == |a| + |b|
  {
  }

  /** Replica names of different workloads differ. */
  lemma NamesApart(s: set<string>, id: string, stored: Store)
    requires s <= stored.Keys && id in stored && id !in s
    ensures NamesIn(s, stored) !! NamesOf(id, Count(stored[id]))
  {
    hide ReplicaName, StripReplicaSuffix, Count;
    forall r | r in NamesIn(s, stored) ensures r !in NamesOf(id, Count(stored[id])) {
      var id', i' :| id' in s && 0 <= i' < Count(stored[id']) && r == ReplicaName(id', i');
      StripRecoversParent(id', i');
      forall i | 0 <= i < Count(stored[id]) ensures r != ReplicaName(id, i) {
        StripRecoversParent(id, i);
      }
    }
  }

  lemma NamesInNext(s: set<string>, id: string, stored: Store)
    requires s <= stored.Keys && id in s
    ensures |NamesIn(s, stored)| == |NamesIn(s - {id}, stored)| + Count(stored[id])
  {
    hide NamesOf, NamesIn, Count;
    NamesOfSize(id, Count(stored[id]));
    NamesInInsert(s - {id}, id, stored);
    assert s - {id} + {id} == s;
    NamesApart(s - {id}, id, stored);
    DisjointSize(NamesIn(s - {id}, stored), NamesOf(id, Count(stored[id])));
  }

  lemma {:induction false} NamesInSize(s: set<string>, stored: Store)
    requires s <= stored.Keys
    ensures |NamesIn(s, stored)| == Total(s, stored)
    decreases s
  {
    hide Count, ReplicaName;
    if s == {} {
      assert NamesIn(s, stored) == {};
    } else {
      NamesInSize(s - {Pick(s)}, stored);
      NamesInNext(s, Pick(s), stored);
    }
  }

  /** No two replicas overwrite each other: there are exactly sum of max(1, replicas) instances. */
  lemma {:induction false} ExpandSize(stored: Store)
    ensures |Expand(stored)| == Total(stored.Keys, stored)
  {
    hide NamesIn, Replicate, Total;
    NamesInSize(stored.Keys, stored);
    ExpandHonest(stored);
    assert |Expand(stored)| == |Expand(stored).Keys|;
  }
}
