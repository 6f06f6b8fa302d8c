/** IPv4 addresses as numbers, CIDR blocks, and lowest-free search. */
module Addresses {

  function Pow2(n: nat): (r: nat)
    ensures r >= 1
  {
    if n == 0 then 1 else 2 * Pow2(n - 1)
  }

  /** A block: the addresses that agree with `base` on the first `bits` bits (section 3.1 of RFC 4632). */
  datatype Cidr = Cidr(base: nat, bits: nat)

  function Span(c: Cidr): (r: nat)
    ensures r >= 1
  {
    if c.bits <= 32 then Pow2(32 - c.bits) else 1
  }

  predicate Contains(c: Cidr, a: nat) {
    a / Span(c) == c.base / Span(c)
  }

  lemma Spans()
    ensures Pow2(8) == 256 && Pow2(16) == 65536
  {
    assert Pow2(4) == 16;
    assert Pow2(8) == 16 * Pow2(4);
    assert Pow2(12) == 16 * Pow2(8);
    assert Pow2(16) == 16 * Pow2(12);
  }

  /** The least number from `i` on, up to `limit`, that is not in `used`. */
  function FirstFree(used: set<nat>, i: nat, limit: nat): (f: nat)
    requires i <= limit
    ensures i <= f <= limit
    ensures forall j | i <= j < f :: j in used
    ensures f < limit ==> f !in used
    decreases limit - i
  {
    if i == limit || i !in used then i else FirstFree(used, i + 1, limit)
  }

  predicate Taken(a: set<nat>, x: nat, i: nat) {
    x + i in a
  }

  /** `a` from `x` on and `b` from `y` on hold the same numbers. */
  ghost predicate SamePattern(a: set<nat>, x: nat, b: set<nat>, y: nat) {
    forall i: nat :: Taken(a, x, i) <==> Taken(b, y, i)
  }

  /** Two searches over the same pattern, from different starts, stop at the same distance; the longer range is
      not used beyond the shorter one. */
  lemma {:induction false} FirstFreeShift(a: set<nat>, x: nat, la: nat, b: set<nat>, y: nat, lb: nat, k: nat)
    requires SamePattern(a, x, b, y)
    requires y + k <= lb && lb - y < la - x && lb !in b
    ensures FirstFree(a, x + k, la) - x == FirstFree(b, y + k, lb) - y
    decreases lb - y - k
  {
    assert Taken(a, x, k) <==> Taken(b, y, k);
    assert Taken(a, x, lb - y) <==> Taken(b, y, lb - y);
    if y + k < lb && y + k in b {
      FirstFreeShift(a, x, la, b, y, lb, k + 1);
    }
  }

  /** A limit that is itself free can be raised. */
  lemma {:induction false} LimitUnused(a: set<nat>, x: nat, la: nat)
    requires x <= la && la !in a
    ensures FirstFree(a, x, la + 1) == FirstFree(a, x, la)
    decreases la - x
  {
    if x < la && x in a {
      LimitUnused(a, x + 1, la);
    }
  }

  ghost function Range(n: nat): (s: set<nat>)
    ensures forall i :: i in s <==> 0 <= i < n
  {
    if n == 0 then {} else Range(n - 1) + {n - 1}
  }

  lemma {:induction false} RangeSize(n: nat)
    ensures |Range(n)| == n
  {
    if n > 0 {
      RangeSize(n - 1);
    }
  }

  lemma {:induction false} SubsetSize<T>(a: set<T>, b: set<T>)
    requires a <= b
    ensures |a| <= |b|
    ensures |a| == |b| ==> a == b
  {
    assert b == a + (b - a);
    if |a| == |b| {
      assert |b - a| == 0;
    }
  }

  ghost predicate Injective<K(!new), V>(m: map<K, V>) {
    forall x, y | x in m && y in m && m[x] == m[y] :: x == y
  }

  lemma {:induction false} InjectiveSize<K(!new), V>(m: map<K, V>)
    requires Injective(m)
    ensures |m.Values| == |m|
    decreases |m|
  {
    if m.Keys == {} {
      assert m.Values == {};
    } else {
      var k :| k in m.Keys;
      var rest := m - {k};
      assert rest.Keys == m.Keys - {k};
      InjectiveSize(rest);
      assert m.Values == rest.Values + {m[k]} by {
        forall v | v in m.Values ensures v in rest.Values + {m[k]} {
          var x :| x in m && m[x] == v;
          if x != k { assert rest[x] == v; }
        }
        forall v | v in rest.Values ensures v in m.Values {
          var x :| x in rest && rest[x] == v;
          assert m[x] == v;
        }
      }
      assert m[k] !in rest.Values;
    }
  }

  /** Lowest-free search over an injective allocation fails exactly when every number is taken. */
  lemma {:induction false} FirstFreeExhausted<K(!new)>(table: map<K, nat>, limit: nat)
    requires Injective(table) && forall k | k in table :: table[k] < limit
    ensures FirstFree(table.Values, 0, limit) == limit <==> |table| == limit
  {
    InjectiveSize(table);
    RangeSize(limit);
    forall v | v in table.Values ensures v in Range(limit) {
      var k :| k in table && table[k] == v;
    }
    SubsetSize(table.Values, Range(limit));
    var f := FirstFree(table.Values, 0, limit);
    if f == limit {
      assert Range(limit) <= table.Values;
      assert table.Values == Range(limit);
    } else {
      assert f in Range(limit) && f !in table.Values;
    }
  }
}
