/** Chained rule probabilities: rule i of n fires with probability 1/(n-i), the last always. */
module Odds {

  /** The chance that the first `k` of the rules all pass a packet on. */
  function Survive(p: seq<real>, k: nat): real
    requires k <= |p|
  {
    if k == 0 then 1.0 else Survive(p, k - 1) * (1.0 - p[k - 1])
  }

  /** The chance that rule `i` is the one that fires. */
  function Picked(p: seq<real>, i: nat): real
    requires i < |p|
  {
    Survive(p, i) * p[i]
  }

  function PickedUpTo(p: seq<real>, k: nat): real
    requires k <= |p|
  {
    if k == 0 then 0.0 else PickedUpTo(p, k - 1) + Picked(p, k - 1)
  }

  /** Whatever the probabilities, the chances of the first `k` rules add up to what does not survive them. */
  lemma {:induction false} PickedComplement(p: seq<real>, k: nat)
    requires k <= |p|
    ensures PickedUpTo(p, k) == 1.0 - Survive(p, k)
  {
    if k > 0 {
      PickedComplement(p, k - 1);
      var s, x := Survive(p, k - 1), p[k - 1];
      assert s * (1.0 - x) == s - s * x;
    }
  }

  /** With an unconditional last rule some rule always fires. */
  lemma {:induction false} PickedTotal(p: seq<real>)
    requires p != [] && p[|p| - 1] == 1.0
    ensures PickedUpTo(p, |p|) == 1.0
  {
    PickedComplement(p, |p|);
    assert Survive(p, |p| - 1) * 0.0 == 0.0;
  }

  function Ideal(n: nat, i: nat): real
    requires i < n
  {
    1.0 / (n - i) as real
  }

  lemma Mul(a: real, b: real, k: real)
    requires k > 0.0
    ensures a < b <==> a * k < b * k
  {
  }

  /** After `k` of `n` exact rules, (n-k)/n of the packets are left. */
  lemma {:induction false} SurviveExact(p: seq<real>, k: nat)
    requires k <= |p| && p != [] && forall i | 0 <= i < |p| :: p[i] == Ideal(|p|, i)
    ensures Survive(p, k) * |p| as real == (|p| - k) as real
  {
    if k > 0 {
      SurviveExact(p, k - 1);
      var n, s, m := |p| as real, Survive(p, k - 1), (|p| - k + 1) as real;
      var x := 1.0 / m;
      assert p[k - 1] == x && x * m == 1.0;
      assert s * (1.0 - x) * n == (s * n) * (1.0 - x);
      assert m * (1.0 - x) == m - 1.0;
    }
  }

  /** Exact probabilities select each of `n` endpoints with probability 1/n. */
  lemma PickedExact(p: seq<real>, i: nat)
    requires i < |p| && forall i | 0 <= i < |p| :: p[i] == Ideal(|p|, i)
    ensures Picked(p, i) == 1.0 / |p| as real
  {
    SurviveExact(p, i);
    var n, s, m := |p| as real, Survive(p, i), (|p| - i) as real;
    var x := 1.0 / m;
    assert p[i] == x && x * m == 1.0 && s * n == m;
    assert s * x * n == 1.0;
    var y := 1.0 / n;
    assert y * n == 1.0;
    assert (s * x - y) * n == 0.0;
  }

  // ----- Rounding to five decimals -----

  function Abs(x: real): real {
    if x < 0.0 then -x else x
  }

  /** 100000/k to the nearest whole number, ties to even: what `%.5f` prints for 1/k, in units of 0.00001. */
  function Rounded(k: int): (z: int)
    requires k > 0
    ensures z >= 0
  {
    var q, r := 100000 / k, 100000 % k;
    if 2 * r < k || (2 * r == k && q % 2 == 0) then q else q + 1
  }

  lemma Quotients(n: nat, k: int)
    requires k > 0
    ensures (n / k) * k + n % k == n && 0 <= n % k < k
  {
  }

  lemma Halved(q: int, k: int)
    requires q >= 0 && k >= 2
    ensures q * 2 <= q * k
  {
  }

  lemma OneMore(q: int, k: int)
    ensures (q + 1) * k == q * k + k
  {
  }

  lemma RoundedNearest(k: int)
    requires k > 0
    ensures -k <= 2 * (Rounded(k) * k - 100000) <= k
    ensures Rounded(k) <= 100000
  {
    var q, r := 100000 / k, 100000 % k;
    Quotients(100000, k);
    OneMore(q, k);
    if k >= 2 {
      Halved(q, k);
    }
    if 2 * r < k || (2 * r == k && q % 2 == 0) {
      assert Rounded(k) * k == q * k;
    } else {
      assert Rounded(k) * k == q * k + k;
    }
  }

  lemma RoundedClose(k: int)
    requires k > 0
    ensures Abs(Rounded(k) as real * 0.00001 - 1.0 / k as real) <= 0.000005
    ensures 0.0 <= Rounded(k) as real * 0.00001 <= 1.0
  {
    hide Rounded;
    RoundedNearest(k);
    var z, kr := Rounded(k) as real, k as real;
    assert (Rounded(k) * k) as real == z * kr;
    assert -kr <= 2.0 * (z * kr - 100000.0) <= kr;
    Quotient(z, kr);
  }

  lemma Quotient(z: real, k: real)
    requires k >= 1.0 && -k <= 2.0 * (z * k - 100000.0) <= k
    ensures Abs(z * 0.00001 - 1.0 / k) <= 0.000005
  {
    var x := 1.0 / k;
    assert x * k == 1.0;
    QuotientError(z, k, x);
  }

  lemma QuotientError(z: real, k: real, x: real)
    requires k >= 1.0 && -k <= 2.0 * (z * k - 100000.0) <= k && x * k == 1.0
    ensures Abs(z * 0.00001 - x) <= 0.000005
  {
    var e, w := z * 0.00001 - x, z * k;
    assert e * k == w * 0.00001 - 1.0;
    assert -0.000005 * k <= e * k <= 0.000005 * k;
    Mul(0.000005, e, k);
    Mul(e, -0.000005, k);
  }

  /** Rule probabilities within 0.000005 of the exact ones, between 0 and 1. */
  ghost predicate Close(p: seq<real>) {
    forall i | 0 <= i < |p| :: 0.0 <= p[i] <= 1.0 && Abs(p[i] - Ideal(|p|, i)) <= 0.000005
  }

  lemma Triangle(u: real, v: real)
    ensures Abs(u + v) <= Abs(u) + Abs(v)
  {
  }

  lemma Products(a: real, b: real, c: real, d: real)
    requires 0.0 <= b <= 1.0 && 0.0 <= c <= 1.0
    ensures Abs(a * b - c * d) <= Abs(a - c) + Abs(b - d)
  {
    var x, y := a - c, b - d;
    assert a * b - c * d == x * b + y * c;
    Shrink(x, b);
    Shrink(y, c);
    Triangle(x * b, y * c);
    assert Abs(x * b + y * c) <= Abs(x) + Abs(y);
  }

  lemma Shrink(a: real, b: real)
    requires 0.0 <= b <= 1.0
    ensures Abs(a * b) <= Abs(a)
  {
    var c := 1.0 - b;
    assert a * b + a * c == a;
    Sign(a, b);
    Sign(a, c);
  }

  lemma Sign(a: real, b: real)
    requires b >= 0.0
    ensures a >= 0.0 ==> a * b >= 0.0
    ensures a <= 0.0 ==> a * b <= 0.0
  {
  }

  lemma {:induction false} SurviveBounds(p: seq<real>, k: nat)
    requires k <= |p| && Close(p)
    ensures 0.0 <= Survive(p, k) <= 1.0
  {
    hide Ideal;
    if k > 0 {
      SurviveBounds(p, k - 1);
      assert 0.0 <= p[k - 1] <= 1.0;
      Shrink(Survive(p, k - 1), 1.0 - p[k - 1]);
      Sign(Survive(p, k - 1), 1.0 - p[k - 1]);
    }
  }

  /** The exact share left after `k` rules. */
  function Left(n: nat, k: nat): real
    requires k <= n && n > 0
  {
    (n - k) as real / n as real
  }

  lemma LeftNext(n: nat, k: nat)
    requires k < n
    ensures Left(n, k + 1) == Left(n, k) * (1.0 - Ideal(n, k))
    ensures Left(n, k) * Ideal(n, k) == 1.0 / n as real
    ensures 0.0 <= Left(n, k) <= 1.0
  {
    var nr, m := n as real, (n - k) as real;
    var y, x := 1.0 / nr, 1.0 / m;
    assert y * nr == 1.0 && x * m == 1.0;
    assert Left(n, k) == m * y && Left(n, k + 1) == (m - 1.0) * y;
    assert m * y * x == y * (m * x);
    assert m * y * (1.0 - x) == m * y - y;
    Mul(m, nr, y);
  }

  lemma {:induction false} SurviveClose(p: seq<real>, k: nat)
    requires k <= |p| && p != [] && Close(p)
    ensures Abs(Survive(p, k) - Left(|p|, k)) <= k as real * 0.000005
  {
    hide Left, Ideal, Close;
    if k == 0 {
      LeftAll(|p|);
    } else {
      SurviveClose(p, k - 1);
      SurviveCloseNext(p, k);
    }
  }

  lemma LeftAll(n: nat)
    requires n > 0
    ensures Left(n, 0) == 1.0
  {
    assert n as real / n as real == 1.0;
  }

  lemma SurviveCloseNext(p: seq<real>, k: nat)
    requires 0 < k <= |p| && Close(p)
    requires Abs(Survive(p, k - 1) - Left(|p|, k - 1)) <= (k - 1) as real * 0.000005
    ensures Abs(Survive(p, k) - Left(|p|, k)) <= k as real * 0.000005
  {
    hide Left, Ideal, Survive, Abs;
    var n := |p|;
    SurviveBounds(p, k - 1);
    LeftNext(n, k - 1);
    SurviveNext(p, k);
    Complement(p[k - 1], Ideal(n, k - 1));
    assert 0.0 <= p[k - 1] <= 1.0 && Abs(p[k - 1] - Ideal(n, k - 1)) <= 0.000005;
    CloseStep(Survive(p, k - 1), 1.0 - p[k - 1], Left(n, k - 1), 1.0 - Ideal(n, k - 1), (k - 1) as real,
              Survive(p, k), Left(n, k));
    assert k as real == (k - 1) as real + 1.0;
  }

  lemma Complement(x: real, y: real)
    ensures Abs((1.0 - x) - (1.0 - y)) == Abs(x - y)
  {
  }

  lemma SurviveNext(p: seq<real>, k: nat)
    requires 0 < k <= |p|
    ensures Survive(p, k) == Survive(p, k - 1) * (1.0 - p[k - 1])
  {
  }

  lemma CloseStep(a: real, b: real, c: real, d: real, k: real, x: real, y: real)
    requires 0.0 <= b <= 1.0 && 0.0 <= c <= 1.0 && Abs(a - c) <= k * 0.000005 && Abs(b - d) <= 0.000005
    requires x == a * b && y == c * d
    ensures Abs(x - y) <= (k + 1.0) * 0.000005
  {
    Products(a, b, c, d);
  }

  /** Rounding moves no endpoint's share by more than n times 0.000005. */
  lemma PickedClose(p: seq<real>, i: nat)
    requires i < |p| && Close(p)
    ensures Abs(Picked(p, i) - 1.0 / |p| as real) <= |p| as real * 0.000005
  {
    hide Left, Ideal, Survive;
    var n := |p|;
    SurviveClose(p, i);
    SurviveBounds(p, i);
    LeftNext(n, i);
    assert 0.0 <= p[i] <= 1.0 && Abs(p[i] - Ideal(n, i)) <= 0.000005;
    CloseStep(Survive(p, i), p[i], Left(n, i), Ideal(n, i), i as real, Picked(p, i), 1.0 / n as real);
    assert i as real + 1.0 <= n as real;
  }
}
