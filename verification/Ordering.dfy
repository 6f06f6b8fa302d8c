/** Orders, least elements and sorting, as the control plane uses them. */
module Ordering {

  datatype Option<+T> = None | Some(value: T)

  /** The bytewise order Go puts on strings. */
  predicate StringLess(a: string, b: string) {
    if b == "" then false
    else if a == "" then true
    else a[0] < b[0] || (a[0] == b[0] && StringLess(a[1..], b[1..]))
  }

  lemma {:induction false} StringLessTrichotomy(a: string, b: string)
    ensures !StringLess(a, a)
    ensures a == b || StringLess(a, b) || StringLess(b, a)
    ensures !(StringLess(a, b) && StringLess(b, a))
  {
    if a != "" {
      if b != "" {
        StringLessTrichotomy(a[1..], b[1..]);
        assert a == [a[0]] + a[1..] && b == [b[0]] + b[1..];
      } else {
        StringLessTrichotomy(a[1..], "");
      }
    }
  }

  lemma {:induction false} StringLessTransitive(a: string, b: string, c: string)
    requires StringLess(a, b) && StringLess(b, c)
    ensures StringLess(a, c)
  {
    if a != "" && a[0] == b[0] && b[0] == c[0] {
      StringLessTransitive(a[1..], b[1..], c[1..]);
    }
  }

  /** `less` is a strict total order on the members of `s`. */
  ghost predicate TotalOn<T>(s: set<T>, less: (T, T) -> bool) {
    && (forall a | a in s :: !less(a, a))
    && (forall a, b | a in s && b in s && a != b :: less(a, b) || less(b, a))
    && (forall a, b, c | a in s && b in s && c in s && less(a, b) && less(b, c) :: less(a, c))
  }

  lemma StringsTotal(s: set<string>)
    ensures TotalOn(s, StringLess)
  {
    forall a, b | a in s && b in s
      ensures !StringLess(a, a) && (a == b || StringLess(a, b) || StringLess(b, a))
    {
      StringLessTrichotomy(a, b);
    }
    forall a, b, c | a in s && b in s && c in s && StringLess(a, b) && StringLess(b, c)
      ensures StringLess(a, c)
    {
      StringLessTransitive(a, b, c);
    }
  }

  ghost predicate IsLeast<T>(x: T, s: set<T>, less: (T, T) -> bool) {
    x in s && forall y | y in s && y != x :: less(x, y)
  }

  lemma {:induction false} LeastExists<T>(s: set<T>, less: (T, T) -> bool)
    requires s != {} && TotalOn(s, less)
    ensures exists x :: IsLeast(x, s, less)
    decreases |s|
  {
    var y :| y in s;
    var rest := s - {y};
    if rest == {} {
      assert s == {y};
      assert IsLeast(y, s, less);
    } else {
      LeastExists(rest, less);
      var z :| IsLeast(z, rest, less);
      if less(z, y) {
        assert IsLeast(z, s, less);
      } else {
        assert IsLeast(y, s, less);
      }
    }
  }

  ghost function Least<T>(s: set<T>, less: (T, T) -> bool): (x: T)
    requires s != {} && TotalOn(s, less)
    ensures IsLeast(x, s, less)
  {
    LeastExists(s, less);
    var x :| IsLeast(x, s, less);
    x
  }

  lemma LeastUnique<T>(x: T, s: set<T>, less: (T, T) -> bool)
    requires TotalOn(s, less) && IsLeast(x, s, less)
    ensures x == Least(s, less)
  {
    var y := Least(s, less);
    assert x != y ==> less(x, y) && less(y, x);
  }

  /** The members of `s` in increasing order. */
  ghost function Arrange<T(!new)>(s: set<T>, less: (T, T) -> bool): (q: seq<T>)
    requires TotalOn(s, less)
    ensures |q| == |s|
    ensures forall x :: x in q <==> x in s
    decreases |s|
  {
    if s == {} then []
    else
      var x := Least(s, less);
      [x] + Arrange(s - {x}, less)
  }

  lemma {:induction false} ArrangeIncreasing<T(!new)>(s: set<T>, less: (T, T) -> bool)
    requires TotalOn(s, less)
    ensures Increasing(Arrange(s, less), less)
    decreases |s|
  {
    if s != {} {
      var x := Least(s, less);
      ArrangeIncreasing(s - {x}, less);
      assert forall y | y in Arrange(s - {x}, less) :: less(x, y);
    }
  }

  ghost predicate Increasing<T>(q: seq<T>, less: (T, T) -> bool) {
    forall i, j | 0 <= i < j < |q| :: less(q[i], q[j])
  }

  ghost function Elements<T(!new)>(q: seq<T>): (s: set<T>)
    ensures forall x :: x in s <==> x in q
  {
    set x | x in q
  }

  /** There is one way to put a set in order. */
  lemma {:induction false} ArrangeUnique<T(!new)>(q: seq<T>, s: set<T>, less: (T, T) -> bool)
    requires TotalOn(s, less) && Increasing(q, less)
    requires forall x :: x in q <==> x in s
    ensures q == Arrange(s, less)
    decreases |s|
  {
    if q == [] {
      assert s == {};
    } else {
      var x := q[0];
      assert IsLeast(x, s, less);
      LeastUnique(x, s, less);
      var rest := q[1..];
      assert q == [x] + rest;
      forall k | 0 <= k < |rest| ensures rest[k] != x {
        assert less(q[0], q[k + 1]);
      }
      forall y ensures y in rest <==> y in s - {x} {
        assert y in q <==> y == x || y in rest;
      }
      ArrangeUnique(rest, s - {x}, less);
    }
  }

  lemma {:induction false} FirstIsLeast<T(!new)>(q: seq<T>, s: set<T>, less: (T, T) -> bool)
    requires TotalOn(s, less) && s != {} && q == Arrange(s, less)
    ensures q != [] && q[0] == Least(s, less)
  {
  }

  ghost predicate Distinct<T>(q: seq<T>) {
    forall i, j | 0 <= i < j < |q| :: q[i] != q[j]
  }

  lemma PrefixElements<T(!new)>(q: seq<T>, i: nat)
    requires i < |q| && Distinct(q)
    ensures q[i] !in q[..i]
    ensures Elements(q[..i + 1]) == Elements(q[..i]) + {q[i]}
    ensures q[..i + 1] == q[..i] + [q[i]]
  {
    assert q[..i + 1] == q[..i] + [q[i]];
  }

  lemma {:induction false} ArrangeDistinct<T(!new)>(s: set<T>, less: (T, T) -> bool)
    requires TotalOn(s, less)
    ensures Distinct(Arrange(s, less))
  {
    ArrangeIncreasing(s, less);
    var q := Arrange(s, less);
    forall i, j | 0 <= i < j < |q| ensures q[i] != q[j] {
      assert less(q[i], q[j]) && q[i] in s;
    }
  }

  /** `sort.Slice` and `sort.Strings` on slices whose entries are distinct. */
  method SortSlice<T(==,!new)>(s: seq<T>, less: (T, T) -> bool) returns (r: seq<T>)
    requires Distinct(s) && TotalOn(Elements(s), less)
    ensures r == Arrange(Elements(s), less)
  {
    r := [];
    var i := 0;
    while i < |s|
      invariant 0 <= i <= |s|
      invariant forall x :: x in r <==> x in s[..i]
      invariant Increasing(r, less)
    {
      PrefixElements(s, i);
      r := InsertSorted(r, s[i], less, Elements(s));
      i := i + 1;
    }
    assert s[..i] == s;
    ArrangeUnique(r, Elements(s), less);
  }

  method InsertSorted<T(==,!new)>(r: seq<T>, x: T, less: (T, T) -> bool, ghost all: set<T>)
    returns (q: seq<T>)
    requires TotalOn(all, less) && Elements(r) <= all && x in all && x !in r
    requires Increasing(r, less)
    ensures forall y :: y in q <==> y == x || y in r
    ensures Increasing(q, less)
  {
    var k := 0;
    while k < |r| && less(r[k], x)
      invariant 0 <= k <= |r|
      invariant forall j | 0 <= j < k :: less(r[j], x)
    {
      k := k + 1;
    }
    q := r[..k] + [x] + r[k..];
    forall j | k <= j < |r| ensures less(x, r[j]) {
      assert less(x, r[k]);
    }
    assert forall y :: y in r <==> y in r[..k] || y in r[k..] by {
      assert r == r[..k] + r[k..];
    }
  }
}
