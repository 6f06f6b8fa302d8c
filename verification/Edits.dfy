/** Sequences of changes to a keyed table. */
module Edits {

  lemma SomeElement<T(!new)>(q: seq<T>)
    ensures q != [] ==> exists x :: x in q
  {
    if q != [] {
      assert q[0] in q;
    }
  }

  datatype Edit<V> = Set(key: string, value: V) | Unset(key: string)

  ghost function Edited<V>(m: map<string, V>, es: seq<Edit<V>>): map<string, V>
    decreases |es|
  {
    if es == [] then m else Edited(One(m, es[0]), es[1..])
  }

  function One<V>(m: map<string, V>, e: Edit<V>): map<string, V> {
    match e
    case Set(k, v) => m[k := v]
    case Unset(k) => m - {k}
  }

  ghost function Keys<V(!new)>(es: seq<Edit<V>>): set<string> {
    set e | e in es :: e.key
  }

  lemma {:induction false} EditedFirst<V>(m: map<string, V>, e: Edit<V>, es: seq<Edit<V>>)
    ensures Edited(m, [e] + es) == Edited(One(m, e), es)
  {
    assert ([e] + es)[1..] == es;
  }

  ghost predicate AllSets<V(!new)>(es: seq<Edit<V>>) {
    forall e | e in es :: e.Set?
  }

  /** Assignments overlay what they build from nothing. */
  lemma {:induction false} SetsOverlay<V(!new)>(m: map<string, V>, es: seq<Edit<V>>)
    requires AllSets(es)
    ensures Edited(m, es) == m + Edited(map[], es)
    decreases |es|
  {
    if es != [] {
      var e, rest := es[0], es[1..];
      assert e in es;
      SetsOverlay(One(m, e), rest);
      SetsOverlay(One(map[], e), rest);
      var d: map<string, V> := Edited(map[], rest);
      assert m[e.key := e.value] + d == m + (map[e.key := e.value] + d);
    }
  }

  /** The keys assigned are exactly the keys there, each with a value assigned to it. */
  lemma {:induction false} SetsFrom<V(!new)>(es: seq<Edit<V>>)
    requires AllSets(es)
    ensures var m := Edited(map[], es); m.Keys == Keys(es) && forall k | k in m :: Set(k, m[k]) in es
    decreases |es|
  {
    if es != [] {
      var e, rest := es[0], es[1..];
      assert es == [e] + rest;
      assert forall x :: x in es <==> x == e || x in rest;
      SetsFrom(rest);
      SetsOverlay(One(map[], e), rest);
      var d: map<string, V> := Edited(map[], rest);
      assert Keys(es) == Keys(rest) + {e.key};
      assert Edited(map[], es) == map[e.key := e.value] + d;
    }
  }

  lemma {:induction false} UnsetsRemove<V(!new)>(m: map<string, V>, es: seq<Edit<V>>)
    requires forall e | e in es :: e.Unset?
    ensures Edited(m, es) == m - Keys(es)
    decreases |es|
  {
    if es != [] {
      var e, rest := es[0], es[1..];
      assert es == [e] + rest;
      assert Keys(es) == Keys(rest) + {e.key};
      UnsetsRemove(One(m, e), rest);
    }
  }

  /** Assigning, then removing every other key, leaves exactly what was assigned, whatever was there before. */
  lemma {:induction false} SetsThenUnsets<V(!new)>(m: map<string, V>, sets: seq<Edit<V>>, unsets: seq<Edit<V>>)
    requires AllSets(sets) && forall e | e in unsets :: e.Unset?
    requires Keys(unsets) == m.Keys - Keys(sets)
    ensures Edited(Edited(m, sets), unsets) == Edited(map[], sets)
  {
    SetsOverlay(m, sets);
    SetsFrom(sets);
    UnsetsRemove(Edited(m, sets), unsets);
  }
}
