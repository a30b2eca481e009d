/** A few notions every component uses. */
module Collections {

  datatype Option<+T> = None | Some(value: T)

  function Min(x: nat, y: nat): nat { if x < y then x else y }

  predicate Distinct<T(==)>(q: seq<T>) { forall i, j | 0 <= i < j < |q| :: q[i] != q[j] }

  function Elements<T(!new)>(q: seq<T>): set<T> { set x | x in q }

  /** A list has no more elements than entries, and as many exactly if none is repeated. */
  lemma {:induction false} ElementsCount<T(!new)>(q: seq<T>)
    ensures |Elements(q)| <= |q| && (Distinct(q) ==> |Elements(q)| == |q|)
  {
    if q != [] {
      var init, last := q[..|q| - 1], q[|q| - 1];
      assert q == init + [last];
      ElementsCount(init);
      assert Elements(q) == Elements(init) + {last};
      if Distinct(q) { assert last !in init; }
    } else {
      assert Elements(q) == {};
    }
  }

  /** Everything in `some` is in `all`, unaltered. */
  predicate Within<K, V(==)>(some: map<K, V>, all: map<K, V>) { forall k | k in some :: k in all && all[k] == some[k] }

  lemma NoMoreThan<T>(some: set<T>, all: set<T>)
    requires some <= all
    ensures |some| <= |all|
  {
    assert some + (all - some) == all;
  }
}
