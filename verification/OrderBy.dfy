/** The `order by` of every query in this model: the first element of a set under a three-part
    key, the whole set listed in key order, and the fact that there is only one such listing. */
module OrderBy {
  import opened Collections

  datatype Key = Key(a: int, b: int, c: int)

  /** The strict lexicographic order of keys. */
  predicate Below(x: Key, y: Key) {
    x.a < y.a || (x.a == y.a && (x.b < y.b || (x.b == y.b && x.c < y.c)))
  }

  /** Distinct elements of `s` have distinct keys, as rows keyed by their id always do. */
  predicate Injective<T(!new)>(key: T -> Key, s: set<T>) {
    forall x, y | x in s && y in s && key(x) == key(y) :: x == y
  }

  predicate IsFirst<T(!new)>(key: T -> Key, s: set<T>, f: T) {
    f in s && forall x | x in s && x != f :: Below(key(f), key(x))
  }

  lemma HasFirst<T(!new)>(key: T -> Key, s: set<T>)
    requires s != {} && Injective(key, s)
    ensures exists f :: IsFirst(key, s, f)
  {
    var f :| f in s;
    var rest := s - {f};
    if rest == {} {
      assert s == {f};
      assert IsFirst(key, s, f);
    } else {
      HasFirst(key, rest);
      var g :| IsFirst(key, rest, g);
      assert IsFirst(key, s, if Below(key(g), key(f)) then g else f);
    }
  }

  /** `order by key limit 1`. */
  function First<T(!new)>(key: T -> Key, s: set<T>): (f: T)
    requires s != {} && Injective(key, s)
    ensures IsFirst(key, s, f)
  {
    HasFirst(key, s);
    var f :| IsFirst(key, s, f);
    f
  }

  predicate Ascending<T(!new)>(key: T -> Key, q: seq<T>) {
    forall i, j | 0 <= i < j < |q| :: Below(key(q[i]), key(q[j]))
  }

  /** `order by key`: every element once, keys strictly rising. */
  function Sorted<T(!new)>(key: T -> Key, s: set<T>): (q: seq<T>)
    requires Injective(key, s)
    ensures Ascending(key, q)
    ensures forall x :: x in q <==> x in s
    ensures |q| == |s|
  {
    if s == {} then [] else
      var f := First(key, s);
      [f] + Sorted(key, s - {f})
  }

  /** Two listings of the same elements in strictly rising key order are the same listing. */
  lemma {:induction false} AscendingUnique<T(!new)>(key: T -> Key, p: seq<T>, q: seq<T>)
    requires Ascending(key, p) && Ascending(key, q)
    requires forall x :: x in p <==> x in q
    ensures p == q
  {
    if p == [] {
      assert forall i | 0 <= i < |q| :: q[i] in p;
    } else {
      assert p[0] in q && q != [] && q[0] in p;
      assert p[0] == q[0];
      forall x ensures x in p[1..] <==> x in q[1..] {
        if x in p[1..] { assert x in p; }
        if x in q[1..] { assert x in q; }
      }
      AscendingUnique(key, p[1..], q[1..]);
      assert p == [p[0]] + p[1..] && q == [q[0]] + q[1..];
    }
  }

  /** A prefix of a rising listing holds exactly what is not past its last element. */
  lemma PrefixIsDownset<T(!new)>(key: T -> Key, q: seq<T>, n: nat)
    requires Ascending(key, q) && 0 < n <= |q|
    ensures forall x | x in q :: x in q[..n] <==> !Below(key(q[n - 1]), key(x))
  {
    forall x | x in q ensures x in q[..n] <==> !Below(key(q[n - 1]), key(x)) {
      var i :| 0 <= i < |q| && q[i] == x;
      if i < n { assert q[..n][i] == x; }
      if x in q[..n] {
        var j :| 0 <= j < n && q[j] == x;
      }
    }
  }

  /** A rising listing has no repeats to lose. */
  lemma {:induction false} AscendingCount<T(!new)>(key: T -> Key, q: seq<T>)
    requires Ascending(key, q)
    ensures |Elements(q)| == |q|
  {
    if q != [] {
      var init, last := q[..|q| - 1], q[|q| - 1];
      assert q == init + [last];
      AscendingCount(key, init);
      assert last !in init;
      assert Elements(q) == Elements(init) + {last};
    }
  }

  /** The elements of `q` that satisfy `p`, in the order they have there. */
  function Keep<T(!new)>(p: T -> bool, q: seq<T>): (r: seq<T>)
    ensures forall x :: x in r <==> x in q && p(x)
    ensures |r| <= |q|
  {
    if q == [] then [] else
      var rest := Keep(p, q[..|q| - 1]);
      var last := q[|q| - 1];
      assert q == q[..|q| - 1] + [last];
      if p(last) then rest + [last] else rest
  }

  lemma {:induction false} KeepDistinct<T(!new)>(p: T -> bool, q: seq<T>)
    requires Distinct(q)
    ensures Distinct(Keep(p, q))
  {
    if q != [] {
      var init := q[..|q| - 1];
      KeepDistinct(p, init);
      assert q[|q| - 1] !in init;
    }
  }

  lemma {:induction false} KeepAscending<T(!new)>(key: T -> Key, p: T -> bool, q: seq<T>)
    requires Ascending(key, q)
    ensures Ascending(key, Keep(p, q))
  {
    if q != [] {
      var init := q[..|q| - 1];
      KeepAscending(key, p, init);
      forall x | x in Keep(p, init) ensures Below(key(x), key(q[|q| - 1])) {
        assert x in init;
      }
    }
  }

  /** A scan that keeps a prefix keeps a prefix of what the whole scan keeps. */
  lemma {:induction false} KeepPrefix<T(!new)>(p: T -> bool, q: seq<T>, n: nat)
    requires n <= |q|
    ensures Keep(p, q[..n]) <= Keep(p, q)
  {
    if n == |q| {
      assert q[..n] == q;
    } else {
      assert q[..|q| - 1][..n] == q[..n];
      KeepPrefix(p, q[..|q| - 1], n);
    }
  }

  function Take<T(!new)>(n: nat, q: seq<T>): seq<T> { q[..Min(n, |q|)] }
}
