/** Sums and counts over finite sets. */
module Sums {
  ghost function Pick<K(!new)>(s: set<K>): (k: K)
    requires s != {}
    ensures k in s
  {
    var k :| k in s; k
  }

  /** The sum of `f` over the elements of `s`. */
  ghost function Sum<K(!new)>(s: set<K>, f: K -> nat): nat
  {
    if s == {} then 0 else f(Pick(s)) + Sum(s - {Pick(s)}, f)
  }

  /** Any element can be taken out first. */
  lemma {:induction false} SumRemove<K(!new)>(s: set<K>, k: K, f: K -> nat)
    requires k in s
    ensures Sum(s, f) == f(k) + Sum(s - {k}, f)
  {
    var p := Pick(s);
    if p != k {
      SumRemove(s - {p}, k, f);
      SumRemove(s - {k}, p, f);
      assert s - {p} - {k} == s - {k} - {p};
    }
  }

  lemma SumAdd<K(!new)>(s: set<K>, k: K, f: K -> nat)
    requires k !in s
    ensures Sum(s + {k}, f) == Sum(s, f) + f(k)
  {
    SumRemove(s + {k}, k, f);
    assert s + {k} - {k} == s;
  }

  lemma {:induction false} SumSplit<K(!new)>(a: set<K>, b: set<K>, f: K -> nat)
    requires a !! b
    ensures Sum(a + b, f) == Sum(a, f) + Sum(b, f)
  {
    if b == {} {
      assert a + b == a;
    } else {
      var k := Pick(b);
      SumSplit(a, b - {k}, f);
      SumAdd(a + (b - {k}), k, f);
      assert a + (b - {k}) + {k} == a + b;
    }
  }

  lemma {:induction false} SumCongruent<K(!new)>(s: set<K>, f: K -> nat, g: K -> nat)
    requires forall k :: k in s ==> f(k) == g(k)
    ensures Sum(s, f) == Sum(s, g)
  {
    if s != {} {
      SumCongruent(s - {Pick(s)}, f, g);
    }
  }

  ghost function Image<K(!new), V(!new)>(s: set<K>, f: K -> V): set<V> { set k | k in s :: f(k) }

  /** An injective image has as many elements as its source. */
  lemma {:induction false} InjectiveImage<K(!new), V(!new)>(s: set<K>, f: K -> V)
    requires forall x, y :: x in s && y in s && f(x) == f(y) ==> x == y
    ensures |Image(s, f)| == |s|
  {
    if s != {} {
      var k := Pick(s);
      InjectiveImage(s - {k}, f);
      assert Image(s, f) == Image(s - {k}, f) + {f(k)};
      assert f(k) !in Image(s - {k}, f);
    }
  }

  lemma {:induction false} SubsetSize<K(!new)>(a: set<K>, b: set<K>)
    requires a <= b
    ensures |a| <= |b|
    ensures |a| == |b| ==> a == b
  {
    if a != {} {
      var k := Pick(a);
      SubsetSize(a - {k}, b - {k});
    }
  }
}
