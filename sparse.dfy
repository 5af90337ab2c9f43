/** Sparse vectors as the search pipeline of src/app.js stores them: a `Map` from token to
    weight, modelled as a Dafny `map` (the insertion order of a JavaScript `Map` only changes
    the order of floating-point additions, which exact reals do not see). */
module SparseVectors {
  import opened RealArith

  type Vector = map<string, real>

  /** The sum of `a[k] * b[k]` over the keys in `keys`, in no particular order. */
  ghost function DotOver(keys: set<string>, a: Vector, b: Vector): real
    requires keys <= a.Keys && keys <= b.Keys
  {
    if keys == {} then 0.0
    else
      var k :| k in keys;
      a[k] * b[k] + DotOver(keys - {k}, a, b)
  }

  /** Any key can be taken out first: the sum does not depend on the order of the keys. */
  lemma {:induction false} DotOverSplit(keys: set<string>, a: Vector, b: Vector, k: string)
    requires keys <= a.Keys && keys <= b.Keys && k in keys
    ensures DotOver(keys, a, b) == a[k] * b[k] + DotOver(keys - {k}, a, b)
    decreases |keys|
  {
    var j :| j in keys && DotOver(keys, a, b) == a[j] * b[j] + DotOver(keys - {j}, a, b);
    if j != k {
      DotOverSplit(keys - {j}, a, b, k);
      DotOverSplit(keys - {k}, a, b, j);
      assert keys - {j} - {k} == keys - {k} - {j};
    }
  }

  /** The sum only reads the weights of the keys it runs over. */
  lemma {:induction false} DotOverAgree(keys: set<string>, a: Vector, b: Vector, a': Vector, b': Vector)
    requires keys <= a.Keys && keys <= b.Keys && keys <= a'.Keys && keys <= b'.Keys
    requires forall k :: k in keys ==> a[k] == a'[k] && b[k] == b'[k]
    ensures DotOver(keys, a, b) == DotOver(keys, a', b')
    decreases |keys|
  {
    if keys != {} {
      var k :| k in keys;
      DotOverSplit(keys, a, b, k);
      DotOverSplit(keys, a', b', k);
      DotOverAgree(keys - {k}, a, b, a', b');
    }
  }

  /** The sum is symmetric in the two vectors. */
  lemma {:induction false} DotOverSymmetric(keys: set<string>, a: Vector, b: Vector)
    requires keys <= a.Keys && keys <= b.Keys
    ensures DotOver(keys, a, b) == DotOver(keys, b, a)
    decreases |keys|
  {
    if keys != {} {
      var k :| k in keys;
      DotOverSplit(keys, a, b, k);
      DotOverSplit(keys, b, a, k);
      DotOverSymmetric(keys - {k}, a, b);
    }
  }

  predicate NonNegative(a: Vector) { forall k :: k in a ==> a[k] >= 0.0 }

  predicate Positive(a: Vector) { forall k :: k in a ==> a[k] > 0.0 }

  /** A sum of products of non-negative weights is non-negative. */
  lemma {:induction false} DotOverNonNegative(keys: set<string>, a: Vector, b: Vector)
    requires keys <= a.Keys && keys <= b.Keys && NonNegative(a) && NonNegative(b)
    ensures DotOver(keys, a, b) >= 0.0
    decreases |keys|
  {
    if keys != {} {
      var k :| k in keys;
      DotOverSplit(keys, a, b, k);
      DotOverNonNegative(keys - {k}, a, b);
    }
  }

  /** The inner product: the sum over the keys the two vectors share. */
  ghost function Dot(a: Vector, b: Vector): real
  {
    DotOver(a.Keys * b.Keys, a, b)
  }

  /** The inner product is symmetric, non-negative for non-negative vectors, and zero when
      the vectors share no key. */
  lemma DotProperties(a: Vector, b: Vector)
    ensures Dot(a, b) == Dot(b, a)
    ensures NonNegative(a) && NonNegative(b) ==> Dot(a, b) >= 0.0
    ensures a.Keys !! b.Keys ==> Dot(a, b) == 0.0
  {
    assert a.Keys * b.Keys == b.Keys * a.Keys;
    DotOverSymmetric(a.Keys * b.Keys, a, b);
    if NonNegative(a) && NonNegative(b) {
      DotOverNonNegative(a.Keys * b.Keys, a, b);
    }
    if a.Keys !! b.Keys {
      assert a.Keys * b.Keys == {};
    }
  }

  /** A sum of products of positive weights over a non-empty set of keys is positive. */
  lemma {:induction false} DotOverPositive(keys: set<string>, a: Vector, b: Vector)
    requires keys <= a.Keys && keys <= b.Keys && Positive(a) && Positive(b) && keys != {}
    ensures DotOver(keys, a, b) > 0.0
    decreases |keys|
  {
    var k :| k in keys;
    DotOverSplit(keys, a, b, k);
    PositiveProduct(a[k], b[k]);
    if keys - {k} != {} {
      DotOverPositive(keys - {k}, a, b);
    }
  }

  /** Two vectors of positive weights have a positive inner product exactly when they share
      a key. */
  lemma DotPositive(a: Vector, b: Vector)
    requires Positive(a) && Positive(b)
    ensures Dot(a, b) > 0.0 <==> a.Keys * b.Keys != {}
  {
    if a.Keys * b.Keys != {} {
      DotOverPositive(a.Keys * b.Keys, a, b);
    }
  }
}
