/** Sequence operations of the JavaScript runtime used by the core: `Array.prototype.slice`
    with its clamping of out-of-range and negative bounds, `flat`, and the first-occurrence
    de-duplication performed by `[...new Set(xs)]`. */
module Seqs {

  function Max(a: int, b: int): int { if a < b then b else a }

  function Min(a: int, b: int): int { if a < b then a else b }

  /** A bound as `slice` resolves it: negative values count from the end, then clamp. */
  function ClampIndex(len: nat, k: int): (r: nat)
    ensures r <= len
    ensures 0 <= k <= len ==> r == k
  {
    if k < 0 then Max(len + k, 0) else Min(k, len)
  }

  /** `s.slice(start, end)`. */
  function JsSlice<T>(s: seq<T>, start: int, end: int): (r: seq<T>)
    ensures 0 <= start <= end <= |s| ==> r == s[start..end]
    ensures |r| <= |s|
  {
    var from, to := ClampIndex(|s|, start), ClampIndex(|s|, end);
    if from < to then s[from..to] else []
  }

  /** `slice(0, n)` keeps at most `n` elements when `n` is not negative, and is a prefix. */
  lemma JsSlicePrefix<T>(s: seq<T>, n: int)
    ensures JsSlice(s, 0, n) == s[..|JsSlice(s, 0, n)|]
    ensures n >= 0 ==> |JsSlice(s, 0, n)| == Min(n, |s|)
    ensures n < 0 ==> |JsSlice(s, 0, n)| == Max(|s| + n, 0)
  {
  }

  /** `xss.flat()`. */
  function Flatten<T>(xss: seq<seq<T>>): (r: seq<T>)
  {
    if xss == [] then [] else Flatten(xss[..|xss| - 1]) + xss[|xss| - 1]
  }

  /** Every element of every inner sequence is an element of the flattened one, and back. */
  lemma {:induction false} FlattenMembers<T>(xss: seq<seq<T>>, x: T)
    ensures x in Flatten(xss) <==> exists i :: 0 <= i < |xss| && x in xss[i]
  {
    if xss != [] {
      var init := xss[..|xss| - 1];
      FlattenMembers(init, x);
      if x in Flatten(xss) && x !in xss[|xss| - 1] {
        var i :| 0 <= i < |init| && x in init[i];
        assert xss[i] == init[i];
      }
      if (exists i :: 0 <= i < |xss| && x in xss[i]) && x !in xss[|xss| - 1] {
        var i :| 0 <= i < |xss| && x in xss[i];
        assert init[i] == xss[i];
      }
    }
  }

  lemma {:induction false} FlattenAppend<T>(xss: seq<seq<T>>, yss: seq<seq<T>>)
    ensures Flatten(xss + yss) == Flatten(xss) + Flatten(yss)
    decreases |yss|
  {
    if yss == [] {
      assert xss + yss == xss;
    } else {
      var init, last := yss[..|yss| - 1], yss[|yss| - 1];
      assert (xss + yss)[..|xss + yss| - 1] == xss + init;
      FlattenAppend(xss, init);
      calc {
        Flatten(xss + yss);
        Flatten(xss + init) + last;
        Flatten(xss) + Flatten(init) + last;
        Flatten(xss) + (Flatten(init) + last);
      }
    }
  }

  lemma FlattenCons<T>(xs: seq<T>, yss: seq<seq<T>>)
    ensures Flatten([xs] + yss) == xs + Flatten(yss)
  {
    FlattenAppend([xs], yss);
    assert Flatten([xs]) == Flatten([]) + xs;
  }

  predicate NoDuplicates<T(==)>(s: seq<T>) {
    forall i, j :: 0 <= i < |s| && 0 <= j < |s| && i != j ==> s[i] != s[j]
  }

  /** Index of the first occurrence of `x` in `s`. */
  function FirstIndex<T(==)>(s: seq<T>, x: T): (k: nat)
    requires x in s
    ensures k < |s| && s[k] == x
    ensures forall j :: 0 <= j < k ==> s[j] != x
  {
    if s[0] == x then 0 else 1 + FirstIndex(s[1..], x)
  }

  /** `[...new Set(s)]`: the distinct elements of `s`, each at its first occurrence. */
  function Dedup<T(==)>(s: seq<T>): seq<T>
  {
    if s == [] then []
    else
      var init := Dedup(s[..|s| - 1]);
      if s[|s| - 1] in s[..|s| - 1] then init else init + [s[|s| - 1]]
  }

  /** De-duplication keeps exactly the elements of the input, each once, in the order of
      their first occurrences. */
  lemma {:induction false} DedupProperties<T>(s: seq<T>)
    ensures NoDuplicates(Dedup(s))
    ensures forall x :: x in Dedup(s) <==> x in s
    ensures forall i, j :: 0 <= i < j < |Dedup(s)| ==> FirstIndex(s, Dedup(s)[i]) < FirstIndex(s, Dedup(s)[j])
  {
    if s != [] {
      var n := |s| - 1;
      var init, last := s[..n], s[n];
      DedupProperties(init);
      var d := Dedup(init);
      assert s == init + [last];
      forall x | x in init
        ensures FirstIndex(s, x) == FirstIndex(init, x)
      {
        FirstIndexExtend(init, last, x);
      }
      if last !in init {
        assert Dedup(s) == d + [last];
        forall i | 0 <= i < |d|
          ensures FirstIndex(s, d[i]) < FirstIndex(s, last)
        {
          DedupMember(init, d[i]);
          assert FirstIndex(s, last) == n by {
            forall j | 0 <= j < n ensures s[j] != last { assert s[j] == init[j]; }
            FirstIndexUnique(s, last, n);
          }
        }
      }
    }
  }

  lemma {:induction false} DedupMember<T>(s: seq<T>, x: T)
    ensures x in Dedup(s) <==> x in s
  {
    if s != [] {
      var init := s[..|s| - 1];
      DedupMember(init, x);
      assert s == init + [s[|s| - 1]];
    }
  }

  lemma FirstIndexExtend<T>(s: seq<T>, y: T, x: T)
    requires x in s
    ensures x in s + [y] && FirstIndex(s + [y], x) == FirstIndex(s, x)
  {
    var k := FirstIndex(s, x);
    forall j | 0 <= j < k ensures (s + [y])[j] != x { assert (s + [y])[j] == s[j]; }
    FirstIndexUnique(s + [y], x, k);
  }

  lemma FirstIndexUnique<T>(s: seq<T>, x: T, k: nat)
    requires k < |s| && s[k] == x
    requires forall j :: 0 <= j < k ==> s[j] != x
    ensures FirstIndex(s, x) == k
  {
    var f := FirstIndex(s, x);

  }

  /** `n` copies of `x`. */
  function Repeat<T>(x: T, n: nat): (r: seq<T>)
    ensures |r| == n
    ensures forall i :: 0 <= i < n ==> r[i] == x
  {
    if n == 0 then [] else Repeat(x, n - 1) + [x]
  }
}
