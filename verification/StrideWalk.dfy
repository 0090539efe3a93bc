/** The cache-unfriendly walk offset * 67 mod span: it visits every index exactly once if
    and only if 67 does not divide the span. */
module StrideWalk {
  import opened Arithmetic

  const STRIDE: nat := 67

  /** The order in which a chunk of this span is visited. */
  function StrideOrder(span: nat): (r: seq<nat>)
    ensures |r| == span && forall k :: 0 <= k < span ==> r[k] < span
  {
    seq(span, o requires 0 <= o < span => (o * STRIDE) % span)
  }

  function LocalOrder(span: nat): (r: seq<nat>)
    ensures |r| == span
  {
    seq(span, o requires 0 <= o => o)
  }

  /** 67 is prime. */
  lemma NoDivisor(d: nat)
    requires 1 < d < 67
    ensures 67 % d != 0
  {
  }

  /** Euclid's algorithm: no residue but zero shares a factor with 67. */
  lemma {:induction false} NegatedInverse(r: nat) returns (v: int, m: int)
    requires 1 <= r < 67
    ensures r * v + 1 == 67 * m
    decreases r
  {
    if r == 1 {
      v, m := 66, 1;
    } else {
      NoDivisor(r);
      var q, s := 67 / r, 67 % r;
      var v', m' := NegatedInverse(s);
      v, m := -(q * v'), m' - v';
      assert s == 67 - q * r;
      Regroup(q, r, v', s);
    }
  }

  lemma Regroup(q: int, r: int, v: int, s: int)
    requires s == 67 - q * r
    ensures s * v == 67 * v + r * (-(q * v))
  {
    assert (q * r) * v == r * (q * v);
  }

  lemma StrideInverse(span: nat) returns (u: int, v: int)
    requires span % 67 != 0
    ensures 67 * u == span * v + 1
  {
    var k, r := span / 67, span % 67;
    var m: int;
    v, m := NegatedInverse(r);
    u := k * v + m;
    assert span * v == (67 * k + r) * v == 67 * (k * v) + r * v;
  }

  lemma ModOf(x: int, j: int, n: int, m: int)
    requires 0 <= j < n && x == j + n * m
    ensures x % n == j
  {
    MulStep(n, x / n, m);
    MulStep(n, m, x / n);
  }

  lemma MulStep(n: nat, a: int, b: int)
    ensures a > b ==> n * a >= n * b + n
  {
    if a > b {
      Distribute(n, b, a - b);
      MulAtLeast(n, a - b);
    }
  }

  /** Every index is hit when 67 does not divide the span. */
  lemma StrideHits(span: nat, j: nat)
    requires span % 67 != 0 && j < span
    ensures j in StrideOrder(span)
  {
    var u, v := StrideInverse(span);
    var x := j * u;
    var o, t := x % span, x / span;
    assert x == span * t + o;
    assert o * 67 == j * (67 * u) - span * (67 * t);
    assert j * (67 * u) == j * (span * v) + j == span * (j * v) + j;
    assert o * 67 == j + span * (j * v - 67 * t);
    ModOf(o * 67, j, span, j * v - 67 * t);
    assert StrideOrder(span)[o] == j;
  }

  /** The index 1 is never visited when 67 divides the span. */
  lemma StrideMisses(span: nat, o: nat)
    requires span > 0 && span % 67 == 0 && o < span
    ensures StrideOrder(span)[o] % 67 == 0
  {
    var q, t := span / 67, (o * 67) / span;
    assert (o * 67) % span == o * 67 - span * t;
    assert span * t == 67 * (q * t);
    ModOf(67 * (o - q * t), 0, 67, o - q * t);
  }

  /** A sequence of n entries that contains every index below n is a permutation of them. */
  lemma CoveringIsPermutation(p: seq<nat>)
    requires forall j: nat :: j < |p| ==> j in p
    ensures multiset(p) == multiset(UpTo(|p|))
  {
    var a, b := multiset(UpTo(|p|)), multiset(p);
    UpToSize(|p|);
    forall j: nat ensures a[j] <= b[j] {
      if j < |p| {
        assert j in p && j in b;
      } else {
        assert j !in UpTo(|p|) && j !in a;
      }
    }
    assert a <= b;
    assert |b - a| == |b| - |a| == 0;
    assert b == a + (b - a);
  }

  lemma LocalIsPermutation(span: nat)
    ensures multiset(LocalOrder(span)) == multiset(UpTo(span))
  {
    forall j: nat | j < span ensures j in LocalOrder(span) {
      assert LocalOrder(span)[j] == j;
    }
    CoveringIsPermutation(LocalOrder(span));
  }

  /** The walk is a permutation of the chunk exactly when 67 does not divide its span. */
  lemma StrideIsPermutationIff(span: nat)
    requires span > 0
    ensures multiset(StrideOrder(span)) == multiset(LocalOrder(span)) <==> span % 67 != 0
  {
    LocalIsPermutation(span);
    if span % 67 != 0 {
      forall j: nat | j < span ensures j in StrideOrder(span) { StrideHits(span, j); }
      CoveringIsPermutation(StrideOrder(span));
    } else {
      assert span >= 67;
      if 1 in StrideOrder(span) {
        var o :| 0 <= o < span && StrideOrder(span)[o] == 1;
        StrideMisses(span, o);
      }
      assert LocalOrder(span)[1] == 1;
      assert 1 in multiset(LocalOrder(span));
    }
  }
}
