/** Small facts about numbers, sums of sequences, sizes of sets and multisets. */
module Arithmetic {

  function Min(a: nat, b: nat): nat { if a <= b then a else b }

  /** Subtraction that stops at zero. */
  function Monus(a: nat, b: nat): nat { if a >= b then a - b else 0 }

  lemma Distribute(a: int, m: int, n: int)
    ensures a * (m + n) == a * m + a * n && (m + n) * a == m * a + n * a
  {
  }

  lemma {:induction false} MulAtLeast(n: nat, d: nat)
    requires d > 0
    ensures n * d >= n
  {
    if d > 1 {
      MulAtLeast(n, d - 1);
      Distribute(n, d - 1, 1);
    }
  }

  function Sum(s: seq<int>): int {
    if s == [] then 0 else s[0] + Sum(s[1..])
  }

  lemma {:induction false} SumNonNegative(s: seq<int>)
    requires forall i :: 0 <= i < |s| ==> s[i] >= 0
    ensures Sum(s) >= 0
  {
    if s != [] {
      SumNonNegative(s[1..]);
    }
  }

  lemma {:induction false} AllZero(q: seq<int>)
    requires forall i :: 0 <= i < |q| ==> q[i] == 0
    ensures Sum(q) == 0
  {
    if q != [] {
      AllZero(q[1..]);
    }
  }

  lemma {:induction false} SameSum(q: seq<int>, x: int)
    requires forall i :: 0 <= i < |q| ==> q[i] == x
    ensures Sum(q) == x * |q|
  {
    if q != [] {
      SameSum(q[1..], x);
      Distribute(x, |q| - 1, 1);
    }
  }

  /** The consecutive numbers from `a` on. */
  function Range(a: nat, m: nat): (r: seq<nat>)
    ensures |r| == m
  {
    seq(m, k requires 0 <= k => a + k)
  }

  lemma RangeSplit(a: nat, n: nat, k: nat)
    requires k <= n
    ensures Range(a, n)[..k] == Range(a, k) && Range(a, n)[k..] == Range(a + k, n - k)
    ensures Range(a, k) + Range(a + k, n - k) == Range(a, n)
  {
  }

  /** Pointwise comparison; a strict drop anywhere makes the sum drop. */
  lemma {:induction false} SumCompare(a: seq<int>, b: seq<int>)
    requires |a| == |b| && forall i :: 0 <= i < |a| ==> a[i] <= b[i]
    ensures Sum(a) <= Sum(b)
    ensures (exists i :: 0 <= i < |a| && a[i] < b[i]) ==> Sum(a) < Sum(b)
  {
    if a != [] {
      SumCompare(a[1..], b[1..]);
      if i :| 0 <= i < |a| && a[i] < b[i] {
        if i > 0 {
          assert a[1..][i - 1] < b[1..][i - 1];
        }
      }
    }
  }

  lemma {:induction false} SumAdd(a: seq<int>, b: seq<int>, c: seq<int>)
    requires |a| == |b| == |c| && forall i :: 0 <= i < |a| ==> c[i] == a[i] + b[i]
    ensures Sum(c) == Sum(a) + Sum(b)
  {
    if a != [] {
      SumAdd(a[1..], b[1..], c[1..]);
    }
  }

  lemma {:induction false} SumAppend(a: seq<int>, x: int)
    ensures Sum(a + [x]) == Sum(a) + x
  {
    if a != [] {
      SumAppend(a[1..], x);
      assert (a + [x])[1..] == a[1..] + [x];
    } else {
      assert [x][1..] == [];
    }
  }

  /** Changing one entry changes the sum by the difference. */
  lemma {:induction false} SumUpdate(a: seq<int>, i: nat, x: int)
    requires i < |a|
    ensures Sum(a[i := x]) == Sum(a) - a[i] + x
  {
    if i == 0 {
      assert a[0 := x][1..] == a[1..];
    } else {
      SumUpdate(a[1..], i - 1, x);
      assert a[i := x][1..] == a[1..][i - 1 := x];
    }
  }

  /** The indices below `n`. */
  function UpTo(n: nat): (r: set<nat>)
    ensures forall i: nat :: i in r <==> i < n
  {
    if n == 0 then {} else UpTo(n - 1) + {n - 1}
  }

  lemma {:induction false} UpToSize(n: nat)
    ensures |UpTo(n)| == n
  {
    if n > 0 {
      UpToSize(n - 1);
    }
  }

  lemma {:induction false} SubsetSize<T>(a: set<T>, b: set<T>)
    requires a <= b
    ensures |a| <= |b| && (|a| == |b| ==> a == b)
  {
    if a != {} {
      var x :| x in a;
      SubsetSize(a - {x}, b - {x});
    }
  }

  function Elements(q: seq<nat>): set<nat> {
    set i | i in q
  }

  ghost predicate Unique(q: seq<nat>) {
    forall j, k :: 0 <= j < k < |q| ==> q[j] != q[k]
  }

  /** Without duplicates a sequence has as many elements as entries. */
  lemma {:induction false} ElementsSize(q: seq<nat>)
    requires Unique(q)
    ensures |Elements(q)| == |q|
  {
    if q != [] {
      ElementsSize(q[1..]);
      assert Elements(q) == {q[0]} + Elements(q[1..]);
      assert q[0] !in Elements(q[1..]);
    } else {
      assert Elements(q) == {};
    }
  }

  /** The indices of the ones of a 0/1 sequence. */
  function Ones(b: seq<int>): set<nat> {
    set i: nat | i < |b| && b[i] == 1
  }

  lemma {:induction false} SumOfOnes(b: seq<int>)
    requires forall i :: 0 <= i < |b| ==> b[i] == 0 || b[i] == 1
    ensures Sum(b) == |Ones(b)|
    decreases |b|
  {
    if b == [] {
      assert Ones(b) == {};
    } else {
      var last := |b| - 1;
      var init := b[..last];
      SumOfOnes(init);
      SumAppend(init, b[last]);
      assert b == init + [b[last]];
      assert Ones(b) == Ones(init) + (if b[last] == 1 then {last} else {});
    }
  }

  /** Replacing `x` by `y` beside one summand and beside a sum of two. */
  lemma SwapMiddle<T>(a: multiset<T>, b: multiset<T>, x: multiset<T>, y: multiset<T>, z: multiset<T>)
    requires a + x == b + y
    ensures (a + z) + x == (b + z) + y
  {
    forall t ensures ((a + z) + x)[t] == ((b + z) + y)[t] {
      assert (a + x)[t] == (b + y)[t];
    }
  }
}
