/** The task checksum of the performance engine: wrapped 64-bit sum, then xor of the gaps of
    the sorted values.  It depends only on which values were visited, not on their order. */
module Checksum {
  import opened Arithmetic

  const MODULUS: nat := 0x1_0000_0000_0000_0000

  /** uint64_t. */
  type Word = x: int | 0 <= x < MODULUS

  // ---------- 64-bit arithmetic ----------

  function Plus(x: Word, y: Word): Word {
    if x + y >= MODULUS then x + y - MODULUS else x + y
  }

  function Minus(x: Word, y: Word): Word {
    if x >= y then x - y else x - y + MODULUS
  }

  predicate Le(x: Word, y: Word) { x <= y }

  /** Bitwise exclusive or, low bit first. */
  function XorBits(x: nat, y: nat): nat {
    if x == 0 && y == 0 then 0 else 2 * XorBits(x / 2, y / 2) + (x + y) % 2
  }

  function Pow2(k: nat): (r: nat)
    ensures r >= 1
  {
    if k == 0 then 1 else 2 * Pow2(k - 1)
  }

  lemma {:induction false} Pow2Add(a: nat, b: nat)
    ensures Pow2(a + b) == Pow2(a) * Pow2(b)
  {
    if a > 0 {
      Pow2Add(a - 1, b);
    }
  }

  lemma Squared(k: nat, v: nat)
    requires Pow2(k) == v
    ensures Pow2(k + k) == v * v
  {
    Pow2Add(k, k);
  }

  lemma Sixteen()
    ensures Pow2(4) == 16
  {
  }

  lemma WordIs64Bits()
    ensures Pow2(64) == MODULUS
  {
    hide Pow2;
    Sixteen();
    Squared(4, 16);
    Squared(8, 256);
    Squared(16, 0x1_0000);
    Squared(32, 0x1_0000_0000);
  }

  /** Exclusive or does not need more bits than its operands. */
  lemma {:induction false} XorBitsFit(k: nat, x: nat, y: nat)
    requires x < Pow2(k) && y < Pow2(k)
    ensures XorBits(x, y) < Pow2(k)
  {
    if k > 0 {
      XorBitsFit(k - 1, x / 2, y / 2);
    }
  }

  lemma XorWord(x: Word, y: Word)
    ensures XorBits(x, y) < MODULUS
  {
    hide Pow2, XorBits;
    WordIs64Bits();
    XorBitsFit(64, x, y);
  }

  function Xor(x: Word, y: Word): Word {
    XorWord(x, y);
    XorBits(x, y)
  }

  lemma PlusLaws(x: Word, y: Word, z: Word)
    ensures Plus(Plus(x, y), z) == Plus(x, Plus(y, z)) && Plus(x, y) == Plus(y, x) && Plus(x, 0) == x && Plus(0, x) == x
  {
  }

  lemma HalfBit(h: nat, b: nat)
    requires b < 2
    ensures (2 * h + b) / 2 == h && (2 * h + b) % 2 == b
  {
  }

  lemma BitSum(x: nat, y: nat, z: nat)
    ensures ((x + y) % 2 + z) % 2 == (x + (y + z) % 2) % 2
  {
  }

  lemma LowBit(a: nat, z: nat)
    ensures (a + z) % 2 == (a % 2 + z) % 2
  {
  }

  lemma {:induction false} XorBitsBasics(x: nat, y: nat)
    ensures XorBits(x, y) == XorBits(y, x) && XorBits(x, x) == 0 && XorBits(x, 0) == x
    decreases x + y
  {
    if x > 0 || y > 0 {
      XorBitsBasics(x / 2, y / 2);
    }
  }

  /** The defining equation holds at zero too. */
  lemma XorUnfold(x: nat, y: nat)
    ensures XorBits(x, y) == 2 * XorBits(x / 2, y / 2) + (x + y) % 2
  {
  }

  lemma {:induction false} XorBitsAssociates(x: nat, y: nat, z: nat)
    ensures XorBits(XorBits(x, y), z) == XorBits(x, XorBits(y, z))
    decreases x + y + z
  {
    hide XorBits;
    var a, b := XorBits(x, y), XorBits(y, z);
    if x + y + z == 0 {
      XorBitsBasics(0, 0);
    } else {
      XorUnfold(x, y);
      XorUnfold(y, z);
      XorUnfold(a, z);
      XorUnfold(x, b);
      HalfBit(XorBits(x / 2, y / 2), (x + y) % 2);
      HalfBit(XorBits(y / 2, z / 2), (y + z) % 2);
      XorBitsAssociates(x / 2, y / 2, z / 2);
      BitSum(x, y, z);
      LowBit(a, z);
      LowBit(b, x);
    }
  }

  lemma XorLaws(x: Word, y: Word, z: Word)
    ensures Xor(Xor(x, y), z) == Xor(x, Xor(y, z)) && Xor(x, y) == Xor(y, x) && Xor(x, 0) == x && Xor(0, x) == x
    ensures Xor(x, x) == 0
  {
    hide XorBits;
    XorBitsAssociates(x, y, z);
    XorBitsBasics(x, y);
    XorBitsBasics(x, 0);
  }

  /** Bit `k` of a number. */
  function Bit(x: nat, k: nat): nat {
    if k == 0 then x % 2 else Bit(x / 2, k - 1)
  }

  /** Exclusive or works bit by bit. */
  lemma {:induction false} XorBitwise(x: nat, y: nat, k: nat)
    ensures Bit(XorBits(x, y), k) == (Bit(x, k) + Bit(y, k)) % 2
  {
    hide XorBits;
    XorUnfold(x, y);
    if k > 0 {
      HalfBit(XorBits(x / 2, y / 2), (x + y) % 2);
      XorBitwise(x / 2, y / 2, k - 1);
    } else {
      LowBit(x, y);
    }
  }

  lemma LeTotal(x: Word, y: Word)
    ensures (Le(x, y) || Le(y, x)) && (Le(x, y) && Le(y, x) ==> x == y)
  {
  }

  lemma LeTransitive(x: Word, y: Word, z: Word)
    requires Le(x, y) && Le(y, z)
    ensures Le(x, z)
  {
  }

  function WrapSum(v: seq<Word>): Word {
    if v == [] then 0 else Plus(WrapSum(v[..|v| - 1]), v[|v| - 1])
  }

  /** xor of the differences of neighbours. */
  function GapXor(v: seq<Word>): Word {
    if |v| <= 1 then 0 else Xor(GapXor(v[..|v| - 1]), Minus(v[|v| - 1], v[|v| - 2]))
  }

  ghost predicate Ascending(v: seq<Word>) {
    forall i, j :: 0 <= i < j < |v| ==> Le(v[i], v[j])
  }

  function Insert(x: Word, v: seq<Word>): (r: seq<Word>)
    ensures |r| == |v| + 1
  {
    if v == [] || Le(x, v[0]) then [x] + v else [v[0]] + Insert(x, v[1..])
  }

  /** A sorting function; SortedIsUnique makes the choice of algorithm irrelevant. */
  function Sorted(v: seq<Word>): (r: seq<Word>)
    ensures |r| == |v|
  {
    if v == [] then [] else Insert(v[0], Sorted(v[1..]))
  }

  function TaskChecksum(v: seq<Word>): Word {
    Xor(WrapSum(v), GapXor(Sorted(v)))
  }

  // ---------- sorting ----------

  lemma {:induction false} InsertSorts(x: Word, v: seq<Word>)
    requires Ascending(v)
    ensures Ascending(Insert(x, v)) && multiset(Insert(x, v)) == multiset{x} + multiset(v)
  {
    hide Le;
    if v != [] {
      assert v == [v[0]] + v[1..];
      LeTotal(x, v[0]);
      if Le(x, v[0]) {
        forall k | 0 < k < |v| ensures Le(x, v[k]) { LeTransitive(x, v[0], v[k]); }
      } else {
        InsertSorts(x, v[1..]);
        var r := Insert(x, v[1..]);
        forall k | 0 <= k < |r| ensures Le(v[0], r[k]) {
          assert r[k] in multiset(r);
        }
      }
    }
  }

  lemma {:induction false} SortedSorts(v: seq<Word>)
    ensures Ascending(Sorted(v)) && multiset(Sorted(v)) == multiset(v)
  {
    hide Le, Insert, Ascending;
    if v != [] {
      assert v == [v[0]] + v[1..];
      SortedSorts(v[1..]);
      InsertSorts(v[0], Sorted(v[1..]));
    } else {
      EmptyAscends();
    }
  }

  lemma EmptyAscends()
    ensures Ascending([])
  {
  }

  lemma HeadLeast(a: seq<Word>, x: Word)
    requires Ascending(a) && x in a
    ensures Le(a[0], x)
  {
    hide Le;
    LeTotal(x, x);
  }

  lemma {:induction false} AscendingUnique(a: seq<Word>, b: seq<Word>)
    requires Ascending(a) && Ascending(b) && multiset(a) == multiset(b)
    ensures a == b
  {
    hide Le;
    assert |multiset(a)| == |a| && |multiset(b)| == |b|;
    if a != [] {
      assert a[0] in multiset(b) && b[0] in multiset(a);
      HeadLeast(a, b[0]);
      HeadLeast(b, a[0]);
      LeTotal(a[0], b[0]);
      Removed(a, 0);
      Removed(b, 0);
      AscendingUnique(a[1..], b[1..]);
    }
  }

  /** Any sorting algorithm gives `Sorted`. */
  lemma SortedIsUnique(v: seq<Word>, r: seq<Word>)
    requires Ascending(r) && multiset(r) == multiset(v)
    ensures r == Sorted(v)
  {
    hide Ascending, Sorted;
    SortedSorts(v);
    AscendingUnique(r, Sorted(v));
  }

  // ---------- order independence ----------

  lemma {:induction false} WrapSumSplit(a: seq<Word>, b: seq<Word>)
    ensures WrapSum(a + b) == Plus(WrapSum(a), WrapSum(b))
  {
    hide Plus;
    if b == [] {
      assert a + b == a;
      PlusLaws(WrapSum(a), 0, 0);
    } else {
      var init := b[..|b| - 1];
      WrapSumSplit(a, init);
      assert (a + b)[..|a + b| - 1] == a + init;
      PlusLaws(WrapSum(a), WrapSum(init), b[|b| - 1]);
    }
  }

  lemma WrapSumMiddle(a: seq<Word>, x: Word, b: seq<Word>)
    ensures WrapSum(a + [x] + b) == Plus(WrapSum([x]), WrapSum(a + b))
  {
    hide Plus, WrapSum;
    WrapSumSplit(a + [x], b);
    WrapSumSplit(a, [x]);
    WrapSumSplit(a, b);
    PlusLaws(WrapSum(a), WrapSum([x]), WrapSum(b));
    PlusLaws(WrapSum([x]), WrapSum(a), WrapSum(b));
  }

  lemma {:induction false} WrapSumOrder(a: seq<Word>, b: seq<Word>)
    requires multiset(a) == multiset(b)
    ensures WrapSum(a) == WrapSum(b)
  {
    hide Plus, WrapSum;
    assert |multiset(a)| == |a| && |multiset(b)| == |b|;
    if a != [] {
      var k := Extract(a, b);
      WrapSumOrder(a[1..], b[..k] + b[k + 1..]);
      WrapSumMiddle(b[..k], a[0], b[k + 1..]);
      WrapSumSplit([a[0]], a[1..]);
    } else {
      assert b == [];
    }
  }

  lemma Removed<T>(b: seq<T>, k: nat)
    requires k < |b|
    ensures b == b[..k] + [b[k]] + b[k + 1..]
    ensures multiset(b[..k] + b[k + 1..]) == multiset(b) - multiset{b[k]}
    ensures k == 0 ==> b == [b[0]] + b[1..] && multiset(b[1..]) == multiset(b) - multiset{b[0]}
  {
    assert b == b[..k] + [b[k]] + b[k + 1..];
    if k == 0 {
      assert b[..0] + b[1..] == b[1..];
    }
  }

  /** Where the head of `a` sits in a permutation of `a`. */
  lemma Extract<T>(a: seq<T>, b: seq<T>) returns (k: nat)
    requires multiset(a) == multiset(b) && a != []
    ensures k < |b| && b == b[..k] + [a[0]] + b[k + 1..] && a == [a[0]] + a[1..]
    ensures multiset(a[1..]) == multiset(b[..k] + b[k + 1..])
  {
    assert a[0] in multiset(b);
    k :| 0 <= k < |b| && b[k] == a[0];
    Removed(a, 0);
    Removed(b, k);
  }

  function Mapped<T>(f: T -> Word, p: seq<T>): (r: seq<Word>)
    ensures |r| == |p|
  {
    seq(|p|, k requires 0 <= k < |p| => f(p[k]))
  }

  lemma MappedAround<T>(f: T -> Word, a: seq<T>, x: T, b: seq<T>)
    ensures multiset(Mapped(f, a + [x] + b)) == multiset(Mapped(f, a + b)) + multiset{f(x)}
  {
    assert Mapped(f, a + [x] + b) == Mapped(f, a) + [f(x)] + Mapped(f, b);
    assert Mapped(f, a + b) == Mapped(f, a) + Mapped(f, b);
  }

  /** Mapping a permutation gives a permutation. */
  lemma {:induction false} MappedOrder<T>(f: T -> Word, p: seq<T>, q: seq<T>)
    requires multiset(p) == multiset(q)
    ensures multiset(Mapped(f, p)) == multiset(Mapped(f, q))
    decreases |p|
  {
    hide Mapped;
    assert |multiset(p)| == |p| && |multiset(q)| == |q|;
    if p != [] {
      var k := Extract(p, q);
      MappedAround(f, [], p[0], p[1..]);
      assert [] + [p[0]] + p[1..] == p && [] + p[1..] == p[1..];
      MappedAround(f, q[..k], p[0], q[k + 1..]);
      MappedOrder(f, p[1..], q[..k] + q[k + 1..]);
    } else {
      assert q == p;
    }
  }

  /** Visiting the same values in another order gives the same checksum. */
  lemma ChecksumOrder(a: seq<Word>, b: seq<Word>)
    requires multiset(a) == multiset(b)
    ensures TaskChecksum(a) == TaskChecksum(b)
  {
    hide WrapSum, GapXor, Sorted, Xor, Ascending;
    WrapSumOrder(a, b);
    SortedSorts(a);
    SortedIsUnique(b, Sorted(a));
  }

  // ---------- xor folding ----------

  function XorAll(v: seq<Word>): Word {
    if v == [] then 0 else Xor(XorAll(v[..|v| - 1]), v[|v| - 1])
  }

  lemma XorOfNone()
    ensures XorAll([]) == 0
  {
  }

  lemma {:induction false} XorSplit(a: seq<Word>, b: seq<Word>)
    ensures XorAll(a + b) == Xor(XorAll(a), XorAll(b))
  {
    hide Xor;
    if b == [] {
      assert a + b == a;
      XorLaws(XorAll(a), 0, 0);
    } else {
      var init := b[..|b| - 1];
      XorSplit(a, init);
      assert (a + b)[..|a + b| - 1] == a + init;
      XorLaws(XorAll(a), XorAll(init), b[|b| - 1]);
    }
  }

  lemma XorMiddle(a: seq<Word>, x: Word, b: seq<Word>)
    ensures XorAll(a + [x] + b) == Xor(XorAll([x]), XorAll(a + b))
  {
    hide Xor, XorAll;
    XorSplit(a + [x], b);
    XorSplit(a, [x]);
    XorSplit(a, b);
    XorLaws(XorAll(a), XorAll([x]), XorAll(b));
    XorLaws(XorAll([x]), XorAll(a), XorAll(b));
  }

  /** The combined checksum does not depend on the order tasks were done in. */
  lemma {:induction false} XorOrder(a: seq<Word>, b: seq<Word>)
    requires multiset(a) == multiset(b)
    ensures XorAll(a) == XorAll(b)
  {
    hide Xor, XorAll;
    assert |multiset(a)| == |a| && |multiset(b)| == |b|;
    if a != [] {
      var k := Extract(a, b);
      XorOrder(a[1..], b[..k] + b[k + 1..]);
      XorMiddle(b[..k], a[0], b[k + 1..]);
      XorSplit([a[0]], a[1..]);
    } else {
      assert b == [];
    }
  }

  // ---------- the task checksum in plain terms ----------

  lemma WrapIsMod(x: Word, y: Word)
    ensures Plus(x, y) == (x + y) % MODULUS && (Minus(x, y) + y) % MODULUS == x
  {
  }

  lemma {:induction false} WrapSumIsSum(v: seq<Word>)
    ensures WrapSum(v) == Sum(v) % MODULUS
  {
    hide Sum, Plus;
    if v == [] {
      AllZero(v);
    } else {
      var init, x := v[..|v| - 1], v[|v| - 1];
      WrapSumIsSum(init);
      SumAppend(init, x);
      assert v == init + [x];
      WrapIsMod(WrapSum(init), x);
      ModAdd(Sum(init), x);
    }
  }

  lemma ModAdd(a: int, x: int)
    ensures (a % MODULUS + x) % MODULUS == (a + x) % MODULUS
  {
  }

  /** Adding `g` to `x` gives `y`, in 64-bit arithmetic. */
  predicate Leads(x: Word, g: Word, y: Word) {
    (x + g) % MODULUS == y
  }

  /** `g` leads from each entry of `s` to the next. */
  ghost predicate Gaps(s: seq<Word>, g: seq<Word>) {
    && |g| == Monus(|s|, 1)
    && forall k, m :: 0 <= k && m == k + 1 && m < |s| ==> Leads(s[k], g[k], s[m])
  }

  lemma MinusLeads(x: Word, y: Word)
    ensures Leads(y, Minus(x, y), x)
  {
    WrapIsMod(x, y);
  }

  lemma GapsExtend(s: seq<Word>, init: seq<Word>)
    requires |s| > 1 && Gaps(s[..|s| - 1], init)
    ensures Gaps(s, init + [Minus(s[|s| - 1], s[|s| - 2])])
  {
    hide Minus, Leads;
    var last := |s| - 1;
    var g := init + [Minus(s[last], s[last - 1])];
    MinusLeads(s[last], s[last - 1]);
    forall k, m | 0 <= k && m == k + 1 && m < |s| ensures Leads(s[k], g[k], s[m]) {
      if m < last {
        assert Leads(s[..last][k], init[k], s[..last][m]);
      }
    }
  }

  lemma {:induction false} GapsOf(s: seq<Word>) returns (g: seq<Word>)
    ensures Gaps(s, g) && GapXor(s) == XorAll(g)
  {
    hide Xor, Minus, Leads;
    if |s| <= 1 {
      g := [];
    } else {
      var last := |s| - 1;
      var init := GapsOf(s[..last]);
      g := init + [Minus(s[last], s[last - 1])];
      GapsExtend(s, init);
      assert g[..|g| - 1] == init;
    }
  }

  /** `c` is the 64-bit sum of the values, with the gaps between the sorted values xored in. */
  ghost predicate SumWithGaps(v: seq<Word>, c: Word) {
    exists s: seq<Word>, g: seq<Word> ::
      Ascending(s) && multiset(s) == multiset(v) && Gaps(s, g) && c == Xor(Sum(v) % MODULUS, XorAll(g))
  }

  lemma TaskChecksumMeaning(v: seq<Word>)
    ensures SumWithGaps(v, TaskChecksum(v))
  {
    hide Xor, GapXor, Sorted, Ascending, Gaps, XorAll, Sum, WrapSum;
    var s := Sorted(v);
    SortedSorts(v);
    var g := GapsOf(s);
    WrapSumIsSum(v);
  }
}
