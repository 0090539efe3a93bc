/** The data the engine generates for itself tells the access patterns apart too: a workload of
    268 in one chunk, which is four times 67. */
module GeneratedData {
  import opened Arithmetic
  import opened Checksum
  import opened StrideWalk
  import opened TaskWork
  import opened AccessPatterns

  const FACTOR: nat := 2654435761

  /** What the engine's constructor fills its data with. */
  function Generated(n: nat): (d: seq<Word>)
    ensures |d| == n
  {
    seq(n, i requires 0 <= i < n => Xor((i * FACTOR) % MODULUS, (i / 8) % MODULUS))
  }

  // ---------- the low bit of a task checksum ----------

  lemma XorLowBit(x: Word, y: Word)
    ensures Xor(x, y) % 2 == (x + y) % 2
  {
    hide XorBits;
    XorUnfold(x, y);
  }

  lemma {:induction false} XorBound(x: nat, y: nat)
    ensures x <= XorBits(x, y) + y && XorBits(x, y) <= x + y
    decreases x + y
  {
    if x > 0 || y > 0 {
      XorBound(x / 2, y / 2);
    }
  }

  /** How many values are odd. */
  function Odds(v: seq<Word>): nat {
    if v == [] then 0 else Odds(v[..|v| - 1]) + v[|v| - 1] % 2
  }

  lemma {:induction false} WrapSumLowBit(v: seq<Word>)
    ensures WrapSum(v) % 2 == Odds(v) % 2
  {
    if v != [] {
      WrapSumLowBit(v[..|v| - 1]);
    }
  }

  /** The gaps telescope in the low bit. */
  lemma {:induction false} GapLowBit(v: seq<Word>)
    requires v != []
    ensures GapXor(v) % 2 == (v[0] as int + v[|v| - 1] as int) % 2
  {
    hide Xor;
    if |v| > 1 {
      var init := v[..|v| - 1];
      GapLowBit(init);
      XorLowBit(GapXor(init), Minus(v[|v| - 1], v[|v| - 2]));
    }
  }

  /** The low bit of a task checksum, from the sum, the least and the greatest value. */
  lemma TaskLowBit(v: seq<Word>, lo: nat, hi: nat)
    requires lo < |v| && hi < |v| && forall k :: 0 <= k < |v| ==> v[lo] <= v[k] <= v[hi]
    ensures TaskChecksum(v) % 2 == (Odds(v) + v[lo] + v[hi]) % 2
  {
    hide Xor, GapXor, WrapSum, Odds, Sorted;
    var s := Sorted(v);
    SortedSorts(v);
    assert s[0] in multiset(v) && s[|s| - 1] in multiset(v) && v[lo] in multiset(s) && v[hi] in multiset(s);
    assert s[0] == v[lo] && s[|s| - 1] == v[hi];
    WrapSumLowBit(v);
    GapLowBit(s);
    XorLowBit(WrapSum(v), GapXor(s));
  }

  // ---------- the generated values ----------

  lemma SmallMod(x: nat)
    requires x < MODULUS
    ensures x % MODULUS == x
  {
  }

  lemma MixedAt(i: nat)
    requires i < 268
    ensures Mixed(Generated(268), i) == Xor(Xor(i * FACTOR, i / 8), i * 17)
  {
    hide Xor;
    SmallMod(i * FACTOR);
    SmallMod(i / 8);
    SmallMod(i * 17);
  }

  lemma ValueLowBit(x: Word, y: Word, z: Word)
    ensures Xor(Xor(x, y), z) % 2 == (x + y + z) % 2
  {
    hide Xor;
    XorLowBit(x, y);
    XorLowBit(Xor(x, y), z);
  }

  lemma ValueBound(x: Word, y: Word, z: Word)
    ensures x <= Xor(Xor(x, y), z) + y + z && Xor(Xor(x, y), z) <= x + y + z
  {
    hide XorBits;
    XorBound(x, y);
    XorBound(Xor(x, y), z);
  }

  /** Value `i` is close to i * FACTOR, and its low bit is bit 3 of i. */
  lemma MixedValue(i: nat)
    requires i < 268
    ensures var m := Mixed(Generated(268), i);
      m % 2 == (i / 8) % 2 && i * FACTOR <= m + 5000 && m <= i * FACTOR + 5000 && (i == 0 ==> m == 0)
  {
    hide Xor, Mixed, Generated;
    MixedAt(i);
    ValueLowBit(i * FACTOR, i / 8, i * 17);
    ValueBound(i * FACTOR, i / 8, i * 17);
  }

  function LocalValues(): (v: seq<Word>)
    ensures |v| == 268 && forall k :: 0 <= k < 268 ==> v[k] == Mixed(Generated(268), k)
  {
    Values(Generated(268), 0, LocalOrder(268))
  }

  function StrideValues(): (v: seq<Word>)
    ensures |v| == 268 && forall k :: 0 <= k < 268 ==> v[k] == Mixed(Generated(268), 67 * (k % 4))
  {
    StrideFour();
    Values(Generated(268), 0, StrideOrder(268))
  }

  lemma StrideFour()
    ensures forall k :: 0 <= k < 268 ==> StrideOrder(268)[k] == 67 * (k % 4)
  {
    forall k | 0 <= k < 268 ensures (k * STRIDE) % 268 == 67 * (k % 4) {
      ModOf(k * STRIDE, 67 * (k % 4), 268, k / 4);
    }
  }

  lemma BitStep(m: nat)
    ensures 8 * ((m + 1) / 16) + Monus((m + 1) % 16, 8) == 8 * (m / 16) + Monus(m % 16, 8) + (m / 8) % 2
  {
    var q, r := m / 16, m % 16;
    assert m == 16 * q + r;
    if r < 15 {
      assert (m + 1) / 16 == q && (m + 1) % 16 == r + 1;
    } else {
      assert (m + 1) / 16 == q + 1 && (m + 1) % 16 == 0;
    }
    assert m / 8 == 2 * q + r / 8;
  }

  lemma {:induction false} LocalOdds(n: nat)
    requires n <= 268
    ensures Odds(LocalValues()[..n]) == 8 * (n / 16) + Monus(n % 16, 8)
  {
    hide LocalValues, Mixed;
    if n > 0 {
      LocalOdds(n - 1);
      MixedValue(n - 1);
      BitStep(n - 1);
      assert LocalValues()[..n][..n - 1] == LocalValues()[..n - 1];
    }
  }

  lemma {:induction false} StrideOdds(n: nat)
    requires n <= 268
    ensures Odds(StrideValues()[..n]) == n / 4
  {
    hide StrideValues, Mixed;
    if n > 0 {
      StrideOdds(n - 1);
      MixedValue(67 * ((n - 1) % 4));
      assert StrideValues()[..n][..n - 1] == StrideValues()[..n - 1];
    }
  }

  /** The later of two indices has the greater value. */
  lemma MixedGrows(i: nat, j: nat)
    requires i <= j < 268
    ensures Mixed(Generated(268), i) <= Mixed(Generated(268), j)
  {
    hide Mixed;
    MixedValue(i);
    MixedValue(j);
  }

  lemma LocalLowBit()
    ensures TaskChecksum(LocalValues()) % 2 == 1
  {
    hide TaskChecksum, LocalValues, Mixed, Odds;
    var v := LocalValues();
    forall k | 0 <= k < 268 ensures v[0] <= v[k] <= v[267] {
      MixedGrows(0, k);
      MixedGrows(k, 267);
    }
    LocalOdds(268);
    assert v[..268] == v;
    MixedValue(0);
    MixedValue(267);
    TaskLowBit(v, 0, 267);
  }

  lemma StrideLowBit()
    ensures TaskChecksum(StrideValues()) % 2 == 0
  {
    hide TaskChecksum, StrideValues, Mixed, Odds;
    var v := StrideValues();
    forall k | 0 <= k < 268 ensures v[0] <= v[k] <= v[3] {
      MixedGrows(0, 67 * (k % 4));
      MixedGrows(67 * (k % 4), 201);
    }
    StrideOdds(268);
    assert v[..268] == v;
    MixedValue(0);
    MixedValue(201);
    TaskLowBit(v, 0, 3);
  }

  /** On its own data, with workload and chunk size 268, the engine's two access patterns give
      different checksums. */
  lemma GeneratedDataDisagrees()
    ensures !AgreeOn(Generated(268), 268)
  {
    hide TaskChecksum, Values, Xor, Generated, StrideOrder, LocalOrder;
    var d, items := Generated(268), Items(268, 268);
    assert items == [WorkItem(0, 0, 268)] by { assert ItemsFrom(268, 268, 1, 268) == []; }
    LocalLowBit();
    StrideLowBit();
    var local, stride := ItemChecksums(d, items, CacheLocal), ItemChecksums(d, items, CacheUnfriendly);
    XorOfOne(local, 0);
    XorOfOne(stride, 0);
    assert local[0] == TaskChecksum(LocalValues()) && stride[0] == TaskChecksum(StrideValues());
  }

  // ---------- one answer in full ----------

  lemma FactorXor17()
    ensures XorBits(FACTOR, 17) == 0x9E37_79A0
  {
    hide XorBits;
    XorUnfold(FACTOR, 17);
    XorUnfold(FACTOR / 2, 8);
    XorUnfold(FACTOR / 4, 4);
    XorUnfold(FACTOR / 8, 2);
    XorUnfold(FACTOR / 16, 1);
    XorBitsBasics(FACTOR / 32, 0);
  }

  lemma ThreeValues()
    ensures Values(Generated(3), 0, LocalOrder(3)) == [0, 0x9E37_79A0, 0x1_3C6E_F340]
  {
    hide XorBits;
    FactorXor17();
    XorUnfold(2 * FACTOR, 34);
    XorLaws(0, 0, 0);
    XorLaws(FACTOR, 0, 0);
    XorLaws(2 * FACTOR, 0, 0);
    var d := Generated(3);
    assert d[0] == Xor(0, 0) && d[1] == Xor(FACTOR, 0) && d[2] == Xor(2 * FACTOR, 0);
  }

  lemma ThreeChecksum(a: Word, b: Word)
    requires a > 0 && b == 2 * a
    ensures TaskChecksum([0, a, b]) == Plus(a, b)
  {
    hide Xor, Sorted, WrapSum, GapXor;
    var v := [0, a, b];
    SortedIsUnique(v, v);
    var s, g: Word := WrapSum(v), GapXor(v);
    ThreeFolds(a, b);
    XorLaws(s, 0, 0);
  }

  /** The two gaps are equal and cancel. */
  lemma ThreeFolds(a: Word, b: Word)
    requires a > 0 && b == 2 * a
    ensures WrapSum([0, a, b]) == Plus(a, b) && GapXor([0, a, b]) == 0
  {
    hide Xor;
    var v: seq<Word>, u: seq<Word>, z: seq<Word> := [0, a, b], [0, a], [0];
    assert v[..2] == u && u[..1] == z && z[..0] == [];
    assert WrapSum(u) == Plus(WrapSum(z), a) && WrapSum(z) == Plus(WrapSum([]), 0);
    assert GapXor(v) == Xor(GapXor(u), Minus(b, a)) && GapXor(u) == Xor(GapXor(z), Minus(a, 0));
    XorLaws(0, a, a);
    XorLaws(a, 0, 0);
  }

  /** Workload and chunk size 3 on the generated data, cache-local: the whole answer. */
  lemma AnswerForThree()
    ensures RunChecksum(Generated(3), 3, CacheLocal) == 0x1_DAA6_6CE0
  {
    hide TaskChecksum, Values, Xor, Generated, LocalOrder;
    var d, items := Generated(3), Items(3, 3);
    assert items == [WorkItem(0, 0, 3)] by { assert ItemsFrom(3, 3, 1, 3) == []; }
    ThreeValues();
    ThreeChecksum(0x9E37_79A0, 0x1_3C6E_F340);
    var all := ItemChecksums(d, items, CacheLocal);
    XorOfOne(all, 0);
  }
}
