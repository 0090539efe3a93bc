/** Exactly when the cache-unfriendly run gives the checksum of the cache-local run. */
module AccessPatterns {
  import opened Arithmetic
  import opened Checksum
  import opened StrideWalk
  import opened TaskWork

  function MixedOrZero(data: seq<Word>, i: nat): Word {
    if i < |data| then Mixed(data, i) else 0
  }

  lemma MixedInRange(data: seq<Word>, i: nat)
    requires i < |data|
    ensures MixedOrZero(data, i) == Mixed(data, i)
  {
    hide Mixed;
  }

  /** Visiting a permutation of the same indices collects the same values. */
  lemma ValuesOrder(data: seq<Word>, begin: nat, p: seq<nat>, q: seq<nat>)
    requires multiset(p) == multiset(q)
    requires (forall k :: 0 <= k < |p| ==> begin + p[k] < |data|)
      && (forall k :: 0 <= k < |q| ==> begin + q[k] < |data|)
    ensures multiset(Values(data, begin, p)) == multiset(Values(data, begin, q))
  {
    hide Mixed, MixedOrZero;
    var f: nat -> Word := (i: nat) => MixedOrZero(data, begin + i);
    forall k | 0 <= k < |p| ensures Values(data, begin, p)[k] == Mapped(f, p)[k] {
      MixedInRange(data, begin + p[k]);
    }
    forall k | 0 <= k < |q| ensures Values(data, begin, q)[k] == Mapped(f, q)[k] {
      MixedInRange(data, begin + q[k]);
    }
    assert Values(data, begin, p) == Mapped(f, p) && Values(data, begin, q) == Mapped(f, q);
    MappedOrder(f, p, q);
  }

  /** One chunk: the patterns agree on all data when 67 does not divide the span. */
  lemma ItemAgrees(data: seq<Word>, item: WorkItem)
    requires ItemFits(data, item) && (item.end - item.begin) % 67 != 0
    ensures ItemChecksum(data, item, CacheUnfriendly) == ItemChecksum(data, item, CacheLocal)
  {
    hide TaskChecksum, StrideOrder, Values;
    var span := item.end - item.begin;
    StrideIsPermutationIff(span);
    ValuesOrder(data, item.begin, StrideOrder(span), LocalOrder(span));
    ChecksumOrder(Values(data, item.begin, StrideOrder(span)), Values(data, item.begin, LocalOrder(span)));
  }

  // ---------- which sizes have a bad chunk ----------

  ghost predicate HasBadItem(items: seq<WorkItem>) {
    exists k :: 0 <= k < |items| && BadItem(items[k])
  }

  ghost predicate BadItem(item: WorkItem) {
    (item.end - item.begin) % 67 == 0
  }

  /** Some full chunk, or the last short one, is a multiple of 67. */
  predicate BadSizes(n: nat, chunk: nat)
    requires chunk > 0
  {
    (n >= chunk && chunk % 67 == 0) || (Rest(n, chunk) != 0 && Rest(n, chunk) % 67 == 0)
  }

  lemma ModDown(r: nat, c: nat)
    requires c > 0 && r >= c
    ensures (r - c) % c == r % c
  {
    ModOf(r - c, r % c, c, r / c - 1);
  }

  function Rest(r: nat, chunk: nat): nat
    requires chunk > 0
  {
    r % chunk
  }

  lemma RestStep(r: nat, chunk: nat)
    requires chunk > 0
    ensures r < chunk ==> Rest(r, chunk) == r
    ensures r == chunk ==> Rest(r, chunk) == 0
    ensures r >= chunk ==> Rest(r, chunk) == Rest(r - chunk, chunk)
  {
    if r < chunk {
      ModOf(r, r, chunk, 0);
    } else {
      ModDown(r, chunk);
      if r == chunk { ModOf(r, 0, chunk, 1); }
    }
  }

  lemma SizesStep(r: nat, chunk: nat)
    requires chunk > 0 && r > 0
    ensures r < chunk ==> (BadSizes(r, chunk) <==> r % 67 == 0)
    ensures r == chunk ==> (BadSizes(r, chunk) <==> chunk % 67 == 0)
    ensures r > chunk ==> (BadSizes(r, chunk) <==> chunk % 67 == 0 || BadSizes(r - chunk, chunk))
  {
    hide Rest;
    RestStep(r, chunk);
  }

  lemma HasBadCons(item: WorkItem, rest: seq<WorkItem>)
    ensures HasBadItem([item] + rest) <==> BadItem(item) || HasBadItem(rest)
  {
    hide BadItem;
    var items := [item] + rest;
    if HasBadItem(rest) {
      var k :| 0 <= k < |rest| && BadItem(rest[k]);
      assert items[k + 1] == rest[k];
    }
    if BadItem(item) {
      assert items[0] == item;
    }
  }

  lemma {:induction false} BadSizesIff(n: nat, chunk: nat, id: nat, begin: nat)
    requires chunk > 0
    ensures HasBadItem(ItemsFrom(n, chunk, id, begin)) <==> begin < n && BadSizes(n - begin, chunk)
    decreases if begin < n then n - begin else 0
  {
    hide BadSizes, HasBadItem;
    if begin < n {
      BadSizesIff(n, chunk, id + 1, begin + chunk);
      HasBadCons(WorkItem(id, begin, Min(begin + chunk, n)), ItemsFrom(n, chunk, id + 1, begin + chunk));
      SizesStep(n - begin, chunk);
      NoneBad();
    } else {
      NoneBad();
    }
  }

  lemma NoneBad()
    ensures !HasBadItem([])
  {
  }

  // ---------- data that tells the patterns apart ----------

  function Spike(b: nat, i: nat): Word {
    if i == b + 1 || i == b + 2 then 1 else 0
  }

  /** Data whose mixed values are zero but for two ones, at b + 1 and b + 2. */
  function SpikeData(n: nat, b: nat): (d: seq<Word>)
    ensures |d| == n
  {
    seq(n, i requires 0 <= i < n => Xor(Spike(b, i), (i * 17) % MODULUS))
  }

  lemma SpikeMixed(n: nat, b: nat, i: nat)
    requires i < n
    ensures Mixed(SpikeData(n, b), i) == Spike(b, i)
  {
    hide Xor;
    XorLaws(Spike(b, i), (i * 17) % MODULUS, (i * 17) % MODULUS);
    XorLaws((i * 17) % MODULUS, 0, 0);
  }

  function Zeros(n: nat): seq<Word> {
    seq(n, _ => 0)
  }

  lemma {:induction false} ZerosFold(n: nat)
    ensures WrapSum(Zeros(n)) == 0 && GapXor(Zeros(n)) == 0 && Ascending(Zeros(n))
  {
    hide Xor;
    if n > 0 {
      ZerosFold(n - 1);
      assert Zeros(n)[..n - 1] == Zeros(n - 1);
      XorLaws(0, 0, 0);
    }
  }

  lemma ZerosChecksum(n: nat)
    ensures TaskChecksum(Zeros(n)) == 0
  {
    hide Xor, WrapSum, GapXor, Sorted;
    ZerosFold(n);
    SortedIsUnique(Zeros(n), Zeros(n));
    XorLaws(0, 0, 0);
  }

  lemma TwoOnesFold(n: nat)
    requires n > 0
    ensures var v := Zeros(n) + [1, 1]; WrapSum(v) == 2 && GapXor(v) == 1 && Ascending(v)
  {
    hide Xor;
    var v, u := Zeros(n) + [1, 1], Zeros(n) + [1];
    assert v[..n + 1] == u && u[..n] == Zeros(n);
    ZerosFold(n);
    XorLaws(0, 1, 0);
    XorLaws(1, 0, 0);
  }

  lemma TwoOnesChecksum(n: nat)
    requires n > 0
    ensures TaskChecksum(Zeros(n) + [1, 1]) != 0
  {
    hide WrapSum, GapXor, Sorted, XorBits;
    TwoOnesFold(n);
    SortedIsUnique(Zeros(n) + [1, 1], Zeros(n) + [1, 1]);
    XorUnfold(2, 1);
  }

  /** Two ones among zeros, behind the first value. */
  lemma SpikedLocal(v: seq<Word>)
    requires |v| > 3 && forall k :: 0 <= k < |v| ==> v[k] == Spike(0, k)
    ensures TaskChecksum(v) != 0
  {
    hide TaskChecksum, Xor;
    var span := |v|;
    assert v == [0, 1, 1] + Zeros(span - 3);
    assert Zeros(span - 2) == [0] + Zeros(span - 3);
    ChecksumOrder(v, Zeros(span - 2) + [1, 1]);
    TwoOnesChecksum(span - 2);
  }

  lemma AllZeros(v: seq<Word>)
    requires forall k :: 0 <= k < |v| ==> v[k] == 0
    ensures TaskChecksum(v) == 0
  {
    hide TaskChecksum;
    assert v == Zeros(|v|);
    ZerosChecksum(|v|);
  }

  /** On the spiked chunk the local walk meets the two ones, and the stride walk meets none. */
  lemma SpikedItem(n: nat, item: WorkItem)
    requires item.begin < item.end <= n && BadItem(item)
    ensures var d := SpikeData(n, item.begin);
      ItemChecksum(d, item, CacheLocal) != 0 && ItemChecksum(d, item, CacheUnfriendly) == 0
  {
    hide TaskChecksum, Mixed, SpikeData, StrideOrder, Xor;
    var d, b, span := SpikeData(n, item.begin), item.begin, item.end - item.begin;
    var local, stride := Values(d, b, LocalOrder(span)), Values(d, b, StrideOrder(span));
    forall k | 0 <= k < span ensures local[k] == Spike(0, k) && stride[k] == 0 {
      SpikeMixed(n, b, b + k);
      SpikeMixed(n, b, b + StrideOrder(span)[k]);
      StrideMisses(span, k);
    }
    BadSpan(item);
    AllZeros(stride);
    SpikedLocal(local);
  }

  /** Elsewhere every value is zero in both walks. */
  lemma QuietItem(n: nat, b: nat, item: WorkItem, pattern: Pattern)
    requires item.begin <= item.end <= n && (item.end <= b || b + 2 < item.begin)
    ensures ItemChecksum(SpikeData(n, b), item, pattern) == 0
  {
    hide TaskChecksum, Mixed, SpikeData, LocalOrder, StrideOrder;
    var span := item.end - item.begin;
    var order := Visit(pattern, span);
    var v := Values(SpikeData(n, b), item.begin, order);
    forall k | 0 <= k < span ensures v[k] == 0 {
      SpikeMixed(n, b, item.begin + order[k]);
    }
    assert v == Zeros(span);
    ZerosChecksum(span);
  }

  lemma {:induction false} TilesInOrder(items: seq<WorkItem>, n: nat, chunk: nat, i: nat, j: nat)
    requires Tiles(items, 0, 0, n, chunk) && i < j < |items|
    ensures items[i].end <= items[j].begin
    decreases j
  {
    if i < j - 1 {
      TilesInOrder(items, n, chunk, i, j - 1);
    }
  }

  lemma {:induction false} XorOfOne(v: seq<Word>, k: nat)
    requires k < |v| && forall i :: 0 <= i < |v| && i != k ==> v[i] == 0
    ensures XorAll(v) == v[k]
  {
    hide Xor;
    var init := v[..|v| - 1];
    if k < |v| - 1 {
      XorOfOne(init, k);
      XorLaws(v[k], 0, 0);
    } else {
      XorOfZeros(init);
      XorLaws(v[k], 0, 0);
    }
  }

  lemma {:induction false} XorOfZeros(v: seq<Word>)
    requires forall i :: 0 <= i < |v| ==> v[i] == 0
    ensures XorAll(v) == 0
  {
    hide Xor;
    if v != [] {
      XorOfZeros(v[..|v| - 1]);
      XorLaws(0, 0, 0);
    }
  }

  ghost predicate AgreeOn(data: seq<Word>, chunk: nat)
    requires chunk > 0
  {
    RunChecksum(data, chunk, CacheUnfriendly) == RunChecksum(data, chunk, CacheLocal)
  }

  lemma BadItemDisagrees(n: nat, chunk: nat, k: nat)
    requires chunk > 0 && k < |Items(n, chunk)| && BadItem(Items(n, chunk)[k])
    ensures exists data: seq<Word> :: |data| == n && !AgreeOn(data, chunk)
  {
    hide Xor, XorAll, ItemChecksum, SpikeData, BadItem;
    var items := Items(n, chunk);
    ItemsTile(n, chunk, 0, 0);
    var d := SpikeData(n, items[k].begin);
    SpikedItem(n, items[k]);
    BadSpan(items[k]);
    var local, stride := ItemChecksums(d, items, CacheLocal), ItemChecksums(d, items, CacheUnfriendly);
    forall i | 0 <= i < |items| && i != k ensures local[i] == 0 && stride[i] == 0 {
      if i < k { TilesInOrder(items, n, chunk, i, k); } else { TilesInOrder(items, n, chunk, k, i); }
      QuietItem(n, items[k].begin, items[i], CacheLocal);
      QuietItem(n, items[k].begin, items[i], CacheUnfriendly);
    }
    XorOfOne(local, k);
    XorOfOne(stride, k);
    assert |d| == n && !AgreeOn(d, chunk);
  }

  lemma BadSpan(item: WorkItem)
    requires item.begin < item.end && BadItem(item)
    ensures item.begin + 67 <= item.end
  {
  }

  /** The cache-unfriendly and cache-local runs have the same checksum for all data of a size
      exactly when no chunk of that size is a multiple of 67. */
  lemma PatternsAgreeIff(n: nat, chunk: nat)
    requires chunk > 0
    ensures (forall data: seq<Word> :: |data| == n ==> AgreeOn(data, chunk)) <==> !BadSizes(n, chunk)
  {
    hide Xor, XorAll, ItemChecksum, BadSizes, RunChecksum;
    BadSizesIff(n, chunk, 0, 0);
    EmptySizes(chunk);
    var items := Items(n, chunk);
    if HasBadItem(items) {
      var k :| 0 <= k < |items| && BadItem(items[k]);
      BadItemDisagrees(n, chunk, k);
    } else {
      forall data: seq<Word> | |data| == n ensures AgreeOn(data, chunk) {
        GoodItemsAgree(data, chunk);
      }
    }
  }

  lemma EmptySizes(chunk: nat)
    requires chunk > 0
    ensures !BadSizes(0, chunk)
  {
  }

  lemma GoodItemsAgree(data: seq<Word>, chunk: nat)
    requires chunk > 0 && !HasBadItem(Items(|data|, chunk))
    ensures AgreeOn(data, chunk)
  {
    hide Xor, XorAll, ItemChecksum;
    var items := Items(|data|, chunk);
    ItemsFit(|data|, chunk);
    forall k | 0 <= k < |items|
      ensures ItemChecksum(data, items[k], CacheUnfriendly) == ItemChecksum(data, items[k], CacheLocal)
    {
      assert !BadItem(items[k]);
      ItemAgrees(data, items[k]);
    }
    assert ItemChecksums(data, items, CacheUnfriendly) == ItemChecksums(data, items, CacheLocal);
  }
}
