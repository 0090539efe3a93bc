/** Chunking, the work done on one chunk in either access pattern, and the sequential run. */
module TaskWork {
  import opened Arithmetic
  import opened Checksum
  import opened StrideWalk

  datatype Pattern = CacheLocal | CacheUnfriendly

  datatype WorkItem = WorkItem(id: nat, begin: nat, end: nat)

  datatype Metrics = Metrics(tasksCompleted: nat, allocations: nat)

  // ---------- chunking ----------

  /** The items from item `id`, starting at `begin`, on. */
  function ItemsFrom(n: nat, chunk: nat, id: nat, begin: nat): seq<WorkItem>
    requires chunk > 0
    decreases if begin < n then n - begin else 0
  {
    if begin >= n then [] else
    [WorkItem(id, begin, Min(begin + chunk, n))] + ItemsFrom(n, chunk, id + 1, begin + chunk)
  }

  function Items(n: nat, chunk: nat): seq<WorkItem>
    requires chunk > 0
  {
    ItemsFrom(n, chunk, 0, 0)
  }

  /** build_work_items. */
  method BuildWorkItems(n: nat, chunk: nat) returns (items: seq<WorkItem>)
    requires chunk > 0
    ensures items == Items(n, chunk)
  {
    items := [];
    var id, begin := 0, 0;
    while begin < n
      invariant items + ItemsFrom(n, chunk, id, begin) == Items(n, chunk)
      decreases if begin < n then n - begin else 0
    {
      var end := Min(begin + chunk, n);
      ghost var rest := ItemsFrom(n, chunk, id + 1, begin + chunk);
      assert (items + [WorkItem(id, begin, end)]) + rest == items + ([WorkItem(id, begin, end)] + rest);
      items := items + [WorkItem(id, begin, end)];
      id := id + 1;
      begin := begin + chunk;
    }
  }

  /** The items cut the data into consecutive, non-empty chunks without gap or overlap. */
  ghost predicate Tiles(items: seq<WorkItem>, id: nat, begin: nat, n: nat, chunk: nat) {
    && (forall k :: 0 <= k < |items| ==>
         items[k].id == id + k && items[k].begin < items[k].end <= n && items[k].end - items[k].begin <= chunk)
    && (forall k :: 0 <= k < |items| - 1 ==> items[k].end - items[k].begin == chunk)
    && (forall k, m :: 0 <= k && m == k + 1 && m < |items| ==> items[m].begin == items[k].end)
    && (items != [] ==> items[0].begin == begin && items[|items| - 1].end == n)
    && (items == [] ==> begin >= n)
  }

  lemma TilesCons(first: WorkItem, rest: seq<WorkItem>, id: nat, begin: nat, n: nat, chunk: nat)
    requires chunk > 0 && begin < n && first == WorkItem(id, begin, Min(begin + chunk, n))
    requires Tiles(rest, id + 1, begin + chunk, n, chunk)
    ensures Tiles([first] + rest, id, begin, n, chunk)
  {
    var items := [first] + rest;
    forall k | 0 < k < |items| ensures items[k] == rest[k - 1] {}
    forall k, m | 0 <= k && m == k + 1 && m < |items| ensures items[m].begin == items[k].end {
      if k > 0 {
        assert rest[m - 1].begin == rest[k - 1].end;
      }
    }
  }

  lemma {:induction false} ItemsTile(n: nat, chunk: nat, id: nat, begin: nat)
    requires chunk > 0
    ensures Tiles(ItemsFrom(n, chunk, id, begin), id, begin, n, chunk)
    decreases if begin < n then n - begin else 0
  {
    if begin < n {
      ItemsTile(n, chunk, id + 1, begin + chunk);
      TilesCons(WorkItem(id, begin, Min(begin + chunk, n)), ItemsFrom(n, chunk, id + 1, begin + chunk), id, begin, n,
        chunk);
    }
  }

  /** The k-th item in closed form, and their number: as many as full or partial chunks. */
  lemma {:induction false} ItemAt(n: nat, chunk: nat, id: nat, begin: nat, k: nat)
    requires chunk > 0 && begin == id * chunk && k < |ItemsFrom(n, chunk, id, begin)|
    ensures ItemsFrom(n, chunk, id, begin)[k] == WorkItem(id + k, (id + k) * chunk, Min((id + k) * chunk + chunk, n))
    decreases k
  {
    if k > 0 {
      Distribute(chunk, id, 1);
      ItemAt(n, chunk, id + 1, begin + chunk, k - 1);
    }
  }

  /** i * chunk is the start of a chunk exactly for i below the number of items. */
  lemma {:induction false} ItemCount(n: nat, chunk: nat, id: nat, begin: nat, i: nat)
    requires chunk > 0 && begin == id * chunk && id <= i
    ensures i * chunk < n <==> i - id < |ItemsFrom(n, chunk, id, begin)|
    decreases if begin < n then n - begin else 0
  {
    if begin < n {
      Distribute(chunk, id, 1);
      if i > id {
        ItemCount(n, chunk, id + 1, begin + chunk, i);
      }
    } else {
      LargerMultiple(id, i, chunk);
    }
  }

  lemma {:induction false} LargerMultiple(a: nat, b: nat, c: nat)
    requires a <= b
    ensures a * c <= b * c
    decreases b - a
  {
    if a < b {
      LargerMultiple(a, b - 1, c);
      Distribute(c, b - 1, 1);
    }
  }

  /** The C benchmark's own chunking loop: task_count items, the i-th starting at i * chunk. */
  method BuildBenchmarkItems(n: nat, chunk: nat) returns (items: seq<WorkItem>)
    requires chunk > 0
    ensures items == Items(n, chunk)
  {
    var taskCount := (n + chunk - 1) / chunk;
    ghost var all := Items(n, chunk);
    TaskCount(n, chunk);
    items := [];
    for i := 0 to taskCount
      invariant items == all[..i]
    {
      var begin := i * chunk;
      var end := begin + chunk;
      if end > n {
        end := n;
      }
      ItemAt(n, chunk, 0, 0, i);
      items := items + [WorkItem(i, begin, end)];
    }
    assert all[..taskCount] == all;
  }

  lemma TaskCount(n: nat, chunk: nat)
    requires chunk > 0
    ensures |Items(n, chunk)| == (n + chunk - 1) / chunk
  {
    var q, r := (n + chunk - 1) / chunk, (n + chunk - 1) % chunk;
    assert n + chunk - 1 == q * chunk + r;
    ItemCount(n, chunk, 0, 0, q);
    if q > 0 {
      Distribute(chunk, q - 1, 1);
      ItemCount(n, chunk, 0, 0, q - 1);
    }
  }

  // ---------- one chunk ----------

  /** data[i] ^ (i * 17), in 64 bits. */
  function Mixed(data: seq<Word>, i: nat): Word
    requires i < |data|
  {
    Xor(data[i], (i * 17) % MODULUS)
  }

  function Visit(pattern: Pattern, span: nat): (r: seq<nat>)
    ensures |r| == span && forall k :: 0 <= k < span ==> r[k] < span
  {
    if pattern == CacheLocal then LocalOrder(span) else StrideOrder(span)
  }

  function Values(data: seq<Word>, begin: nat, order: seq<nat>): (r: seq<Word>)
    requires forall k :: 0 <= k < |order| ==> begin + order[k] < |data|
    ensures |r| == |order|
  {
    seq(|order|, k requires 0 <= k < |order| => Mixed(data, begin + order[k]))
  }

  predicate ItemFits(data: seq<Word>, item: WorkItem) {
    item.begin <= item.end <= |data|
  }

  function ItemChecksum(data: seq<Word>, item: WorkItem, pattern: Pattern): Word
    requires item.begin <= item.end <= |data|
  {
    TaskChecksum(Values(data, item.begin, Visit(pattern, item.end - item.begin)))
  }

  /** `v` holds data[i] ^ (i * 17) for the indices of the chunk, in visiting order. */
  ghost predicate Visits(data: seq<Word>, item: WorkItem, pattern: Pattern, v: seq<Word>)
    requires ItemFits(data, item)
  {
    var span := item.end - item.begin;
    && |v| == span
    && forall k :: 0 <= k < span ==>
         var i := item.begin + (if pattern == CacheLocal then k else (k * 67) % span);
         Xor(v[k], data[i]) == (i * 17) % MODULUS
  }

  /** What a chunk's checksum is: the sum of its values with the gaps of the sorted values. */
  ghost predicate ChunkAnswer(data: seq<Word>, item: WorkItem, pattern: Pattern, c: Word)
    requires ItemFits(data, item)
  {
    exists v: seq<Word> :: Visits(data, item, pattern, v) && SumWithGaps(v, c)
  }

  lemma MixedUnmixed(data: seq<Word>, i: nat)
    requires i < |data|
    ensures Xor(Mixed(data, i), data[i]) == (i * 17) % MODULUS
  {
    hide Xor;
    XorLaws(data[i], (i * 17) % MODULUS, data[i]);
    XorLaws((i * 17) % MODULUS, data[i], data[i]);
    XorLaws((i * 17) % MODULUS, 0, 0);
  }

  lemma ItemChecksumMeaning(data: seq<Word>, item: WorkItem, pattern: Pattern)
    requires ItemFits(data, item)
    ensures ChunkAnswer(data, item, pattern, ItemChecksum(data, item, pattern))
  {
    hide Xor, TaskChecksum, SumWithGaps, Mixed;
    var span := item.end - item.begin;
    var order := Visit(pattern, span);
    var v := Values(data, item.begin, order);
    forall k | 0 <= k < span
      ensures var i := item.begin + (if pattern == CacheLocal then k else (k * 67) % span);
        Xor(v[k], data[i]) == (i * 17) % MODULUS
    {
      assert order[k] == if pattern == CacheLocal then k else (k * 67) % span;
      MixedUnmixed(data, item.begin + order[k]);
    }
    TaskChecksumMeaning(v);
  }

  /** process_work: collect in visiting order, sort, then fold the gaps into the sum. */
  method ProcessWork(data: seq<Word>, item: WorkItem, pattern: Pattern, metrics: Metrics) returns (r: Word, m: Metrics)
    requires ItemFits(data, item)
    ensures r == ItemChecksum(data, item, pattern) && ChunkAnswer(data, item, pattern, r)
    ensures m.allocations == metrics.allocations + 1
    ensures m.tasksCompleted ==
      metrics.tasksCompleted + (if pattern == CacheUnfriendly && item.begin == item.end then 0 else 1)
  {
    hide Xor, Plus, Minus, GapXor, Sorted, WrapSum, ChunkAnswer, Gaps, XorAll;
    ItemChecksumMeaning(data, item, pattern);
    EmptyChecksum();
    var local: Word := 0;
    var temporary: seq<Word> := [];
    var span := item.end - item.begin;
    m := metrics.(allocations := metrics.allocations + 1);
    ghost var all := Values(data, item.begin, Visit(pattern, span));
    if pattern == CacheLocal {
      for i := item.begin to item.end
        invariant |temporary| == i - item.begin && temporary == all[..i - item.begin] && local == WrapSum(temporary)
      {
        var value := Xor(data[i], (i * 17) % MODULUS);
        AddValue(all, i - item.begin, value);
        temporary := temporary + [value];
        local := Plus(local, value);
      }
    } else {
      if span == 0 {
        assert all == [];
        return 0, m;
      }
      for offset := 0 to span
        invariant |temporary| == offset && temporary == all[..offset] && local == WrapSum(temporary)
      {
        var index := item.begin + (offset * STRIDE) % span;
        var value := Xor(data[index], (index * 17) % MODULUS);
        assert StrideOrder(span)[offset] == (offset * STRIDE) % span;
        AddValue(all, offset, value);
        temporary := temporary + [value];
        local := Plus(local, value);
      }
    }
    assert temporary == all;
    temporary := Sorted(temporary);
    local := FoldGaps(local, temporary);
    m := m.(tasksCompleted := m.tasksCompleted + 1);
    r := local;
  }

  lemma EmptyChecksum()
    ensures TaskChecksum([]) == 0 && WrapSum([]) == 0
  {
    XorLaws(0, 0, 0);
  }

  /** One more collected value. */
  lemma AddValue(all: seq<Word>, k: nat, value: Word)
    requires k < |all| && all[k] == value
    ensures all[..k] + [value] == all[..k + 1] && WrapSum(all[..k + 1]) == Plus(WrapSum(all[..k]), value)
  {
    assert all[..k + 1][..k] == all[..k];
  }

  /** The last loop of process_work. */
  method FoldGaps(start: Word, sorted: seq<Word>) returns (r: Word)
    ensures r == Xor(start, GapXor(sorted))
    ensures exists g: seq<Word> :: Gaps(sorted, g) && r == Xor(start, XorAll(g))
  {
    hide Xor, Minus, Gaps;
    r := start;
    XorLaws(start, 0, 0);
    ghost var g := GapsOf(sorted);
    if |sorted| <= 1 { return; }
    for i := 1 to |sorted|
      invariant r == Xor(start, GapXor(sorted[..i]))
    {
      assert sorted[..i + 1][..i] == sorted[..i];
      XorLaws(start, GapXor(sorted[..i]), Minus(sorted[i], sorted[i - 1]));
      r := Xor(r, Minus(sorted[i], sorted[i - 1]));
    }
    assert sorted[..|sorted|] == sorted;
  }

  /** The C benchmark's process_item: the same chunk through an array of its own. */
  method ProcessItem(data: seq<Word>, item: WorkItem, allocations: nat) returns (checksum: Word, counted: nat)
    requires ItemFits(data, item)
    ensures checksum == ItemChecksum(data, item, CacheLocal) && ChunkAnswer(data, item, CacheLocal, checksum)
    ensures counted == allocations + 1
  {
    hide Xor, Plus, Minus, GapXor, Sorted, ChunkAnswer, Gaps, XorAll;
    var count := item.end - item.begin;
    var temporary := new Word[count];
    counted := allocations + 1;
    checksum := 0;
    ghost var all := Values(data, item.begin, LocalOrder(count));
    for i := 0 to count
      invariant temporary[..i] == all[..i] && checksum == WrapSum(all[..i])
    {
      var index := item.begin + i;
      temporary[i] := Xor(data[index], (index * 17) % MODULUS);
      assert all[i] == temporary[i];
      assert all[..i + 1][..i] == all[..i];
      checksum := Plus(checksum, temporary[i]);
    }
    assert temporary[..] == all && all[..count] == all;
    checksum := FoldGaps(checksum, Sorted(temporary[..]));
    ItemChecksumMeaning(data, item, CacheLocal);
  }

  // ---------- the sequential run ----------

  /** The checksums of the items, in item order. */
  function ItemChecksums(data: seq<Word>, items: seq<WorkItem>, pattern: Pattern): (r: seq<Word>)
    requires forall k :: 0 <= k < |items| ==> items[k].begin <= items[k].end <= |data|
    ensures |r| == |items|
  {
    seq(|items|, k requires 0 <= k < |items| => ItemChecksum(data, items[k], pattern))
  }

  lemma ItemsFit(n: nat, chunk: nat)
    requires chunk > 0
    ensures forall k :: 0 <= k < |Items(n, chunk)| ==> Items(n, chunk)[k].begin <= Items(n, chunk)[k].end <= n
  {
    ItemsTile(n, chunk, 0, 0);
  }

  function RunChecksum(data: seq<Word>, chunk: nat, pattern: Pattern): Word
    requires chunk > 0
  {
    ItemsFit(|data|, chunk);
    XorAll(ItemChecksums(data, Items(|data|, chunk), pattern))
  }

  /** `c` is the exclusive or of one chunk answer per item. */
  ghost predicate RunAnswer(data: seq<Word>, chunk: nat, pattern: Pattern, c: Word)
    requires chunk > 0
  {
    var items := Items(|data|, chunk);
    exists cs: seq<Word> ::
      && |cs| == |items| && c == XorAll(cs)
      && forall k :: 0 <= k < |items| ==> ItemFits(data, items[k]) && ChunkAnswer(data, items[k], pattern, cs[k])
  }

  lemma RunChecksumMeaning(data: seq<Word>, chunk: nat, pattern: Pattern)
    requires chunk > 0
    ensures RunAnswer(data, chunk, pattern, RunChecksum(data, chunk, pattern))
  {
    hide ItemChecksum, ChunkAnswer, XorAll, ItemsFrom;
    var items := Items(|data|, chunk);
    ItemsFit(|data|, chunk);
    var cs := ItemChecksums(data, items, pattern);
    forall k | 0 <= k < |items| ensures ItemFits(data, items[k]) && ChunkAnswer(data, items[k], pattern, cs[k]) {
      ItemChecksumMeaning(data, items[k], pattern);
    }
  }

  lemma ItemNonEmpty(n: nat, chunk: nat, k: nat)
    requires chunk > 0 && k < |Items(n, chunk)|
    ensures Items(n, chunk)[k].begin < Items(n, chunk)[k].end <= n
  {
    ItemsTile(n, chunk, 0, 0);
  }

  lemma AddChecksum(all: seq<Word>, k: nat)
    requires k < |all|
    ensures XorAll(all[..k + 1]) == Xor(XorAll(all[..k]), all[k])
  {
    assert all[..k + 1][..k] == all[..k];
  }

  /** run_single_threaded. */
  method RunSingleThreaded(data: seq<Word>, chunk: nat, pattern: Pattern) returns (checksum: Word, m: Metrics)
    requires chunk > 0
    ensures checksum == RunChecksum(data, chunk, pattern) && RunAnswer(data, chunk, pattern, checksum)
    ensures m == Metrics(|Items(|data|, chunk)|, |Items(|data|, chunk)|)
  {
    hide Xor, XorAll, ItemChecksum, RunAnswer, ChunkAnswer, ItemsFrom;
    RunChecksumMeaning(data, chunk, pattern);
    var items := BuildWorkItems(|data|, chunk);
    ItemsFit(|data|, chunk);
    ghost var all := ItemChecksums(data, items, pattern);
    m := Metrics(0, 0);
    checksum := 0;
    XorOfNone();
    for k := 0 to |items|
      invariant checksum == XorAll(all[..k]) && m == Metrics(k, k)
    {
      var c: Word;
      ItemNonEmpty(|data|, chunk, k);
      c, m := ProcessWork(data, items[k], pattern, m);
      AddChecksum(all, k);
      checksum := Xor(checksum, c);
    }
    assert all[..|items|] == all;
  }
}
