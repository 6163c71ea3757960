/** Keeping the stored images within their size limit (internal/app/images.go, lines 178-246). */
module ImageEvictor {
  import opened Common

  datatype Item = Item(rel: string, size: nat, createdAt: int)

  // ---------- Oldest first ----------

  /** Byte-wise string order. */
  predicate StringLess(a: string, b: string) {
    b != "" && (a == "" || a[0] < b[0] || (a[0] == b[0] && StringLess(a[1..], b[1..])))
  }

  lemma {:induction false} StringOrder(a: string, b: string, c: string)
    ensures !StringLess(a, a)
    ensures StringLess(a, b) || a == b || StringLess(b, a)
    ensures StringLess(a, b) && StringLess(b, c) ==> StringLess(a, c)
  {
    if a != "" && b != "" && c != "" {
      StringOrder(a[1..], b[1..], c[1..]);
      assert a[0] == b[0] && a[1..] == b[1..] ==> a == b by {
        assert a == [a[0]] + a[1..] && b == [b[0]] + b[1..];
      }
    } else if a != "" && b != "" {
      StringOrder(a[1..], b[1..], c);
      assert a[0] == b[0] && a[1..] == b[1..] ==> a == b by {
        assert a == [a[0]] + a[1..] && b == [b[0]] + b[1..];
      }
    } else if a != "" {
      StringOrder(a[1..], b, c);
    }
  }

  /** The first place where two names differ decides, and a name comes before its extensions. */
  lemma {:induction false} StringLessIs(a: string, b: string, k: nat)
    requires k <= |a| && k < |b| && a[..k] == b[..k] && (k < |a| ==> a[k] != b[k])
    ensures StringLess(a, b) <==> k == |a| || a[k] < b[k]
  {
    if k > 0 {
      assert a[0] == a[..k][0] && b[0] == b[..k][0];
      assert a[1..][..k - 1] == a[..k][1..] && b[1..][..k - 1] == b[..k][1..];
      StringLessIs(a[1..], b[1..], k - 1);
    }
  }

  predicate Older(x: Item, y: Item) {
    if x.createdAt == y.createdAt then StringLess(x.rel, y.rel) else x.createdAt < y.createdAt
  }

  ghost predicate OldestFirst(s: seq<Item>) {
    forall i, j :: 0 <= i < j < |s| ==> Older(s[i], s[j])
  }

  ghost predicate DistinctRels(s: seq<Item>) {
    forall i, j :: 0 <= i < j < |s| ==> s[i].rel != s[j].rel
  }

  function Insert(x: Item, s: seq<Item>): seq<Item> {
    if s == [] || Older(x, s[0]) then [x] + s else [s[0]] + Insert(x, s[1..])
  }

  /** sort.Slice with the comparison above. */
  function Sort(s: seq<Item>): seq<Item> {
    if s == [] then [] else Insert(s[0], Sort(s[1..]))
  }

  lemma OlderOrder(x: Item, y: Item, z: Item)
    ensures x.rel != y.rel ==> Older(x, y) || Older(y, x)
    ensures Older(x, y) && Older(y, z) ==> Older(x, z)
  {
    StringOrder(x.rel, y.rel, z.rel);
  }

  lemma {:induction false} InsertSorts(x: Item, s: seq<Item>)
    requires OldestFirst(s) && forall y :: y in s ==> y.rel != x.rel
    ensures OldestFirst(Insert(x, s)) && multiset(Insert(x, s)) == multiset(s) + multiset{x}
  {
    if s == [] {
    } else {
      assert s == [s[0]] + s[1..];
      if Older(x, s[0]) {
        forall y | y in s[1..] ensures Older(x, y) {
          OlderOrder(x, s[0], y);
        }
      } else {
        InsertSorts(x, s[1..]);
        OlderOrder(x, s[0], x);
        forall y | y in Insert(x, s[1..]) ensures Older(s[0], y) {
          assert y in multiset(s[1..]) + multiset{x};
        }
      }
    }
  }

  /** Sorting rearranges, and the result is oldest first. */
  lemma {:induction false} SortSorts(s: seq<Item>)
    requires DistinctRels(s)
    ensures OldestFirst(Sort(s)) && multiset(Sort(s)) == multiset(s)
  {
    if s != [] {
      SortSorts(s[1..]);
      assert s == [s[0]] + s[1..];
      forall y | y in Sort(s[1..]) ensures y.rel != s[0].rel {
        assert y in multiset(s[1..]);
      }
      InsertSorts(s[0], Sort(s[1..]));
    }
  }

  // ---------- Sizes ----------

  function Total(s: seq<Item>): nat {
    if s == [] then 0 else s[0].size + Total(s[1..])
  }

  lemma {:induction false} TotalSum(a: seq<Item>, b: seq<Item>)
    ensures Total(a + b) == Total(a) + Total(b)
  {
    if a == [] {
      assert a + b == b;
    } else {
      TotalSum(a[1..], b);
      assert (a + b)[1..] == a[1..] + b;
    }
  }

  lemma {:induction false} WithoutOne(s: seq<Item>, x: Item)
    requires x in s
    ensures multiset(Without(s, x)) == multiset(s) - multiset{x}
    ensures Total(Without(s, x)) == Total(s) - x.size
  {
    var h, t := s[0], s[1..];
    assert s == [h] + t;
    WithoutCons(h, t, x);
    if h != x {
      WithoutOne(t, x);
      TotalSum([h], Without(t, x));
    }
  }

  /** The files eviction may take: neither protected nor stuck, in order. */
  function Evictable(s: seq<Item>, spared: set<string>): seq<Item> {
    if s == [] then []
    else
      var last := s[|s| - 1];
      Evictable(s[..|s| - 1], spared) + if last.rel in spared then [] else [last]
  }

  lemma {:induction false} EvictableIs(s: seq<Item>, spared: set<string>)
    ensures forall x :: x in Evictable(s, spared) <==> x in s && x.rel !in spared
  {
    if s != [] {
      var n := |s| - 1;
      EvictableIs(s[..n], spared);
      assert s == s[..n] + [s[n]];
    }
  }

  lemma EvictableGrows(s: seq<Item>, i: nat, spared: set<string>)
    requires i < |s|
    ensures Evictable(s[..i + 1], spared) == Evictable(s[..i], spared) + if s[i].rel in spared then [] else [s[i]]
  {
    assert s[..i + 1][..i] == s[..i];
  }

  lemma {:induction false} EvictablePrefix(s: seq<Item>, i: nat, spared: set<string>)
    requires i <= |s|
    ensures Evictable(s[..i], spared) <= Evictable(s, spared)
    decreases |s| - i
  {
    if i == |s| {
      assert s[..i] == s;
    } else {
      EvictableGrows(s, i, spared);
      EvictablePrefix(s, i + 1, spared);
    }
  }

  /** `gone` is the shortest prefix of the candidates that brings the total within the limit, or all of
      them when none does. */
  ghost predicate ShortestPrefix(gone: seq<Item>, candidates: seq<Item>, total: int, limit: int) {
    && gone <= candidates
    && (total - Total(gone) <= limit || gone == candidates)
    && forall k :: 0 <= k < |gone| ==> total - Total(candidates[..k]) > limit
  }

  const MB := 1024 * 1024
  const TWO_63 := 0x8000_0000_0000_0000

  /** int64(maxMB) * 1024 * 1024, in 64 bits. */
  function LimitBytes(maxMB: int): int {
    (maxMB * MB + TWO_63) % (2 * TWO_63) - TWO_63
  }

  /** The limit is honoured as configured below eight exbibytes. */
  lemma LimitIsExact(maxMB: int)
    requires 0 < maxMB < TWO_63 / MB
    ensures LimitBytes(maxMB) == maxMB * MB > 0
  {
  }

  class ImageStorage {
    var files: seq<Item>

    constructor (files: seq<Item>)
      ensures this.files == files
    {
      this.files := files;
    }

    /** cleanupImageStorageLimitExcept. `stuck` are the files the operating system refuses to remove. */
    method CleanupStorageLimit(maxMB: int, protectedRels: set<string>, stuck: set<string>)
      returns (removed: nat, ghost gone: seq<Item>)
      requires DistinctRels(files)
      modifies this
      ensures removed == |gone|
      ensures multiset(files) == multiset(old(files)) - multiset(gone)
      ensures Total(files) == Total(old(files)) - Total(gone)
      ensures maxMB <= 0 || LimitBytes(maxMB) <= 0 ==> gone == []
      ensures maxMB > 0 && LimitBytes(maxMB) > 0 ==>
                ShortestPrefix(gone, Evictable(Sort(old(files)), protectedRels + stuck),
                               Total(old(files)), LimitBytes(maxMB))
    {
      removed, gone := 0, [];
      if maxMB <= 0 {
        return;
      }
      var limit := LimitBytes(maxMB);
      if limit <= 0 {
        return;
      }
      var total: int := SumSizes(files);
      if total <= limit {
        return;
      }
      var items := Sort(files);
      SortSorts(files);
      removed, gone := EvictFrom(items, limit, total, protectedRels, stuck);
    }

    static method SumSizes(s: seq<Item>) returns (total: int)
      ensures total == Total(s)
    {
      total := 0;
      for i := 0 to |s|
        invariant total == Total(s[..i])
      {
        assert s[..i + 1] == s[..i] + [s[i]];
        TotalSum(s[..i], [s[i]]);
        total := total + s[i].size;
      }
      assert s[..|s|] == s;
    }

    /** One turn of the removal loop. */
    method EvictNext(items: seq<Item>, i: nat, total: int, removed: nat, ghost gone: seq<Item>,
                     protectedRels: set<string>, stuck: set<string>, ghost spared: set<string>,
                     ghost before: int, ghost limit: int)
      returns (total': int, removed': nat, ghost gone': seq<Item>)
      requires Evicting(items, i, files, gone, total, spared, before, limit) && removed == |gone|
      requires i < |items| && OldestFirst(items) && total > limit && spared == protectedRels + stuck
      modifies this
      ensures Evicting(items, i + 1, files, gone', total', spared, before, limit) && removed' == |gone'|
    {
      total', removed', gone' := total, removed, gone;
      var item := items[i];
      if item.rel in protectedRels || item.rel in stuck {
        EvictingSkips(items, i, files, gone, total, spared, before, limit);
      } else {
        EvictingTakes(items, i, files, gone, total, spared, before, limit);
        files := Without(files, item);
        total' := total - item.size;
        removed' := removed + 1;
        gone' := gone + [item];
      }
    }

    /** The removal loop. */
    method EvictFrom(items: seq<Item>, limit: int, before: int, protectedRels: set<string>, stuck: set<string>)
      returns (removed: nat, ghost gone: seq<Item>)
      requires OldestFirst(items) && multiset(items) == multiset(files) && before == Total(files)
      modifies this
      ensures removed == |gone|
      ensures multiset(files) == multiset(old(files)) - multiset(gone)
      ensures Total(files) == Total(old(files)) - Total(gone)
      ensures ShortestPrefix(gone, Evictable(items, protectedRels + stuck), before, limit)
    {
      removed, gone := 0, [];
      var total := before;
      ghost var spared := protectedRels + stuck;
      EvictingStarts(items, files, spared, limit);
      var i := 0;
      while i < |items| && total > limit
        invariant i <= |items| && removed == |gone|
        invariant Evicting(items, i, files, gone, total, spared, before, limit)
      {
        total, removed, gone := EvictNext(items, i, total, removed, gone, protectedRels, stuck, spared, before, limit);
        i := i + 1;
      }
      EvictingEnds(items, i, files, gone, total, spared, before, limit);
    }
  }

  ghost predicate Evicting(items: seq<Item>, i: nat, files: seq<Item>, gone: seq<Item>, total: int,
                           spared: set<string>, before: int, limit: int) {
    && i <= |items| && gone == Evictable(items[..i], spared)
    && multiset(files) == multiset(items) - multiset(gone)
    && total == Total(files) == before - Total(gone)
    && forall k :: 0 <= k < |gone| ==> before - Total(gone[..k]) > limit
  }

  lemma EvictingStarts(items: seq<Item>, files: seq<Item>, spared: set<string>, limit: int)
    requires multiset(items) == multiset(files)
    ensures Evicting(items, 0, files, [], Total(files), spared, Total(files), limit)
  {
  }

  lemma EvictingSkips(items: seq<Item>, i: nat, files: seq<Item>, gone: seq<Item>, total: int,
                      spared: set<string>, before: int, limit: int)
    requires Evicting(items, i, files, gone, total, spared, before, limit)
    requires i < |items| && items[i].rel in spared
    ensures Evicting(items, i + 1, files, gone, total, spared, before, limit)
  {
    EvictableGrows(items, i, spared);
  }

  lemma EvictingTakes(items: seq<Item>, i: nat, files: seq<Item>, gone: seq<Item>, total: int,
                      spared: set<string>, before: int, limit: int)
    requires Evicting(items, i, files, gone, total, spared, before, limit)
    requires i < |items| && OldestFirst(items) && total > limit && items[i].rel !in spared
    ensures Evicting(items, i + 1, Without(files, items[i]), gone + [items[i]],
                     total - items[i].size, spared, before, limit)
  {
    EvictableGrows(items, i, spared);
    StillStored(items, i, files, spared);
    WithoutOne(files, items[i]);
    GoneGrows(gone, items[i]);
  }

  lemma EvictingEnds(items: seq<Item>, i: nat, files: seq<Item>, gone: seq<Item>, total: int,
                     spared: set<string>, before: int, limit: int)
    requires Evicting(items, i, files, gone, total, spared, before, limit) && (i == |items| || total <= limit)
    ensures ShortestPrefix(gone, Evictable(items, spared), before, limit)
  {
    EvictablePrefix(items, i, spared);
    assert items[..|items|] == items;
    var candidates := Evictable(items, spared);
    assert forall k :: 0 <= k < |gone| ==> candidates[..k] == gone[..k];
  }

  lemma GoneGrows(gone: seq<Item>, x: Item)
    ensures Total(gone + [x]) == Total(gone) + x.size
    ensures forall k :: 0 <= k <= |gone| ==> (gone + [x])[..k] == gone[..k]
  {
    TotalSum(gone, [x]);
  }

  /** A file is removed once: what comes later in the order has not been removed yet. */
  lemma StillStored(items: seq<Item>, i: nat, files: seq<Item>, spared: set<string>)
    requires i < |items| && OldestFirst(items)
    requires multiset(files) == multiset(items) - multiset(Evictable(items[..i], spared))
    ensures items[i] in files
  {
    var x := items[i];
    EvictableIs(items[..i], spared);
    forall j | 0 <= j < i ensures items[j] != x {
      OlderOrder(items[j], x, x);
      StringOrder(x.rel, x.rel, x.rel);
    }
    assert x !in Evictable(items[..i], spared);
    assert multiset(items)[x] > 0;
    assert x in multiset(files);
  }

  /** With the shortest prefix no protected file goes, every file that goes is as old as any candidate
      that stays, and one file fewer would not have done. */
  lemma ShortestPrefixMeans(gone: seq<Item>, items: seq<Item>, spared: set<string>, total: int, limit: int,
                              x: Item, y: Item)
    requires OldestFirst(items) && ShortestPrefix(gone, Evictable(items, spared), total, limit)
    requires x in gone
    ensures x in items && x.rel !in spared
    ensures total - Total(gone[..|gone| - 1]) > limit
    ensures y in items && y.rel !in spared && y !in gone ==>
              && total - Total(gone) <= limit && x.createdAt <= y.createdAt
              && (x.createdAt == y.createdAt ==> StringLess(x.rel, y.rel))
  {
    EvictableIs(items, spared);
    EvictableSorted(items, spared);
    var candidates := Evictable(items, spared);
    assert candidates[..|gone| - 1] == gone[..|gone| - 1];
    var i :| 0 <= i < |gone| && gone[i] == x;
    assert candidates[i] == x;
    if y in items && y.rel !in spared && y !in gone {
      var j :| 0 <= j < |candidates| && candidates[j] == y;
      assert forall k :: 0 <= k < |gone| ==> candidates[k] == gone[k] != y;
    }
  }

  lemma {:induction false} EvictableSorted(s: seq<Item>, spared: set<string>)
    requires OldestFirst(s)
    ensures OldestFirst(Evictable(s, spared))
  {
    if s != [] {
      var n := |s| - 1;
      EvictableSorted(s[..n], spared);
      EvictableIs(s[..n], spared);
    }
  }
}
