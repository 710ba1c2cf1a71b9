/** The small-memory heap as a sequence of blocks in address order, with no links
    and no cached pointer.  Every operation of `SmallMem` is proved to do to the
    linked representation what the functions below do to this sequence. */
module SmallMemSpec {
  import opened Common

  // SIZEOF_STRUCT_MEM and MIN_SIZE_ALIGNED of the 32-bit build without memory tracing
  const HEADER: nat := 12
  const MIN_PAYLOAD: nat := 12

  /** A block: offset of its header, bytes of payload after the header, status. */
  datatype Block = Block(addr: nat, size: nat, used: bool)

  function End(b: Block): nat {
    b.addr + HEADER + b.size
  }

  /** Address of block k, or the end of the heap when k is past the last block. */
  function AddrOf(bs: seq<Block>, end: nat, k: nat): nat {
    if k < |bs| then bs[k].addr else end
  }

  /** Block i ends where the next one, or the end marker, starts. */
  ghost predicate Adjacent(bs: seq<Block>, end: nat, i: nat) {
    i < |bs| ==> End(bs[i]) == AddrOf(bs, end, i + 1)
  }

  /** The blocks cover [0, end) without gap or overlap. */
  ghost predicate Tiles(bs: seq<Block>, end: nat) {
    && |bs| > 0
    && bs[0].addr == 0
    && (forall i :: 0 <= i < |bs| ==> Adjacent(bs, end, i))
  }

  /** Block i starts on a word boundary and has a payload of one or more words. */
  ghost predicate AlignedAt(bs: seq<Block>, i: nat) {
    i < |bs| ==> bs[i].addr % 4 == 0 && bs[i].size % 4 == 0 && bs[i].size > 0
  }

  ghost predicate Aligned(bs: seq<Block>) {
    forall i :: 0 <= i < |bs| ==> AlignedAt(bs, i)
  }

  /** Block i or its successor is used. */
  ghost predicate OneUsed(bs: seq<Block>, i: nat) {
    i + 1 < |bs| ==> bs[i].used || bs[i + 1].used
  }

  ghost predicate NoFreePair(bs: seq<Block>) {
    forall i :: 0 <= i < |bs| ==> OneUsed(bs, i)
  }

  /** The shape every heap operation keeps. */
  ghost predicate Shape(bs: seq<Block>, end: nat) {
    Tiles(bs, end) && Aligned(bs) && NoFreePair(bs)
  }

  /** Blocks are in address order and lie below `end`. */
  lemma {:induction false} Ordered(bs: seq<Block>, end: nat, i: nat, j: nat)
    requires Tiles(bs, end)
    requires i < j <= |bs|
    ensures End(bs[i]) <= (if j < |bs| then bs[j].addr else end)
    ensures End(bs[i]) <= end
    decreases |bs| - i
  {
    assert Adjacent(bs, end, i);
    if i + 1 < |bs| {
      Ordered(bs, end, i + 1, if j == i + 1 then j + 1 else j);
    }
  }

  // ---------------------------------------------------------------- requests

  /** RT_ALIGN(n, 4) on a 32-bit size: the addition wraps. */
  function RtAlign(n: nat): (r: nat)
    requires n < WORD
    ensures r % 4 == 0 && r < WORD
  {
    var m := (n + 3) % WORD; m - m % 4
  }

  /** Rounding up to whole words: the least multiple of four that is not below n. */
  lemma RtAlignLeast(n: nat, r: nat)
    requires n <= WORD - 4
    ensures n <= RtAlign(n) && RtAlign(n) % 4 == 0
    ensures r % 4 == 0 && n <= r ==> RtAlign(n) <= r
  {
    assert (n + 3) % WORD == n + 3;
  }

  lemma RtAlignWhole(n: nat)
    requires n % 4 == 0 && n < WORD - 3
    ensures RtAlign(n) == n
  {
    assert (n + 3) % WORD == n + 3;
    assert (n + 3) % 4 == 3;
  }

  /** The payload actually searched for. */
  function Request(n: nat): nat
    requires n < WORD
  {
    if RtAlign(n) < MIN_PAYLOAD then MIN_PAYLOAD else RtAlign(n)
  }

  /** A request is served with at least the bytes asked for exactly when rounding
      does not wrap; the last three sizes are rounded to zero. */
  lemma RequestCovers(n: nat)
    requires n < WORD
    ensures Request(n) >= n <==> n <= WORD - 4
    ensures n <= WORD - 4 ==> Request(n) == if n <= MIN_PAYLOAD then MIN_PAYLOAD else RtAlign(n)
    ensures n > WORD - 4 ==> RtAlign(n) == 0 && Request(n) == MIN_PAYLOAD
  {
    if n <= WORD - 4 {
      assert (n + 3) % WORD == n + 3;
    } else {
      assert (n + 3) % WORD == n + 3 - WORD;
    }
  }

  predicate Fits(b: Block, size: nat) {
    !b.used && b.size >= size
  }

  /** First index from i on of a free block with room for `size`, or |bs|. */
  function FitFrom(bs: seq<Block>, size: nat, i: nat): (k: nat)
    requires i <= |bs|
    ensures i <= k <= |bs|
    ensures forall j {:trigger bs[j]} :: i <= j < k ==> !Fits(bs[j], size)
    ensures k < |bs| ==> Fits(bs[k], size)
    decreases |bs| - i
  {
    if i == |bs| || Fits(bs[i], size) then i else FitFrom(bs, size, i + 1)
  }

  /** Index of the lowest-addressed free block with room for `size`, or |bs|. */
  function FirstFit(bs: seq<Block>, size: nat): (i: nat)
    ensures i <= |bs|
    ensures forall j {:trigger bs[j]} :: 0 <= j < i ==> !Fits(bs[j], size)
    ensures i < |bs| ==> Fits(bs[i], size)
  {
    FitFrom(bs, size, 0)
  }

  /** The block an allocation of `n` bytes takes, or |bs| when it returns NULL. */
  function Chosen(bs: seq<Block>, memSize: nat, n: nat): (i: nat)
    requires n < WORD
    ensures i <= |bs|
  {
    if n == 0 || RtAlign(n) > memSize then |bs| else FirstFit(bs, Request(n))
  }

  /** Offset of the lowest free block, or `end` when every block is used. */
  function LowestFree(bs: seq<Block>, end: nat): nat {
    var k := FirstFit(bs, 0);
    if k < |bs| then bs[k].addr else end
  }

  // ------------------------------------------------------------- transitions

  function Cut(b: Block, size: nat): seq<Block>
    requires b.size >= size + HEADER
  {
    [Block(b.addr, size, true), Block(b.addr + HEADER + size, b.size - size - HEADER, false)]
  }

  /** Allocation of `size` bytes in free block i: split when a whole block of at
      least MIN_PAYLOAD is left over, otherwise hand out all of it. */
  function Take(bs: seq<Block>, i: nat, size: nat): seq<Block>
    requires i < |bs|
  {
    if bs[i].size >= size + HEADER + MIN_PAYLOAD
    then bs[..i] + Cut(bs[i], size) + bs[i + 1..]
    else bs[i := bs[i].(used := true)]
  }

  /** Blocks i and i + 1 become one block with the status of block i. */
  function Merge(bs: seq<Block>, i: nat): (r: seq<Block>)
    requires i + 1 < |bs|
    ensures |r| == |bs| - 1
  {
    bs[..i] + [Block(bs[i].addr, bs[i].size + HEADER + bs[i + 1].size, bs[i].used)] + bs[i + 2..]
  }

  /** plug_holes on block i. */
  function PlugForward(bs: seq<Block>, i: nat): (r: seq<Block>)
    requires i < |bs|
    ensures i < |r|
  {
    if i + 1 < |bs| && !bs[i + 1].used then Merge(bs, i) else bs
  }

  function PlugBackward(bs: seq<Block>, i: nat): seq<Block>
    requires i < |bs|
  {
    if i > 0 && !bs[i - 1].used then Merge(bs, i - 1) else bs
  }

  function Plug(bs: seq<Block>, i: nat): seq<Block>
    requires i < |bs|
  {
    PlugBackward(PlugForward(bs, i), i)
  }

  function Release(bs: seq<Block>, i: nat): seq<Block>
    requires i < |bs|
  {
    Plug(bs[i := bs[i].(used := false)], i)
  }

  /** In-place shrink of used block i to `size` bytes. */
  function Shrink(bs: seq<Block>, i: nat, size: nat): seq<Block>
    requires i < |bs| && bs[i].size >= size + HEADER
  {
    Plug(bs[..i] + Cut(bs[i], size) + bs[i + 1..], i + 1)
  }

  // ------------------------------------------------------------------ sums

  function Stride(b: Block): nat {
    HEADER + b.size
  }

  /** Bytes, headers included, in blocks of the given status among the first k. */
  function BytesTo(bs: seq<Block>, k: nat, used: bool): nat
    requires k <= |bs|
  {
    if k == 0 then 0
    else BytesTo(bs, k - 1, used) + (if bs[k - 1].used == used then Stride(bs[k - 1]) else 0)
  }

  function Bytes(bs: seq<Block>, used: bool): nat {
    BytesTo(bs, |bs|, used)
  }

  lemma {:induction false} BytesConcatTo(a: seq<Block>, b: seq<Block>, k: nat, used: bool)
    requires k <= |a + b|
    ensures BytesTo(a + b, k, used) ==
            if k <= |a| then BytesTo(a, k, used) else Bytes(a, used) + BytesTo(b, k - |a|, used)
  {
    if k > 0 {
      BytesConcatTo(a, b, k - 1, used);
    }
  }

  lemma BytesConcat(a: seq<Block>, b: seq<Block>, used: bool)
    ensures Bytes(a + b, used) == Bytes(a, used) + Bytes(b, used)
  {
    BytesConcatTo(a, b, |a + b|, used);
  }

  /** Replacing the middle of a sequence changes the sum by the middle only. */
  lemma BytesSplice(a: seq<Block>, m: seq<Block>, b: seq<Block>, used: bool)
    ensures Bytes(a + m + b, used) == Bytes(a, used) + Bytes(m, used) + Bytes(b, used)
  {
    BytesConcat(a + m, b, used);
    BytesConcat(a, m, used);
  }

  lemma BytesShort(m: seq<Block>, used: bool)
    requires 1 <= |m| <= 2
    ensures Bytes(m, used) == (if m[0].used == used then Stride(m[0]) else 0)
                              + (if |m| == 2 && m[1].used == used then Stride(m[1]) else 0)
  {
    assert BytesTo(m, 1, used) == BytesTo(m, 0, used) + (if m[0].used == used then Stride(m[0]) else 0);
  }

  /** Used bytes and free bytes always fill the heap. */
  lemma BytesFill(bs: seq<Block>, end: nat)
    requires Tiles(bs, end)
    ensures Bytes(bs, true) + Bytes(bs, false) == end
  {
    BytesSpan(bs, end, |bs|);
    assert Adjacent(bs, end, |bs| - 1);
  }

  lemma {:induction false} BytesSpan(bs: seq<Block>, end: nat, k: nat)
    requires Tiles(bs, end) && 0 < k <= |bs|
    ensures BytesTo(bs, k, true) + BytesTo(bs, k, false) == End(bs[k - 1])
  {
    if k > 1 {
      BytesSpan(bs, end, k - 1);
      assert Adjacent(bs, end, k - 2);
    }
  }

  // ---------------------------------------------- every transition keeps Shape

  /** Cutting block i in two keeps the tiling, whatever its status. */
  lemma CutTiles(bs: seq<Block>, end: nat, i: nat, size: nat)
    requires Tiles(bs, end) && Aligned(bs)
    requires i < |bs| && bs[i].size > size + HEADER && size % 4 == 0 && size > 0
    ensures var r := bs[..i] + Cut(bs[i], size) + bs[i + 1..];
            Tiles(r, end) && Aligned(r)
  {
    var r := bs[..i] + Cut(bs[i], size) + bs[i + 1..];
    forall k | 0 <= k < |r| ensures Adjacent(r, end, k) && AlignedAt(r, k) {
      CutAt(bs, end, i, size, r, k);
    }
    if i > 0 { assert r[0] == bs[0]; }
  }

  lemma CutAt(bs: seq<Block>, end: nat, i: nat, size: nat, r: seq<Block>, k: nat)
    requires Tiles(bs, end) && Aligned(bs)
    requires i < |bs| && bs[i].size > size + HEADER && size % 4 == 0 && size > 0
    requires r == bs[..i] + Cut(bs[i], size) + bs[i + 1..] && k < |r|
    ensures Adjacent(r, end, k) && AlignedAt(r, k)
  {
    var m := if k <= i then k else k - 1;
    assert Adjacent(bs, end, m) && AlignedAt(bs, m);
    assert k < i || k > i + 1 ==> r[k] == bs[m];
    if k < i {
      assert r[k + 1].addr == bs[k + 1].addr;
    } else if i < k < |r| - 1 {
      assert r[k + 1] == bs[k];
    }
  }

  lemma TakeShape(bs: seq<Block>, end: nat, i: nat, size: nat)
    requires Shape(bs, end) && i < |bs| && Fits(bs[i], size) && size % 4 == 0 && size > 0
    ensures Shape(Take(bs, i, size), end)
  {
    var r := Take(bs, i, size);
    if bs[i].size >= size + HEADER + MIN_PAYLOAD {
      CutTiles(bs, end, i, size);
      forall k | 0 <= k < |r| ensures OneUsed(r, k) {
        if k > i + 1 {
          assert OneUsed(bs, k - 1);
        } else if k == i + 1 {
          assert OneUsed(bs, i);
        } else if k < i {
          assert OneUsed(bs, k);
        }
      }
    } else {
      RemarkTiles(bs, end, i, true);
      forall k | 0 <= k < |r| ensures OneUsed(r, k) {
        assert OneUsed(bs, k);
      }
    }
  }

  lemma RemarkTiles(bs: seq<Block>, end: nat, i: nat, used: bool)
    requires Tiles(bs, end) && Aligned(bs) && i < |bs|
    ensures Tiles(bs[i := bs[i].(used := used)], end) && Aligned(bs[i := bs[i].(used := used)])
  {
    var r := bs[i := bs[i].(used := used)];
    forall k | 0 <= k < |r| ensures Adjacent(r, end, k) {
      assert Adjacent(bs, end, k);
    }
    forall k | 0 <= k < |r| ensures AlignedAt(r, k) {
      assert AlignedAt(bs, k);
    }
  }

  lemma MergeTiles(bs: seq<Block>, end: nat, i: nat)
    requires Tiles(bs, end) && Aligned(bs) && i + 1 < |bs|
    ensures Tiles(Merge(bs, i), end) && Aligned(Merge(bs, i))
  {
    var r := Merge(bs, i);
    assert Adjacent(bs, end, i);
    assert End(r[i]) == End(bs[i + 1]);
    forall k | 0 <= k < |r| ensures Adjacent(r, end, k) {
      if k < i {
        assert Adjacent(bs, end, k);
      } else {
        assert Adjacent(bs, end, k + 1);
      }
    }
    assert AlignedAt(bs, i + 1);
    forall k | 0 <= k < |r| ensures AlignedAt(r, k) {
      assert AlignedAt(bs, if k <= i then k else k + 1);
    }
  }

  /** No two free neighbours, except possibly around free block i. */
  ghost predicate NoFreePairBut(bs: seq<Block>, i: nat) {
    forall k :: 0 <= k < |bs| && k != i && k + 1 != i ==> OneUsed(bs, k)
  }

  /** What merging does to the block at index k. */
  lemma MergeAt(bs: seq<Block>, i: nat, k: nat)
    requires i + 1 < |bs| && k + 1 < |bs|
    ensures k < i ==> Merge(bs, i)[k] == bs[k]
    ensures k == i ==> Merge(bs, i)[k].used == bs[i].used
    ensures k > i ==> Merge(bs, i)[k] == bs[k + 1]
  {
  }

  lemma MergeOneUsed(bs: seq<Block>, i: nat, k: nat)
    requires i + 1 < |bs| && k + 1 < |bs|
    requires k < i ==> OneUsed(bs, k)
    requires k > i ==> OneUsed(bs, k + 1)
    requires k == i && i + 2 < |bs| ==> bs[i].used || bs[i + 2].used
    ensures OneUsed(Merge(bs, i), k)
  {
    MergeAt(bs, i, k);
    if k + 2 < |bs| {
      MergeAt(bs, i, k + 1);
    }
  }

  /** After the forward merge only the block before i can be a free neighbour. */
  lemma ForwardShape(bs: seq<Block>, end: nat, i: nat)
    requires Tiles(bs, end) && Aligned(bs) && i < |bs| && !bs[i].used && NoFreePairBut(bs, i)
    requires i + 2 < |bs| ==> bs[i + 1].used || bs[i + 2].used
    ensures var f := PlugForward(bs, i);
            && Tiles(f, end) && Aligned(f) && i < |f| && !f[i].used && (i > 0 ==> f[i - 1] == bs[i - 1])
            && forall k :: 0 <= k < |f| && k + 1 != i ==> OneUsed(f, k)
  {
    hide Merge;
    var f := PlugForward(bs, i);
    if f != bs {
      MergeTiles(bs, end, i);
      MergeAt(bs, i, i);
      if i > 0 {
        MergeAt(bs, i, i - 1);
      }
      forall k | 0 <= k < |f| && k + 1 != i ensures OneUsed(f, k) {
        if k > i {
          assert OneUsed(bs, k + 1);
        } else if k < i {
          assert OneUsed(bs, k);
        }
        MergeOneUsed(bs, i, k);
      }
    }
  }

  /** plug_holes repairs the only place where free neighbours can be. */
  lemma PlugShape(bs: seq<Block>, end: nat, i: nat)
    requires Tiles(bs, end) && Aligned(bs) && i < |bs| && !bs[i].used && NoFreePairBut(bs, i)
    requires i + 2 < |bs| ==> bs[i + 1].used || bs[i + 2].used
    requires i > 1 ==> bs[i - 2].used || bs[i - 1].used
    ensures Shape(Plug(bs, i), end)
  {
    hide Merge, PlugForward;
    var f := PlugForward(bs, i);
    ForwardShape(bs, end, i);
    var r := PlugBackward(f, i);
    if i > 0 && !f[i - 1].used {
      MergeTiles(f, end, i - 1);
      assert OneUsed(f, i);
      forall k | 0 <= k < |r| ensures OneUsed(r, k) {
        if k + 1 < i {
          assert OneUsed(f, k);
        } else if k > i - 1 {
          assert OneUsed(f, k + 1);
        }
        MergeOneUsed(f, i - 1, k);
      }
    } else if i > 0 {
      assert OneUsed(f, i - 1);
    }
  }

  lemma ReleaseShape(bs: seq<Block>, end: nat, i: nat)
    requires Shape(bs, end) && i < |bs|
    ensures Shape(Release(bs, i), end)
  {
    var m := bs[i := bs[i].(used := false)];
    RemarkTiles(bs, end, i, false);
    forall k | 0 <= k < |m| && k != i && k + 1 != i ensures OneUsed(m, k) {
      assert OneUsed(bs, k);
    }
    if i + 2 < |bs| { assert OneUsed(bs, i + 1); }
    if i > 1 { assert OneUsed(bs, i - 2); }
    PlugShape(m, end, i);
  }

  lemma ShrinkShape(bs: seq<Block>, end: nat, i: nat, size: nat)
    requires Shape(bs, end) && i < |bs| && bs[i].used
    requires bs[i].size > size + HEADER && size % 4 == 0 && size > 0
    ensures Shape(Shrink(bs, i, size), end)
  {
    var c := bs[..i] + Cut(bs[i], size) + bs[i + 1..];
    CutTiles(bs, end, i, size);
    forall k | 0 <= k < |c| && k != i + 1 && k + 1 != i + 1 ensures OneUsed(c, k) {
      if k > i + 1 {
        assert OneUsed(bs, k - 1);
      } else if k < i {
        assert OneUsed(bs, k);
      }
    }
    if i + 3 < |c| { assert OneUsed(bs, i + 1); }
    PlugShape(c, end, i + 1);
  }

  /** The search loop's test at offset `ptr`, in the machine's wrapping arithmetic. */
  predicate Goes(ptr: nat, memSize: nat, size: nat) {
    ptr <= (memSize - size) % WORD
  }

  /** The search loop, whatever the heap's length, has ended after at most `rounds` more
      rounds at block k; k == |bs| is the end marker, which is used and links to itself. */
  ghost predicate EndsWithin(bs: seq<Block>, memSize: nat, size: nat, k: nat, rounds: nat)
    requires k <= |bs|
    decreases rounds
  {
    || !Goes(AddrOf(bs, memSize + HEADER, k), memSize, size)
    || (k < |bs| && Fits(bs[k], size))
    || (rounds > 0 && EndsWithin(bs, memSize, size, if k < |bs| then k + 1 else k, rounds - 1))
  }

  lemma {:induction false} LongHeapEnds(bs: seq<Block>, memSize: nat, size: nat, k: nat)
    requires Tiles(bs, memSize + HEADER) && k <= |bs| && memSize < WORD && size <= memSize
    ensures EndsWithin(bs, memSize, size, k, |bs| - k)
    decreases |bs| - k
  {
    if k < |bs| {
      LongHeapEnds(bs, memSize, size, k + 1);
    }
  }

  lemma {:induction false} ShortHeapRuns(bs: seq<Block>, memSize: nat, k: nat, rounds: nat)
    requires Tiles(bs, memSize + HEADER) && k <= |bs| && memSize < MIN_PAYLOAD
    ensures !EndsWithin(bs, memSize, MIN_PAYLOAD, k, rounds)
    decreases rounds
  {
    if k < |bs| {
      Ordered(bs, memSize + HEADER, k, |bs|);
    }
    if rounds > 0 {
      ShortHeapRuns(bs, memSize, if k < |bs| then k + 1 else k, rounds - 1);
    }
  }

  /** Every request that reaches the search, on every heap and from every starting block,
      ends if and only if the heap can hold one minimal payload; on a shorter heap the
      bound wraps and the loop circles at the end marker for ever. */
  lemma SearchEnds(bs: seq<Block>, memSize: nat, n: nat, k: nat)
    requires Tiles(bs, memSize + HEADER) && k <= |bs| && memSize < WORD
    requires 0 < n < WORD && RtAlign(n) <= memSize
    ensures (exists rounds: nat :: EndsWithin(bs, memSize, Request(n), k, rounds)) <==> memSize >= MIN_PAYLOAD
  {
    hide EndsWithin;
    if memSize >= MIN_PAYLOAD {
      var size, rounds: nat := Request(n), |bs| - k;
      LongHeapEnds(bs, memSize, size, k);
      assert EndsWithin(bs, memSize, size, k, rounds);
    } else {
      forall rounds: nat ensures !EndsWithin(bs, memSize, Request(n), k, rounds) {
        ShortHeapRuns(bs, memSize, k, rounds);
      }
    }
  }

  // ------------------------------------------------------------- what is live

  /** NULL is returned for the empty request and otherwise exactly when no free
      block anywhere has room; the early size check never hides a block. */
  lemma NullIff(bs: seq<Block>, memSize: nat, n: nat)
    requires Tiles(bs, memSize + HEADER) && n < WORD
    ensures Chosen(bs, memSize, n) == |bs| <==> n == 0 || forall b :: b in bs ==> !Fits(b, Request(n))
  {
    forall j | 0 <= j < |bs| ensures bs[j].size <= memSize {
      Ordered(bs, memSize + HEADER, j, |bs|);
    }
    if Chosen(bs, memSize, n) < |bs| {
      assert bs[Chosen(bs, memSize, n)] in bs;
    }
  }

  /** The payload at p belongs to a used block of at least `low` and fewer than `high` bytes. */
  ghost predicate PayloadAt(bs: seq<Block>, p: nat, low: nat, high: nat) {
    exists b :: b in bs && b.used && b.addr + HEADER == p && low <= b.size < high
  }

  /** Used blocks after an allocation: the old ones, untouched, and the new one. */
  lemma TakeLive(bs: seq<Block>, i: nat, size: nat, b: Block)
    requires i < |bs| && Fits(bs[i], size) && b.used
    ensures b in Take(bs, i, size) <==> b in bs || b == Take(bs, i, size)[i]
    ensures Take(bs, i, size)[i].used && Take(bs, i, size)[i].addr == bs[i].addr
    ensures size <= Take(bs, i, size)[i].size < size + HEADER + MIN_PAYLOAD
  {
    assert bs == bs[..i] + [bs[i]] + bs[i + 1..];
    var r := Take(bs, i, size);
    if bs[i].size >= size + HEADER + MIN_PAYLOAD {
      assert Cut(bs[i], size)[0] == r[i];
    } else {
      assert r == bs[..i] + [r[i]] + bs[i + 1..];
    }
  }

  lemma MergeLive(bs: seq<Block>, i: nat, b: Block)
    requires i + 1 < |bs| && !bs[i].used && !bs[i + 1].used && b.used
    ensures b in Merge(bs, i) <==> b in bs
  {
    assert bs == bs[..i] + [bs[i], bs[i + 1]] + bs[i + 2..];
  }

  lemma PlugLive(bs: seq<Block>, i: nat, b: Block)
    requires i < |bs| && !bs[i].used && b.used
    ensures b in Plug(bs, i) <==> b in bs
  {
    if i + 1 < |bs| && !bs[i + 1].used { MergeLive(bs, i, b); }
    var f := PlugForward(bs, i);
    if i > 0 && !f[i - 1].used { MergeLive(f, i - 1, b); }
  }

  /** A tiling lists no block twice. */
  lemma NoRepeat(bs: seq<Block>, end: nat, i: nat, j: nat)
    requires Tiles(bs, end) && i < j < |bs|
    ensures bs[i].addr < bs[j].addr
  {
    Ordered(bs, end, i, j);
  }

  /** Used blocks after a free: all but the freed one, untouched. */
  lemma ReleaseLive(bs: seq<Block>, end: nat, i: nat, b: Block)
    requires Tiles(bs, end) && i < |bs| && bs[i].used && b.used
    ensures b in Release(bs, i) <==> b in bs && b != bs[i]
  {
    var m := bs[i := bs[i].(used := false)];
    PlugLive(m, i, b);
    if b in bs && b != bs[i] {
      var k :| 0 <= k < |bs| && bs[k] == b;
      assert m[k] == b;
    }
    if b in m {
      var k :| 0 <= k < |m| && m[k] == b;
      assert bs[k] == b;
      if k < i { NoRepeat(bs, end, k, i); } else { NoRepeat(bs, end, i, k); }
    }
  }

  lemma CutLive(bs: seq<Block>, end: nat, i: nat, size: nat, b: Block)
    requires Tiles(bs, end) && i < |bs| && bs[i].size >= size + HEADER && b.used
    ensures b in bs[..i] + Cut(bs[i], size) + bs[i + 1..] <==> (b in bs && b != bs[i]) || b == Cut(bs[i], size)[0]
  {
    assert bs == bs[..i] + [bs[i]] + bs[i + 1..];
    if b in bs[..i] {
      var k :| 0 <= k < i && bs[k] == b;
      NoRepeat(bs, end, k, i);
    } else if b in bs[i + 1..] {
      var k :| 0 <= k < |bs[i + 1..]| && bs[i + 1..][k] == b;
      NoRepeat(bs, end, i, i + 1 + k);
    }
  }

  /** Used blocks after an in-place shrink: the block at the same place with the
      new size, and all others untouched. */
  lemma ShrinkLive(bs: seq<Block>, end: nat, i: nat, size: nat, b: Block)
    requires Tiles(bs, end) && i < |bs| && bs[i].used && bs[i].size >= size + HEADER && b.used
    ensures b in Shrink(bs, i, size) <==> (b in bs && b != bs[i]) || b == Block(bs[i].addr, size, true)
  {
    CutLive(bs, end, i, size, b);
    PlugLive(bs[..i] + Cut(bs[i], size) + bs[i + 1..], i + 1, b);
  }

  // -------------------------------------------------------- accounting

  lemma TakeBytes(bs: seq<Block>, i: nat, size: nat)
    requires i < |bs| && Fits(bs[i], size)
    ensures Bytes(Take(bs, i, size), true) == Bytes(bs, true) + Stride(Take(bs, i, size)[i])
  {
    var r := Take(bs, i, size);
    var m := if bs[i].size >= size + HEADER + MIN_PAYLOAD then Cut(bs[i], size) else [r[i]];
    assert r == bs[..i] + m + bs[i + 1..];
    assert bs == bs[..i] + [bs[i]] + bs[i + 1..];
    BytesSplice(bs[..i], m, bs[i + 1..], true);
    BytesSplice(bs[..i], [bs[i]], bs[i + 1..], true);
    BytesShort(m, true);
    BytesShort([bs[i]], true);
  }

  lemma MergeBytes(bs: seq<Block>, i: nat)
    requires i + 1 < |bs| && !bs[i].used && !bs[i + 1].used
    ensures Bytes(Merge(bs, i), true) == Bytes(bs, true)
  {
    assert bs == bs[..i] + [bs[i], bs[i + 1]] + bs[i + 2..];
    BytesSplice(bs[..i], [bs[i], bs[i + 1]], bs[i + 2..], true);
    var m := [Block(bs[i].addr, bs[i].size + HEADER + bs[i + 1].size, bs[i].used)];
    BytesSplice(bs[..i], m, bs[i + 2..], true);
    BytesShort(m, true);
    BytesShort([bs[i], bs[i + 1]], true);
  }

  lemma PlugBytes(bs: seq<Block>, i: nat)
    requires i < |bs| && !bs[i].used
    ensures Bytes(Plug(bs, i), true) == Bytes(bs, true)
  {
    if i + 1 < |bs| && !bs[i + 1].used { MergeBytes(bs, i); }
    var f := PlugForward(bs, i);
    if i > 0 && !f[i - 1].used { MergeBytes(f, i - 1); }
  }

  lemma FreedBytes(bs: seq<Block>, i: nat)
    requires i < |bs| && bs[i].used
    ensures Bytes(bs[i := bs[i].(used := false)], true) + Stride(bs[i]) == Bytes(bs, true)
  {
    var m := bs[i := bs[i].(used := false)];
    assert m == bs[..i] + [m[i]] + bs[i + 1..];
    assert bs == bs[..i] + [bs[i]] + bs[i + 1..];
    BytesSplice(bs[..i], [m[i]], bs[i + 1..], true);
    BytesSplice(bs[..i], [bs[i]], bs[i + 1..], true);
    BytesShort([m[i]], true);
    BytesShort([bs[i]], true);
  }

  lemma ReleaseBytes(bs: seq<Block>, i: nat)
    requires i < |bs| && bs[i].used
    ensures Bytes(Release(bs, i), true) + Stride(bs[i]) == Bytes(bs, true)
  {
    FreedBytes(bs, i);
    PlugBytes(bs[i := bs[i].(used := false)], i);
  }

  lemma CutBytes(bs: seq<Block>, i: nat, size: nat)
    requires i < |bs| && bs[i].used && bs[i].size >= size + HEADER
    ensures Bytes(bs[..i] + Cut(bs[i], size) + bs[i + 1..], true) + (bs[i].size - size) == Bytes(bs, true)
  {
    assert bs == bs[..i] + [bs[i]] + bs[i + 1..];
    BytesSplice(bs[..i], Cut(bs[i], size), bs[i + 1..], true);
    BytesSplice(bs[..i], [bs[i]], bs[i + 1..], true);
    BytesShort(Cut(bs[i], size), true);
    BytesShort([bs[i]], true);
  }

  lemma ShrinkBytes(bs: seq<Block>, i: nat, size: nat)
    requires i < |bs| && bs[i].used && bs[i].size >= size + HEADER
    ensures Bytes(Shrink(bs, i, size), true) + (bs[i].size - size) == Bytes(bs, true)
  {
    CutBytes(bs, i, size);
    PlugBytes(bs[..i] + Cut(bs[i], size) + bs[i + 1..], i + 1);
  }

  // -------------------------------------------------------- undoing, quiescence

  /** Freeing what was just allocated restores the block sequence, split or not. */
  lemma TakeRelease(bs: seq<Block>, end: nat, i: nat, size: nat)
    requires Shape(bs, end) && i < |bs| && Fits(bs[i], size)
    ensures Release(Take(bs, i, size), i) == bs
  {
    hide Tiles, Aligned, Take, Merge;
    if i > 0 { assert OneUsed(bs, i - 1); }
    assert OneUsed(bs, i);
    var t := Take(bs, i, size);
    if bs[i].size >= size + HEADER + MIN_PAYLOAD {
      CutMerge(bs, i, size);
    } else {
      WholeUnmark(bs, i, size);
    }
  }

  lemma WholeUnmark(bs: seq<Block>, i: nat, size: nat)
    requires i < |bs| && Fits(bs[i], size) && bs[i].size < size + HEADER + MIN_PAYLOAD
    ensures var t := Take(bs, i, size); |t| == |bs| && t[i := t[i].(used := false)] == bs
  {
  }

  /** The remainder is free, so unmarking a split block merges it back. */
  lemma CutMerge(bs: seq<Block>, i: nat, size: nat)
    requires i < |bs| && Fits(bs[i], size) && bs[i].size >= size + HEADER + MIN_PAYLOAD
    ensures var t := Take(bs, i, size);
            && |t| == |bs| + 1
            && var m := t[i := t[i].(used := false)];
               !m[i + 1].used && Merge(m, i) == bs && (i > 0 ==> m[i - 1] == bs[i - 1])
  {
    var t := Take(bs, i, size);
    var m := t[i := t[i].(used := false)];
    assert m[..i] == bs[..i] && m[i + 2..] == bs[i + 1..];
    assert bs == bs[..i] + [bs[i]] + bs[i + 1..];
  }

  /** With nothing live the heap is one free block again. */
  lemma Quiescent(bs: seq<Block>, end: nat)
    requires Shape(bs, end) && (forall i :: 0 <= i < |bs| ==> !bs[i].used)
    ensures end >= HEADER && bs == [Block(0, end - HEADER, false)]
    ensures Bytes(bs, true) == 0 && LowestFree(bs, end) == 0
  {
    assert OneUsed(bs, 0) && Adjacent(bs, end, 0) && !bs[0].used;
    assert bs == [bs[0]];
    BytesShort(bs, true);
  }

  // ------------------------------------------------------------------ all runs

  /** A call made by a client; Free and Realloc name the live block they are given. */
  datatype Op = Alloc(n: nat) | Free(i: nat) | Realloc(i: nat, n: nat) | ReallocNull(n: nat)

  predicate Enabled(bs: seq<Block>, op: Op) {
    match op
    case Alloc(n) => n < WORD
    case Free(i) => i < |bs| && bs[i].used
    case Realloc(i, n) => i < |bs| && bs[i].used && n < WORD
    case ReallocNull(n) => n < WORD
  }

  function AllocStep(bs: seq<Block>, memSize: nat, n: nat): seq<Block>
    requires n < WORD
  {
    var k := Chosen(bs, memSize, n);
    if k < |bs| then Take(bs, k, Request(n)) else bs
  }

  /** Where block i is found after block k != i was allocated. */
  function Moved(bs: seq<Block>, k: nat, size: nat, i: nat): (j: nat)
    requires k < |bs| && i < |bs| && i != k
    ensures j < |Take(bs, k, size)| && Take(bs, k, size)[j] == bs[i]
  {
    if i < k then i else i + |Take(bs, k, size)| - |bs|
  }

  /** Outcomes of realloc on a live block. */
  datatype Resize = Refused | Freed | Kept | InPlace | Copied(k: nat)

  function ResizeCase(bs: seq<Block>, memSize: nat, i: nat, n: nat): (c: Resize)
    requires i < |bs| && bs[i].used && n < WORD
    ensures c.Copied? ==> c.k < |bs| && c.k != i
    ensures c.InPlace? ==> bs[i].size >= RtAlign(n) + HEADER
  {
    var m := RtAlign(n);
    if m > memSize then Refused
    else if m == 0 then Freed
    else if bs[i].size == m then Kept
    else if m + HEADER + MIN_PAYLOAD < bs[i].size then InPlace
    else if Chosen(bs, memSize, m) < |bs| then Copied(Chosen(bs, memSize, m))
    else Refused
  }

  /** Realloc frees the block when asked for nothing, and also for the three sizes
      that rounding wraps to nothing. */
  lemma ResizeFrees(bs: seq<Block>, memSize: nat, i: nat, n: nat)
    requires i < |bs| && bs[i].used && n < WORD
    ensures ResizeCase(bs, memSize, i, n) == Freed <==> n == 0 || n > WORD - 4
  {
    RequestCovers(n);
  }

  function ReallocStep(bs: seq<Block>, memSize: nat, i: nat, n: nat): seq<Block>
    requires i < |bs| && bs[i].used && n < WORD
  {
    match ResizeCase(bs, memSize, i, n)
    case Refused => bs
    case Freed => Release(bs, i)
    case Kept => bs
    case InPlace => Shrink(bs, i, RtAlign(n))
    case Copied(k) =>
      var size := Request(RtAlign(n));
      Release(Take(bs, k, size), Moved(bs, k, size, i))
  }

  /** Realloc depends on the rounded size only. */
  lemma ReallocRounded(bs: seq<Block>, memSize: nat, i: nat, n: nat)
    requires i < |bs| && bs[i].used && n < WORD && memSize < WORD - 3
    ensures var m := RtAlign(n);
            && (m > memSize || m == 0 ==> ReallocAnswer(bs, memSize, i, n) == None)
            && (m > memSize ==> ReallocStep(bs, memSize, i, n) == bs)
            && (m == 0 ==> ReallocStep(bs, memSize, i, n) == Release(bs, i))
            && (0 < m <= memSize ==>
                  && RtAlign(m) == m
                  && ReallocAnswer(bs, memSize, i, m) == ReallocAnswer(bs, memSize, i, n)
                  && ReallocStep(bs, memSize, i, m) == ReallocStep(bs, memSize, i, n))
  {
    hide Release, Shrink, Take, Chosen;
    if RtAlign(n) <= memSize {
      RtAlignWhole(RtAlign(n));
    }
  }

  /** Block b can serve a request of m bytes where it is: it has just that many, or enough
      more for a header and a minimal payload, and a byte to spare. */
  predicate Stays(b: Block, m: nat) {
    b.size == m || m + HEADER + MIN_PAYLOAD < b.size
  }

  /** Some free block has room for m bytes. */
  ghost predicate Room(bs: seq<Block>, m: nat)
    requires m < WORD
  {
    exists b :: b in bs && Fits(b, Request(m))
  }

  /** The pointer that realloc of block i answers. */
  function ReallocAnswer(bs: seq<Block>, memSize: nat, i: nat, n: nat): Option<nat>
    requires i < |bs| && bs[i].used && n < WORD
  {
    match ResizeCase(bs, memSize, i, n)
    case Refused => None
    case Freed => None
    case Kept => Some(bs[i].addr + HEADER)
    case InPlace => Some(bs[i].addr + HEADER)
    case Copied(k) => Some(bs[k].addr + HEADER)
  }

  /** What realloc of block i to n bytes promises: `r` is its answer, `after` the heap. */
  ghost predicate Reallocated(bs: seq<Block>, memSize: nat, i: nat, n: nat, r: Option<nat>, after: seq<Block>)
    requires i < |bs| && n < WORD
  {
    var m := RtAlign(n);
    // a pointer means a used block with at least the bytes asked for, and not many more
    && (r.Some? ==> PayloadAt(after, r.value, m, Request(m) + HEADER + MIN_PAYLOAD))
    // the old pointer, exactly when the block can stay
    && (r == Some(bs[i].addr + HEADER) <==> 0 < m <= memSize && Stays(bs[i], m))
    // another pointer: the lowest free block with room
    && (r.Some? && r.value != bs[i].addr + HEADER ==>
          exists k :: 0 <= k < |bs| && Fits(bs[k], Request(m)) && r.value == bs[k].addr + HEADER
                      && forall j :: 0 <= j < k ==> !Fits(bs[j], Request(m)))
    // NULL: nothing or too much asked for, or no room
    && (r.None? <==> m == 0 || m > memSize || (!Stays(bs[i], m) && !Room(bs, m)))
    // the block is gone, unless nothing changed; a refusal changes nothing
    && (m == 0 ==> bs[i] !in after)
    && (bs[i] in after ==> after == bs)
    && (r.None? && m > 0 ==> after == bs)
    // every other live block is where it was, and nothing else became live
    && (forall b :: b in bs && b.used && b != bs[i] ==> b in after)
    && (forall b :: b in after && b.used && b != bs[i] ==> b in bs || r == Some(b.addr + HEADER))
  }

  lemma ReallocFreed(bs: seq<Block>, memSize: nat, i: nat, n: nat)
    requires Tiles(bs, memSize + HEADER) && i < |bs| && bs[i].used && n < WORD && RtAlign(n) == 0
    ensures Reallocated(bs, memSize, i, n, ReallocAnswer(bs, memSize, i, n), ReallocStep(bs, memSize, i, n))
  {
    hide Tiles, Release;
    forall b: Block | b.used ensures b in Release(bs, i) <==> b in bs && b != bs[i] {
      ReleaseLive(bs, memSize + HEADER, i, b);
    }
  }

  lemma ReallocShrunk(bs: seq<Block>, memSize: nat, i: nat, n: nat)
    requires Tiles(bs, memSize + HEADER) && i < |bs| && bs[i].used && n < WORD
    requires 0 < RtAlign(n) <= memSize && RtAlign(n) + HEADER + MIN_PAYLOAD < bs[i].size
    ensures Reallocated(bs, memSize, i, n, ReallocAnswer(bs, memSize, i, n), ReallocStep(bs, memSize, i, n))
  {
    hide Tiles, Shrink, RtAlign;
    var m := RtAlign(n);
    RtAlignWhole(m);
    forall b: Block | b.used
      ensures b in Shrink(bs, i, m) <==> (b in bs && b != bs[i]) || b == Block(bs[i].addr, m, true)
    {
      ShrinkLive(bs, memSize + HEADER, i, m, b);
    }
    assert Block(bs[i].addr, m, true) in Shrink(bs, i, m);
  }

  lemma ReallocKept(bs: seq<Block>, memSize: nat, i: nat, n: nat)
    requires i < |bs| && bs[i].used && n < WORD && bs[i].size == RtAlign(n) && 0 < RtAlign(n) <= memSize
    ensures Reallocated(bs, memSize, i, n, ReallocAnswer(bs, memSize, i, n), ReallocStep(bs, memSize, i, n))
  {
    hide RtAlign;
    RtAlignWhole(RtAlign(n));
    assert bs[i] in bs;
  }

  lemma ReallocRefused(bs: seq<Block>, memSize: nat, i: nat, n: nat)
    requires Tiles(bs, memSize + HEADER) && i < |bs| && bs[i].used && n < WORD && RtAlign(n) > 0
    requires RtAlign(n) > memSize || (!Stays(bs[i], RtAlign(n)) && Chosen(bs, memSize, RtAlign(n)) == |bs|)
    ensures Reallocated(bs, memSize, i, n, ReallocAnswer(bs, memSize, i, n), ReallocStep(bs, memSize, i, n))
  {
    hide RtAlign, Chosen, Tiles;
    NullIff(bs, memSize, RtAlign(n));
  }

  /** Live blocks after block k was allocated and block i, found at j then, was freed. */
  lemma MoveLive(bs: seq<Block>, end: nat, k: nat, size: nat, i: nat, b: Block)
    requires Shape(bs, end) && i < |bs| && k < |bs| && bs[i].used && Fits(bs[k], size) && b.used
    requires size % 4 == 0 && size > 0
    ensures var t := Take(bs, k, size);
            && k < |t|
            && (b in Release(t, Moved(bs, k, size, i)) <==> (b in bs && b != bs[i]) || b == t[k])
  {
    hide Shape, Take, Release, Moved;
    TakeShape(bs, end, k, size);
    ShapeTiles(bs, end);
    ShapeTiles(Take(bs, k, size), end);
    TakenBlock(bs, k, size);
    Elsewhere(bs, end, i, k);
    TakeLive(bs, k, size, b);
    ReleaseLive(Take(bs, k, size), end, Moved(bs, k, size, i), b);
  }

  /** The block handed out is the free block whole, or just what was asked for, with a free
      block of at least a minimal payload left over. */
  lemma TakenBlock(bs: seq<Block>, k: nat, size: nat)
    requires k < |bs| && Fits(bs[k], size)
    ensures k < |Take(bs, k, size)|
    ensures var t := Take(bs, k, size); var b := t[k];
            && b.used && b.addr == bs[k].addr && size <= b.size < size + HEADER + MIN_PAYLOAD
            && (b.size != bs[k].size ==>
                  b.size == size && k + 1 < |t| && !t[k + 1].used && t[k + 1].size >= MIN_PAYLOAD)
  {
  }

  lemma Elsewhere(bs: seq<Block>, end: nat, i: nat, k: nat)
    requires Shape(bs, end) && i < |bs| && k < |bs| && i != k
    ensures bs[i].addr != bs[k].addr
  {
    if i < k { NoRepeat(bs, end, i, k); } else { NoRepeat(bs, end, k, i); }
  }

  lemma ShapeTiles(bs: seq<Block>, end: nat)
    requires Shape(bs, end)
    ensures Tiles(bs, end)
  {
  }

  lemma ReallocMoved(bs: seq<Block>, memSize: nat, i: nat, n: nat)
    requires Shape(bs, memSize + HEADER) && i < |bs| && bs[i].used && n < WORD
    requires 0 < RtAlign(n) <= memSize && !Stays(bs[i], RtAlign(n)) && Chosen(bs, memSize, RtAlign(n)) < |bs|
    ensures Reallocated(bs, memSize, i, n, ReallocAnswer(bs, memSize, i, n), ReallocStep(bs, memSize, i, n))
  {
    hide Shape, Take, Release, Moved, RtAlign;
    var m := RtAlign(n);
    RtAlignWhole(m);
    var k, size := Chosen(bs, memSize, m), Request(m);
    var t := Take(bs, k, size);
    TakenBlock(bs, k, size);
    Elsewhere(bs, memSize + HEADER, i, k);
    assert ReallocStep(bs, memSize, i, n) == Release(t, Moved(bs, k, size, i));
    forall b: Block | b.used
      ensures b in Release(t, Moved(bs, k, size, i)) <==> (b in bs && b != bs[i]) || b == t[k]
    {
      MoveLive(bs, memSize + HEADER, k, size, i, b);
    }
    MoveLive(bs, memSize + HEADER, k, size, i, t[k]);
    assert t[k] in Release(t, Moved(bs, k, size, i));
    assert bs[k] in bs && Fits(bs[k], Request(m));
  }

  /** In every case realloc keeps its promise. */
  lemma ReallocPromise(bs: seq<Block>, memSize: nat, i: nat, n: nat)
    requires Shape(bs, memSize + HEADER) && i < |bs| && bs[i].used && n < WORD
    ensures Reallocated(bs, memSize, i, n, ReallocAnswer(bs, memSize, i, n), ReallocStep(bs, memSize, i, n))
  {
    hide Reallocated, ReallocStep, ReallocAnswer, RtAlign, Chosen;
    var m := RtAlign(n);
    if m == 0 {
      ReallocFreed(bs, memSize, i, n);
    } else if m > memSize {
      ReallocRefused(bs, memSize, i, n);
    } else if bs[i].size == m {
      ReallocKept(bs, memSize, i, n);
    } else if Stays(bs[i], m) {
      ReallocShrunk(bs, memSize, i, n);
    } else if Chosen(bs, memSize, m) < |bs| {
      ReallocMoved(bs, memSize, i, n);
    } else {
      ReallocRefused(bs, memSize, i, n);
    }
  }

  function Apply(bs: seq<Block>, memSize: nat, op: Op): seq<Block>
    requires Enabled(bs, op)
  {
    match op
    case Alloc(n) => AllocStep(bs, memSize, n)
    case Free(i) => Release(bs, i)
    case Realloc(i, n) => ReallocStep(bs, memSize, i, n)
    case ReallocNull(n) => if RtAlign(n) > memSize || RtAlign(n) == 0 then bs else AllocStep(bs, memSize, RtAlign(n))
  }

  lemma AllocStepShape(bs: seq<Block>, memSize: nat, n: nat)
    requires Shape(bs, memSize + HEADER) && n < WORD
    ensures Shape(AllocStep(bs, memSize, n), memSize + HEADER)
  {
    var k := Chosen(bs, memSize, n);
    if k < |bs| { TakeShape(bs, memSize + HEADER, k, Request(n)); }
  }

  lemma ApplyShape(bs: seq<Block>, memSize: nat, op: Op)
    requires Shape(bs, memSize + HEADER) && Enabled(bs, op)
    ensures Shape(Apply(bs, memSize, op), memSize + HEADER)
  {
    match op {
      case Alloc(n) => AllocStepShape(bs, memSize, n);
      case ReallocNull(n) => AllocStepShape(bs, memSize, RtAlign(n));
      case Free(i) => ReleaseShape(bs, memSize + HEADER, i);
      case Realloc(i, n) =>
        match ResizeCase(bs, memSize, i, n) {
          case Refused =>
          case Kept =>
          case Freed => ReleaseShape(bs, memSize + HEADER, i);
          case InPlace => ShrinkShape(bs, memSize + HEADER, i, RtAlign(n));
          case Copied(k) =>
            var size := Request(RtAlign(n));
            TakeShape(bs, memSize + HEADER, k, size);
            ReleaseShape(Take(bs, k, size), memSize + HEADER, Moved(bs, k, size, i));
        }
    }
  }

  function Initial(memSize: nat): seq<Block> {
    [Block(0, memSize, false)]
  }

  ghost predicate Legal(bs: seq<Block>, memSize: nat, ops: seq<Op>)
    decreases |ops|
  {
    |ops| > 0 ==> Enabled(bs, ops[0]) && Legal(Apply(bs, memSize, ops[0]), memSize, ops[1..])
  }

  ghost function Run(bs: seq<Block>, memSize: nat, ops: seq<Op>): seq<Block>
    requires Legal(bs, memSize, ops)
    decreases |ops|
  {
    if |ops| == 0 then bs else Run(Apply(bs, memSize, ops[0]), memSize, ops[1..])
  }

  /** Every heap reached by any sequence of calls tiles its memory, is aligned, and
      has no two free neighbours. */
  lemma {:induction false} RunShape(bs: seq<Block>, memSize: nat, ops: seq<Op>)
    requires Shape(bs, memSize + HEADER) && Legal(bs, memSize, ops)
    ensures Shape(Run(bs, memSize, ops), memSize + HEADER)
    decreases |ops|
  {
    if |ops| > 0 {
      ApplyShape(bs, memSize, ops[0]);
      RunShape(Apply(bs, memSize, ops[0]), memSize, ops[1..]);
    }
  }

  /** After any calls that leave nothing live the heap is as it was made, and used
      and free bytes always add up to the heap. */
  lemma RunFromInitial(memSize: nat, ops: seq<Op>)
    requires memSize % 4 == 0 && memSize >= MIN_PAYLOAD && Legal(Initial(memSize), memSize, ops)
    ensures var bs := Run(Initial(memSize), memSize, ops);
            && Shape(bs, memSize + HEADER)
            && Bytes(bs, true) + Bytes(bs, false) == memSize + HEADER
            && ((forall i :: 0 <= i < |bs| ==> !bs[i].used) ==> bs == Initial(memSize))
  {
    hide Apply, Legal, Run, Bytes;
    RunShape(Initial(memSize), memSize, ops);
    var bs := Run(Initial(memSize), memSize, ops);
    BytesFill(bs, memSize + HEADER);
    if forall i :: 0 <= i < |bs| ==> !bs[i].used {
      Quiescent(bs, memSize + HEADER);
    }
  }
}
