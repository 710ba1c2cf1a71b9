/** rt-thread/src/mem.c: a first-fit heap in one buffer.  Each block starts with a
    header of three words (pool word, next offset, previous offset) kept in the
    buffer itself; the payload follows.  Cell `a` of `ram` is the word stored at
    byte offset a when a is a header field, and the byte at a inside a payload. */
module SmallMem {
  import opened Common
  import opened SmallMemSpec

  // ------------------------------------------------- the linked representation

  /** Block i's header cells hold its status, its successor and its predecessor. */
  ghost predicate HeaderOk(h: seq<nat>, bs: seq<Block>, i: nat, pool: nat)
    requires i < |bs|
  {
    && bs[i].addr + HEADER <= |h|
    && h[bs[i].addr] == pool + (if bs[i].used then 1 else 0)
    && h[bs[i].addr + 4] == End(bs[i])
    && h[bs[i].addr + 8] == (if i == 0 then 0 else bs[i - 1].addr)
  }

  /** The buffer links exactly the blocks `bs`.  The end marker's own `prev` is left
      out: a split next to it does not update it. */
  ghost predicate Linked(h: seq<nat>, bs: seq<Block>, pool: nat, end: nat) {
    && Tiles(bs, end)
    && |h| == end + HEADER
    && (forall i :: 0 <= i < |bs| ==> HeaderOk(h, bs, i, pool))
    && h[end] == pool + 1 && h[end + 4] == end
  }

  /** Payload cells of a block. */
  ghost function Payload(h: seq<nat>, b: Block): seq<nat>
    requires End(b) <= |h|
  {
    h[b.addr + HEADER..End(b)]
  }

  ghost function Live(bs: seq<Block>): set<Block> {
    set b | b in bs && b.used
  }

  /** The payload cells of the blocks in `live` are the same in h and g. */
  ghost predicate Keeps(h: seq<nat>, g: seq<nat>, live: set<Block>) {
    |h| == |g| && forall b :: b in live && End(b) <= |h| ==> Payload(g, b) == Payload(h, b)
  }

  lemma Apart(bs: seq<Block>, end: nat, i: nat, j: nat)
    requires Tiles(bs, end) && i < |bs| && j < |bs| && i != j
    ensures End(bs[i]) <= bs[j].addr || End(bs[j]) <= bs[i].addr
    ensures End(bs[i]) <= end && End(bs[j]) <= end
  {
    if i < j {
      Ordered(bs, end, i, j);
      Ordered(bs, end, j, |bs|);
    } else {
      Ordered(bs, end, j, i);
      Ordered(bs, end, i, |bs|);
    }
  }

  ghost predicate Cell(h: seq<nat>, a: nat, v: nat) {
    a < |h| && h[a] == v
  }

  /** g is h outside the cells `changed`. */
  ghost predicate SameBut(h: seq<nat>, g: seq<nat>, changed: set<nat>) {
    |g| == |h| && forall a: nat {:trigger g[a]} :: a < |h| && a !in changed ==> g[a] == h[a]
  }

  /** Cell c is in the payload of no block in `live`. */
  ghost predicate Outside(live: set<Block>, c: nat) {
    forall b :: b in live ==> c < b.addr + HEADER || End(b) <= c
  }

  lemma OutsideKeeps(h: seq<nat>, g: seq<nat>, live: set<Block>, changed: set<nat>)
    requires SameBut(h, g, changed)
    requires forall c :: c in changed ==> Outside(live, c)
    ensures Keeps(h, g, live)
  {
    forall b | b in live && End(b) <= |h| ensures Payload(g, b) == Payload(h, b) {
      forall a: nat | b.addr + HEADER <= a < End(b) ensures g[a] == h[a] {
        if a in changed { assert false; }
      }
    }
  }

  /** A header cell of block i, or any cell of it when it is free, is in no used
      payload; a cell of it is in no other used payload. */
  lemma OwnCell(bs: seq<Block>, end: nat, i: nat, c: nat)
    requires Tiles(bs, end) && i < |bs| && bs[i].addr <= c < End(bs[i])
    ensures Outside(Live(bs) - {bs[i]}, c)
    ensures c < bs[i].addr + HEADER || !bs[i].used ==> Outside(Live(bs), c)
  {
    forall b | b in Live(bs) - {bs[i]} ensures c < b.addr + HEADER || End(b) <= c {
      var j :| 0 <= j < |bs| && bs[j] == b;
      Apart(bs, end, i, j);
    }
  }

  lemma EndCell(bs: seq<Block>, end: nat, c: nat)
    requires Tiles(bs, end) && c >= end
    ensures Outside(Live(bs), c)
  {
    forall b | b in Live(bs) ensures End(b) <= c {
      var j :| 0 <= j < |bs| && bs[j] == b;
      Ordered(bs, end, j, |bs|);
    }
  }

  /** Changing a status word. */
  lemma RemarkLinked(h: seq<nat>, g: seq<nat>, bs: seq<Block>, pool: nat, end: nat, i: nat, used: bool)
    requires Linked(h, bs, pool, end) && Aligned(bs) && i < |bs|
    requires SameBut(h, g, {bs[i].addr}) && Cell(g, bs[i].addr, pool + (if used then 1 else 0))
    ensures Linked(g, bs[i := bs[i].(used := used)], pool, end)
  {
    RemarkTiles(bs, end, i, used);
    Ordered(bs, end, i, |bs|);
    var r := bs[i := bs[i].(used := used)];
    forall k | 0 <= k < |r| ensures HeaderOk(g, r, k, pool) {
      assert HeaderOk(h, bs, k, pool);
      if k < i { Ordered(bs, end, k, i); } else if k > i { Ordered(bs, end, i, k); }
    }
  }

  lemma RemarkKeeps(h: seq<nat>, g: seq<nat>, bs: seq<Block>, end: nat, i: nat)
    requires Tiles(bs, end) && i < |bs| && SameBut(h, g, {bs[i].addr})
    ensures Keeps(h, g, Live(bs))
  {
    OwnCell(bs, end, i, bs[i].addr);
    OutsideKeeps(h, g, Live(bs), {bs[i].addr});
  }

  /** Cells written by a split of the block at p, with the remainder at q and the
      next block at n. */
  ghost function CutCells(p: nat, q: nat, n: nat, end: nat): set<nat> {
    {p, p + 4, q, q + 4, q + 8} + if n != end then {n + 8} else {}
  }

  ghost predicate CutWrites(h: seq<nat>, g: seq<nat>, p: nat, q: nat, n: nat, pool: nat, end: nat) {
    && SameBut(h, g, CutCells(p, q, n, end))
    && Cell(g, p, pool + 1) && Cell(g, p + 4, q)
    && Cell(g, q, pool) && Cell(g, q + 4, n) && Cell(g, q + 8, p)
    && (n != end ==> Cell(g, n + 8, q))
  }

  /** The same writes but for the status word of the block that is split. */
  ghost predicate RemainderWrites(h: seq<nat>, g: seq<nat>, p: nat, q: nat, n: nat, pool: nat, end: nat) {
    && SameBut(h, g, CutCells(p, q, n, end) - {p})
    && Cell(g, p + 4, q)
    && Cell(g, q, pool) && Cell(g, q + 4, n) && Cell(g, q + 8, p)
    && (n != end ==> Cell(g, n + 8, q))
  }

  lemma MarkRemainder(h: seq<nat>, f: seq<nat>, g: seq<nat>, p: nat, q: nat, n: nat, pool: nat, end: nat)
    requires RemainderWrites(h, f, p, q, n, pool, end) && p + 4 < q && q + 8 < n
    requires p < |f| && g == f[p := pool + 1]
    ensures CutWrites(h, g, p, q, n, pool, end)
  {
  }

  /** Splitting a block that is marked used already. */
  lemma UsedRemainder(h: seq<nat>, g: seq<nat>, p: nat, q: nat, n: nat, pool: nat, end: nat)
    requires RemainderWrites(h, g, p, q, n, pool, end) && Cell(h, p, pool + 1)
    requires p + HEADER <= q && q + 8 < n <= end < |h|
    ensures CutWrites(h, g, p, q, n, pool, end)
    ensures SameContents(h, g, p + HEADER, p + HEADER, q - p - HEADER)
  {
  }

  /** The five or six header writes of a split. */
  lemma CutLinked(h: seq<nat>, g: seq<nat>, bs: seq<Block>, pool: nat, end: nat, i: nat, size: nat)
    requires Linked(h, bs, pool, end) && Aligned(bs) && i < |bs|
    requires bs[i].size > size + HEADER && size > 0 && size % 4 == 0
    requires CutWrites(h, g, bs[i].addr, bs[i].addr + HEADER + size, End(bs[i]), pool, end)
    ensures Linked(g, bs[..i] + Cut(bs[i], size) + bs[i + 1..], pool, end)
  {
    CutTiles(bs, end, i, size);
    Ordered(bs, end, i, |bs|);
    if i + 1 < |bs| { assert Adjacent(bs, end, i); Ordered(bs, end, i + 1, |bs|); }
    var r := bs[..i] + Cut(bs[i], size) + bs[i + 1..];
    assert HeaderOk(h, bs, i, pool);
    forall k | 0 <= k < |r| ensures HeaderOk(g, r, k, pool) {
      if k < i {
        CutBefore(h, g, bs, r, pool, end, i, size, k);
      } else if k > i + 1 {
        CutAfter(h, g, bs, r, pool, end, i, size, k);
      }
    }
  }

  lemma CutBefore(h: seq<nat>, g: seq<nat>, bs: seq<Block>, r: seq<Block>, pool: nat, end: nat, i: nat, size: nat,
                  k: nat)
    requires Linked(h, bs, pool, end) && i < |bs| && k < i && bs[i].size > size + HEADER
    requires CutWrites(h, g, bs[i].addr, bs[i].addr + HEADER + size, End(bs[i]), pool, end)
    requires r == bs[..i] + Cut(bs[i], size) + bs[i + 1..]
    ensures HeaderOk(g, r, k, pool)
  {
    Apart(bs, end, k, i);
    Ordered(bs, end, k, i);
    assert HeaderOk(h, bs, k, pool);
  }

  lemma CutAfter(h: seq<nat>, g: seq<nat>, bs: seq<Block>, r: seq<Block>, pool: nat, end: nat, i: nat, size: nat,
                 k: nat)
    requires Linked(h, bs, pool, end) && i < |bs| && bs[i].size > size + HEADER
    requires r == bs[..i] + Cut(bs[i], size) + bs[i + 1..]
    requires i + 1 < k < |r|
    requires CutWrites(h, g, bs[i].addr, bs[i].addr + HEADER + size, End(bs[i]), pool, end)
    ensures HeaderOk(g, r, k, pool)
  {
    assert r[k] == bs[k - 1];
    Ordered(bs, end, i, k - 1);
    Ordered(bs, end, k - 1, |bs|);
    assert HeaderOk(h, bs, k - 1, pool);
    assert Adjacent(bs, end, i);
    if k > i + 2 {
      Ordered(bs, end, i + 1, k - 1);
    }
  }

  lemma CutKeeps(h: seq<nat>, g: seq<nat>, bs: seq<Block>, pool: nat, end: nat, i: nat, size: nat)
    requires Tiles(bs, end) && i < |bs| && bs[i].size > size + HEADER
    requires CutWrites(h, g, bs[i].addr, bs[i].addr + HEADER + size, End(bs[i]), pool, end)
    ensures Keeps(h, g, Live(bs) - {bs[i]})
  {
    var p, q, n := bs[i].addr, bs[i].addr + HEADER + size, End(bs[i]);
    assert Adjacent(bs, end, i);
    forall c | c in CutCells(p, q, n, end) ensures Outside(Live(bs) - {bs[i]}, c) {
      if c == n + 8 { OwnCell(bs, end, i + 1, c); } else { OwnCell(bs, end, i, c); }
    }
    OutsideKeeps(h, g, Live(bs) - {bs[i]}, CutCells(p, q, n, end));
  }

  ghost predicate MergeWrites(h: seq<nat>, g: seq<nat>, p: nat, q: nat, n: nat) {
    SameBut(h, g, {q, p + 4, n + 8}) && Cell(g, q, 0) && Cell(g, p + 4, n) && Cell(g, n + 8, p)
  }

  /** The three writes of one half of plug_holes. */
  lemma MergeLinked(h: seq<nat>, g: seq<nat>, bs: seq<Block>, pool: nat, end: nat, i: nat)
    requires Linked(h, bs, pool, end) && Aligned(bs) && i + 1 < |bs|
    requires MergeWrites(h, g, bs[i].addr, bs[i + 1].addr, End(bs[i + 1]))
    ensures Linked(g, Merge(bs, i), pool, end)
  {
    MergeTiles(bs, end, i);
    var r := Merge(bs, i);
    assert Adjacent(bs, end, i);
    Ordered(bs, end, i + 1, |bs|);
    if i + 2 < |bs| { assert Adjacent(bs, end, i + 1); Ordered(bs, end, i + 2, |bs|); }
    assert HeaderOk(h, bs, i, pool) && HeaderOk(h, bs, i + 1, pool);
    forall k | 0 <= k < |r| ensures HeaderOk(g, r, k, pool) {
      if k < i {
        Ordered(bs, end, k, i);
        assert HeaderOk(h, bs, k, pool);
      } else if k > i {
        MergeAfter(h, g, bs, pool, end, i, k);
      }
    }
  }

  lemma MergeAfter(h: seq<nat>, g: seq<nat>, bs: seq<Block>, pool: nat, end: nat, i: nat, k: nat)
    requires Linked(h, bs, pool, end) && i < k < |bs| - 1
    requires MergeWrites(h, g, bs[i].addr, bs[i + 1].addr, End(bs[i + 1]))
    ensures HeaderOk(g, Merge(bs, i), k, pool)
  {
    assert Merge(bs, i)[k] == bs[k + 1];
    assert Adjacent(bs, end, i) && Adjacent(bs, end, i + 1);
    Ordered(bs, end, i + 1, k + 1);
    Ordered(bs, end, k + 1, |bs|);
    assert HeaderOk(h, bs, k + 1, pool);
    if k > i + 1 { Ordered(bs, end, i + 2, k + 1); }
  }

  lemma MergeKeeps(h: seq<nat>, g: seq<nat>, bs: seq<Block>, end: nat, i: nat)
    requires Tiles(bs, end) && i + 1 < |bs|
    requires MergeWrites(h, g, bs[i].addr, bs[i + 1].addr, End(bs[i + 1]))
    ensures Keeps(h, g, Live(bs))
  {
    var p, q, n := bs[i].addr, bs[i + 1].addr, End(bs[i + 1]);
    assert Adjacent(bs, end, i + 1);
    forall c | c in {q, p + 4, n + 8} ensures Outside(Live(bs), c) {
      if c == n + 8 && i + 2 < |bs| {
        OwnCell(bs, end, i + 2, c);
      } else if c == n + 8 {
        EndCell(bs, end, c);
      } else {
        OwnCell(bs, end, if c == q then i + 1 else i, c);
      }
    }
    OutsideKeeps(h, g, Live(bs), {q, p + 4, n + 8});
  }

  /** A client that stays inside its own payload disturbs nothing else. */
  lemma StoreLinked(h: seq<nat>, g: seq<nat>, bs: seq<Block>, pool: nat, end: nat, i: nat)
    requires Linked(h, bs, pool, end) && i < |bs| && |g| == |h|
    requires forall a :: 0 <= a < |h| && !(bs[i].addr + HEADER <= a < End(bs[i])) ==> g[a] == h[a]
    ensures Linked(g, bs, pool, end)
    ensures Keeps(h, g, Live(bs) - {bs[i]})
  {
    Ordered(bs, end, i, |bs|);
    forall k | 0 <= k < |bs| ensures HeaderOk(g, bs, k, pool) {
      assert HeaderOk(h, bs, k, pool);
      if k != i { Apart(bs, end, i, k); }
    }
    forall b | b in Live(bs) - {bs[i]} && End(b) <= |h| ensures Payload(g, b) == Payload(h, b) {
      var k :| 0 <= k < |bs| && bs[k] == b;
      Apart(bs, end, i, k);
    }
  }

  lemma TakeLiveSet(bs: seq<Block>, i: nat, size: nat)
    requires i < |bs| && Fits(bs[i], size)
    ensures Live(Take(bs, i, size)) == Live(bs) + {Take(bs, i, size)[i]}
  {
    TakeLive(bs, i, size, Take(bs, i, size)[i].(used := true));
    forall b: Block | b.used ensures b in Live(Take(bs, i, size)) <==> b in Live(bs) + {Take(bs, i, size)[i]} {
      TakeLive(bs, i, size, b);
    }
  }

  lemma LowestBelow(bs: seq<Block>, end: nat, i: nat)
    requires Tiles(bs, end) && i < |bs| && !bs[i].used
    ensures LowestFree(bs, end) <= bs[i].addr
  {
    var k := FirstFit(bs, 0);
    assert Fits(bs[i], 0);
    if k < i { Ordered(bs, end, k, i); }
  }

  /** Merging two free neighbours does not move the lowest free block. */
  lemma MergeLowest(bs: seq<Block>, end: nat, i: nat)
    requires i + 1 < |bs| && !bs[i].used && !bs[i + 1].used
    ensures LowestFree(Merge(bs, i), end) == LowestFree(bs, end)
  {
    var r := Merge(bs, i);
    var k := FirstFit(bs, 0);
    assert k <= i by { assert Fits(bs[i], 0); }
    assert Fits(r[k], 0);
    assert forall j :: 0 <= j < k ==> r[j] == bs[j];
  }

  /** Freeing block i moves the lowest free block down to it or not at all. */
  lemma FreedLowest(bs: seq<Block>, end: nat, i: nat)
    requires Tiles(bs, end) && i < |bs| && bs[i].used
    ensures LowestFree(bs[i := bs[i].(used := false)], end)
         == if bs[i].addr < LowestFree(bs, end) then bs[i].addr else LowestFree(bs, end)
  {
    var m := bs[i := bs[i].(used := false)];
    var k := FirstFit(bs, 0);
    assert Fits(m[i], 0);
    Ordered(bs, end, i, |bs|);
    if k < |bs| {
      assert k != i && Fits(m[k], 0);
      if i < k { Ordered(bs, end, i, k); } else { Ordered(bs, end, k, i); }
    }
    var f := FirstFit(m, 0);
    if f != i { assert Fits(bs[f], 0); }
  }

  lemma FreedLive(bs: seq<Block>, end: nat, i: nat)
    requires Tiles(bs, end) && i < |bs| && bs[i].used
    ensures Live(bs[i := bs[i].(used := false)]) == Live(bs) - {bs[i]}
  {
    var m := bs[i := bs[i].(used := false)];
    forall b: Block | b.used ensures b in m <==> b in bs && b != bs[i] {
      if b in bs && b != bs[i] {
        var j :| 0 <= j < |bs| && bs[j] == b;
        assert m[j] == b;
      }
      if b in m {
        var j :| 0 <= j < |m| && m[j] == b;
        assert bs[j] == b;
        if j < i { NoRepeat(bs, end, j, i); } else { NoRepeat(bs, end, i, j); }
      }
    }
  }

  /** The block an allocation returns is used, big enough and was not live before. */
  lemma TakenIsNew(bs: seq<Block>, end: nat, k: nat, size: nat)
    requires Tiles(bs, end) && k < |bs| && Fits(bs[k], size)
    ensures Live(Take(bs, k, size)) == Live(bs) + {Take(bs, k, size)[k]}
    ensures Take(bs, k, size)[k] !in Live(bs)
    ensures Take(bs, k, size)[k].used && Take(bs, k, size)[k].size >= size
    ensures Take(bs, k, size)[k].addr == bs[k].addr
  {
    TakeLiveSet(bs, k, size);
    TakeLive(bs, k, size, Block(0, 0, true));
    if Take(bs, k, size)[k] in Live(bs) {
      var m :| 0 <= m < |bs| && bs[m] == Take(bs, k, size)[k];
      if m < k { NoRepeat(bs, end, m, k); } else { NoRepeat(bs, end, k, m); }
    }
  }

  /** Taking a block above the lowest free one leaves that one lowest. */
  lemma TakeLowest(bs: seq<Block>, end: nat, i: nat, size: nat)
    requires Tiles(bs, end) && i < |bs| && Fits(bs[i], size) && LowestFree(bs, end) != bs[i].addr
    ensures LowestFree(Take(bs, i, size), end) == LowestFree(bs, end)
  {
    var k := FirstFit(bs, 0);
    assert Fits(bs[i], 0);
    var r := Take(bs, i, size);
    assert k < i && Fits(r[k], 0);
    assert forall j :: 0 <= j <= k ==> r[j] == bs[j];
  }

  /** Cutting a tail off used block i makes that tail a candidate for the lowest. */
  lemma CutLowest(bs: seq<Block>, end: nat, i: nat, size: nat)
    requires Tiles(bs, end) && i < |bs| && bs[i].used && bs[i].size > size + HEADER
    ensures var q := bs[i].addr + HEADER + size;
            LowestFree(bs[..i] + Cut(bs[i], size) + bs[i + 1..], end)
            == if q < LowestFree(bs, end) then q else LowestFree(bs, end)
  {
    var r := bs[..i] + Cut(bs[i], size) + bs[i + 1..];
    var k := FirstFit(bs, 0);
    assert forall j :: 0 <= j < i ==> r[j] == bs[j];
    assert Fits(r[i + 1], 0);
    Ordered(bs, end, i, |bs|);
    if k < |bs| {
      assert k != i;
      if k < i {
        Ordered(bs, end, k, i);
        assert Fits(r[k], 0);
      } else {
        Ordered(bs, end, i, k);
      }
    }
    var f := FirstFit(r, 0);
    if f < i { assert Fits(bs[f], 0); }
  }

  lemma CutLiveSet(bs: seq<Block>, end: nat, i: nat, size: nat)
    requires Tiles(bs, end) && i < |bs| && bs[i].used && bs[i].size >= size + HEADER
    ensures Live(bs[..i] + Cut(bs[i], size) + bs[i + 1..]) == Live(bs) - {bs[i]} + {Block(bs[i].addr, size, true)}
  {
    var r := bs[..i] + Cut(bs[i], size) + bs[i + 1..];
    forall b: Block | b.used ensures b in r <==> (b in bs && b != bs[i]) || b == Cut(bs[i], size)[0] {
      CutLive(bs, end, i, size, b);
    }
  }

  lemma LowestIndex(bs: seq<Block>, end: nat, i: nat)
    requires Tiles(bs, end) && i < |bs| && !bs[i].used && LowestFree(bs, end) == bs[i].addr
    ensures FirstFit(bs, 0) == i
  {
    var k := FirstFit(bs, 0);
    assert Fits(bs[i], 0);
    if k < i { Ordered(bs, end, k, i); }
  }

  class SmallMem {
    const pool: nat      // MEM_FREED(): the object's own address, low bit clear
    const memSize: nat   // mem_size_aligned
    const ram: array<nat>
    var lfree: nat
    var used: nat
    var max: nat
    ghost var blocks: seq<Block>

    const heapEnd: nat := memSize + HEADER

    /** The buffer links the blocks. */
    ghost predicate Links()
      reads this`blocks, ram
    {
      && pool % 2 == 0 && pool > 0
      && MIN_PAYLOAD <= memSize < WORD - 2 * HEADER
      && Tiles(blocks, heapEnd) && Aligned(blocks)
      && Linked(ram[..], blocks, pool, heapEnd)
    }

    /** All of the invariant except that free neighbours are merged. */
    ghost predicate Core()
      reads this, ram
    {
      && Links()
      && lfree == LowestFree(blocks, heapEnd)
      && used == Bytes(blocks, true)
    }

    ghost predicate Valid()
      reads this, ram
    {
      Core() && NoFreePair(blocks) && used <= max
    }

    /** rt_smem_init, once the address arithmetic has fixed the buffer. */
    constructor (pool: nat, memSize: nat)
      requires pool % 4 == 0 && pool > 0
      requires memSize % 4 == 0 && MIN_PAYLOAD <= memSize < WORD - 2 * HEADER
      ensures Valid() && fresh(ram) && blocks == Initial(memSize)
      ensures this.pool == pool && this.memSize == memSize && used == 0 && max == 0
    {
      this.pool := pool;
      this.memSize := memSize;
      ram := new nat[memSize + 2 * HEADER];
      lfree := 0;
      used := 0;
      max := 0;
      blocks := Initial(memSize);
      new;
      ram[0] := pool;
      ram[4] := memSize + HEADER;
      ram[8] := 0;
      ram[heapEnd] := pool + 1;
      ram[heapEnd + 4] := memSize + HEADER;
      ram[heapEnd + 8] := memSize + HEADER;
      BytesShort(blocks, true);
    }

    function IsUsed(mem: nat): bool
      requires mem < ram.Length
      reads ram
    {
      ram[mem] % 2 == 1
    }

    /** What reading a block's header cells gives. */
    lemma Header(i: nat)
      requires Links() && i < |blocks|
      ensures blocks[i].addr + HEADER <= End(blocks[i]) <= heapEnd && ram.Length == heapEnd + HEADER
      ensures IsUsed(blocks[i].addr) == blocks[i].used
      ensures ram[blocks[i].addr + 4] == End(blocks[i])
      ensures ram[blocks[i].addr + 4] == if i + 1 < |blocks| then blocks[i + 1].addr else heapEnd
      ensures ram[blocks[i].addr + 8] == if i == 0 then 0 else blocks[i - 1].addr
    {
      assert HeaderOk(ram[..], blocks, i, pool);
      Ordered(blocks, heapEnd, i, |blocks|);
      assert Adjacent(blocks, heapEnd, i);
    }

    /** The writes both halves of plug_holes do: the block at p absorbs its
        successor at q. */
    method Absorb(p: nat, q: nat)
      requires p + 4 != q + 4 && p + 4 != q && q + 4 < ram.Length && p + 4 < ram.Length && ram[q + 4] + 8 < ram.Length
      requires ram[q + 4] + 8 != q && ram[q + 4] + 8 != p + 4
      modifies ram
      ensures MergeWrites(old(ram[..]), ram[..], p, q, old(ram[q + 4]))
    {
      ram[q] := 0;
      ram[p + 4] := ram[q + 4];
      ram[ram[q + 4] + 8] := p;
    }

    /** First half of plug_holes: absorb a free successor. */
    method PlugHoleForward(mem: nat, ghost i: nat)
      requires Core() && i < |blocks| && mem == blocks[i].addr && !blocks[i].used
      modifies this`lfree, this`blocks, ram
      ensures Core() && blocks == PlugForward(old(blocks), i)
      ensures Keeps(old(ram[..]), ram[..], old(Live(blocks))) && Live(blocks) == old(Live(blocks))
    {
      Header(i);
      if i + 1 < |blocks| { Header(i + 1); }
      var nmem := ram[mem + 4];
      if mem != nmem && !IsUsed(nmem) && nmem != heapEnd {
        if lfree == nmem {
          lfree := mem;
        }
        LowestBelow(blocks, heapEnd, i);
        ghost var h := ram[..];
        Absorb(mem, nmem);
        Merged(h, i);
        blocks := Merge(blocks, i);
      }
    }

    /** Second half: let a free predecessor absorb the block. */
    method PlugHoleBackward(mem: nat, ghost i: nat)
      requires Core() && i < |blocks| && mem == blocks[i].addr && !blocks[i].used
      modifies this`lfree, this`blocks, ram
      ensures Core() && blocks == PlugBackward(old(blocks), i)
      ensures Keeps(old(ram[..]), ram[..], old(Live(blocks))) && Live(blocks) == old(Live(blocks))
    {
      Header(i);
      if i > 0 { Header(i - 1); }
      var pmem := ram[mem + 8];
      if pmem != mem && !IsUsed(pmem) {
        if lfree == mem {
          lfree := pmem;
        }
        LowestBelow(blocks, heapEnd, i - 1);
        ghost var h := ram[..];
        Absorb(pmem, mem);
        Merged(h, i - 1);
        blocks := Merge(blocks, i - 1);
      }
    }

    method PlugHoles(mem: nat, ghost i: nat)
      requires Core() && i < |blocks| && mem == blocks[i].addr && !blocks[i].used
      modifies this`lfree, this`blocks, ram
      ensures Core() && blocks == Plug(old(blocks), i)
      ensures Keeps(old(ram[..]), ram[..], old(Live(blocks))) && Live(blocks) == old(Live(blocks))
    {
      PlugHoleForward(mem, i);
      PlugHoleBackward(mem, i);
    }

    /** What one merge establishes, from the cells it wrote. */
    lemma Merged(h: seq<nat>, i: nat)
      requires Tiles(blocks, heapEnd) && Aligned(blocks) && Linked(h, blocks, pool, heapEnd)
      requires i + 1 < |blocks| && !blocks[i].used && !blocks[i + 1].used
      requires MergeWrites(h, ram[..], blocks[i].addr, blocks[i + 1].addr, End(blocks[i + 1]))
      ensures Linked(ram[..], Merge(blocks, i), pool, heapEnd)
      ensures Tiles(Merge(blocks, i), heapEnd) && Aligned(Merge(blocks, i))
      ensures Keeps(h, ram[..], Live(blocks)) && Live(Merge(blocks, i)) == Live(blocks)
      ensures LowestFree(Merge(blocks, i), heapEnd) == LowestFree(blocks, heapEnd)
      ensures Bytes(Merge(blocks, i), true) == Bytes(blocks, true)
    {
      MergeLinked(h, ram[..], blocks, pool, heapEnd, i);
      MergeKeeps(h, ram[..], blocks, heapEnd, i);
      MergeTiles(blocks, heapEnd, i);
      MergeLowest(blocks, heapEnd, i);
      MergeBytes(blocks, i);
      forall b: Block | b.used ensures b in Merge(blocks, i) <==> b in blocks {
        MergeLive(blocks, i, b);
      }
    }

    /** rt_smem_free.  `i` is the live block the pointer belongs to. */
    method Free(rmem: Option<nat>, ghost i: nat)
      requires Valid()
      requires rmem.Some? ==> i < |blocks| && blocks[i].used && rmem.value == blocks[i].addr + HEADER
      modifies this`lfree, this`used, this`blocks, ram
      ensures Valid()
      ensures rmem.None? ==> blocks == old(blocks) && ram[..] == old(ram[..])
      ensures rmem.Some? ==> blocks == Release(old(blocks), i)
      ensures rmem.Some? ==> Keeps(old(ram[..]), ram[..], old(Live(blocks)) - {old(blocks[i])})
    {
      if rmem.None? {
        return;
      }
      var mem := rmem.value - HEADER;
      ReleaseShape(blocks, heapEnd, i);
      MarkFree(mem, i);
      PlugHoles(mem, i);
    }

    /** The first part of a free: status, cached pointer and accounting. */
    method MarkFree(mem: nat, ghost i: nat)
      requires Core() && i < |blocks| && blocks[i].used && mem == blocks[i].addr
      modifies this`lfree, this`used, this`blocks, ram
      ensures Core() && blocks == old(blocks)[i := old(blocks)[i].(used := false)] && used <= old(used)
      ensures Keeps(old(ram[..]), ram[..], old(Live(blocks)))
      ensures Live(blocks) == old(Live(blocks)) - {old(blocks[i])}
    {
      Header(i);
      ghost var h := ram[..];
      ram[mem] := pool;
      Marked(h, i);
      if mem < lfree {
        lfree := mem;
      }
      used := used - (ram[mem + 4] - mem);
      blocks := blocks[i := blocks[i].(used := false)];
    }

    /** What clearing the status of block i establishes. */
    lemma Marked(h: seq<nat>, i: nat)
      requires Tiles(blocks, heapEnd) && Aligned(blocks) && Linked(h, blocks, pool, heapEnd)
      requires i < |blocks| && blocks[i].used
      requires SameBut(h, ram[..], {blocks[i].addr}) && Cell(ram[..], blocks[i].addr, pool)
      ensures var m := blocks[i := blocks[i].(used := false)];
              && Linked(ram[..], m, pool, heapEnd) && Tiles(m, heapEnd) && Aligned(m)
              && Keeps(h, ram[..], Live(blocks)) && Live(m) == Live(blocks) - {blocks[i]}
              && LowestFree(m, heapEnd)
                 == (if blocks[i].addr < LowestFree(blocks, heapEnd) then blocks[i].addr
                     else LowestFree(blocks, heapEnd))
              && Bytes(m, true) + Stride(blocks[i]) == Bytes(blocks, true)
              && Cell(ram[..], blocks[i].addr + 4, End(blocks[i]))
    {
      assert HeaderOk(h, blocks, i, pool);
      RemarkLinked(h, ram[..], blocks, pool, heapEnd, i, false);
      RemarkKeeps(h, ram[..], blocks, heapEnd, i);
      RemarkTiles(blocks, heapEnd, i, false);
      FreedLowest(blocks, heapEnd, i);
      FreedBytes(blocks, i);
      FreedLive(blocks, heapEnd, i);
      assert HeaderOk(ram[..], blocks[i := blocks[i].(used := false)], i, pool);
    }

    /** Links a free block at p + HEADER + size between the block at p and the next one. */
    method InsertRemainder(p: nat, size: nat)
      requires p + 4 < ram.Length && p + HEADER + size + 8 < ram[p + 4] <= heapEnd && ram.Length == heapEnd + HEADER
      requires size > 0
      modifies ram
      ensures RemainderWrites(old(ram[..]), ram[..], p, p + HEADER + size, old(ram[p + 4]), pool, heapEnd)
    {
      var ptr2 := p + HEADER + size;
      ram[ptr2] := pool;
      ram[ptr2 + 4] := ram[p + 4];
      ram[ptr2 + 8] := p;
      ram[p + 4] := ptr2;
      if ram[ptr2 + 4] != memSize + HEADER {
        ram[ram[ptr2 + 4] + 8] := ptr2;
      }
    }

    /** Advances the cached pointer past used blocks. */
    method Rescan(ghost start: nat)
      requires Links() && start <= |blocks| && lfree == AddrOf(blocks, heapEnd, start)
      requires forall j {:trigger blocks[j]} :: 0 <= j < start ==> blocks[j].used
      modifies this`lfree
      ensures lfree == LowestFree(blocks, heapEnd)
    {
      ghost var k := start;
      if k < |blocks| { Header(k); }
      while IsUsed(lfree) && lfree != heapEnd
        invariant k <= |blocks| && lfree == AddrOf(blocks, heapEnd, k) && lfree < ram.Length
        invariant forall j {:trigger blocks[j]} :: 0 <= j < k ==> blocks[j].used
        decreases |blocks| - k
      {
        Header(k);
        lfree := ram[lfree + 4];
        k := k + 1;
      }
      if k < |blocks| {
        Header(k);
        assert Fits(blocks[k], 0);
      }
    }

    /** Splits the found block or takes all of it, and accounts for it. */
    method WriteTaken(ptr: nat, size: nat, ghost k: nat)
      requires Core() && k < |blocks| && ptr == blocks[k].addr
      requires Fits(blocks[k], size) && size > 0 && size % 4 == 0
      modifies this`used, this`max, this`blocks, ram
      ensures Linked(ram[..], blocks, pool, heapEnd) && blocks == Take(old(blocks), k, size)
      ensures used == old(used) + Stride(Take(old(blocks), k, size)[k])
      ensures max == if old(max) < used then used else old(max)
      ensures Keeps(old(ram[..]), ram[..], old(Live(blocks)))
    {
      hide Linked, Aligned, Tiles, Bytes, LowestFree, SameBut, Fits, CutCells, RemainderWrites, CutWrites;
      ghost var h := ram[..];
      Header(k);
      if ram[ptr + 4] - (ptr + HEADER) >= size + HEADER + MIN_PAYLOAD {
        InsertRemainder(ptr, size);
        used := used + (size + HEADER);
        if max < used {
          max := used;
        }
      } else {
        used := used + (ram[ptr + 4] - ptr);
        if max < used {
          max := used;
        }
      }
      ghost var f := ram[..];
      Mark(ptr);
      if blocks[k].size >= size + HEADER + MIN_PAYLOAD {
        MarkRemainder(h, f, ram[..], ptr, ptr + HEADER + size, End(blocks[k]), pool, heapEnd);
      }
      Taken(h, k, size);
      blocks := Take(blocks, k, size);
    }

    /** MEM_USED on the block at ptr. */
    method Mark(ptr: nat)
      requires ptr < ram.Length
      modifies ram
      ensures ram[..] == old(ram[..])[ptr := pool + 1]
    {
      ram[ptr] := pool + 1;
    }

    /** The body of the search loop once a block is found. */
    method TakeBlock(ptr: nat, size: nat, ghost k: nat)
      requires Valid() && k < |blocks| && ptr == blocks[k].addr
      requires Fits(blocks[k], size) && size > 0 && size % 4 == 0
      modifies this, ram
      ensures Valid() && blocks == Take(old(blocks), k, size)
      ensures max == if old(max) < used then used else old(max)
      ensures Keeps(old(ram[..]), ram[..], old(Live(blocks)))
    {
      ghost var bs := blocks;
      TakeShape(bs, heapEnd, k, size);
      TakeBytes(bs, k, size);
      WriteTaken(ptr, size, k);
      if ptr == lfree {
        LowestIndex(bs, heapEnd, k);
        Rescan(k);
      } else {
        TakeLowest(bs, heapEnd, k, size);
      }
    }

    /** The search loop: the lowest-addressed free block with room for `size`. */
    method Search(size: nat) returns (found: Option<nat>)
      requires Valid() && size <= memSize
      ensures var k := FirstFit(blocks, size);
              found == if k < |blocks| then Some(blocks[k].addr) else None
    {
      ghost var k: nat := FirstFit(blocks, 0);
      var ptr := lfree;
      while ptr <= memSize - size
        invariant k <= |blocks| && ptr == AddrOf(blocks, heapEnd, k)
        invariant forall j {:trigger blocks[j]} :: 0 <= j < k ==> !Fits(blocks[j], size)
        decreases |blocks| - k
      {
        Header(k);
        if !IsUsed(ptr) && ram[ptr + 4] - (ptr + HEADER) >= size {
          return Some(ptr);
        }
        ptr := ram[ptr + 4];
        k := k + 1;
      }
      RestTooSmall(k, size);
      return None;
    }

    /** What an allocation's header writes establish. */
    lemma Taken(h: seq<nat>, k: nat, size: nat)
      requires Tiles(blocks, heapEnd) && Aligned(blocks) && Linked(h, blocks, pool, heapEnd)
      requires k < |blocks| && Fits(blocks[k], size) && size > 0 && size % 4 == 0
      requires if blocks[k].size >= size + HEADER + MIN_PAYLOAD
               then CutWrites(h, ram[..], blocks[k].addr, blocks[k].addr + HEADER + size, End(blocks[k]), pool, heapEnd)
               else SameBut(h, ram[..], {blocks[k].addr}) && Cell(ram[..], blocks[k].addr, pool + 1)
      ensures Linked(ram[..], Take(blocks, k, size), pool, heapEnd)
      ensures Keeps(h, ram[..], Live(blocks))
    {
      if blocks[k].size >= size + HEADER + MIN_PAYLOAD {
        CutLinked(h, ram[..], blocks, pool, heapEnd, k, size);
        CutKeeps(h, ram[..], blocks, pool, heapEnd, k, size);
        assert Live(blocks) - {blocks[k]} == Live(blocks);
      } else {
        RemarkLinked(h, ram[..], blocks, pool, heapEnd, k, true);
        RemarkKeeps(h, ram[..], blocks, heapEnd, k);
      }
    }

    /** rt_smem_alloc: first fit from the cached pointer. */
    method Alloc(n: nat) returns (r: Option<nat>)
      requires Valid() && n < WORD
      modifies this, ram
      ensures Valid() && blocks == AllocStep(old(blocks), memSize, n)
      ensures r.None? <==> Chosen(old(blocks), memSize, n) == |old(blocks)|
      ensures r.None? ==> ram[..] == old(ram[..]) && lfree == old(lfree) && max == old(max)
      ensures r.Some? ==> r.value == old(blocks)[Chosen(old(blocks), memSize, n)].addr + HEADER
      ensures r.Some? ==> PayloadAt(blocks, r.value, Request(n), Request(n) + HEADER + MIN_PAYLOAD)
      ensures r.Some? ==> max == if old(max) < used then used else old(max)
      ensures Keeps(old(ram[..]), ram[..], old(Live(blocks)))
    {
      if n == 0 {
        return None;
      }
      var size := RtAlign(n);
      if size > memSize {
        return None;
      }
      if size < MIN_PAYLOAD {
        size := MIN_PAYLOAD;
      }
      var found := Search(size);
      if found.None? {
        return None;
      }
      TakenPayload(blocks, FirstFit(blocks, size), size);
      TakeBlock(found.value, size, FirstFit(blocks, size));
      return Some(found.value + HEADER);
    }

    /** Past the loop bound no block has room. */
    lemma RestTooSmall(k: nat, size: nat)
      requires Links() && k <= |blocks| && size <= memSize < AddrOf(blocks, heapEnd, k) + size
      requires forall j {:trigger blocks[j]} :: 0 <= j < k ==> !Fits(blocks[j], size)
      ensures FirstFit(blocks, size) == |blocks|
    {
      forall j | k <= j < |blocks| ensures blocks[j].size < size {
        Ordered(blocks, heapEnd, j, |blocks|);
        if k < j { Ordered(blocks, heapEnd, k, j); }
      }
    }

    /** The header writes of an in-place shrink of used block i. */
    method CutInPlace(ptr: nat, size: nat, newsize: nat, ghost i: nat)
      requires Core() && i < |blocks| && blocks[i].used && ptr == blocks[i].addr && size == blocks[i].size
      requires newsize + HEADER + MIN_PAYLOAD < size && newsize > 0 && newsize % 4 == 0
      modifies this`lfree, this`used, this`blocks, ram
      ensures Core() && blocks == old(blocks)[..i] + Cut(old(blocks)[i], newsize) + old(blocks)[i + 1..]
      ensures used <= old(used)
      ensures Keeps(old(ram[..]), ram[..], old(Live(blocks)) - {old(blocks[i])})
      ensures SameContents(old(ram[..]), ram[..], ptr + HEADER, ptr + HEADER, newsize)
    {
      ghost var h := ram[..];
      Header(i);
      CutBytes(blocks, i, newsize);
      used := used - (size - newsize);
      var ptr2 := ptr + HEADER + newsize;
      InsertRemainder(ptr, newsize);
      CutInPlaceDone(h, i, newsize);
      if ptr2 < lfree {
        lfree := ptr2;
      }
      blocks := blocks[..i] + Cut(blocks[i], newsize) + blocks[i + 1..];
    }

    /** What those writes establish. */
    lemma CutInPlaceDone(h: seq<nat>, i: nat, size: nat)
      requires Tiles(blocks, heapEnd) && Aligned(blocks) && Linked(h, blocks, pool, heapEnd)
      requires i < |blocks| && blocks[i].used && size + HEADER + MIN_PAYLOAD < blocks[i].size
      requires size > 0 && size % 4 == 0
      requires RemainderWrites(h, ram[..], blocks[i].addr, blocks[i].addr + HEADER + size, End(blocks[i]), pool,
                               heapEnd)
      ensures var r := blocks[..i] + Cut(blocks[i], size) + blocks[i + 1..];
              && Linked(ram[..], r, pool, heapEnd) && Aligned(r)
              && LowestFree(r, heapEnd) == Min(blocks[i].addr + HEADER + size, LowestFree(blocks, heapEnd))
              && Bytes(r, true) + (blocks[i].size - size) == Bytes(blocks, true)
      ensures Keeps(h, ram[..], Live(blocks) - {blocks[i]})
      ensures SameContents(h, ram[..], blocks[i].addr + HEADER, blocks[i].addr + HEADER, size)
    {
      hide BytesTo, FirstFit, CutCells, RemainderWrites, CutWrites;
      assert Cell(h, blocks[i].addr, pool + 1) by { assert HeaderOk(h, blocks, i, pool); }
      Ordered(blocks, heapEnd, i, |blocks|);
      UsedRemainder(h, ram[..], blocks[i].addr, blocks[i].addr + HEADER + size, End(blocks[i]), pool, heapEnd);
      CutLinked(h, ram[..], blocks, pool, heapEnd, i, size);
      CutKeeps(h, ram[..], blocks, pool, heapEnd, i, size);
      CutBytes(blocks, i, size);
      CutLowest(blocks, heapEnd, i, size);
      CutTiles(blocks, heapEnd, i, size);
    }

    method ShrinkInPlace(ptr: nat, size: nat, newsize: nat, ghost i: nat)
      requires Valid() && i < |blocks| && blocks[i].used && ptr == blocks[i].addr && size == blocks[i].size
      requires newsize + HEADER + MIN_PAYLOAD < size && newsize > 0 && newsize % 4 == 0
      modifies this`lfree, this`used, this`blocks, ram
      ensures Valid() && blocks == Shrink(old(blocks), i, newsize)
      ensures Keeps(old(ram[..]), ram[..], old(Live(blocks)) - {old(blocks[i])})
      ensures SameContents(old(ram[..]), ram[..], ptr + HEADER, ptr + HEADER, newsize)
    {
      ghost var h, bs := ram[..], blocks;
      CutInPlace(ptr, size, newsize, i);
      PlugRemainder(ptr, newsize, h, bs, i);
    }

    /** plug_holes on the tail that a shrink cut off. */
    method PlugRemainder(ptr: nat, newsize: nat, ghost h: seq<nat>, ghost bs: seq<Block>, ghost i: nat)
      requires Core() && Shape(bs, heapEnd) && i < |bs| && bs[i].used && ptr == bs[i].addr && used <= max
      requires newsize + HEADER + MIN_PAYLOAD < bs[i].size && newsize > 0 && newsize % 4 == 0
      requires blocks == bs[..i] + Cut(bs[i], newsize) + bs[i + 1..]
      requires Keeps(h, ram[..], Live(bs) - {bs[i]})
      requires SameContents(h, ram[..], ptr + HEADER, ptr + HEADER, newsize)
      modifies this`lfree, this`blocks, ram
      ensures Valid() && blocks == Shrink(bs, i, newsize)
      ensures Keeps(h, ram[..], Live(bs) - {bs[i]})
      ensures SameContents(h, ram[..], ptr + HEADER, ptr + HEADER, newsize)
    {
      hide Linked, Tiles, Aligned, NoFreePair, OneUsed, LowestFree, Bytes, Keeps;
      ghost var g, small := ram[..], Block(ptr, newsize, true);
      ShrinkShape(bs, heapEnd, i, newsize);
      CutLiveSet(bs, heapEnd, i, newsize);
      Ordered(bs, heapEnd, i, |bs|);
      PlugHoles(ptr + HEADER + newsize, i + 1);
      LandedContents(h, g, ram[..], small, Live(bs) - {bs[i]} + {small}, ptr + HEADER, ptr + HEADER, newsize);
      KeepsCompose(h, g, ram[..], Live(bs) - {bs[i]}, Live(bs) - {bs[i]} + {small}, Live(bs) - {bs[i]});
    }

    /** rt_memcpy from one block's payload to another's. */
    method Memcpy(dst: nat, src: nat, len: nat)
      requires dst + len <= ram.Length && src + len <= ram.Length
      requires dst + len <= src || src + len <= dst
      modifies ram
      ensures forall a :: 0 <= a < ram.Length && !(dst <= a < dst + len) ==> ram[a] == old(ram[a])
      ensures ram[dst..dst + len] == old(ram[..])[src..src + len]
    {
      for x := 0 to len
        invariant forall a :: 0 <= a < ram.Length && !(dst <= a < dst + x) ==> ram[a] == old(ram[a])
        invariant ram[dst..dst + x] == old(ram[..])[src..src + x]
      {
        ram[dst + x] := ram[src + x];
      }
    }

    /** Copies bytes of block i to the payload of block k. */
    method CopyPayload(dst: nat, src: nat, len: nat, ghost k: nat, ghost i: nat)
      requires Valid() && k < |blocks| && i < |blocks| && k != i
      requires dst == blocks[k].addr + HEADER && src == blocks[i].addr + HEADER
      requires len <= blocks[k].size && len <= blocks[i].size
      modifies ram
      ensures Valid()
      ensures Keeps(old(ram[..]), ram[..], Live(blocks) - {blocks[k]})
      ensures SameContents(old(ram[..]), ram[..], src, dst, len)
    {
      ghost var h := ram[..];
      Header(k);
      Header(i);
      Apart(blocks, heapEnd, k, i);
      Memcpy(dst, src, len);
      StoreLinked(h, ram[..], blocks, pool, heapEnd, k);
    }

    /** The "expand memory" part of realloc, also used for a small shrink. */
    method Relocate(rmem: nat, newsize: nat, ghost i: nat) returns (r: Option<nat>)
      requires Valid() && newsize < WORD && i < |blocks| && blocks[i].used && rmem == blocks[i].addr + HEADER
      requires 0 < newsize && RtAlign(newsize) == newsize
      modifies this, ram
      ensures Valid()
      ensures var bs := old(blocks); var k := Chosen(bs, memSize, newsize);
              if k == |bs| then
                && r == None && blocks == bs
                && ram[..] == old(ram[..]) && lfree == old(lfree) && max == old(max)
              else
                && r == Some(bs[k].addr + HEADER)
                && k != i && blocks == Release(Take(bs, k, Request(newsize)), Moved(bs, k, Request(newsize), i))
                && SameContents(old(ram[..]), ram[..], rmem, r.value, Min(bs[i].size, newsize))
      ensures Keeps(old(ram[..]), ram[..], old(Live(blocks)) - {old(blocks[i])})
    {
      hide Take, Release, Linked, Tiles, Aligned, NoFreePair;
      ghost var h, bs := ram[..], blocks;
      ghost var k, want := Chosen(blocks, memSize, newsize), Request(newsize);
      Header(i);
      var size := ram[rmem - HEADER + 4] - rmem;
      r := Alloc(newsize);
      if r.Some? {
        FinishMove(rmem, r.value, if size < newsize then size else newsize, h, bs, k, i, want);
      }
    }

    /** rt_smem_realloc.  `i` is the live block the pointer belongs to. */
    method Realloc(rmem: Option<nat>, n: nat, ghost i: nat) returns (r: Option<nat>)
      requires Valid() && n < WORD
      requires rmem.Some? ==> i < |blocks| && blocks[i].used && rmem.value == blocks[i].addr + HEADER
      modifies this, ram
      ensures Valid()
      ensures rmem.None? ==> blocks == Apply(old(blocks), memSize, ReallocNull(n))
      ensures rmem.None? ==> Keeps(old(ram[..]), ram[..], old(Live(blocks)))
      ensures rmem.None? && r.Some? ==>
                PayloadAt(blocks, r.value, Request(RtAlign(n)), Request(RtAlign(n)) + HEADER + MIN_PAYLOAD)
      ensures rmem.None? ==>
                var m := RtAlign(n);
                && (r.None? <==> m > memSize || m == 0 || Chosen(old(blocks), memSize, m) == |old(blocks)|)
                && (r.Some? ==> r.value == old(blocks)[Chosen(old(blocks), memSize, m)].addr + HEADER)
      ensures rmem.Some? ==> blocks == ReallocStep(old(blocks), memSize, i, n)
      ensures rmem.Some? ==> Keeps(old(ram[..]), ram[..], old(Live(blocks)) - {old(blocks[i])})
      ensures rmem.Some? ==> Reallocated(old(blocks), memSize, i, n, r, blocks)
      ensures rmem.Some? && r.Some? ==>
                SameContents(old(ram[..]), ram[..], rmem.value, r.value, Min(old(blocks)[i].size, RtAlign(n)))
      ensures r.None? && RtAlign(n) != 0 ==>
                && ram[..] == old(ram[..]) && blocks == old(blocks) && lfree == old(lfree) && max == old(max)
    {
      hide Take, Release, Shrink, Linked, Tiles, Aligned, NoFreePair, Bytes, LowestFree, RtAlign,
        ReallocStep, ReallocAnswer, Reallocated, Chosen, PayloadAt, SameContents;
      var newsize := RtAlign(n);
      if rmem.Some? {
        ReallocRounded(blocks, memSize, i, n);
        ReallocPromise(blocks, memSize, i, n);
      }
      if newsize > memSize {
        return None;
      } else if newsize == 0 {
        Free(rmem, i);
        return None;
      }
      if rmem.None? {
        r := Alloc(newsize);
        return;
      }
      r := Resize(rmem.value, newsize, i);
    }

    /** The part of realloc that has a block and a size to change it to. */
    method Resize(rmem: nat, newsize: nat, ghost i: nat) returns (r: Option<nat>)
      requires Valid() && i < |blocks| && blocks[i].used && rmem == blocks[i].addr + HEADER
      requires 0 < newsize <= memSize && newsize % 4 == 0
      modifies this, ram
      ensures Valid() && blocks == ReallocStep(old(blocks), memSize, i, newsize)
      ensures Keeps(old(ram[..]), ram[..], old(Live(blocks)) - {old(blocks[i])})
      ensures r == ReallocAnswer(old(blocks), memSize, i, newsize)
      ensures Reallocated(old(blocks), memSize, i, newsize, r, blocks)
      ensures r.Some? ==> SameContents(old(ram[..]), ram[..], rmem, r.value, Min(old(blocks)[i].size, newsize))
      ensures r.None? ==> ram[..] == old(ram[..]) && blocks == old(blocks) && lfree == old(lfree) && max == old(max)
    {
      hide RtAlign, Take, Release, Shrink, Linked, Tiles, Aligned, NoFreePair, Bytes, LowestFree, Live, Fits, FirstFit,
        SameContents, Reallocated;
      RtAlignWhole(newsize);
      ReallocPromise(blocks, memSize, i, newsize);
      Header(i);
      var ptr := rmem - HEADER;
      var size := ram[ptr + 4] - ptr - HEADER;
      if size == newsize {
        SameSelf(ram[..], blocks, heapEnd, i);
        return Some(rmem);
      }
      if newsize + HEADER + MIN_PAYLOAD < size {
        ShrinkInPlace(ptr, size, newsize, i);
        return Some(rmem);
      }
      r := Relocate(rmem, newsize, i);
    }

    /** Copy and free, after block k of `bs` was taken to hold block i's bytes. */
    method FinishMove(src: nat, dst: nat, len: nat, ghost h: seq<nat>, ghost bs: seq<Block>, ghost k: nat, ghost i: nat,
                      ghost want: nat)
      requires Valid() && Tiles(bs, heapEnd) && k < |bs| && i < |bs| && bs[i].used && Fits(bs[k], want)
      requires blocks == Take(bs, k, want) && Keeps(h, ram[..], Live(bs))
      requires src == bs[i].addr + HEADER && dst == bs[k].addr + HEADER && len <= bs[i].size && len <= want
      modifies this`lfree, this`used, this`blocks, ram
      ensures Valid() && blocks == Release(Take(bs, k, want), Moved(bs, k, want, i))
      ensures SameContents(h, ram[..], src, dst, len)
      ensures Keeps(h, ram[..], Live(bs) - {bs[i]})
    {
      ghost var j, f, mid := Moved(bs, k, want, i), ram[..], blocks;
      TakenIsNew(bs, heapEnd, k, want);
      Ordered(bs, heapEnd, i, |bs|);
      MoveInto(src, dst, len, j, k);
      SameContentsFrom(h, f, ram[..], bs[i], src, dst, len);
      KeepsCompose(h, f, ram[..], Live(bs), Live(mid) - {mid[j], mid[k]}, Live(bs) - {bs[i]});
    }

    /** Copies block j's first bytes to block k and frees block j. */
    method MoveInto(src: nat, dst: nat, len: nat, ghost j: nat, ghost k: nat)
      requires Valid() && j < |blocks| && k < |blocks| && j != k && blocks[j].used && blocks[k].used
      requires src == blocks[j].addr + HEADER && dst == blocks[k].addr + HEADER
      requires len <= blocks[j].size && len <= blocks[k].size
      modifies this`lfree, this`used, this`blocks, ram
      ensures Valid() && blocks == Release(old(blocks), j)
      ensures SameContents(old(ram[..]), ram[..], src, dst, len)
      ensures Keeps(old(ram[..]), ram[..], old(Live(blocks)) - {old(blocks[j]), old(blocks[k])})
    {
      ghost var h, bs := ram[..], blocks;
      Header(j);
      Header(k);
      NoRepeatPair(bs, heapEnd, j, k);
      CopyPayload(dst, src, len, k, j);
      ghost var g := ram[..];
      Free(Some(src), j);
      LandedContents(h, g, ram[..], bs[k], Live(bs) - {bs[j]}, src, dst, len);
      KeepsCompose(h, g, ram[..], Live(bs) - {bs[k]}, Live(bs) - {bs[j]}, Live(bs) - {bs[j], bs[k]});
    }
  }

  function Min(a: nat, b: nat): nat {
    if a < b then a else b
  }

  /** The `len` cells at `to` in g are the `len` cells at `from` in h. */
  ghost predicate SameContents(h: seq<nat>, g: seq<nat>, from: nat, to: nat, len: nat) {
    from + len <= |h| && to + len <= |g| && g[to..to + len] == h[from..from + len]
  }

  lemma SameSelf(h: seq<nat>, bs: seq<Block>, end: nat, i: nat)
    requires Tiles(bs, end) && i < |bs| && end <= |h|
    ensures SameContents(h, h, bs[i].addr + HEADER, bs[i].addr + HEADER, bs[i].size)
  {
    Ordered(bs, end, i, |bs|);
  }

  lemma TakenPayload(bs: seq<Block>, k: nat, size: nat)
    requires k < |bs| && Fits(bs[k], size)
    ensures PayloadAt(Take(bs, k, size), bs[k].addr + HEADER, size, size + HEADER + MIN_PAYLOAD)
  {
    TakenBlock(bs, k, size);
    assert Take(bs, k, size)[k] in Take(bs, k, size);
  }

  lemma NoRepeatPair(bs: seq<Block>, end: nat, i: nat, j: nat)
    requires Tiles(bs, end) && i < |bs| && j < |bs| && i != j
    ensures bs[i] != bs[j]
  {
    if i < j { NoRepeat(bs, end, i, j); } else { NoRepeat(bs, end, j, i); }
  }

  lemma PayloadStart(h: seq<nat>, b: Block, len: nat)
    requires End(b) <= |h| && len <= b.size
    ensures h[b.addr + HEADER..b.addr + HEADER + len] == Payload(h, b)[..len]
  {
  }

  lemma SameContentsFrom(h: seq<nat>, f: seq<nat>, e: seq<nat>, b: Block, from: nat, to: nat, len: nat)
    requires End(b) <= |h| == |f| && Payload(f, b) == Payload(h, b)
    requires from == b.addr + HEADER && len <= b.size && SameContents(f, e, from, to, len)
    ensures SameContents(h, e, from, to, len)
  {
    PayloadStart(f, b, len);
    PayloadStart(h, b, len);
  }

  lemma LandedContents(h: seq<nat>, g: seq<nat>, e: seq<nat>, c: Block, live: set<Block>, from: nat, to: nat, len: nat)
    requires c in live && End(c) <= |g| && Keeps(g, e, live)
    requires to == c.addr + HEADER && len <= c.size && SameContents(h, g, from, to, len)
    ensures SameContents(h, e, from, to, len)
  {
    PayloadStart(e, c, len);
    PayloadStart(g, c, len);
  }

  lemma KeepsCompose(h: seq<nat>, g: seq<nat>, e: seq<nat>, first: set<Block>, second: set<Block>, live: set<Block>)
    requires Keeps(h, g, first) && Keeps(g, e, second) && live <= first && live <= second
    ensures Keeps(h, e, live)
  {
  }
}
