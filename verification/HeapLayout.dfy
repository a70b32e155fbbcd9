/** The kernel heap as a list of blocks: first fit, splitting, growing at the end and coalescing,
    with the partition of the managed range that every call keeps. */
module HeapLayout {

  /** `sizeof(block_header_t)` on i386. */
  const HDR: nat := 12
  const ALIGN: nat := 8

  /** Header at `addr`, then `size` bytes of payload. */
  datatype Block = Block(addr: nat, size: nat, free: bool) {
    function Payload(): nat { addr + HDR }
    function End(): nat { addr + HDR + size }
  }

  /** The managed range from `base` to the bump pointer. */
  datatype Layout = Layout(base: nat, bump: nat, blocks: seq<Block>)

  /** `align_up_uintptr` for the alignments in use, the heap's and the page size. */
  function AlignUp(x: nat, align: nat): (r: nat)
    requires align == ALIGN || align == 4096
    ensures x <= r < x + align && r % align == 0
  {
    if align == 4096 then (x + 4095) / 4096 * 4096 else (x + 7) / 8 * 8
  }

  // ------------------------------------------------------------------------------------------
  // Invariants
  // ------------------------------------------------------------------------------------------

  /** `b` starts right after a pad of fewer than eight bytes. */
  predicate Follows(at: nat, b: Block) { at <= b.addr < at + ALIGN }

  /** Where the first `i` blocks end. */
  function Reached(bs: seq<Block>, at: nat, i: nat): nat
    requires i <= |bs|
  {
    if i == 0 then at else bs[i - 1].End()
  }

  /** Blocks and pads tile the range between `at` and `end`. */
  predicate Tiles(bs: seq<Block>, at: nat, end: nat) {
    && Reached(bs, at, |bs|) == end
    && forall i {:trigger Reached(bs, at, i)} :: 0 <= i < |bs| ==> Follows(Reached(bs, at, i), bs[i])
  }

  predicate Partition(l: Layout) { Tiles(l.blocks, l.base, l.bump) }

  predicate Touch(a: Block, b: Block) { a.free && b.free && a.End() == b.addr }

  /** Coalescing is maximal: no two neighbouring free blocks touch. */
  predicate Coalesced(bs: seq<Block>) {
    forall i :: 0 <= i < |bs| - 1 ==> !Touch(bs[i], bs[i + 1])
  }

  lemma TilesApp(xs: seq<Block>, ys: seq<Block>, at: nat, mid: nat, end: nat)
    requires Tiles(xs, at, mid) && Tiles(ys, mid, end)
    ensures Tiles(xs + ys, at, end)
  {
    var zs := xs + ys;
    forall i | 0 <= i < |zs| ensures Follows(Reached(zs, at, i), zs[i]) {
      if i < |xs| { assert Follows(Reached(xs, at, i), xs[i]); }
      else { assert Follows(Reached(ys, mid, i - |xs|), ys[i - |xs|]); }
    }
  }

  lemma TilesSplit(bs: seq<Block>, at: nat, end: nat, i: nat)
    requires Tiles(bs, at, end) && i <= |bs|
    ensures Tiles(bs[..i], at, Reached(bs, at, i)) && Tiles(bs[i..], Reached(bs, at, i), end)
  {
    var mid := Reached(bs, at, i);
    forall j | 0 <= j < i ensures Follows(Reached(bs[..i], at, j), bs[..i][j]) {
      assert Follows(Reached(bs, at, j), bs[j]);
    }
    forall j | 0 <= j < |bs| - i ensures Follows(Reached(bs[i..], mid, j), bs[i..][j]) {
      assert Follows(Reached(bs, at, i + j), bs[i + j]);
    }
  }

  /** Any two blocks are disjoint and in address order. */
  lemma {:induction false} Disjoint(bs: seq<Block>, at: nat, end: nat, i: nat, j: nat)
    requires Tiles(bs, at, end) && i < j < |bs|
    ensures bs[i].End() <= bs[j].addr
    decreases j
  {
    assert Follows(Reached(bs, at, j), bs[j]);
    if i < j - 1 { Disjoint(bs, at, end, i, j - 1); }
  }

  lemma Within(bs: seq<Block>, at: nat, end: nat, i: nat)
    requires Tiles(bs, at, end) && i < |bs|
    ensures at <= bs[i].addr && bs[i].End() <= end
  {
    assert Follows(Reached(bs, at, 0), bs[0]);
    if i > 0 { Disjoint(bs, at, end, 0, i); }
    if i < |bs| - 1 { Disjoint(bs, at, end, i, |bs| - 1); }
  }

  // ------------------------------------------------------------------------------------------
  // Allocation
  // ------------------------------------------------------------------------------------------

  predicate Fits(b: Block, want: nat) { b.free && b.size >= want }

  /** The first block that can serve `want` bytes, or the number of blocks. */
  function FirstFit(bs: seq<Block>, want: nat): (i: nat)
    ensures i <= |bs| && (i < |bs| ==> Fits(bs[i], want)) && forall j :: 0 <= j < i ==> !Fits(bs[j], want)
  {
    if bs == [] || Fits(bs[0], want) then 0 else 1 + FirstFit(bs[1..], want)
  }

  /** What becomes of a chosen block: a large remainder is split off and stays free. */
  function Carve(b: Block, want: nat): seq<Block>
    requires want <= b.size
  {
    if b.size <= want + HDR + 16 then [b.(free := false)]
    else [Block(b.addr, want, false), Block(b.addr + HDR + want, b.size - want - HDR, true)]
  }

  function AllocAt(l: Layout, i: nat, want: nat): Layout
    requires i < |l.blocks| && want <= l.blocks[i].size
  {
    l.(blocks := l.blocks[..i] + Carve(l.blocks[i], want) + l.blocks[i + 1..])
  }

  function Extend(l: Layout, want: nat): Layout {
    var b := Block(AlignUp(l.bump, ALIGN), want, false);
    l.(bump := b.End(), blocks := l.blocks + [b])
  }

  /** `kmalloc` on the block list, for a size that is already rounded; the position of the block
      that was handed out. */
  function Malloc(l: Layout, want: nat): (r: (Layout, nat)) {
    var i := FirstFit(l.blocks, want);
    (if i < |l.blocks| then AllocAt(l, i, want) else Extend(l, want), i)
  }

  lemma CarveTiles(b: Block, want: nat, at: nat)
    requires want <= b.size && Follows(at, b)
    ensures Tiles(Carve(b, want), at, b.End())
  {
  }

  lemma AllocPartition(l: Layout, i: nat, want: nat)
    requires Partition(l) && i < |l.blocks| && want <= l.blocks[i].size
    ensures Partition(AllocAt(l, i, want))
  {
    var bs, at := l.blocks, Reached(l.blocks, l.base, i);
    TilesSplit(bs, l.base, l.bump, i);
    TilesSplit(bs, l.base, l.bump, i + 1);
    assert Follows(at, bs[i]);
    CarveTiles(bs[i], want, at);
    TilesApp(bs[..i], Carve(bs[i], want), l.base, at, bs[i].End());
    TilesApp(bs[..i] + Carve(bs[i], want), bs[i + 1..], l.base, bs[i].End(), l.bump);
  }

  lemma ExtendPartition(l: Layout, want: nat)
    requires Partition(l)
    ensures Partition(Extend(l, want))
  {
    var b := Block(AlignUp(l.bump, ALIGN), want, false);
    TilesApp(l.blocks, [b], l.base, l.bump, b.End());
  }

  lemma AllocCoalesced(l: Layout, i: nat, want: nat)
    requires Coalesced(l.blocks) && i < |l.blocks| && Fits(l.blocks[i], want)
    ensures Coalesced(AllocAt(l, i, want).blocks)
  {
    var bs, cs := l.blocks, AllocAt(l, i, want).blocks;
    var n := |Carve(bs[i], want)|;
    forall j | 0 <= j < |cs| - 1 ensures !Touch(cs[j], cs[j + 1]) {
      if j >= i + n - 1 {
        assert cs[j + 1] == bs[j + 2 - n] && !Touch(bs[j + 1 - n], bs[j + 2 - n]);
      } else if j < i {
        assert j < i - 1 ==> !Touch(bs[j], bs[j + 1]);
      }
    }
  }

  /** Every `kmalloc` keeps the partition and leaves no two free blocks touching. */
  lemma MallocKeeps(l: Layout, want: nat)
    requires Partition(l) && Coalesced(l.blocks)
    ensures Partition(Malloc(l, want).0) && Coalesced(Malloc(l, want).0.blocks)
  {
    var i := FirstFit(l.blocks, want);
    if i < |l.blocks| {
      AllocPartition(l, i, want);
      AllocCoalesced(l, i, want);
    } else {
      ExtendPartition(l, want);
      var b := Block(AlignUp(l.bump, ALIGN), want, false);
      forall j | 0 <= j < |l.blocks + [b]| - 1 ensures !Touch((l.blocks + [b])[j], (l.blocks + [b])[j + 1]) {}
    }
  }

  /** The heap grows only when no free block is large enough. */
  lemma GrowsOnlyWhenFull(l: Layout, want: nat)
    requires Partition(l)
    ensures Malloc(l, want).0.bump > l.bump <==> forall b :: b in l.blocks ==> !Fits(b, want)
    ensures Malloc(l, want).0.bump >= l.bump
  {
    var i := FirstFit(l.blocks, want);
    if i < |l.blocks| { assert l.blocks[i] in l.blocks; }
  }

  // ------------------------------------------------------------------------------------------
  // Freeing
  // ------------------------------------------------------------------------------------------

  function Join(a: Block, b: Block): Block { a.(size := a.size + HDR + b.size) }

  /** Joins the blocks at `i` and `i + 1` when they touch. */
  function MergeAt(bs: seq<Block>, i: nat): seq<Block> {
    if i + 1 < |bs| && Touch(bs[i], bs[i + 1])
    then bs[..i] + [Join(bs[i], bs[i + 1])] + bs[i + 2..] else bs
  }

  /** `kfree` on the block list: the block is joined with the free block before it, then the result
      with the free block after it. */
  function FreeAt(bs: seq<Block>, i: nat): seq<Block>
    requires i < |bs|
  {
    var cs := bs[i := bs[i].(free := true)];
    if i > 0 && Touch(cs[i - 1], cs[i]) then MergeAt(MergeAt(cs, i - 1), i - 1) else MergeAt(cs, i)
  }

  function Free(l: Layout, i: nat): Layout
    requires i < |l.blocks|
  {
    l.(blocks := FreeAt(l.blocks, i))
  }

  lemma MergeTiles(bs: seq<Block>, i: nat, at: nat, end: nat)
    requires Tiles(bs, at, end)
    ensures Tiles(MergeAt(bs, i), at, end)
  {
    if i + 1 < |bs| && Touch(bs[i], bs[i + 1]) {
      var mid, j := Reached(bs, at, i), Join(bs[i], bs[i + 1]);
      TilesSplit(bs, at, end, i);
      TilesSplit(bs, at, end, i + 2);
      assert Follows(mid, bs[i]);
      TilesApp(bs[..i], [j], at, mid, j.End());
      TilesApp(bs[..i] + [j], bs[i + 2..], at, j.End(), end);
    }
  }

  lemma FlagTiles(bs: seq<Block>, i: nat, at: nat, end: nat)
    requires Tiles(bs, at, end) && i < |bs|
    ensures Tiles(bs[i := bs[i].(free := true)], at, end)
  {
    var cs := bs[i := bs[i].(free := true)];
    forall j | 0 <= j < |cs| ensures Follows(Reached(cs, at, j), cs[j]) { assert Follows(Reached(bs, at, j), bs[j]); }
  }

  /** Every `kfree` keeps the partition and leaves no two free blocks touching. */
  lemma FreeKeeps(l: Layout, i: nat)
    requires Partition(l) && Coalesced(l.blocks) && i < |l.blocks| && !l.blocks[i].free
    ensures Partition(Free(l, i)) && Coalesced(FreeAt(l.blocks, i))
  {
    var bs := l.blocks;
    var cs := bs[i := bs[i].(free := true)];
    FlagTiles(bs, i, l.base, l.bump);
    if i > 0 {
      MergeTiles(cs, i - 1, l.base, l.bump);
      MergeTiles(MergeAt(cs, i - 1), i - 1, l.base, l.bump);
    }
    MergeTiles(cs, i, l.base, l.bump);
    FreeCoalesced(bs, i);
  }

  /** Freeing replaces the blocks at `lo`..`lo + n` by one that covers them. */
  lemma FreeShape(bs: seq<Block>, i: nat) returns (lo: nat, n: nat)
    requires i < |bs| && !bs[i].free
    ensures var cs, ds := bs[i := bs[i].(free := true)], FreeAt(bs, i);
      && n == |bs| - |ds| && lo + n < |bs| && lo <= i <= lo + n
      && ds[lo].addr == cs[lo].addr && ds[lo].End() == cs[lo + n].End() && cs[lo].free && cs[lo + n].free
      && (forall j :: 0 <= j < lo ==> ds[j] == cs[j])
      && (forall j :: lo < j < |ds| ==> ds[j] == cs[j + n])
      && (lo == i ==> i == 0 || !Touch(cs[i - 1], cs[i]))
      && (lo + n == i ==> i + 1 == |bs| || !Touch(cs[i], cs[i + 1]))
      && (lo < i ==> lo == i - 1) && (lo + n > i ==> lo + n == i + 1)
  {
    var cs, ds := bs[i := bs[i].(free := true)], FreeAt(bs, i);
    n := |bs| - |ds|;
    lo := if i > 0 && Touch(cs[i - 1], cs[i]) then i - 1 else i;
  }

  lemma FreeCoalesced(bs: seq<Block>, i: nat)
    requires Coalesced(bs) && i < |bs| && !bs[i].free
    ensures Coalesced(FreeAt(bs, i))
  {
    hide FreeAt;
    var cs, ds := bs[i := bs[i].(free := true)], FreeAt(bs, i);
    var lo, n := FreeShape(bs, i);
    assert forall j :: 0 <= j < |bs| - 1 && j != i && j + 1 != i ==> !Touch(cs[j], cs[j + 1]) by {
      forall j | 0 <= j < |bs| - 1 && j != i && j + 1 != i ensures !Touch(cs[j], cs[j + 1]) {
        assert !Touch(bs[j], bs[j + 1]);
      }
    }
    forall j | 0 <= j < |ds| - 1 ensures !Touch(ds[j], ds[j + 1]) {
      var a, b := if j < lo then j else j + n, if j + 1 <= lo then j + 1 else j + 1 + n;
      assert !Touch(cs[a], cs[b]);
      assert ds[j].End() == cs[a].End() && ds[j + 1].addr == cs[b].addr;
      assert (ds[j].free ==> cs[a].free) && (ds[j + 1].free ==> cs[b].free);
    }
  }

  /** A block taken from the free list and given back at once leaves the heap as it was. */
  lemma MallocThenFree(l: Layout, want: nat)
    requires Coalesced(l.blocks) && FirstFit(l.blocks, want) < |l.blocks|
    ensures Malloc(l, want).1 < |Malloc(l, want).0.blocks|
    ensures Free(Malloc(l, want).0, Malloc(l, want).1) == l
  {
    var bs, i := l.blocks, FirstFit(l.blocks, want);
    var cs := AllocAt(l, i, want).blocks;
    assert i > 0 ==> !Touch(bs[i - 1], bs[i]);
    assert i + 1 < |bs| ==> !Touch(bs[i], bs[i + 1]);
    var ds := cs[i := cs[i].(free := true)];
    if |Carve(bs[i], want)| == 1 {
      assert ds == bs;
    } else {
      assert ds[i + 1].End() == bs[i].End();
      assert MergeAt(ds, i) == bs;
    }
  }

  // ------------------------------------------------------------------------------------------
  // Runs
  // ------------------------------------------------------------------------------------------

  predicate InUse(l: Layout, b: Block) { !b.free && b in l.blocks }

  /** An allocation adds exactly one block in use, which is large enough, and changes no other. */
  lemma MallocInUse(l: Layout, want: nat)
    requires Partition(l)
    ensures var (m, i) := Malloc(l, want);
      && i < |m.blocks| && InUse(m, m.blocks[i]) && m.blocks[i].size >= want && !InUse(l, m.blocks[i])
      && forall b :: InUse(m, b) <==> InUse(l, b) || b == m.blocks[i]
  {
    var bs, i := l.blocks, FirstFit(l.blocks, want);
    var (m, _) := Malloc(l, want);
    var cs := m.blocks;
    if i < |bs| {
      var n := |Carve(bs[i], want)|;
      forall b | InUse(l, b) ensures InUse(m, b) && b.addr != bs[i].addr {
        var j :| 0 <= j < |bs| && bs[j] == b;
        assert cs[if j < i then j else j + n - 1] == b;
        if j < i { Disjoint(bs, l.base, l.bump, j, i); } else { Disjoint(bs, l.base, l.bump, i, j); }
      }
      forall b | InUse(m, b) && b != cs[i] ensures InUse(l, b) {
        var j :| 0 <= j < |cs| && cs[j] == b;
        assert b == bs[if j < i then j else j - n + 1];
      }
    } else {
      forall b | InUse(l, b) ensures b != cs[i] {
        var j :| 0 <= j < |bs| && bs[j] == b;
        Within(bs, l.base, l.bump, j);
      }
    }
  }

  /** Freeing takes exactly that block out of use and changes no other. */
  lemma FreeInUse(l: Layout, i: nat)
    requires Partition(l) && i < |l.blocks| && !l.blocks[i].free
    ensures forall b :: InUse(Free(l, i), b) <==> InUse(l, b) && b != l.blocks[i]
  {
    var bs := l.blocks;
    var cs := bs[i := bs[i].(free := true)];
    forall b: Block ensures !b.free && b in cs <==> InUse(l, b) && b != bs[i] {
      if InUse(l, b) && b != bs[i] {
        var j :| 0 <= j < |bs| && bs[j] == b;
        assert cs[j] == b;
      }
      if !b.free && b in cs {
        var j :| 0 <= j < |cs| && cs[j] == b;
        if i < j { Disjoint(bs, l.base, l.bump, i, j); } else if j < i { Disjoint(bs, l.base, l.bump, j, i); }
      }
    }
    if i > 0 {
      MergeInUse(cs, i - 1);
      MergeInUse(MergeAt(cs, i - 1), i - 1);
    }
    MergeInUse(cs, i);
  }

  lemma MergeInUse(bs: seq<Block>, i: nat)
    ensures forall b: Block :: !b.free ==> (b in MergeAt(bs, i) <==> b in bs)
  {
    var cs := MergeAt(bs, i);
    if cs != bs {
      forall b: Block | !b.free && b in bs ensures b in cs {
        var j :| 0 <= j < |bs| && bs[j] == b;
        assert b == cs[if j < i then j else j - 1];
      }
      forall b: Block | !b.free && b in cs ensures b in bs {
        var j :| 0 <= j < |cs| && cs[j] == b;
        assert b == bs[if j < i then j else j + 1];
      }
    }
  }

  /** A call of `kmalloc` for a rounded size, or of `kfree` for the block at a position. */
  datatype Call = Alloc(want: nat) | Release(i: nat)

  predicate Legal(l: Layout, c: Call) {
    c.Release? ==> c.i < |l.blocks| && !l.blocks[c.i].free
  }

  function After(l: Layout, c: Call): Layout
    requires Legal(l, c)
  {
    match c case Alloc(want) => Malloc(l, want).0 case Release(i) => Free(l, i)
  }

  predicate LegalRun(l: Layout, cs: seq<Call>)
    decreases |cs|
  {
    cs == [] || (Legal(l, cs[0]) && LegalRun(After(l, cs[0]), cs[1..]))
  }

  function AfterAll(l: Layout, cs: seq<Call>): Layout
    requires LegalRun(l, cs)
    decreases |cs|
  {
    if cs == [] then l else AfterAll(After(l, cs[0]), cs[1..])
  }

  /** After any sequence of calls on a fresh heap the range is partitioned, coalescing is maximal and
      any two blocks are disjoint. */
  lemma {:induction false} RunKeeps(l: Layout, cs: seq<Call>)
    requires LegalRun(l, cs) && Partition(l) && Coalesced(l.blocks)
    ensures var m := AfterAll(l, cs);
      && Partition(m) && Coalesced(m.blocks) && m.base == l.base && m.bump >= l.bump
      && forall i, j :: 0 <= i < j < |m.blocks| ==> m.blocks[i].End() <= m.blocks[j].addr
    decreases |cs|
  {
    if cs == [] {
      forall i, j | 0 <= i < j < |l.blocks| ensures l.blocks[i].End() <= l.blocks[j].addr {
        Disjoint(l.blocks, l.base, l.bump, i, j);
      }
    } else {
      match cs[0] {
        case Alloc(want) => MallocKeeps(l, want); GrowsOnlyWhenFull(l, want);
        case Release(i) => FreeKeeps(l, i);
      }
      RunKeeps(After(l, cs[0]), cs[1..]);
    }
  }

  /** The aligned page that paging takes from a block of two pages lies inside that block's payload
      and meets no other block. */
  lemma AlignedPageApart(l: Layout, i: nat, j: nat)
    requires Partition(l) && i < |l.blocks| && j < |l.blocks| && i != j && l.blocks[i].size >= 2 * 4096
    ensures var page := AlignUp(l.blocks[i].Payload(), 4096);
      && page % 4096 == 0 && l.blocks[i].Payload() <= page && page + 4096 <= l.blocks[i].End()
      && (page + 4096 <= l.blocks[j].addr || l.blocks[j].End() <= page)
  {
    if i < j { Disjoint(l.blocks, l.base, l.bump, i, j); } else { Disjoint(l.blocks, l.base, l.bump, j, i); }
  }
}
