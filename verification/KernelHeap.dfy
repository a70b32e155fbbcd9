/** `kmalloc` and `kfree` on bytes: loops over the linked free list, headers written into the memory
    they manage, and the proof that this is the block list of module HeapLayout. */
module KernelHeap {
  import opened HeapLayout
  import opened HeapMemory

  // ------------------------------------------------------------------------------------------
  // One block of the list
  // ------------------------------------------------------------------------------------------

  /** The managed range and its memory. */
  ghost predicate Managed(m: Ram, head: nat, bs: seq<Block>, base: nat, bump: nat) {
    0 < base && bump <= |m| && |m| < WORD && Tiles(bs, base, bump) && HeapOk(m, head, bs)
  }

  lemma ListFacts(m: Ram, head: nat, bs: seq<Block>, base: nat, bump: nat)
    requires Managed(m, head, bs, base, bump)
    ensures Spaced(FreeAddrs(bs))
    ensures forall k :: 0 <= k < |FreeAddrs(bs)| ==> base <= FreeAddrs(bs)[k] && FreeAddrs(bs)[k] + HDR <= bump
  {
    FreeAddrsSpaced(bs, base, bump);
  }

  /** A free block sits at its rank on the list. */
  lemma OnList(bs: seq<Block>, i: nat)
    requires i < |bs| && bs[i].free
    ensures Rank(bs, i) < |FreeAddrs(bs)| && FreeAddrs(bs)[Rank(bs, i)] == bs[i].addr
    ensures FreeAddrs(bs[i := bs[i].(free := false)]) == Del(FreeAddrs(bs), Rank(bs, i))
  {
    var cs := bs[i := bs[i].(free := false)];
    FreeAddrsAt(bs, i);
    FreeAddrsAt(cs, i);
    assert cs[..i] == bs[..i] && cs[i + 1..] == bs[i + 1..];
  }

  /** Memory after `find_free_block_and_remove` has taken block `i`. */
  function Taken(m: Ram, head: nat, bs: seq<Block>, i: nat): (r: (Ram, nat))
    requires Linked(m, head, FreeAddrs(bs)) && i < |bs| && bs[i].free && bs[i].addr + HDR <= |m|
  {
    OnList(bs, i);
    var (n, h) := Bypass(m, head, FreeAddrs(bs), Rank(bs, i));
    (SetFree(SetNext(n, bs[i].addr, 0), bs[i].addr, false), h)
  }

  lemma BypassHeaders(m: Ram, head: nat, bs: seq<Block>, base: nat, bump: nat, k: nat)
    requires Managed(m, head, bs, base, bump) && k < |FreeAddrs(bs)|
    ensures var n := Bypass(m, head, FreeAddrs(bs), k).0; HeadersOk(n, bs) && LiveSame(m, n, bs)
  {
    if k > 0 {
      var fl := FreeAddrs(bs);
      var j := FreeAddrsBlock(bs, k - 1);
      assert NextAt(m, fl[k]) == Link(fl, k + 1);
      SetNextOk(m, fl[k - 1], Link(fl, k + 1));
      HeadersKept(m, Bypass(m, head, fl, k).0, bs, base, bump, j);
      LiveKept(m, Bypass(m, head, fl, k).0, bs, base, bump, j);
    } else {
      LiveRefl(m, bs, base, bump);
    }
  }

  lemma LiveRefl(m: Ram, bs: seq<Block>, base: nat, bump: nat)
    requires Tiles(bs, base, bump) && bump <= |m|
    ensures LiveSame(m, m, bs)
  {
    forall i | 0 <= i < |bs| ensures bs[i].End() <= |m| { Within(bs, base, bump, i); }
  }

  lemma LiveTrans(l: Ram, m: Ram, n: Ram, bs: seq<Block>)
    requires LiveSame(l, m, bs) && LiveSame(m, n, bs)
    ensures LiveSame(l, n, bs)
  {
  }

  /** Two header writes at block `i`. */
  lemma TwoWrites(n: Ram, a: nat)
    requires a + HDR <= |n|
    ensures var p := SetFree(SetNext(n, a, 0), a, false);
      && SameOutside(n, p, a, a + HDR) && SizeAt(p, a) == SizeAt(n, a) && !FreeAt?(p, a)
  {
    SetNextOk(n, a, 0);
    SetFreeOk(SetNext(n, a, 0), a, false);
  }

  lemma UsedHeaders(n: Ram, p: Ram, bs: seq<Block>, base: nat, bump: nat, i: nat)
    requires HeadersOk(n, bs) && Tiles(bs, base, bump) && i < |bs|
    requires SameOutside(n, p, bs[i].addr, bs[i].addr + HDR) && HdrOk(p, bs[i].(free := false))
    ensures HeadersOk(p, bs[i := bs[i].(free := false)])
  {
    var cs := bs[i := bs[i].(free := false)];
    forall j | 0 <= j < |cs| ensures HdrOk(p, cs[j]) {
      if i < j { Disjoint(bs, base, bump, i, j); } else if j < i { Disjoint(bs, base, bump, j, i); }
      if i != j {
        assert HdrOk(n, bs[j]);
        HeaderKept(n, p, bs[i].addr, bs[i].addr + HDR, bs[j].addr);
      }
    }
  }

  /** Taking a block off the list leaves the heap well formed with that block in use. */
  lemma TakenOk(m: Ram, head: nat, bs: seq<Block>, base: nat, bump: nat, i: nat)
    requires Managed(m, head, bs, base, bump) && i < |bs| && bs[i].free
    ensures bs[i].addr + HDR <= |m|
    ensures var r := Taken(m, head, bs, i);
      && HeapOk(r.0, r.1, bs[i := bs[i].(free := false)]) && LiveSame(m, r.0, bs)
  {
    hide SetFree, SetNext, FreeAddrs, Del;
    assert HdrOk(m, bs[i]);
    var fl, k, a := FreeAddrs(bs), Rank(bs, i), bs[i].addr;
    OnList(bs, i);
    ListFacts(m, head, bs, base, bump);
    var (n, h) := Bypass(m, head, fl, k);
    BypassLinked(m, head, fl, k);
    BypassHeaders(m, head, bs, base, bump, k);
    var p := SetFree(SetNext(n, a, 0), a, false);
    TwoWrites(n, a);
    assert HdrOk(n, bs[i]);
    UsedHeaders(n, p, bs, base, bump, i);
    LinkedKept(n, p, a, a + HDR, h, Del(fl, k));
    LiveKept(n, p, bs, base, bump, i);
    LiveTrans(m, n, p, bs);
  }

  // ------------------------------------------------------------------------------------------
  // Putting a block on the list
  // ------------------------------------------------------------------------------------------

  /** The list before block `i`, which is free, has been put on it. */
  function ListBefore(bs: seq<Block>, i: nat): seq<nat>
    requires i < |bs|
  {
    FreeAddrs(bs[..i]) + FreeAddrs(bs[i + 1..])
  }

  lemma BeforeAfter(bs: seq<Block>, i: nat)
    requires i < |bs| && bs[i].free
    ensures Rank(bs, i) <= |ListBefore(bs, i)|
    ensures FreeAddrs(bs) == Ins(ListBefore(bs, i), Rank(bs, i), bs[i].addr)
    ensures FreeAddrs(bs[i := bs[i].(free := false)]) == ListBefore(bs, i)
  {
    var cs := bs[i := bs[i].(free := false)];
    FreeAddrsAt(bs, i);
    FreeAddrsAt(cs, i);
    assert cs[..i] == bs[..i] && cs[i + 1..] == bs[i + 1..];
  }

  /** The address order tells where block `i` belongs. */
  predicate Position(fl: seq<nat>, k: nat, a: nat) {
    k <= |fl| && (forall j :: 0 <= j < k ==> fl[j] < a) && (k < |fl| ==> a <= fl[k])
  }

  lemma PositionIsRank(bs: seq<Block>, base: nat, bump: nat, i: nat, k: nat)
    requires Tiles(bs, base, bump) && i < |bs| && bs[i].free && Position(ListBefore(bs, i), k, bs[i].addr)
    ensures k == Rank(bs, i)
  {
    BeforeAfter(bs, i);
    FreeAddrsSpaced(bs, base, bump);
    var fl, gl, r := ListBefore(bs, i), FreeAddrs(bs), Rank(bs, i);
    forall j | 0 <= j < r ensures fl[j] < bs[i].addr { assert gl[j] == fl[j]; }
    if r < |fl| { assert gl[r + 1] == fl[r]; }
  }

  /** Memory after block `i` has been linked in. */
  function Inserted(m: Ram, head: nat, bs: seq<Block>, i: nat): (r: (Ram, nat))
    requires i < |bs| && bs[i].free && bs[i].addr + HDR <= |m| && |m| < WORD
    requires Linked(m, head, ListBefore(bs, i)) && (forall k :: 0 <= k < |ListBefore(bs, i)| ==>
               ListBefore(bs, i)[k] + HDR <= bs[i].addr || bs[i].addr + HDR <= ListBefore(bs, i)[k])
  {
    BeforeAfter(bs, i);
    var fl, k, a := ListBefore(bs, i), Rank(bs, i), bs[i].addr;
    var n := SetNext(m, a, Link(fl, k));
    SetNextOk(m, a, Link(fl, k));
    LinkedKept(m, n, a, a + HDR, head, fl);
    Insert(n, head, fl, k, a)
  }

  /** Free block addresses other than that of block `i` are a header away from it. */
  lemma OthersApart(bs: seq<Block>, base: nat, bump: nat, i: nat)
    requires Tiles(bs, base, bump) && i < |bs| && bs[i].free
    ensures forall k :: 0 <= k < |ListBefore(bs, i)| ==>
              ListBefore(bs, i)[k] + HDR <= bs[i].addr || bs[i].addr + HDR <= ListBefore(bs, i)[k]
  {
    BeforeAfter(bs, i);
    FreeAddrsSpaced(bs, base, bump);
    var fl, gl, r := ListBefore(bs, i), FreeAddrs(bs), Rank(bs, i);
    forall k | 0 <= k < |fl| ensures fl[k] + HDR <= bs[i].addr || bs[i].addr + HDR <= fl[k] {
      if k < r { assert gl[k] == fl[k]; } else { assert gl[k + 1] == fl[k]; }
    }
  }

  lemma InsertHeaders(n: Ram, head: nat, bs: seq<Block>, base: nat, bump: nat, fl: seq<nat>, k: nat, a: nat)
    requires HeadersOk(n, bs) && Tiles(bs, base, bump) && bump <= |n| && Linked(n, head, fl) && k <= |fl| && a < WORD
    requires k > 0 ==> exists j :: 0 <= j < |bs| && bs[j].addr == fl[k - 1]
    ensures var p := Insert(n, head, fl, k, a).0; HeadersOk(p, bs) && LiveSame(n, p, bs)
  {
    if k > 0 {
      var j :| 0 <= j < |bs| && bs[j].addr == fl[k - 1];
      SetNextOk(n, fl[k - 1], a);
      assert HdrOk(n, bs[j]);
      HeadersKept(n, Insert(n, head, fl, k, a).0, bs, base, bump, j);
      LiveKept(n, Insert(n, head, fl, k, a).0, bs, base, bump, j);
    } else {
      LiveRefl(n, bs, base, bump);
    }
  }

  lemma LinkFreeOk(m: Ram, head: nat, bs: seq<Block>, base: nat, bump: nat, i: nat)
    requires Tiles(bs, base, bump) && 0 < base && bump <= |m| && |m| < WORD && i < |bs| && bs[i].free
    requires HeadersOk(m, bs) && Linked(m, head, ListBefore(bs, i))
    ensures bs[i].addr + HDR <= |m|
    ensures forall k :: 0 <= k < |ListBefore(bs, i)| ==>
              ListBefore(bs, i)[k] + HDR <= bs[i].addr || bs[i].addr + HDR <= ListBefore(bs, i)[k]
    ensures var r := Inserted(m, head, bs, i); HeapOk(r.0, r.1, bs) && LiveSame(m, r.0, bs)
  {
    hide FreeAddrs, SetNext, ListBefore;
    assert HdrOk(m, bs[i]);
    OthersApart(bs, base, bump, i);
    BeforeAfter(bs, i);
    Within(bs, base, bump, i);
    var fl, k, a := ListBefore(bs, i), Rank(bs, i), bs[i].addr;
    var n := SetNext(m, a, Link(fl, k));
    SetNextOk(m, a, Link(fl, k));
    HeadersKept(m, n, bs, base, bump, i);
    LiveKept(m, n, bs, base, bump, i);
    LinkedKept(m, n, a, a + HDR, head, fl);
    FreeAddrsSpaced(bs, base, bump);
    InsertLinked(n, head, fl, k, a);
    if k > 0 {
      var j := FreeAddrsBlock(bs, k - 1);
      assert bs[j].addr == fl[k - 1];
    }
    InsertHeaders(n, head, bs, base, bump, fl, k, a);
    LiveTrans(m, n, Insert(n, head, fl, k, a).0, bs);
  }

  // ------------------------------------------------------------------------------------------
  // Splitting
  // ------------------------------------------------------------------------------------------

  /** Memory after the header of the remainder has been written at `na` and the block shortened. */
  function SplitMem(m: Ram, a: nat, na: nat, want: nat, rest: nat): Ram
    requires a + HDR <= |m| && na + HDR <= |m| && want < WORD && rest < WORD
  {
    SetSize(SetNext(SetFree(SetSize(m, na, rest), na, true), na, 0), a, want)
  }

  lemma NewHeader(m: Ram, na: nat, rest: nat)
    requires na + HDR <= |m| && rest < WORD
    ensures var n := SetNext(SetFree(SetSize(m, na, rest), na, true), na, 0);
      && SameOutside(m, n, na, na + HDR) && SizeAt(n, na) == rest && FreeAt?(n, na)
  {
    SetSizeOk(m, na, rest);
    SetFreeOk(SetSize(m, na, rest), na, true);
    SetNextOk(SetFree(SetSize(m, na, rest), na, true), na, 0);
  }

  function Split(bs: seq<Block>, i: nat, want: nat): seq<Block>
    requires i < |bs| && want <= bs[i].size
  {
    bs[..i] + Carve(bs[i], want) + bs[i + 1..]
  }

  lemma SplitList(bs: seq<Block>, i: nat, want: nat)
    requires i < |bs| && !bs[i].free && want + HDR + 16 < bs[i].size
    ensures |Split(bs, i, want)| == |bs| + 1 && ListBefore(Split(bs, i, want), i + 1) == FreeAddrs(bs)
  {
    var cs := Split(bs, i, want);
    assert cs[..i + 1] == bs[..i] + [cs[i]] && cs[i + 2..] == bs[i + 1..];
    FreeAddrsApp(bs[..i], [cs[i]]);
    assert FreeAddrs([cs[i]]) == [] by { assert [cs[i]][1..] == []; }
    FreeAddrsAt(bs, i);
  }

  lemma SplitHeaders(m: Ram, bs: seq<Block>, base: nat, bump: nat, i: nat, want: nat)
    requires HeadersOk(m, bs) && Tiles(bs, base, bump) && bump <= |m| && |m| < WORD
    requires i < |bs| && !bs[i].free && want + HDR + 16 < bs[i].size
    ensures bs[i].End() <= |m| && Tiles(Split(bs, i, want), base, bump)
    ensures var na := bs[i].addr + HDR + want;
      var n := SplitMem(m, bs[i].addr, na, want, bs[i].size - want - HDR);
      HeadersOk(n, Split(bs, i, want)) && LiveSame(m, n, Split(bs, i, want))
  {
    hide SetSize, SetFree, SetNext, Tiles, LiveSame;
    var b, cs := bs[i], Split(bs, i, want);
    var a, na := b.addr, b.addr + HDR + want;
    Within(bs, base, bump, i);
    AllocPartition(Layout(base, bump, bs), i, want);
    assert cs == AllocAt(Layout(base, bump, bs), i, want).blocks;
    var p := SetNext(SetFree(SetSize(m, na, b.size - want - HDR), na, true), na, 0);
    NewHeader(m, na, b.size - want - HDR);
    SetSizeOk(p, a, want);
    var n := SetSize(p, a, want);
    assert HdrOk(m, b);
    HeaderKept(m, p, na, na + HDR, a);
    HeaderKept(p, n, a, a + HDR, na);
    forall j | 0 <= j < |cs| ensures HdrOk(n, cs[j]) {
      SplitHeaderAt(m, p, n, bs, base, bump, i, want, j);
    }
    LiveKept(m, p, cs, base, bump, i + 1);
    LiveKept(p, n, cs, base, bump, i);
    LiveTrans(m, p, n, cs);
  }

  lemma SplitHeaderAt(m: Ram, p: Ram, n: Ram, bs: seq<Block>, base: nat, bump: nat, i: nat, want: nat, j: nat)
    requires HeadersOk(m, bs) && i < |bs| && want + HDR + 16 < bs[i].size && j <= |bs|
    requires var cs := Split(bs, i, want);
      && Tiles(cs, base, bump) && HdrOk(n, cs[i]) && HdrOk(n, cs[i + 1])
      && SameOutside(m, p, cs[i + 1].addr, cs[i + 1].addr + HDR) && SameOutside(p, n, cs[i].addr, cs[i].addr + HDR)
    ensures HdrOk(n, Split(bs, i, want)[j])
  {
    var cs := Split(bs, i, want);
    if j != i && j != i + 1 {
      assert cs[j] == bs[if j < i then j else j - 1];
      if j < i {
        Disjoint(cs, base, bump, j, i);
        Disjoint(cs, base, bump, j, i + 1);
      } else {
        Disjoint(cs, base, bump, i, j);
        Disjoint(cs, base, bump, i + 1, j);
      }
      HeaderKept(m, p, cs[i + 1].addr, cs[i + 1].addr + HDR, cs[j].addr);
      HeaderKept(p, n, cs[i].addr, cs[i].addr + HDR, cs[j].addr);
    }
  }

  /** The list is not disturbed by the header of the remainder. */
  lemma SplitLinked(m: Ram, head: nat, bs: seq<Block>, base: nat, bump: nat, i: nat, want: nat)
    requires Managed(m, head, bs, base, bump) && i < |bs| && !bs[i].free && want + HDR + 16 < bs[i].size
    ensures bs[i].End() <= |m|
    ensures var na := bs[i].addr + HDR + want;
      Linked(SplitMem(m, bs[i].addr, na, want, bs[i].size - want - HDR), head, FreeAddrs(bs))
  {
    hide SetSize, SetFree, SetNext, FreeAddrs;
    var b := bs[i];
    var a, na := b.addr, b.addr + HDR + want;
    Within(bs, base, bump, i);
    var fl := FreeAddrs(bs);
    var p := SetNext(SetFree(SetSize(m, na, b.size - want - HDR), na, true), na, 0);
    NewHeader(m, na, b.size - want - HDR);
    SetSizeOk(p, a, want);
    assert SameOutside(m, SetSize(p, a, want), a, b.End());
    forall k | 0 <= k < |fl| ensures fl[k] + HDR <= a || b.End() <= fl[k] {
      var j := FreeAddrsBlock(bs, k);
      if j < i { Disjoint(bs, base, bump, j, i); } else { Disjoint(bs, base, bump, i, j); }
    }
    LinkedKept(m, SetSize(p, a, want), a, b.End(), head, fl);
  }

  // ------------------------------------------------------------------------------------------
  // Coalescing
  // ------------------------------------------------------------------------------------------

  /** `try_coalesce_adjacent` when the blocks touch. */
  function MergeMem(m: Ram, a: nat, b: nat, size: nat): Ram
    requires a + HDR <= |m| && b + HDR <= |m| && size < WORD
  {
    SetNext(SetSize(m, a, size), a, NextAt(m, b))
  }

  lemma MergeWrites(m: Ram, a: nat, b: nat, size: nat)
    requires a + HDR <= |m| && b + HDR <= |m| && size < WORD
    ensures var n := MergeMem(m, a, b, size);
      && SameOutside(m, n, a, a + HDR) && SizeAt(n, a) == size && (FreeAt?(n, a) <==> FreeAt?(m, a))
      && NextAt(n, a) == NextAt(m, b)
  {
    SetSizeOk(m, a, size);
    SetNextOk(SetSize(m, a, size), a, NextAt(m, b));
  }

  /** When the link of entry `k` skips its successor, the successor is off the list. */
  lemma RelinkLinked(m: Ram, n: Ram, head: nat, fl: seq<nat>, k: nat)
    requires Linked(m, head, fl) && Spaced(fl) && k + 1 < |fl|
    requires SameOutside(m, n, fl[k], fl[k] + HDR) && NextAt(n, fl[k]) == Link(fl, k + 2)
    ensures Linked(n, head, Del(fl, k + 1))
  {
    hide Del;
    var gl := Del(fl, k + 1);
    forall j | 0 <= j < |gl| ensures NextAt(n, gl[j]) == Link(gl, j + 1) {
      var i := if j <= k then j else j + 1;
      assert gl[j] == fl[i] && NextAt(m, fl[i]) == Link(fl, i + 1);
      if i != k { HeaderKept(m, n, fl[k], fl[k] + HDR, fl[i]); }
    }
  }

  lemma FreeAddrsNil(bs: seq<Block>)
    requires bs == []
    ensures FreeAddrs(bs) == []
  {}

  lemma MergeList(bs: seq<Block>, i: nat)
    requires i + 1 < |bs| && Touch(bs[i], bs[i + 1])
    ensures Rank(bs, i) + 1 < |FreeAddrs(bs)|
    ensures FreeAddrs(bs)[Rank(bs, i)] == bs[i].addr && FreeAddrs(bs)[Rank(bs, i) + 1] == bs[i + 1].addr
    ensures FreeAddrs(MergeAt(bs, i)) == Del(FreeAddrs(bs), Rank(bs, i) + 1)
  {
    hide FreeAddrs;
    var cs := MergeAt(bs, i);
    FreeAddrsAt(bs, i);
    FreeAddrsAt(bs[i + 1..], 0);
    assert FreeAddrs(bs[i + 1..][..0]) == [] by { FreeAddrsNil(bs[i + 1..][..0]); }
    assert bs[i + 1..][..0] == [] && bs[i + 1..][1..] == bs[i + 2..];
    FreeAddrsAt(cs, i);
    assert cs[..i] == bs[..i] && cs[i + 1..] == bs[i + 2..];
  }

  lemma MergeHeaders(m: Ram, n: Ram, bs: seq<Block>, base: nat, bump: nat, i: nat)
    requires HeadersOk(m, bs) && Tiles(bs, base, bump) && i + 1 < |bs| && Touch(bs[i], bs[i + 1])
    requires SameOutside(m, n, bs[i].addr, bs[i].addr + HDR) && HdrOk(n, Join(bs[i], bs[i + 1]))
    ensures HeadersOk(n, MergeAt(bs, i))
  {
    var cs := MergeAt(bs, i);
    forall j | 0 <= j < |cs| ensures HdrOk(n, cs[j]) {
      if j != i {
        var k := if j < i then j else j + 1;
        assert cs[j] == bs[k];
        if k < i { Disjoint(bs, base, bump, k, i); } else { Disjoint(bs, base, bump, i, k); }
        HeaderKept(m, n, bs[i].addr, bs[i].addr + HDR, bs[k].addr);
      }
    }
  }

  lemma MergeOk(m: Ram, head: nat, bs: seq<Block>, base: nat, bump: nat, i: nat)
    requires Managed(m, head, bs, base, bump) && i + 1 < |bs| && Touch(bs[i], bs[i + 1])
    ensures bs[i].End() <= |m| && bs[i + 1].End() <= |m|
    ensures var n := MergeMem(m, bs[i].addr, bs[i + 1].addr, bs[i].size + HDR + bs[i + 1].size);
      HeapOk(n, head, MergeAt(bs, i)) && LiveSame(m, n, bs)
  {
    hide FreeAddrs, MergeMem, MergeAt, Del;
    Within(bs, base, bump, i);
    Within(bs, base, bump, i + 1);
    var a, b, fl, k := bs[i].addr, bs[i + 1].addr, FreeAddrs(bs), Rank(bs, i);
    assert HdrOk(m, bs[i]) && HdrOk(m, bs[i + 1]);
    var n := MergeMem(m, a, b, bs[i].size + HDR + bs[i + 1].size);
    MergeWrites(m, a, b, bs[i].size + HDR + bs[i + 1].size);
    MergeList(bs, i);
    FreeAddrsSpaced(bs, base, bump);
    assert NextAt(m, fl[k + 1]) == Link(fl, k + 2);
    RelinkLinked(m, n, head, fl, k);
    MergeHeaders(m, n, bs, base, bump, i);
    LiveKept(m, n, bs, base, bump, i);
  }

  // ------------------------------------------------------------------------------------------
  // Searching the list
  // ------------------------------------------------------------------------------------------

  lemma RankLt(bs: seq<Block>, j: nat, i: nat)
    requires j < i <= |bs| && bs[j].free
    ensures Rank(bs, j) < Rank(bs, i)
  {
    FreeAddrsAt(bs[..i], j);
    assert bs[..i][..j] == bs[..j];
  }

  lemma ListEntry(m: Ram, head: nat, bs: seq<Block>, base: nat, bump: nat, k: nat)
    requires Managed(m, head, bs, base, bump) && k < |FreeAddrs(bs)|
    ensures FreeAddrs(bs)[k] + HDR <= |m| && FreeAt?(m, FreeAddrs(bs)[k])
  {
    var i := FreeAddrsBlock(bs, k);
    assert HdrOk(m, bs[i]);
  }

  /** The first suitable entry of the free list is the first suitable block. */
  lemma FirstOnList(m: Ram, head: nat, bs: seq<Block>, base: nat, bump: nat, size: nat, k: nat) returns (i: nat)
    requires Managed(m, head, bs, base, bump) && k <= |FreeAddrs(bs)|
    requires forall j :: 0 <= j < k ==> FreeAddrs(bs)[j] + HDR <= |m| && SizeAt(m, FreeAddrs(bs)[j]) < size
    requires k < |FreeAddrs(bs)| ==> FreeAddrs(bs)[k] + HDR <= |m| && SizeAt(m, FreeAddrs(bs)[k]) >= size
    ensures i == FirstFit(bs, size) && (i == |bs| <==> k == |FreeAddrs(bs)|)
    ensures i < |bs| ==> bs[i].addr == FreeAddrs(bs)[k] && Rank(bs, i) == k && bs[i].free
  {
    i := |bs|;
    if k < |FreeAddrs(bs)| {
      i := FreeAddrsBlock(bs, k);
      assert HdrOk(m, bs[i]);
    }
    forall j | 0 <= j < i ensures !Fits(bs[j], size) {
      if bs[j].free {
        RankLt(bs, j, i);
        assert bs[..|bs|] == bs;
        OnList(bs, j);
        assert HdrOk(m, bs[j]);
      }
    }
  }

  // ------------------------------------------------------------------------------------------
  // Payloads
  // ------------------------------------------------------------------------------------------

  /** Every live block of `bs` except the one at address `a` reads as before. */
  predicate OthersSame(m: Ram, n: Ram, bs: seq<Block>, a: nat) {
    && |n| == |m|
    && forall i :: 0 <= i < |bs| && !bs[i].free && bs[i].addr != a ==>
         bs[i].End() <= |m| && n[bs[i].Payload()..bs[i].End()] == m[bs[i].Payload()..bs[i].End()]
  }

  /** Writing inside the payload of a block in use disturbs neither the heap nor any other payload. */
  lemma PayloadWrite(m: Ram, n: Ram, head: nat, bs: seq<Block>, base: nat, bump: nat, i: nat)
    requires Managed(m, head, bs, base, bump) && i < |bs| && !bs[i].free
    requires SameOutside(m, n, bs[i].Payload(), bs[i].End())
    ensures Managed(n, head, bs, base, bump) && OthersSame(m, n, bs, bs[i].addr)
  {
    hide FreeAddrs;
    var lo, hi := bs[i].Payload(), bs[i].End();
    forall j | 0 <= j < |bs| ensures HdrOk(n, bs[j]) {
      if i < j { Disjoint(bs, base, bump, i, j); } else if j < i { Disjoint(bs, base, bump, j, i); }
      assert HdrOk(m, bs[j]);
      HeaderKept(m, n, lo, hi, bs[j].addr);
    }
    var fl := FreeAddrs(bs);
    forall k | 0 <= k < |fl| ensures fl[k] + HDR <= lo || hi <= fl[k] {
      var j := FreeAddrsBlock(bs, k);
      if j < i { Disjoint(bs, base, bump, j, i); } else { Disjoint(bs, base, bump, i, j); }
    }
    LinkedKept(m, n, lo, hi, head, fl);
    forall j | 0 <= j < |bs| && !bs[j].free && bs[j].addr != bs[i].addr
      ensures bs[j].End() <= |m| && n[bs[j].Payload()..bs[j].End()] == m[bs[j].Payload()..bs[j].End()]
    {
      Within(bs, base, bump, j);
      if j < i { Disjoint(bs, base, bump, j, i); } else { Disjoint(bs, base, bump, i, j); }
    }
  }

  /** The live blocks before an allocation are the live blocks after it other than the new one. */
  lemma OldLive(m: Ram, n: Ram, bs: seq<Block>, i: nat, want: nat, base: nat, bump: nat)
    requires i < |bs| && want <= bs[i].size && Tiles(bs, base, bump) && bs[i].free
    requires OthersSame(m, n, Split(bs, i, want), bs[i].addr)
    ensures LiveSame(m, n, bs)
  {
    var cs := Split(bs, i, want);
    forall j | 0 <= j < |bs| && !bs[j].free
      ensures bs[j].End() <= |m| && n[bs[j].Payload()..bs[j].End()] == m[bs[j].Payload()..bs[j].End()]
    {
      var k := if j < i then j else j + |cs| - |bs|;
      assert cs[k] == bs[j];
      if j < i { Disjoint(bs, base, bump, j, i); } else { Disjoint(bs, base, bump, i, j); }
    }
  }

  lemma LiveOthers(m: Ram, n: Ram, bs: seq<Block>, a: nat)
    requires LiveSame(m, n, bs)
    ensures OthersSame(m, n, bs, a)
  {}

  lemma OthersTrans(l: Ram, m: Ram, n: Ram, bs: seq<Block>, a: nat)
    requires OthersSame(l, m, bs, a) && OthersSame(m, n, bs, a)
    ensures OthersSame(l, n, bs, a)
  {}

  // ------------------------------------------------------------------------------------------
  // Growing
  // ------------------------------------------------------------------------------------------

  function ExtendMem(m: Ram, a: nat, want: nat): Ram
    requires a + HDR <= |m| && want < WORD
  {
    SetNext(SetFree(SetSize(m, a, want), a, false), a, 0)
  }

  lemma ExtendWrites(m: Ram, a: nat, want: nat)
    requires a + HDR <= |m| && want < WORD
    ensures var n := ExtendMem(m, a, want);
      SameOutside(m, n, a, a + HDR) && SizeAt(n, a) == want && !FreeAt?(n, a)
  {
    SetSizeOk(m, a, want);
    SetFreeOk(SetSize(m, a, want), a, false);
    SetNextOk(SetFree(SetSize(m, a, want), a, false), a, 0);
  }

  lemma ExtendHeaders(m: Ram, bs: seq<Block>, base: nat, bump: nat, want: nat)
    requires Tiles(bs, base, bump) && HeadersOk(m, bs) && AlignUp(bump, ALIGN) + HDR + want <= |m| < WORD
    ensures var l := Extend(Layout(base, bump, bs), want);
      var n := ExtendMem(m, AlignUp(bump, ALIGN), want);
      HeadersOk(n, l.blocks) && LiveSame(m, n, bs)
  {
    hide ExtendMem;
    var a, cs := AlignUp(bump, ALIGN), Extend(Layout(base, bump, bs), want).blocks;
    var n := ExtendMem(m, a, want);
    ExtendWrites(m, a, want);
    forall j | 0 <= j < |cs| ensures HdrOk(n, cs[j]) {
      if j < |bs| {
        Within(bs, base, bump, j);
        assert HdrOk(m, bs[j]);
        HeaderKept(m, n, a, a + HDR, bs[j].addr);
      }
    }
    forall j | 0 <= j < |bs| && !bs[j].free
      ensures bs[j].End() <= |m| && n[bs[j].Payload()..bs[j].End()] == m[bs[j].Payload()..bs[j].End()] {
      Within(bs, base, bump, j);
    }
  }

  lemma ExtendOk(m: Ram, head: nat, bs: seq<Block>, base: nat, bump: nat, want: nat)
    requires Managed(m, head, bs, base, bump) && AlignUp(bump, ALIGN) + HDR + want <= |m|
    ensures var l := Extend(Layout(base, bump, bs), want);
      var n := ExtendMem(m, AlignUp(bump, ALIGN), want);
      Managed(n, head, l.blocks, base, l.bump) && LiveSame(m, n, bs)
  {
    hide FreeAddrs, ExtendMem, HeadersOk, LiveSame, AlignUp;
    var a, l := AlignUp(bump, ALIGN), Extend(Layout(base, bump, bs), want);
    var n, cs := ExtendMem(m, a, want), l.blocks;
    ExtendWrites(m, a, want);
    ExtendPartition(Layout(base, bump, bs), want);
    ExtendHeaders(m, bs, base, bump, want);
    ListFacts(m, head, bs, base, bump);
    LinkedKept(m, n, a, a + HDR, head, FreeAddrs(bs));
    FreeAddrsApp(bs, [cs[|bs|]]);
    assert FreeAddrs([cs[|bs|]]) == [] by { FreeAddrsOne(cs[|bs|]); }
  }

  // ------------------------------------------------------------------------------------------
  // 32-bit arithmetic
  // ------------------------------------------------------------------------------------------

  /** Where a new block of `want` bytes would end, without wrapping around. */
  function NewBump(bump: nat, want: nat): nat { AlignUp(bump, ALIGN) + HDR + want }

  /** The new end does not come back into the managed range from the far side. */
  predicate NoWrap(bump: nat, want: nat, end: nat) { NewBump(bump, want) < WORD || NewBump(bump, want) - WORD > end }

  /** The test of `kmalloc` in 32 bits says whether the memory is exhausted if and only if that holds. */
  lemma WrapExact(bump: nat, want: nat, end: nat)
    requires bump <= end && end + HDR + 16 < WORD && want < WORD
    ensures (NewBump(bump, want) % WORD > end <==> NewBump(bump, want) > end) <==> NoWrap(bump, want, end)
  {
    assert NewBump(bump, want) < 2 * WORD;
    if NewBump(bump, want) >= WORD { assert NewBump(bump, want) % WORD == NewBump(bump, want) - WORD; }
  }

  /** In a heap of 255 MiB above the first, a request for nearly all of the address space passes the test. */
  lemma WrapPasses()
    ensures var bump, want, end := 0x10_0000, 0xFFFF_FFF0, 0x1000_0000;
      !NoWrap(bump, want, end) && NewBump(bump, want) > end && NewBump(bump, want) % WORD <= end
  {
    assert AlignUp(0x10_0000, ALIGN) == 0x10_0000;
    WrapExact(0x10_0000, 0xFFFF_FFF0, 0x1000_0000);
  }

  /** Rounding up wraps around exactly for the last seven sizes, which become zero. */
  lemma RoundWraps(bytes: nat)
    requires 0 < bytes < WORD
    ensures AlignUp(bytes, ALIGN) % WORD == if bytes <= WORD - ALIGN then AlignUp(bytes, ALIGN) else 0
  {
    if bytes > WORD - ALIGN { assert AlignUp(bytes, ALIGN) == WORD; }
  }

  // ------------------------------------------------------------------------------------------
  // The allocator
  // ------------------------------------------------------------------------------------------

  class Heap {
    const freeRam: nat
    const freeRamEnd: nat
    var ram: Ram
    var freeListHead: nat
    var bumpNext: nat
    ghost var blocks: seq<Block>

    ghost predicate Valid()
      reads this
    {
      && |ram| == freeRamEnd && freeRamEnd + HDR + 16 < WORD
      && Managed(ram, freeListHead, blocks, freeRam, bumpNext) && Coalesced(blocks)
    }

    ghost function View(): Layout
      reads this
    {
      Layout(freeRam, bumpNext, blocks)
    }

    constructor (base: nat, memory: Ram)
      requires 0 < base <= |memory| && |memory| + HDR + 16 < WORD
      ensures Valid() && ram == memory && View() == Layout(base, base, [])
    {
      freeRam, freeRamEnd := base, |memory|;
      ram, freeListHead, bumpNext, blocks := memory, 0, base, [];
    }

    /** `find_free_block_and_remove`: first fit over the linked list. */
    method FindFreeBlockAndRemove(size: nat) returns (cur: nat, ghost i: nat)
      requires Valid()
      modifies this`ram, this`freeListHead, this`blocks
      ensures Valid() && i == FirstFit(old(blocks), size) && (cur == 0 <==> i == |old(blocks)|)
      ensures i == |old(blocks)| ==>
        cur == 0 && ram == old(ram) && freeListHead == old(freeListHead) && blocks == old(blocks)
      ensures i < |old(blocks)| ==>
        && cur == old(blocks)[i].addr && blocks == old(blocks)[i := old(blocks)[i].(free := false)]
        && LiveSame(old(ram), ram, old(blocks))
    {
      hide FreeAddrs, Tiles, HeadersOk, LiveSame;
      ghost var fl := FreeAddrs(blocks);
      ListFacts(ram, freeListHead, blocks, freeRam, bumpNext);
      var prev := 0;
      cur := freeListHead;
      ghost var k := 0;
      while cur != 0
        invariant 0 <= k <= |fl| && cur == Link(fl, k) && prev == if k == 0 then 0 else fl[k - 1]
        invariant ram == old(ram) && freeListHead == old(freeListHead) && blocks == old(blocks)
        invariant forall j :: 0 <= j < k ==> SizeAt(ram, fl[j]) < size
        decreases |fl| - k
      {
        ListEntry(ram, freeListHead, blocks, freeRam, bumpNext, k);
        assert NextAt(ram, fl[k]) == Link(fl, k + 1);
        if FreeAt?(ram, cur) && SizeAt(ram, cur) >= size {
          i := FirstOnList(ram, freeListHead, blocks, freeRam, bumpNext, size, k);
          RemoveAt(prev, cur, i);
          return;
        }
        prev := cur;
        cur := NextAt(ram, cur);
        k := k + 1;
      }
      i := FirstOnList(ram, freeListHead, blocks, freeRam, bumpNext, size, k);
    }

    /** Bypasses the list entry `cur` and marks its block used. */
    method RemoveAt(prev: nat, cur: nat, ghost i: nat)
      requires Valid() && i < |blocks| && blocks[i].free && blocks[i].addr == cur
      requires var fl, k := FreeAddrs(blocks), Rank(blocks, i);
        k <= |fl| && prev == if k == 0 then 0 else fl[k - 1]
      modifies this`ram, this`freeListHead, this`blocks
      ensures Valid() && blocks == old(blocks)[i := old(blocks)[i].(free := false)]
      ensures LiveSame(old(ram), ram, old(blocks))
    {
      hide FreeAddrs, SetNext, SetFree, Tiles, Coalesced, LiveSame;
      assert HdrOk(ram, blocks[i]);
      ghost var fl, k := FreeAddrs(blocks), Rank(blocks, i);
      OnList(blocks, i);
      assert NextAt(ram, fl[k]) == Link(fl, k + 1);
      TakenOk(ram, freeListHead, blocks, freeRam, bumpNext, i);
      TakenTiles(blocks, freeRam, bumpNext, i);
      if prev != 0 {
        ram := SetNext(ram, prev, NextAt(ram, cur));
      } else {
        freeListHead := NextAt(ram, cur);
      }
      ram := SetFree(SetNext(ram, cur, 0), cur, false);
      blocks := blocks[i := blocks[i].(free := false)];
    }

    /** The scan shared by `try_split_block` and `kfree`: the list position of address `a`. */
    method FindPlace(a: nat, ghost fl: seq<nat>) returns (prev: nat, cur: nat, ghost k: nat)
      requires Linked(ram, freeListHead, fl)
      ensures Position(fl, k, a) && cur == Link(fl, k) && prev == if k == 0 then 0 else fl[k - 1]
    {
      prev, cur, k := 0, freeListHead, 0;
      while cur != 0 && cur < a
        invariant 0 <= k <= |fl| && cur == Link(fl, k) && prev == if k == 0 then 0 else fl[k - 1]
        invariant forall j :: 0 <= j < k ==> fl[j] < a
        decreases |fl| - k
      {
        assert NextAt(ram, fl[k]) == Link(fl, k + 1);
        prev := cur;
        cur := NextAt(ram, cur);
        k := k + 1;
      }
    }

    /** Links block `i`, whose header is already written, into the list between `prev` and `cur`. */
    method LinkBetween(a: nat, prev: nat, cur: nat, ghost i: nat, ghost k: nat)
      requires |ram| == freeRamEnd < WORD && 0 < freeRam && bumpNext <= |ram|
      requires Tiles(blocks, freeRam, bumpNext) && i < |blocks| && blocks[i].free && blocks[i].addr == a
      requires HeadersOk(ram, blocks) && Linked(ram, freeListHead, ListBefore(blocks, i))
      requires Position(ListBefore(blocks, i), k, a)
      requires cur == Link(ListBefore(blocks, i), k)
      requires prev == if k == 0 then 0 else ListBefore(blocks, i)[k - 1]
      modifies this`ram, this`freeListHead
      ensures Managed(ram, freeListHead, blocks, freeRam, bumpNext) && |ram| == freeRamEnd
      ensures LiveSame(old(ram), ram, blocks)
    {
      hide FreeAddrs, ListBefore, Tiles, HeadersOk, LiveSame, SetNext;
      PositionIsRank(blocks, freeRam, bumpNext, i, k);
      LinkFreeOk(ram, freeListHead, blocks, freeRam, bumpNext, i);
      ram := SetNext(ram, a, cur);
      if prev != 0 {
        ram := SetNext(ram, prev, a);
      } else {
        freeListHead := a;
      }
    }

    /** `try_split_block` */
    method TrySplitBlock(block: nat, want: nat, ghost i: nat)
      requires Valid() && i < |blocks| && blocks[i].addr == block && !blocks[i].free && want <= blocks[i].size
      requires i + 1 < |blocks| ==> !(blocks[i + 1].free && blocks[i].End() == blocks[i + 1].addr)
      modifies this`ram, this`freeListHead, this`blocks
      ensures Valid() && blocks == Split(old(blocks), i, want) && LiveSame(old(ram), ram, blocks)
    {
      hide FreeAddrs, ListBefore, Tiles, Split, Coalesced, Linked;
      assert HdrOk(ram, blocks[i]);
      if SizeAt(ram, block) <= want + HDR + 16 {
        SplitNone(blocks, i, want);
        LiveRefl(ram, blocks, freeRam, bumpNext);
        return;
      }
      WriteRemainder(block, want, i);
      var prev, cur; ghost var k;
      prev, cur, k := FindPlace(block + HDR + want, ListBefore(blocks, i + 1));
      ghost var m := ram;
      LinkBetween(block + HDR + want, prev, cur, i + 1, k);
      LiveTrans(old(ram), m, ram, blocks);
    }

    /** The part of `try_split_block` before the new header is linked in. */
    method WriteRemainder(block: nat, want: nat, ghost i: nat)
      requires Valid() && i < |blocks| && blocks[i].addr == block && !blocks[i].free && want + HDR + 16 < blocks[i].size
      requires i + 1 < |blocks| ==> !(blocks[i + 1].free && blocks[i].End() == blocks[i + 1].addr)
      modifies this`ram, this`blocks
      ensures blocks == Split(old(blocks), i, want) && |blocks| == |old(blocks)| + 1
      ensures blocks[i + 1] == Block(block + HDR + want, old(blocks)[i].size - want - HDR, true)
      ensures |ram| == |old(ram)| && Tiles(blocks, freeRam, bumpNext) && Coalesced(blocks)
      ensures HeadersOk(ram, blocks) && Linked(ram, freeListHead, ListBefore(blocks, i + 1))
      ensures LiveSame(old(ram), ram, blocks)
    {
      hide SetSize, SetFree, SetNext, FreeAddrs, ListBefore, Tiles, Coalesced;
      assert HdrOk(ram, blocks[i]);
      ghost var bs := blocks;
      SplitHeaders(ram, bs, freeRam, bumpNext, i, want);
      SplitLinked(ram, freeListHead, bs, freeRam, bumpNext, i, want);
      SplitList(bs, i, want);
      SplitCoalesced(bs, i, want);
      var na := block + HDR + want;
      var size := SizeAt(ram, block);
      ram := SetNext(SetFree(SetSize(ram, na, size - want - HDR), na, true), na, 0);
      ram := SetSize(ram, block, want);
      blocks := Split(bs, i, want);
    }

    /** The branch of `kmalloc` that reuses a free block: split it and zero the payload. */
    method Reuse(found: nat, want: nat, ghost i: nat, ghost m0: Ram, ghost bs0: seq<Block>) returns (p: nat)
      requires Valid() && i < |bs0| && Fits(bs0[i], want) && Coalesced(bs0) && Tiles(bs0, freeRam, bumpNext)
      requires found == bs0[i].addr && blocks == bs0[i := bs0[i].(free := false)] && LiveSame(m0, ram, bs0)
      modifies this`ram, this`freeListHead, this`blocks
      ensures Valid() && LiveSame(m0, ram, bs0) && blocks == Split(bs0, i, want) && i < |blocks|
      ensures p == blocks[i].Payload() && !blocks[i].free && want <= blocks[i].size
        && ram[p..p + want] == seq(want, _ => 0)
    {
      hide FreeAddrs, Tiles, Coalesced;
      ghost var m1 := ram;
      ReuseReady(bs0, i, want);
      TrySplitBlock(found, want, i);
      ghost var m2 := ram;
      p := found + HDR;
      Within(blocks, freeRam, bumpNext, i);
      ram := Zeroed(ram, p, want);
      PayloadWrite(m2, ram, freeListHead, blocks, freeRam, bumpNext, i);
      LiveOthers(m1, m2, blocks, found);
      OthersTrans(m1, m2, ram, blocks, found);
      OldLive(m1, ram, bs0, i, want, freeRam, bumpNext);
      LiveTrans(m0, m1, ram, bs0);
      assert ram[p..p + want] == seq(want, _ => 0);
    }

    /** The branch of `kmalloc` that moves the bump pointer, or halts. */
    method Grow(want: nat) returns (p: nat, halted: bool)
      requires Valid() && want < WORD && NoWrap(bumpNext, want, freeRamEnd)
      modifies this`ram, this`bumpNext, this`blocks
      ensures Valid() && LiveSame(old(ram), ram, old(blocks))
      ensures halted <==> NewBump(old(bumpNext), want) > freeRamEnd
      ensures halted ==> p == 0 && ram == old(ram) && View() == old(View())
      ensures !halted ==> View() == Extend(old(View()), want) && p == blocks[|old(blocks)|].Payload()
                          && ram[p..p + want] == seq(want, _ => 0)
    {
      hide FreeAddrs, Tiles;
      var hdr := AlignUp(bumpNext, ALIGN);
      WrapExact(bumpNext, want, freeRamEnd);
      if (hdr + HDR + want) % WORD > freeRamEnd {
        LiveRefl(ram, blocks, freeRam, bumpNext);
        return 0, true;
      }
      halted := false;
      ghost var m0, bs, l := ram, blocks, Extend(View(), want);
      ExtendOk(ram, freeListHead, blocks, freeRam, bumpNext, want);
      ExtendCoalesced(bs, l.blocks[|bs|]);
      ram := SetNext(SetFree(SetSize(ram, hdr, want), hdr, false), hdr, 0);
      bumpNext := hdr + HDR + want;
      blocks := l.blocks;
      ghost var m1 := ram;
      p := hdr + HDR;
      ram := Zeroed(ram, p, want);
      PayloadWrite(m1, ram, freeListHead, blocks, freeRam, bumpNext, |bs|);
      ExtendLive(m0, m1, ram, bs, freeRam, l);
      assert ram[p..p + want] == seq(want, _ => 0);
    }

    /** `kmalloc`: zero for an empty request, otherwise the payload of a block that was free or new.
        `halted` stands for the halt on exhausted memory. */
    method Kmalloc(bytes: nat) returns (p: nat, halted: bool, ghost i: nat)
      requires Valid() && bytes <= WORD - ALIGN
      requires bytes > 0 && FirstFit(blocks, AlignUp(bytes, ALIGN)) == |blocks| ==>
        NoWrap(bumpNext, AlignUp(bytes, ALIGN), freeRamEnd)
      modifies this`ram, this`freeListHead, this`bumpNext, this`blocks
      ensures Valid() && LiveSame(old(ram), ram, old(blocks))
      ensures bytes == 0 || halted ==> p == 0 && ram == old(ram) && View() == old(View())
      ensures bytes > 0 ==>
        var want := AlignUp(bytes, ALIGN);
        && (halted <==> FirstFit(old(blocks), want) == |old(blocks)|
                        && NewBump(old(bumpNext), want) > freeRamEnd)
        && (!halted ==>
              && (View(), i) == Malloc(old(View()), want) && i < |blocks| && !blocks[i].free
              && p == blocks[i].Payload() == blocks[i].addr + 12 && bytes <= want <= blocks[i].size
              && ram[p..p + want] == seq(want, _ => 0))
    {
      hide FreeAddrs, Tiles, Coalesced, HeapOk, LiveSame, FirstFit, AlignUp, Carve;
      i, halted := 0, false;
      if bytes == 0 {
        LiveRefl(ram, blocks, freeRam, bumpNext);
        return 0, false, 0;
      }
      RoundWraps(bytes);
      var want := AlignUp(bytes, ALIGN) % WORD;
      var found;
      found, i := FindFreeBlockAndRemove(want);
      if found != 0 {
        p := Reuse(found, want, i, old(ram), old(blocks));
        return p, false, i;
      }
      assert View() == old(View());
      p, halted := Grow(want);
    }

    /** `try_coalesce_adjacent` for the neighbouring free list entries `a` and `b`, blocks `i` and `i + 1`
        when they touch. */
    method TryCoalesceAdjacent(a: nat, b: nat, ghost i: nat) returns (joined: bool)
      requires |ram| == freeRamEnd && Managed(ram, freeListHead, blocks, freeRam, bumpNext)
      requires i < |blocks| && blocks[i].free && blocks[i].addr == a
      requires exists j :: 0 <= j < |blocks| && blocks[j].free && blocks[j].addr == b
      modifies this`ram, this`blocks
      ensures |ram| == freeRamEnd && Managed(ram, freeListHead, blocks, freeRam, bumpNext)
      ensures joined <==>
        i + 1 < |old(blocks)| && Touch(old(blocks)[i], old(blocks)[i + 1]) && old(blocks)[i + 1].addr == b
      ensures blocks == if joined then MergeAt(old(blocks), i) else old(blocks)
      ensures LiveSame(old(ram), ram, old(blocks))
    {
      hide FreeAddrs, SetSize, SetNext, Tiles;
      assert HdrOk(ram, blocks[i]);
      ghost var j :| 0 <= j < |blocks| && blocks[j].free && blocks[j].addr == b;
      assert HdrOk(ram, blocks[j]);
      TouchNext(blocks, freeRam, bumpNext, i, j);
      joined := a + HDR + SizeAt(ram, a) == b;
      if joined {
        MergeOk(ram, freeListHead, blocks, freeRam, bumpNext, i);
        MergeTiles(blocks, i, freeRam, bumpNext);
        ram := SetNext(SetSize(ram, a, SizeAt(ram, a) + HDR + SizeAt(ram, b)), a, NextAt(ram, b));
        blocks := MergeAt(blocks, i);
      } else {
        LiveRefl(ram, blocks, freeRam, bumpNext);
      }
    }

    /** The first part of `kfree`: mark the block free and link it in at its address. */
    method MarkAndLink(block: nat, ghost i: nat) returns (prev: nat)
      requires Valid() && i < |blocks| && !blocks[i].free && blocks[i].addr == block
      modifies this`ram, this`freeListHead, this`blocks
      ensures |ram| == freeRamEnd && Managed(ram, freeListHead, blocks, freeRam, bumpNext)
      ensures blocks == old(blocks)[i := old(blocks)[i].(free := true)]
      ensures var k := Rank(blocks, i);
        k <= |FreeAddrs(blocks)| && prev == if k == 0 then 0 else FreeAddrs(blocks)[k - 1]
      ensures LiveSame(old(ram), ram, blocks)
    {
      hide FreeAddrs, SetFree, SetNext, Tiles, Coalesced;
      ghost var bs := blocks[i := blocks[i].(free := true)];
      ghost var m0 := ram;
      assert HdrOk(ram, blocks[i]);
      MarkFree(ram, freeListHead, blocks, freeRam, bumpNext, i);
      ram := SetNext(SetFree(ram, block, true), block, 0);
      blocks := bs;
      var cur; ghost var k;
      prev, cur, k := FindPlace(block, ListBefore(bs, i));
      ghost var m1 := ram;
      PositionIsRank(bs, freeRam, bumpNext, i, k);
      BeforeAfter(bs, i);
      LinkBetween(block, prev, cur, i, k);
      LiveTrans(m0, m1, ram, bs);
    }

    /** `kfree`: nothing for NULL and for pointers outside the managed area; otherwise the block goes
        back to the list and is joined with the free neighbours it touches. */
    method Kfree(loc: nat, ghost i: nat)
      requires Valid()
      requires freeRam + HDR <= loc < freeRamEnd + HDR ==> i < |blocks| && !blocks[i].free && blocks[i].Payload() == loc
      modifies this`ram, this`freeListHead, this`blocks
      ensures Valid()
      ensures if freeRam + HDR <= loc < freeRamEnd + HDR
              then View() == Free(old(View()), i) && LiveSame(old(ram), ram,
                old(blocks)[i := old(blocks)[i].(free := true)])
              else View() == old(View()) && ram == old(ram)
    {
      hide FreeAddrs, Tiles, Coalesced, Touch, MergeAt, LiveSame;
      if loc == 0 || loc < HDR + freeRam || loc >= HDR + freeRamEnd {
        return;
      }
      var block := loc - HDR;
      ghost var bs := blocks[i := blocks[i].(free := true)];
      FreeKeeps(View(), i);
      var prev := MarkAndLink(block, i);
      ghost var m1, q := ram, 0;
      block, q := JoinBefore(block, prev, i);
      ghost var m2 := ram;
      JoinAfter(block, q);
      if i > 0 && Touch(bs[i - 1], bs[i]) { LiveMerged(m2, ram, bs, i - 1); }
      LiveTrans(old(ram), m1, m2, bs);
      LiveTrans(old(ram), m2, ram, bs);
    }

    /** The second part of `kfree`: look for the predecessor again and join with it if they touch. */
    method JoinBefore(block: nat, prev: nat, ghost i: nat) returns (first: nat, ghost q: nat)
      requires |ram| == freeRamEnd && Managed(ram, freeListHead, blocks, freeRam, bumpNext)
      requires i < |blocks| && blocks[i].free && blocks[i].addr == block
      requires var k := Rank(blocks, i);
        k <= |FreeAddrs(blocks)| && prev == if k == 0 then 0 else FreeAddrs(blocks)[k - 1]
      modifies this`ram, this`blocks
      ensures |ram| == freeRamEnd && Managed(ram, freeListHead, blocks, freeRam, bumpNext)
      ensures var bs := old(blocks);
        && (if i > 0 && Touch(bs[i - 1], bs[i]) then blocks == MergeAt(bs, i - 1) && q == i - 1
            else blocks == bs && q == i)
        && LiveSame(old(ram), ram, bs)
      ensures q < |blocks| && blocks[q].free && blocks[q].addr == first
    {
      hide FreeAddrs, Tiles, LiveSame, HeadersOk, MergeAt;
      first, q := block, i;
      MergeFirst(blocks, i);
      ghost var bs := blocks;
      if prev != 0 {
        var scanPrev, scan; ghost var k;
        scanPrev, scan, k := FindPlace(block, FreeAddrs(blocks));
        ghost var p := PrevEntry(ram, freeListHead, blocks, freeRam, bumpNext, i, k);
        var joined := TryCoalesceAdjacent(scanPrev, block, p);
        SameBlock(bs, freeRam, bumpNext, p, i);
        if joined { first, q := scanPrev, p; }
      } else {
        NoPrev(ram, freeListHead, blocks, i);
        LiveRefl(ram, blocks, freeRam, bumpNext);
      }
    }

    /** The last part of `kfree`: join with the successor if they touch. */
    method JoinAfter(block: nat, ghost q: nat)
      requires |ram| == freeRamEnd && Managed(ram, freeListHead, blocks, freeRam, bumpNext)
      requires q < |blocks| && blocks[q].free && blocks[q].addr == block
      modifies this`ram, this`blocks
      ensures |ram| == freeRamEnd && Managed(ram, freeListHead, blocks, freeRam, bumpNext)
      ensures blocks == MergeAt(old(blocks), q) && LiveSame(old(ram), ram, old(blocks))
    {
      hide FreeAddrs, Tiles, LiveSame;
      assert HdrOk(ram, blocks[q]);
      ghost var fl, k := FreeAddrs(blocks), Rank(blocks, q);
      OnList(blocks, q);
      assert NextAt(ram, fl[k]) == Link(fl, k + 1);
      NextFree(blocks, q);
      var next := NextAt(ram, block);
      if next != 0 {
        ghost var j := FreeAddrsBlock(blocks, k + 1);
        var _ := TryCoalesceAdjacent(block, next, q);
      } else {
        LiveRefl(ram, blocks, freeRam, bumpNext);
      }
    }
  }

  /** Joining free blocks loses no live block. */
  lemma LiveMerged(m: Ram, n: Ram, bs: seq<Block>, i: nat)
    requires LiveSame(m, n, MergeAt(bs, i))
    ensures LiveSame(m, n, bs)
  {
    var cs := MergeAt(bs, i);
    forall j | 0 <= j < |bs| && !bs[j].free
      ensures bs[j].End() <= |m| && n[bs[j].Payload()..bs[j].End()] == m[bs[j].Payload()..bs[j].End()] {
      assert bs[j] == cs[if j < i || cs == bs then j else j - 1];
    }
  }

  lemma MergeFirst(bs: seq<Block>, i: nat)
    requires i < |bs|
    ensures i > 0 && Touch(bs[i - 1], bs[i]) ==>
      i - 1 < |MergeAt(bs, i - 1)| && MergeAt(bs, i - 1)[i - 1] == Join(bs[i - 1], bs[i])
  {}

  lemma NextFree(bs: seq<Block>, q: nat)
    requires q < |bs| && bs[q].free
    ensures q + 1 < |bs| && bs[q + 1].free ==>
      Rank(bs, q) + 1 < |FreeAddrs(bs)| && FreeAddrs(bs)[Rank(bs, q) + 1] == bs[q + 1].addr
  {
    if q + 1 < |bs| && bs[q + 1].free {
      OnList(bs, q + 1);
      FreeAddrsAt(bs[..q + 1], q);
      assert bs[..q + 1][..q] == bs[..q] && bs[..q + 1][q + 1..] == [];
    }
  }

  lemma NoPrev(m: Ram, head: nat, bs: seq<Block>, i: nat)
    requires Linked(m, head, FreeAddrs(bs)) && i < |bs| && Rank(bs, i) <= |FreeAddrs(bs)|
    requires Rank(bs, i) == 0 || FreeAddrs(bs)[Rank(bs, i) - 1] == 0
    ensures i > 0 ==> !bs[i - 1].free
  {
    if i > 0 && bs[i - 1].free { RankLt(bs, i - 1, i); }
  }

  /** The list entry before block `i` belongs to the last free block before it. */
  lemma PrevEntry(m: Ram, head: nat, bs: seq<Block>, base: nat, bump: nat, i: nat, k: nat) returns (p: nat)
    requires Managed(m, head, bs, base, bump) && i < |bs| && bs[i].free && Position(FreeAddrs(bs), k, bs[i].addr)
    requires 0 < Rank(bs, i)
    ensures k == Rank(bs, i) && p < |bs| && bs[p].free && bs[p].addr == FreeAddrs(bs)[k - 1]
    ensures bs[i - 1].free ==> p == i - 1
  {
    hide FreeAddrs;
    var fl, r := FreeAddrs(bs), Rank(bs, i);
    OnList(bs, i);
    FreeAddrsSpaced(bs, base, bump);
    p := FreeAddrsBlock(bs, k - 1);
    RankMono(bs, p, i);
    if bs[i - 1].free {
      NextFree(bs, i - 1);
      RankStep(bs, i);
      OnList(bs, i - 1);
      SameBlock(bs, base, bump, p, i - 1);
    }
  }

  lemma RankStep(bs: seq<Block>, i: nat)
    requires 0 < i <= |bs| && bs[i - 1].free
    ensures Rank(bs, i) == Rank(bs, i - 1) + 1
  {
    FreeAddrsAt(bs[..i], i - 1);
    assert bs[..i][..i - 1] == bs[..i - 1] && bs[..i][i..] == [];
  }

  /** Blocks are identified by their addresses. */
  lemma SameBlock(bs: seq<Block>, base: nat, bump: nat, p: nat, i: nat)
    requires Tiles(bs, base, bump) && p < |bs| && i < |bs|
    ensures bs[p].addr == bs[i].addr ==> p == i
    ensures p + 1 < |bs| && bs[p + 1].addr == bs[i].addr ==> p + 1 == i
  {
    if p < i { Disjoint(bs, base, bump, p, i); } else if i < p { Disjoint(bs, base, bump, i, p); }
    if p + 1 < i { Disjoint(bs, base, bump, p + 1, i); }
    if i < p + 1 < |bs| { Disjoint(bs, base, bump, i, p + 1); }
  }

  /** Marking a block free does not disturb the list yet. */
  lemma MarkFree(m: Ram, head: nat, bs: seq<Block>, base: nat, bump: nat, i: nat)
    requires Managed(m, head, bs, base, bump) && i < |bs| && !bs[i].free
    ensures bs[i].addr + HDR <= |m|
    ensures var cs := bs[i := bs[i].(free := true)]; var n := SetNext(SetFree(m, bs[i].addr, true), bs[i].addr, 0);
      Tiles(cs, base, bump) && HeadersOk(n, cs) && Linked(n, head, ListBefore(cs, i)) && LiveSame(m, n, cs)
  {
    hide FreeAddrs, SetFree, SetNext;
    assert HdrOk(m, bs[i]);
    var a, cs := bs[i].addr, bs[i := bs[i].(free := true)];
    FlagTiles(bs, i, base, bump);
    var n := SetNext(SetFree(m, a, true), a, 0);
    SetFreeOk(m, a, true);
    SetNextOk(SetFree(m, a, true), a, 0);
    forall j | 0 <= j < |cs| ensures HdrOk(n, cs[j]) {
      if i < j { Disjoint(bs, base, bump, i, j); } else if j < i { Disjoint(bs, base, bump, j, i); }
      if i != j {
        assert HdrOk(m, bs[j]);
        HeaderKept(m, n, a, a + HDR, bs[j].addr);
      }
    }
    BeforeAfter(cs, i);
    assert cs[i := cs[i].(free := false)] == bs;
    OthersApart(cs, base, bump, i);
    LinkedKept(m, n, a, a + HDR, head, FreeAddrs(bs));
    LiveKept(m, n, cs, base, bump, i);
  }

  /** A block that starts where block `i` ends is the next one. */
  lemma TouchNext(bs: seq<Block>, base: nat, bump: nat, i: nat, j: nat)
    requires Tiles(bs, base, bump) && i < |bs| && j < |bs|
    ensures bs[i].End() == bs[j].addr <==> i + 1 < |bs| && bs[i].End() == bs[i + 1].addr && bs[i + 1].addr == bs[j].addr
  {
    if bs[i].End() == bs[j].addr {
      if j < i { Disjoint(bs, base, bump, j, i); }
      if i < j { Disjoint(bs, base, bump, i, j); }
      if i + 1 < j { Disjoint(bs, base, bump, i, i + 1); Disjoint(bs, base, bump, i + 1, j); }
    }
  }

  lemma ExtendCoalesced(bs: seq<Block>, b: Block)
    requires Coalesced(bs) && !b.free
    ensures Coalesced(bs + [b])
  {
    var cs := bs + [b];
    forall j | 0 <= j < |cs| - 1 ensures !Touch(cs[j], cs[j + 1]) {
      if j < |bs| - 1 { assert !Touch(bs[j], bs[j + 1]); }
    }
  }

  lemma ExtendLive(m0: Ram, m1: Ram, n: Ram, bs: seq<Block>, base: nat, l: Layout)
    requires LiveSame(m0, m1, bs) && |l.blocks| == |bs| + 1 && l.blocks[..|bs|] == bs && Tiles(l.blocks, base, l.bump)
    requires OthersSame(m1, n, l.blocks, l.blocks[|bs|].addr)
    ensures LiveSame(m0, n, bs)
  {
    forall j | 0 <= j < |bs| && !bs[j].free
      ensures bs[j].End() <= |m0| && n[bs[j].Payload()..bs[j].End()] == m0[bs[j].Payload()..bs[j].End()] {
      assert l.blocks[j] == bs[j];
      Disjoint(l.blocks, base, l.bump, j, |bs|);
    }
  }

  lemma ReuseReady(bs: seq<Block>, i: nat, want: nat)
    requires Coalesced(bs) && i < |bs| && Fits(bs[i], want)
    ensures var cs := bs[i := bs[i].(free := false)];
      && Split(cs, i, want) == Split(bs, i, want)
      && (i + 1 < |cs| ==> !(cs[i + 1].free && cs[i].End() == cs[i + 1].addr))
  {
    var cs := bs[i := bs[i].(free := false)];
    assert cs[..i] == bs[..i] && cs[i + 1..] == bs[i + 1..];
    assert i + 1 < |bs| ==> !Touch(bs[i], bs[i + 1]);
  }

  lemma SplitNone(bs: seq<Block>, i: nat, want: nat)
    requires i < |bs| && !bs[i].free && want <= bs[i].size <= want + HDR + 16
    ensures Split(bs, i, want) == bs
  {
    assert bs[i].(free := false) == bs[i];
  }

  lemma SplitCoalesced(bs: seq<Block>, i: nat, want: nat)
    requires Coalesced(bs) && i < |bs| && !bs[i].free && want + HDR + 16 < bs[i].size
    requires i + 1 < |bs| ==> !(bs[i + 1].free && bs[i].End() == bs[i + 1].addr)
    ensures Coalesced(Split(bs, i, want))
  {
    var cs := Split(bs, i, want);
    forall j | 0 <= j < |cs| - 1 ensures !Touch(cs[j], cs[j + 1]) {
      if j < i - 1 { assert !Touch(bs[j], bs[j + 1]); }
      if j > i + 1 { assert cs[j] == bs[j - 1] && cs[j + 1] == bs[j] && !Touch(bs[j - 1], bs[j]); }
    }
  }

  lemma TakenTiles(bs: seq<Block>, base: nat, bump: nat, i: nat)
    requires Tiles(bs, base, bump) && Coalesced(bs) && i < |bs|
    ensures var cs := bs[i := bs[i].(free := false)]; Tiles(cs, base, bump) && Coalesced(cs)
  {
    var cs := bs[i := bs[i].(free := false)];
    forall j | 0 <= j < |cs| ensures Follows(Reached(cs, base, j), cs[j]) {
      assert Follows(Reached(bs, base, j), bs[j]); }
    forall j | 0 <= j < |cs| - 1 ensures !Touch(cs[j], cs[j + 1]) { assert !Touch(bs[j], bs[j + 1]); }
  }
}
