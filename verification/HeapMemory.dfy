/** Physical memory as bytes, and the block headers and free-list links stored in it. */
module HeapMemory {
  import opened Bytes
  import opened HeapLayout

  const WORD: int := 0x1_0000_0000

  type Ram = seq<Byte>

  /** A little-endian 32-bit word. */
  function Load32(m: Ram, a: nat): (v: nat)
    requires a + 4 <= |m|
    ensures v < WORD
  {
    (m[a] as int) + 256 * (m[a + 1] as int) + 65536 * (m[a + 2] as int) + 16777216 * (m[a + 3] as int)
  }

  function Store32(m: Ram, a: nat, v: nat): (n: Ram)
    requires a + 4 <= |m| && v < WORD
    ensures |n| == |m| && forall i :: 0 <= i < |m| && !(a <= i < a + 4) ==> n[i] == m[i]
  {
    m[a := v % 256][a + 1 := v / 256 % 256][a + 2 := v / 65536 % 256][a + 3 := v / 16777216]
  }

  lemma StoreLoad(m: Ram, a: nat, v: nat)
    requires a + 4 <= |m| && v < WORD
    ensures Load32(Store32(m, a, v), a) == v
  {
    assert v / 65536 == v / 256 / 256 && v / 16777216 == v / 256 / 256 / 256;
  }

  /** `free` is a one-byte flag behind the size, followed by padding and the link. */
  function SizeAt(m: Ram, a: nat): nat requires a + HDR <= |m| { Load32(m, a) }
  predicate FreeAt?(m: Ram, a: nat) requires a + HDR <= |m| { m[a + 4] != 0 }
  function NextAt(m: Ram, a: nat): nat requires a + HDR <= |m| { Load32(m, a + 8) }

  function SetSize(m: Ram, a: nat, v: nat): (n: Ram)
    requires a + HDR <= |m| && v < WORD
    ensures |n| == |m|
  {
    Store32(m, a, v)
  }

  function SetFree(m: Ram, a: nat, f: bool): (n: Ram)
    requires a + HDR <= |m|
    ensures |n| == |m|
  {
    m[a + 4 := if f then 1 else 0]
  }

  function SetNext(m: Ram, a: nat, v: nat): (n: Ram)
    requires a + HDR <= |m| && v < WORD
    ensures |n| == |m|
  {
    Store32(m, a + 8, v)
  }

  /** `memset(payload, 0, n)` */
  function Zeroed(m: Ram, a: nat, n: nat): (z: Ram)
    requires a + n <= |m|
    ensures |z| == |m| && (forall i :: a <= i < a + n ==> z[i] == 0)
    ensures forall i :: 0 <= i < |m| && !(a <= i < a + n) ==> z[i] == m[i]
  {
    m[..a] + seq(n, _ => 0) + m[a + n..]
  }

  /** `n` differs from `m` only inside `[lo, hi)`. */
  predicate SameOutside(m: Ram, n: Ram, lo: nat, hi: nat) {
    |n| == |m| && forall i :: 0 <= i < |m| && !(lo <= i < hi) ==> n[i] == m[i]
  }

  /** All of header `a` lies outside the changed range. */
  lemma HeaderKept(m: Ram, n: Ram, lo: nat, hi: nat, a: nat)
    requires SameOutside(m, n, lo, hi) && a + HDR <= |m| && (a + HDR <= lo || hi <= a)
    ensures SizeAt(n, a) == SizeAt(m, a) && (FreeAt?(n, a) <==> FreeAt?(m, a)) && NextAt(n, a) == NextAt(m, a)
  {
  }

  lemma SetSizeOk(m: Ram, a: nat, v: nat)
    requires a + HDR <= |m| && v < WORD
    ensures var n := SetSize(m, a, v);
      && SameOutside(m, n, a, a + HDR) && SizeAt(n, a) == v
      && (FreeAt?(n, a) <==> FreeAt?(m, a)) && NextAt(n, a) == NextAt(m, a)
  {
    StoreLoad(m, a, v);
  }

  lemma SetFreeOk(m: Ram, a: nat, f: bool)
    requires a + HDR <= |m|
    ensures var n := SetFree(m, a, f);
      && SameOutside(m, n, a, a + HDR) && SizeAt(n, a) == SizeAt(m, a)
      && (FreeAt?(n, a) <==> f) && NextAt(n, a) == NextAt(m, a)
  {
  }

  lemma SetNextOk(m: Ram, a: nat, v: nat)
    requires a + HDR <= |m| && v < WORD
    ensures var n := SetNext(m, a, v);
      && SameOutside(m, n, a, a + HDR) && SizeAt(n, a) == SizeAt(m, a)
      && (FreeAt?(n, a) <==> FreeAt?(m, a)) && NextAt(n, a) == v
  {
    StoreLoad(m, a + 8, v);
  }

  // ------------------------------------------------------------------------------------------
  // Headers and links
  // ------------------------------------------------------------------------------------------

  predicate HdrOk(m: Ram, b: Block) {
    b.End() <= |m| && SizeAt(m, b.addr) == b.size && (FreeAt?(m, b.addr) <==> b.free)
  }

  predicate HeadersOk(m: Ram, bs: seq<Block>) {
    forall i :: 0 <= i < |bs| ==> HdrOk(m, bs[i])
  }

  /** The addresses of the free blocks, in order. */
  function FreeAddrs(bs: seq<Block>): (r: seq<nat>)
    ensures |r| <= |bs|
  {
    if bs == [] then [] else (if bs[0].free then [bs[0].addr] else []) + FreeAddrs(bs[1..])
  }

  lemma {:induction false} FreeAddrsApp(xs: seq<Block>, ys: seq<Block>)
    ensures FreeAddrs(xs + ys) == FreeAddrs(xs) + FreeAddrs(ys)
    decreases |xs|
  {
    if xs == [] {
      assert xs + ys == ys;
    } else {
      FreeAddrsApp(xs[1..], ys);
      assert (xs + ys)[1..] == xs[1..] + ys;
      var h := if xs[0].free then [xs[0].addr] else [];
      assert FreeAddrs(xs + ys) == h + (FreeAddrs(xs[1..]) + FreeAddrs(ys));
      assert FreeAddrs(xs) == h + FreeAddrs(xs[1..]);
    }
  }

  /** The successor of position `k` on the list `fl`. */
  function Link(fl: seq<nat>, k: nat): nat { if k < |fl| then fl[k] else 0 }

  /** Head and `next` fields spell out exactly the list `fl`. */
  predicate Linked(m: Ram, head: nat, fl: seq<nat>) {
    && head == Link(fl, 0)
    && (forall k :: 0 <= k < |fl| ==> 0 < fl[k] && fl[k] + HDR <= |m|)
    && (forall k {:trigger NextAt(m, fl[k])} :: 0 <= k < |fl| ==> NextAt(m, fl[k]) == Link(fl, k + 1))
  }

  /** The entries of a list are at least a header apart, in increasing order. */
  predicate Spaced(fl: seq<nat>) {
    forall i, j :: 0 <= i < j < |fl| ==> fl[i] + HDR <= fl[j]
  }

  /** What memory has to look like for a given list of blocks. */
  predicate HeapOk(m: Ram, head: nat, bs: seq<Block>) {
    HeadersOk(m, bs) && Linked(m, head, FreeAddrs(bs))
  }

  /** Position on the free list of block `i`. */
  function Rank(bs: seq<Block>, i: nat): nat
    requires i <= |bs|
  {
    |FreeAddrs(bs[..i])|
  }

  lemma FreeAddrsAt(bs: seq<Block>, i: nat)
    requires i < |bs|
    ensures FreeAddrs(bs) == FreeAddrs(bs[..i]) + (if bs[i].free then [bs[i].addr] else []) + FreeAddrs(bs[i + 1..])
  {
    hide FreeAddrs;
    var a, b, c := bs[..i], bs[i], bs[i + 1..];
    assert bs == a + [b] + c;
    FreeAddrsApp(a, [b]);
    FreeAddrsApp(a + [b], c);
    FreeAddrsOne(b);
  }

  lemma FreeAddrsOne(b: Block)
    ensures FreeAddrs([b]) == if b.free then [b.addr] else []
  {
    assert [b][1..] == [];
  }

  /** Every entry of the free list is the address of a free block. */
  lemma {:induction false} FreeAddrsBlock(bs: seq<Block>, k: nat) returns (i: nat)
    requires k < |FreeAddrs(bs)|
    ensures i < |bs| && bs[i].free && bs[i].addr == FreeAddrs(bs)[k] && Rank(bs, i) == k
    decreases |bs|
  {
    if bs[0].free && k == 0 {
      i := 0;
    } else {
      var j := FreeAddrsBlock(bs[1..], if bs[0].free then k - 1 else k);
      i := j + 1;
      assert bs[..i][1..] == bs[1..][..j];
    }
  }

  lemma {:induction false} FreeAddrsSpaced(bs: seq<Block>, at: nat, end: nat)
    requires Tiles(bs, at, end)
    ensures Spaced(FreeAddrs(bs))
    ensures forall k :: 0 <= k < |FreeAddrs(bs)| ==> at <= FreeAddrs(bs)[k] && FreeAddrs(bs)[k] + HDR <= end
  {
    var fl := FreeAddrs(bs);
    forall k | 0 <= k < |fl| ensures at <= fl[k] && fl[k] + HDR <= end {
      var i := FreeAddrsBlock(bs, k);
      Within(bs, at, end, i);
    }
    forall k, l | 0 <= k < l < |fl| ensures fl[k] + HDR <= fl[l] {
      var i := FreeAddrsBlock(bs, k);
      var j := FreeAddrsBlock(bs, l);
      RankMono(bs, i, j);
      Disjoint(bs, at, end, i, j);
    }
  }

  lemma RankLe(bs: seq<Block>, j: nat, i: nat)
    requires j <= i <= |bs|
    ensures Rank(bs, j) <= Rank(bs, i)
  {
    FreeAddrsApp(bs[..j], bs[j..i]);
    assert bs[..j] + bs[j..i] == bs[..i];
  }

  lemma RankMono(bs: seq<Block>, i: nat, j: nat)
    requires i < |bs| && j < |bs| && Rank(bs, i) < Rank(bs, j)
    ensures i < j
  {
    if j <= i { RankLe(bs, j, i); }
  }

  // ------------------------------------------------------------------------------------------
  // Changing the list
  // ------------------------------------------------------------------------------------------

  /** Links outside the changed range still spell out the list. */
  lemma LinkedKept(m: Ram, n: Ram, lo: nat, hi: nat, head: nat, fl: seq<nat>)
    requires Linked(m, head, fl) && SameOutside(m, n, lo, hi)
    requires forall k :: 0 <= k < |fl| ==> fl[k] + HDR <= lo || hi <= fl[k]
    ensures Linked(n, head, fl)
  {
    forall k | 0 <= k < |fl| ensures NextAt(n, fl[k]) == Link(fl, k + 1) { HeaderKept(m, n, lo, hi, fl[k]); }
  }

  /** The list without its entry `k`. */
  function Del(fl: seq<nat>, k: nat): (gl: seq<nat>)
    requires k < |fl|
    ensures |gl| == |fl| - 1
    ensures (forall j :: 0 <= j < k ==> gl[j] == fl[j]) && (forall j :: k <= j < |gl| ==> gl[j] == fl[j + 1])
  {
    fl[..k] + fl[k + 1..]
  }

  /** The memory and the head after `fl[k]` has been bypassed. */
  function Bypass(m: Ram, head: nat, fl: seq<nat>, k: nat): (r: (Ram, nat))
    requires Linked(m, head, fl) && k < |fl|
  {
    if k == 0 then (m, Link(fl, 1))
    else assert Link(fl, k + 1) < WORD by { assert NextAt(m, fl[k]) == Link(fl, k + 1); }
         (SetNext(m, fl[k - 1], Link(fl, k + 1)), head)
  }

  lemma BypassLinked(m: Ram, head: nat, fl: seq<nat>, k: nat)
    requires Linked(m, head, fl) && Spaced(fl) && k < |fl|
    ensures var r := Bypass(m, head, fl, k); Linked(r.0, r.1, Del(fl, k))
  {
    hide Del;
    var (n, h) := Bypass(m, head, fl, k);
    var gl := Del(fl, k);
    assert NextAt(m, fl[k]) == Link(fl, k + 1);
    if k > 0 { SetNextOk(m, fl[k - 1], Link(fl, k + 1)); }
    forall j | 0 <= j < |gl| ensures 0 < gl[j] && gl[j] + HDR <= |n| && NextAt(n, gl[j]) == Link(gl, j + 1) {
      var i := if j < k then j else j + 1;
      assert gl[j] == fl[i] && NextAt(m, fl[i]) == Link(fl, i + 1);
      if k > 0 && i != k - 1 { HeaderKept(m, n, fl[k - 1], fl[k - 1] + HDR, fl[i]); }
    }
  }

  /** The list with `a` at position `k`. */
  function Ins(fl: seq<nat>, k: nat, a: nat): (gl: seq<nat>)
    requires k <= |fl|
    ensures |gl| == |fl| + 1 && gl[k] == a
    ensures (forall j :: 0 <= j < k ==> gl[j] == fl[j]) && (forall j :: k < j < |gl| ==> gl[j] == fl[j - 1])
  {
    fl[..k] + [a] + fl[k..]
  }

  /** The memory and the head after `a`, whose own link is already set, has been put at position `k`. */
  function Insert(m: Ram, head: nat, fl: seq<nat>, k: nat, a: nat): (r: (Ram, nat))
    requires Linked(m, head, fl) && k <= |fl| && a < WORD
  {
    if k == 0 then (m, a) else (SetNext(m, fl[k - 1], a), head)
  }

  lemma InsertLinked(m: Ram, head: nat, fl: seq<nat>, k: nat, a: nat)
    requires Linked(m, head, fl) && k <= |fl| && 0 < a < WORD && a + HDR <= |m|
    requires NextAt(m, a) == Link(fl, k) && Spaced(Ins(fl, k, a))
    ensures var r := Insert(m, head, fl, k, a); Linked(r.0, r.1, Ins(fl, k, a))
  {
    var (n, h) := Insert(m, head, fl, k, a);
    var gl := Ins(fl, k, a);
    if k > 0 { SetNextOk(m, fl[k - 1], a); }
    forall j | 0 <= j < |gl| ensures 0 < gl[j] && gl[j] + HDR <= |n| && NextAt(n, gl[j]) == Link(gl, j + 1) {
      InsertLinkedAt(m, n, head, fl, k, a, j);
    }
  }

  lemma InsertLinkedAt(m: Ram, n: Ram, head: nat, fl: seq<nat>, k: nat, a: nat, j: nat)
    requires Linked(m, head, fl) && k <= |fl| && 0 < a < WORD && a + HDR <= |m| && NextAt(m, a) == Link(fl, k)
    requires j <= |fl| && Spaced(Ins(fl, k, a))
    requires if k == 0 then n == m else SameOutside(m, n, fl[k - 1], fl[k - 1] + HDR) && NextAt(n, fl[k - 1]) == a
    ensures var gl := Ins(fl, k, a);
      0 < gl[j] && gl[j] + HDR <= |n| && NextAt(n, gl[j]) == Link(gl, j + 1)
  {
    hide Ins;
    var gl := Ins(fl, k, a);
    if k > 0 && j != k - 1 {
      assert gl[k - 1] == fl[k - 1];
      HeaderKept(m, n, fl[k - 1], fl[k - 1] + HDR, gl[j]);
    }
  }

  /** Writing one field of the header of block `j` leaves the other headers alone. */
  lemma HeadersKept(m: Ram, n: Ram, bs: seq<Block>, at: nat, end: nat, j: nat)
    requires HeadersOk(m, bs) && Tiles(bs, at, end) && j < |bs|
    requires SameOutside(m, n, bs[j].addr, bs[j].addr + HDR) && HdrOk(n, bs[j])
    ensures HeadersOk(n, bs)
  {
    forall i | 0 <= i < |bs| ensures HdrOk(n, bs[i]) {
      if i < j { Disjoint(bs, at, end, i, j); } else if j < i { Disjoint(bs, at, end, j, i); }
      if i != j { HeaderKept(m, n, bs[j].addr, bs[j].addr + HDR, bs[i].addr); }
    }
  }

  /** The payload of every live block reads as before. */
  predicate LiveSame(m: Ram, n: Ram, bs: seq<Block>) {
    && |n| == |m|
    && forall i :: 0 <= i < |bs| && !bs[i].free ==>
         bs[i].End() <= |m| && n[bs[i].Payload()..bs[i].End()] == m[bs[i].Payload()..bs[i].End()]
  }

  /** Writes to the header of a block touch no payload. */
  lemma LiveKept(m: Ram, n: Ram, bs: seq<Block>, at: nat, end: nat, j: nat)
    requires Tiles(bs, at, end) && end <= |m| && j < |bs|
    requires SameOutside(m, n, bs[j].addr, bs[j].addr + HDR)
    ensures LiveSame(m, n, bs)
  {
    forall i | 0 <= i < |bs| && !bs[i].free
      ensures bs[i].End() <= |m| && n[bs[i].Payload()..bs[i].End()] == m[bs[i].Payload()..bs[i].End()]
    {
      Within(bs, at, end, i);
      if i < j { Disjoint(bs, at, end, i, j); } else if j < i { Disjoint(bs, at, end, j, i); }
    }
  }
}
