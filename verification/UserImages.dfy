/** How stage2/scheduler.c builds the address space of a program from its segments, for a new task
    and for `exec`, and what every byte of that address space reads. */
module UserImages {
  import opened Bytes
  import opened PageTables
  import opened AddressSpaces
  import Heap = HeapLayout

  const PAGES := 0x10_0000
  const STACK_SIZE := 0x1_0000
  const WORD := 0x1_0000_0000

  /** One loadable segment; the bytes of `data` go to `vaddr`, and `memsz` bytes are reserved. */
  datatype Segment = Segment(vaddr: nat, memsz: nat, data: seq<Byte>) {
    predicate Covers(v: nat) { vaddr <= v < vaddr + |data| }
  }

  /** File data no longer than the memory, and no wrap-around of the rounded end. */
  predicate Sound(g: Segment) { |g.data| <= g.memsz && g.vaddr + g.memsz + 4095 < 0x1_0000_0000 }

  /** The image as a plain function of the address: the last segment whose file data covers it. */
  function ImageByte(gs: seq<Segment>, v: nat): Byte {
    if gs == [] then 0
    else if gs[|gs| - 1].Covers(v) then gs[|gs| - 1].data[v - gs[|gs| - 1].vaddr]
    else ImageByte(gs[..|gs| - 1], v)
  }

  /** The translation of a virtual page given by its number. */
  function PageLeaf(ram: Ram, d: nat, pn: nat): Entry { Leaf(ram, d, pn / 1024, pn % 1024) }

  /** The byte a directory shows at an address, if there is one. */
  datatype Seen = Nothing | Seen(b: Byte)

  function ByteAt(ram: Ram, d: nat, v: nat): Seen {
    var e := PageLeaf(ram, d, v / 4096);
    if !e.Present() then Nothing
    else match Content(ram, e.frame)
      case Page(bytes) => if |bytes| == PAGE_SIZE then Seen(bytes[v % 4096]) else Nothing
      case Table(_) => Nothing
  }

  lemma PageSlot(pn: nat)
    requires pn < PAGES
    ensures Slot(pn / 1024, pn % 1024)
  {
  }

  lemma PageVirtual(pn: nat)
    requires pn < PAGES
    ensures var v := pn * 4096; v < 0x1_0000_0000 && v / 0x40_0000 == pn / 1024 && v / 4096 % 1024 == pn % 1024
  {
    assert pn * 4096 / 4096 == pn;
    assert pn * 4096 / 0x40_0000 == pn / 1024;
  }

  // ------------------------------------------------------------------------------------------
  // Mapping the pages
  // ------------------------------------------------------------------------------------------

  predicate Distinct(ps: seq<nat>) { forall a, b :: 0 <= a < b < |ps| ==> ps[a] != ps[b] }

  /** The page with number `pn` is one of the `n` pages from `lo`. */
  predicate InSpan(pn: nat, lo: nat, n: nat) { lo <= pn < lo + n }

  /** A frame that did not exist in `s` and holds no directory or table in `t`. */
  predicate NewPlain(s: Space, t: Space, f: nat) { f !in s.ram && Plain(t, f) }

  ghost predicate Elsewhere(s: Space, t: Space, d: nat, lo: nat, n: nat) {
    && SameLeaves(s.ram, t.ram, s.dirs - {d})
    && forall pn: nat :: pn < PAGES && !InSpan(pn, lo, n) ==> PageLeaf(t.ram, d, pn) == PageLeaf(s.ram, d, pn)
  }

  /** Directory `d` maps the pages from `lo` to the new frames `ps`, and nothing else has changed. */
  ghost predicate Laid(s: Space, t: Space, d: nat, lo: nat, ps: seq<nat>) {
    && Inv(t) && t.dirs == s.dirs && t.kernel == s.kernel && lo + |ps| <= PAGES && PlainKept(s, t) && Distinct(ps)
    && (forall k :: 0 <= k < |ps| ==> NewPlain(s, t, ps[k]))
    && (forall k :: 0 <= k < |ps| ==> PageLeaf(t.ram, d, lo + k) == Entry(ps[k], 7))
    && (forall f :: f in t.tables && f in s.ram ==> f in s.tables) && s.ram.Keys <= t.ram.Keys
    && Elsewhere(s, t, d, lo, |ps|)
  }

  ghost predicate Blank(ram: Ram, ps: seq<nat>) { forall f :: f in ps ==> f in ram && ram[f] == ZeroPage() }

  lemma ElsewhereStep(s: Space, t: Space, u: Space, v: Space, d: nat, lo: nat, n: nat)
    requires lo + n < PAGES && u.dirs == t.dirs == s.dirs && d in s.dirs
    requires SameLeaves(t.ram, u.ram, t.dirs)
    requires SameBut(u.ram, v.ram, u.dirs, d, (lo + n) / 1024, (lo + n) % 1024) && Elsewhere(s, t, d, lo, n)
    ensures Elsewhere(s, v, d, lo, n + 1)
    ensures forall pn: nat :: pn < PAGES && pn != lo + n ==> PageLeaf(v.ram, d, pn) == PageLeaf(t.ram, d, pn)
  {
    forall pn: nat | pn < PAGES && pn != lo + n ensures PageLeaf(v.ram, d, pn) == PageLeaf(t.ram, d, pn) {
      PageSlot(pn);
    }
    forall pn: nat | pn < PAGES && !InSpan(pn, lo, n + 1) ensures PageLeaf(v.ram, d, pn) == PageLeaf(s.ram, d, pn) {
      assert !InSpan(pn, lo, n);
    }
    forall d', i, j | d' in s.dirs - {d} && Slot(i, j) ensures Leaf(v.ram, d', i, j) == Leaf(s.ram, d', i, j) {
      assert Leaf(u.ram, d', i, j) == Leaf(t.ram, d', i, j);
    }
  }

  lemma MapStep(t: Space, u: Space, v: Space, d: nat, i: nat, j: nat, f: nat, e: Entry)
    requires Inv(t) && d in t.dirs && d != t.kernel && Slot(i, j)
    requires Allocated(t, u, f) && Mapped(u, v, d, i, j, e)
    ensures Inv(v) && v.dirs == t.dirs && v.kernel == t.kernel && PlainKept(t, v) && NewPlain(t, v, f)
    ensures v.ram[f] == ZeroPage() && t.ram.Keys <= v.ram.Keys && Leaf(v.ram, d, i, j) == e
    ensures SameLeaves(t.ram, u.ram, t.dirs) && SameBut(u.ram, v.ram, u.dirs, d, i, j)
    ensures forall g :: g in v.tables && g in u.ram ==> g in t.tables
  {
    AllocatedInv(t, u, f);
    MappedExact(u, v, d, i, j, e);
  }

  lemma LaidStep(s: Space, t: Space, u: Space, v: Space, d: nat, lo: nat, ps: seq<nat>, f: nat)
    requires Laid(s, t, d, lo, ps) && Blank(t.ram, ps) && d in s.dirs && d != s.kernel && lo + |ps| < PAGES
    requires Allocated(t, u, f) && Mapped(u, v, d, (lo + |ps|) / 1024, (lo + |ps|) % 1024, Entry(f, 7))
    ensures Laid(s, v, d, lo, ps + [f]) && Blank(v.ram, ps + [f])
  {
    hide Inv, Mapped, SameLeaves, SameBut, Allocated, Leaf;
    var pn := lo + |ps|;
    PageSlot(pn);
    MapStep(t, u, v, d, pn / 1024, pn % 1024, f, Entry(f, 7));
    assert u.dirs == t.dirs && forall g :: g in t.ram ==> g in u.ram && g != f by { AllocatedFrames(t, u, f); }
    ElsewhereStep(s, t, u, v, d, lo, |ps|);
    forall k | 0 <= k < |ps| ensures NewPlain(s, v, ps[k]) && v.ram[ps[k]] == ZeroPage() && ps[k] != f {
      assert NewPlain(s, t, ps[k]) && ps[k] in ps;
    }
  }

  lemma AllocatedFrames(t: Space, u: Space, f: nat)
    requires Allocated(t, u, f)
    ensures u.dirs == t.dirs && forall g :: g in t.ram ==> g in u.ram && g != f
  {
  }

  // ------------------------------------------------------------------------------------------
  // Copying the segments
  // ------------------------------------------------------------------------------------------

  /** `memcpy` into a page. */
  function Blit(bytes: seq<Byte>, off: nat, src: seq<Byte>): (r: seq<Byte>)
    requires off + |src| <= |bytes|
    ensures |r| == |bytes|
    ensures forall k :: 0 <= k < |bytes| ==> r[k] == if off <= k < off + |src| then src[k - off] else bytes[k]
  {
    bytes[..off] + src + bytes[off + |src|..]
  }

  /** Frame `f` holds the image's bytes of page `pn`. */
  predicate Holds(ram: Ram, f: nat, gs: seq<Segment>, pn: nat) {
    && f in ram && ram[f].Page? && |ram[f].bytes| == PAGE_SIZE
    && forall k :: 0 <= k < PAGE_SIZE ==> ram[f].bytes[k] == ImageByte(gs, pn * 4096 + k)
  }

  predicate Filled(ram: Ram, ps: seq<nat>, lo: nat, gs: seq<Segment>) {
    forall k :: 0 <= k < |ps| ==> Holds(ram, ps[k], gs, lo + k)
  }

  /** A segment of whose data only the first `r` bytes have arrived. */
  function Cut(g: Segment, r: nat): Segment
    requires r <= |g.data|
  {
    g.(data := g.data[..r])
  }

  lemma CutByte(gs: seq<Segment>, g: Segment, r: nat, r': nat, v: nat)
    requires r <= r' <= |g.data|
    ensures ImageByte(gs + [Cut(g, r')], v) ==
      if g.vaddr + r <= v < g.vaddr + r' then g.data[v - g.vaddr] else ImageByte(gs + [Cut(g, r)], v)
  {
    assert (gs + [Cut(g, r)])[..|gs|] == gs;
    assert (gs + [Cut(g, r')])[..|gs|] == gs;
  }

  lemma CutNone(gs: seq<Segment>, g: Segment, v: nat)
    ensures ImageByte(gs + [Cut(g, 0)], v) == ImageByte(gs, v)
  {
    assert (gs + [Cut(g, 0)])[..|gs|] == gs;
  }

  /** Only the frames in `ps` differ. */
  predicate Overwrites(u: Ram, t: Ram, ps: seq<nat>) {
    t.Keys == u.Keys && forall f :: f in u && f !in ps ==> t[f] == u[f]
  }

  /** One chunk of the copy loop. */
  lemma ChunkFills(u: Ram, t: Ram, ps: seq<nat>, lo: nat, gs: seq<Segment>, g: Segment, r: nat, n: nat, at: nat,
                   off: nat)
    requires r + n <= |g.data| && at < |ps| && off + n <= PAGE_SIZE && (lo + at) * 4096 + off == g.vaddr + r
    requires Distinct(ps) && Filled(u, ps, lo, gs + [Cut(g, r)])
    requires Holds(u, ps[at], gs + [Cut(g, r)], lo + at)
    requires t == u[ps[at] := Page(Blit(u[ps[at]].bytes, off, g.data[r..r + n]))]
    ensures Filled(t, ps, lo, gs + [Cut(g, r + n)])
  {
    forall k | 0 <= k < |ps| ensures Holds(t, ps[k], gs + [Cut(g, r + n)], lo + k) {
      assert Holds(u, ps[k], gs + [Cut(g, r)], lo + k);
      forall o | 0 <= o < PAGE_SIZE ensures t[ps[k]].bytes[o] == ImageByte(gs + [Cut(g, r + n)], (lo + k) * 4096 + o) {
        CutByte(gs, g, r, r + n, (lo + k) * 4096 + o);
      }
    }
  }

  lemma NoneFills(ram: Ram, ps: seq<nat>, lo: nat, gs: seq<Segment>, g: Segment)
    requires Filled(ram, ps, lo, gs)
    ensures Filled(ram, ps, lo, gs + [Cut(g, 0)])
  {
    forall k | 0 <= k < |ps| ensures Holds(ram, ps[k], gs + [Cut(g, 0)], lo + k) {
      assert Holds(ram, ps[k], gs, lo + k);
      forall v: nat { CutNone(gs, g, v); }
    }
  }

  /** The copy loop of one segment: the page of each address is found from the image base. */
  method CopySegment(p: Paging, base: nat, ps: seq<nat>, g: Segment, ghost gs: seq<Segment>)
    requires base % 4096 == 0 && Sound(g) && base <= g.vaddr && g.vaddr + g.memsz <= base + 4096 * |ps|
    requires Distinct(ps) && Filled(p.ram, ps, base / 4096, gs)
    modifies p`ram
    ensures Filled(p.ram, ps, base / 4096, gs + [g]) && Overwrites(old(p.ram), p.ram, ps)
  {
    ghost var lo := base / 4096;
    var dst, r := g.vaddr, 0;
    NoneFills(p.ram, ps, lo, gs, g);
    while r < |g.data|
      invariant 0 <= r <= |g.data| && dst == g.vaddr + r
      invariant Filled(p.ram, ps, lo, gs + [Cut(g, r)]) && Overwrites(old(p.ram), p.ram, ps)
    {
      var pageIdx, pageOff := (dst - dst % 4096 - base) / 4096, dst % 4096;
      PageOf(base, dst, |ps|);
      var chunk := if PAGE_SIZE - pageOff > |g.data| - r then |g.data| - r else PAGE_SIZE - pageOff;
      ghost var u := p.ram;
      assert Holds(u, ps[pageIdx], gs + [Cut(g, r)], lo + pageIdx);
      p.ram := p.ram[ps[pageIdx] := Page(Blit(p.ram[ps[pageIdx]].bytes, pageOff, g.data[r..r + chunk]))];
      ChunkFills(u, p.ram, ps, lo, gs, g, r, chunk, pageIdx, pageOff);
      dst, r := dst + chunk, r + chunk;
    }
    assert Cut(g, |g.data|) == g;
  }

  /** An address inside the image lies in the page that the copy loop computes. */
  lemma PageOf(base: nat, dst: nat, n: nat)
    requires base % 4096 == 0 && base <= dst < base + 4096 * n
    ensures var at := (dst - dst % 4096 - base) / 4096;
      dst - dst % 4096 >= base && at < n && (base / 4096 + at) * 4096 + dst % 4096 == dst
  {
    var b, q := base / 4096, dst / 4096;
    assert base == 4096 * b && dst == 4096 * q + dst % 4096;
    assert b <= q;
    assert (dst - dst % 4096 - base) / 4096 == q - b;
  }

  // ------------------------------------------------------------------------------------------
  // The span of the image
  // ------------------------------------------------------------------------------------------

  function PageDown(x: nat): nat { x / 4096 * 4096 }

  function Max(a: nat, b: nat): nat { if a < b then b else a }

  function ImageBase(gs: seq<Segment>): nat {
    if gs == [] then 0xFFFF_FFFF else Min(ImageBase(gs[..|gs| - 1]), PageDown(gs[|gs| - 1].vaddr))
  }

  function ImageEnd(gs: seq<Segment>): nat {
    if gs == [] then 0 else Max(ImageEnd(gs[..|gs| - 1]), Heap.AlignUp(gs[|gs| - 1].vaddr + gs[|gs| - 1].memsz, 4096))
  }

  predicate AllSound(gs: seq<Segment>) { forall k :: 0 <= k < |gs| ==> Sound(gs[k]) }

  /** The span is page aligned and encloses every segment. */
  lemma {:induction false} SpanEncloses(gs: seq<Segment>)
    requires AllSound(gs) && gs != []
    ensures ImageBase(gs) % 4096 == 0 && ImageEnd(gs) % 4096 == 0 && ImageEnd(gs) <= 0x1_0000_0000
    ensures forall k :: 0 <= k < |gs| ==> ImageBase(gs) <= gs[k].vaddr && gs[k].vaddr + gs[k].memsz <= ImageEnd(gs)
  {
    var n := |gs| - 1;
    var g := gs[n];
    RoundBounds(g.vaddr);
    RoundBounds(g.vaddr + g.memsz);
    if n > 0 { SpanEncloses(gs[..n]); }
  }

  /** Page-aligned bounds that enclose every segment. */
  predicate Encloses(b: nat, e: nat, gs: seq<Segment>) {
    && b % 4096 == 0 && e % 4096 == 0
    && forall k :: 0 <= k < |gs| ==> b <= gs[k].vaddr && gs[k].vaddr + gs[k].memsz <= e
  }

  /** No smaller page-aligned span encloses every segment. */
  lemma {:induction false} SpanLeast(gs: seq<Segment>, b: nat, e: nat)
    requires AllSound(gs) && gs != [] && Encloses(b, e, gs)
    ensures b <= ImageBase(gs) && ImageEnd(gs) <= e
  {
    var n := |gs| - 1;
    RoundLeast(gs[n].vaddr, b, e);
    RoundLeast(gs[n].vaddr + gs[n].memsz, b, e);
    if n > 0 { SpanLeast(gs[..n], b, e); }
  }

  lemma RoundLeast(x: nat, b: nat, e: nat)
    requires b % 4096 == 0 && e % 4096 == 0
    ensures b <= x ==> b <= PageDown(x)
    ensures x <= e ==> Heap.AlignUp(x, 4096) <= e
  {
  }

  /** Some segment starts on page `pn` or before it, and some segment ends behind its start. */
  predicate SpanPage(gs: seq<Segment>, pn: nat) {
    (exists k :: 0 <= k < |gs| && gs[k].vaddr / 4096 <= pn) &&
    (exists k :: 0 <= k < |gs| && 4096 * pn < gs[k].vaddr + gs[k].memsz)
  }

  /** The pages of the span, in terms of the segments alone. */
  lemma {:induction false} SpanPageIs(gs: seq<Segment>, pn: nat)
    requires AllSound(gs) && gs != []
    ensures SpanPage(gs, pn) <==> ImageBase(gs) <= 4096 * pn < ImageEnd(gs)
  {
    BaseReached(gs, pn);
    EndReached(gs, pn);
  }

  lemma {:induction false} BaseReached(gs: seq<Segment>, pn: nat)
    requires AllSound(gs) && gs != []
    ensures ImageBase(gs) <= 4096 * pn <==> exists k :: 0 <= k < |gs| && gs[k].vaddr / 4096 <= pn
  {
    var n := |gs| - 1;
    RoundBounds(gs[n].vaddr);
    assert PageDown(gs[n].vaddr) <= 4096 * pn <==> gs[n].vaddr / 4096 <= pn;
    if n > 0 {
      BaseReached(gs[..n], pn);
      if k :| 0 <= k < n && gs[..n][k].vaddr / 4096 <= pn { assert gs[k].vaddr / 4096 <= pn; }
      if k :| 0 <= k < |gs| && gs[k].vaddr / 4096 <= pn { assert k < n ==> gs[..n][k].vaddr / 4096 <= pn; }
    }
  }

  lemma {:induction false} EndReached(gs: seq<Segment>, pn: nat)
    ensures 4096 * pn < ImageEnd(gs) <==> exists k :: 0 <= k < |gs| && 4096 * pn < gs[k].vaddr + gs[k].memsz
  {
    if gs != [] {
      var n := |gs| - 1;
      var x := gs[n].vaddr + gs[n].memsz;
      EndsBehind(x, pn);
      EndReached(gs[..n], pn);
      if k :| 0 <= k < n && 4096 * pn < gs[..n][k].vaddr + gs[..n][k].memsz {
        assert 4096 * pn < gs[k].vaddr + gs[k].memsz;
      }
      if k :| 0 <= k < |gs| && 4096 * pn < gs[k].vaddr + gs[k].memsz {
        assert k < n ==> 4096 * pn < gs[..n][k].vaddr + gs[..n][k].memsz;
      }
    }
  }

  lemma EndsBehind(x: nat, pn: nat)
    ensures 4096 * pn < Heap.AlignUp(x, 4096) <==> 4096 * pn < x
  {
    RoundLeast(x, 0, 4096 * pn);
  }

  lemma RoundBounds(x: nat)
    ensures PageDown(x) <= x <= Heap.AlignUp(x, 4096) && PageDown(x) % 4096 == 0 && Heap.AlignUp(x, 4096) % 4096 == 0
    ensures x + 4095 < 0x1_0000_0000 ==> Heap.AlignUp(x, 4096) <= 0x1_0000_0000 && PageDown(x) < 0xFFFF_FFFF
  {
  }

  method Span(gs: seq<Segment>) returns (base: nat, end: nat)
    ensures base == ImageBase(gs) && end == ImageEnd(gs)
  {
    base, end := 0xFFFF_FFFF, 0;
    var i := 0;
    while i < |gs|
      invariant 0 <= i <= |gs| && base == ImageBase(gs[..i]) && end == ImageEnd(gs[..i])
    {
      assert gs[..i + 1][..i] == gs[..i];
      var segBase, segEnd := PageDown(gs[i].vaddr), Heap.AlignUp(gs[i].vaddr + gs[i].memsz, 4096);
      if segBase < base { base := segBase; }
      if segEnd > end { end := segEnd; }
      i := i + 1;
    }
    assert gs[..i] == gs;
  }

  // ------------------------------------------------------------------------------------------
  // The image
  // ------------------------------------------------------------------------------------------

  /** Nothing about the mappings depends on what the pages hold. */
  lemma LaidKept(s: Space, u: Space, t: Space, d: nat, lo: nat, ps: seq<nat>)
    requires Inv(s) && Laid(s, u, d, lo, ps) && t == u.(ram := t.ram) && Overwrites(u.ram, t.ram, ps) && d in s.dirs
    ensures Laid(s, t, d, lo, ps)
  {
    forall f | f in ps ensures NewPlain(s, u, f) { var k :| 0 <= k < |ps| && ps[k] == f; }
    KeptDirs(u, t.ram);
    forall pn: nat | pn < PAGES ensures PageLeaf(t.ram, d, pn) == PageLeaf(u.ram, d, pn) { PageSlot(pn); }
    forall k | 0 <= k < |ps| ensures NewPlain(s, t, ps[k]) { assert NewPlain(s, u, ps[k]); }
  }

  /** Zeroed frames for the whole span, mapped one after the other. */
  method MapImage(p: Paging, d: nat, base: nat, n: nat) returns (ps: seq<nat>)
    requires p.Valid() && d in p.dirs && d != p.kernel && base % 4096 == 0 && base / 4096 + n <= PAGES
    modifies p
    ensures p.Valid() && |ps| == n && Laid(old(p.View()), p.View(), d, base / 4096, ps) && Blank(p.ram, ps)
  {
    ghost var s, lo := p.View(), base / 4096;
    ps := [];
    while |ps| < n
      invariant |ps| <= n && p.Valid() && Laid(s, p.View(), d, lo, ps) && Blank(p.ram, ps)
    {
      ghost var t := p.View();
      var page := p.AllocPage();
      ghost var u := p.View();
      PageVirtual(lo + |ps|);
      p.MapPage(d, base + |ps| * 4096, page * 4096, USER + WRITABLE);
      LaidStep(s, t, u, p.View(), d, lo, ps, page);
      ps := ps + [page];
    }
  }

  /** The image of `gs` in directory `d`; fails when the span is empty. */
  method BuildImage(p: Paging, d: nat, gs: seq<Segment>) returns (ok: bool, ps: seq<nat>)
    requires p.Valid() && d in p.dirs && d != p.kernel && AllSound(gs) && gs != []
    modifies p
    ensures p.Valid() && ok == (ImageBase(gs) < ImageEnd(gs)) && (!ok ==> p.View() == old(p.View()))
    ensures ok ==>
      && 4096 * |ps| == ImageEnd(gs) - ImageBase(gs)
      && Laid(old(p.View()), p.View(), d, ImageBase(gs) / 4096, ps) && Filled(p.ram, ps, ImageBase(gs) / 4096, gs)
  {
    ghost var s := p.View();
    var base, end := Span(gs);
    ok, ps := base < end, [];
    if !ok { return; }
    SpanEncloses(gs);
    ps := MapImage(p, d, base, (end - base) / 4096);
    ghost var u, lo := p.View(), base / 4096;
    CopySegments(p, base, ps, gs);
    LaidKept(s, u, p.View(), d, lo, ps);
  }

  /** Each segment in turn, so that later ones win. */
  method CopySegments(p: Paging, base: nat, ps: seq<nat>, gs: seq<Segment>)
    requires base % 4096 == 0 && AllSound(gs) && Distinct(ps) && Blank(p.ram, ps)
    requires forall k :: 0 <= k < |gs| ==> base <= gs[k].vaddr && gs[k].vaddr + gs[k].memsz <= base + 4096 * |ps|
    modifies p`ram
    ensures Filled(p.ram, ps, base / 4096, gs) && Overwrites(old(p.ram), p.ram, ps)
  {
    BlankFilled(p.ram, ps, base / 4096);
    var i := 0;
    while i < |gs|
      invariant 0 <= i <= |gs| && Filled(p.ram, ps, base / 4096, gs[..i]) && Overwrites(old(p.ram), p.ram, ps)
    {
      assert gs[..i + 1] == gs[..i] + [gs[i]];
      CopySegment(p, base, ps, gs[i], gs[..i]);
      i := i + 1;
    }
    assert gs[..i] == gs;
  }

  lemma BlankFilled(ram: Ram, ps: seq<nat>, lo: nat)
    requires Blank(ram, ps)
    ensures Filled(ram, ps, lo, [])
  {
    forall k | 0 <= k < |ps| ensures Holds(ram, ps[k], [], lo + k) { assert ps[k] in ps; }
  }

  /** Every byte of the span reads as the image function says. */
  lemma ImageSeen(s: Space, t: Space, d: nat, lo: nat, ps: seq<nat>, gs: seq<Segment>, v: nat)
    requires Laid(s, t, d, lo, ps) && Filled(t.ram, ps, lo, gs) && 4096 * lo <= v < 4096 * (lo + |ps|)
    ensures ByteAt(t.ram, d, v) == Seen(ImageByte(gs, v))
  {
    var k := v / 4096 - lo;
    assert PageLeaf(t.ram, d, lo + k) == Entry(ps[k], 7);
    assert Holds(t.ram, ps[k], gs, lo + k) && v == (lo + k) * 4096 + v % 4096;
  }

  // ------------------------------------------------------------------------------------------
  // The stack
  // ------------------------------------------------------------------------------------------

  /** Page `pn` holds some byte of the stack. */
  predicate StackPage(stack: nat, pn: nat) { stack / 4096 <= pn && pn * 4096 < stack + STACK_SIZE }

  /** The stack ends before the last page of the address space. */
  predicate StackFits(stack: nat) { stack + STACK_SIZE <= 0xFFFF_F000 }

  /** The mapping loop counts addresses in 32 bits. It enters with the end of the stack above its start,
      and steps past that end, if and only if the stack fits in this sense: otherwise the end, or the
      address after the last page, wraps around to zero. */
  lemma StackLoopExact(stack: nat)
    requires stack < WORD
    ensures var end := (stack + STACK_SIZE) % WORD;
      (stack < end && (PageDown(end - 1) + PAGE_SIZE) % WORD >= end) <==> StackFits(stack)
  {
    var end := (stack + STACK_SIZE) % WORD;
    if stack + STACK_SIZE >= WORD { assert end == stack + STACK_SIZE - WORD; }
  }

  /** A stack at the very end is not entered at all, and one that ends inside the last page is never left. */
  lemma StackLoopFails()
    ensures (0xFFFF_0000 + STACK_SIZE) % WORD == 0
    ensures var end := (0xFFFE_F800 + STACK_SIZE) % WORD;
      end == 0xFFFF_F800 && (PageDown(end - 1) + PAGE_SIZE) % WORD == 0
  {
  }

  /** The pages from the stack's first up to `hi` are mapped to themselves with the mark. */
  ghost predicate StackLaid(s: Space, t: Space, d: nat, lo: nat, n: nat) {
    && Inv(t) && t.dirs == s.dirs && t.kernel == s.kernel && PlainKept(s, t) && lo + n <= PAGES
    && (forall f :: f in t.tables && f in s.ram ==> f in s.tables) && s.ram.Keys <= t.ram.Keys
    && (forall pn: nat :: InSpan(pn, lo, n) ==> PageLeaf(t.ram, d, pn) == Entry(pn, 7))
    && Elsewhere(s, t, d, lo, n)
  }

  lemma StackStep(s: Space, t: Space, v: Space, d: nat, lo: nat, n: nat)
    requires StackLaid(s, t, d, lo, n) && d in s.dirs && d != s.kernel && lo + n < PAGES
    requires Mapped(t, v, d, (lo + n) / 1024, (lo + n) % 1024, Entry(lo + n, 7))
    ensures StackLaid(s, v, d, lo, n + 1)
  {
    hide Inv, Mapped, Leaf;
    PageSlot(lo + n);
    MappedExact(t, v, d, (lo + n) / 1024, (lo + n) % 1024, Entry(lo + n, 7));
    ElsewhereStep(s, t, t, v, d, lo, n);
    forall pn: nat | InSpan(pn, lo, n + 1) ensures PageLeaf(v.ram, d, pn) == Entry(pn, 7) {
      assert pn == lo + n || InSpan(pn, lo, n);
    }
  }

  lemma StackExtent(stack: nat, n: nat)
    requires stack + STACK_SIZE <= (stack / 4096 + n) * 4096 < stack + STACK_SIZE + 4096
    ensures forall pn: nat :: InSpan(pn, stack / 4096, n) <==> StackPage(stack, pn)
  {
  }

  method MapStackPage(p: Paging, d: nat, addr: nat, ghost s: Space, ghost lo: nat, ghost n: nat)
    requires p.Valid() && d in p.dirs && d != p.kernel && addr == (lo + n) * 4096 && lo + n < PAGES
    requires StackLaid(s, p.View(), d, lo, n)
    modifies p
    ensures p.Valid() && StackLaid(s, p.View(), d, lo, n + 1)
  {
    ghost var t := p.View();
    PageVirtual(lo + n);
    p.MapPage(d, addr, addr, USER + WRITABLE);
    StackStep(s, t, p.View(), d, lo, n);
  }

  /** The stack keeps its numeric address in the new directory. */
  method MapStack(p: Paging, d: nat, stack: nat) returns (ghost n: nat)
    requires p.Valid() && d in p.dirs && d != p.kernel && StackFits(stack)
    modifies p
    ensures p.Valid() && StackLaid(old(p.View()), p.View(), d, stack / 4096, n)
    ensures forall pn: nat :: InSpan(pn, stack / 4096, n) <==> StackPage(stack, pn)
  {
    ghost var s, lo := p.View(), stack / 4096;
    n := 0;
    var addr := stack - stack % 4096;
    while addr < (stack + STACK_SIZE) % WORD
      invariant addr == (lo + n) * 4096 && addr < stack + STACK_SIZE + 4096
      invariant p.Valid() && StackLaid(s, p.View(), d, lo, n)
      decreases stack + STACK_SIZE - addr
    {
      MapStackPage(p, d, addr, s, lo, n);
      addr := (addr + PAGE_SIZE) % WORD;
      n := n + 1;
    }
    StackExtent(stack, n);
  }

  // ------------------------------------------------------------------------------------------
  // Spawn and exec
  // ------------------------------------------------------------------------------------------

  predicate ImagePage(gs: seq<Segment>, pn: nat) { ImageBase(gs) <= 4096 * pn < ImageEnd(gs) }

  /** The whole address space of a program: its image, its stack, and everything else mapped to itself. */
  ghost predicate ImageSpace(ram: Ram, d: nat, gs: seq<Segment>, stack: nat) {
    && (forall v: nat :: ImageBase(gs) <= v < ImageEnd(gs) ==> ByteAt(ram, d, v) == Seen(ImageByte(gs, v)))
    && (forall pn: nat :: pn < PAGES && StackPage(stack, pn) ==> PageLeaf(ram, d, pn) == Entry(pn, 7))
    && (forall pn: nat :: pn < PAGES && !StackPage(stack, pn) && !ImagePage(gs, pn) ==>
         PageLeaf(ram, d, pn) == Entry(pn, 3))
  }

  /** The pages of the image are marked, and their frames hold no directory and no table. */
  ghost predicate ImageFrames(t: Space, d: nat, gs: seq<Segment>) {
    forall pn: nat :: ImagePage(gs, pn) ==> PageLeaf(t.ram, d, pn).flags == 7 && Plain(t, PageLeaf(t.ram, d, pn).frame)
  }

  /** The address space of a program in terms of its segments and its stack: at every address the stack
      mapped to itself with the mark, the image's byte, or the page's own frame without the mark. */
  ghost predicate ProgramSpace(t: Space, d: nat, gs: seq<Segment>, stack: nat) {
    forall v: nat :: v < WORD ==> ProgramByte(t, d, gs, stack, v)
  }

  ghost predicate ProgramByte(t: Space, d: nat, gs: seq<Segment>, stack: nat, v: nat) {
    var pn := v / 4096;
    var e := PageLeaf(t.ram, d, pn);
    if StackPage(stack, pn) then e == Entry(pn, 7)
    else if SpanPage(gs, pn) then e.flags == 7 && Plain(t, e.frame) && ByteAt(t.ram, d, v) == Seen(ImageByte(gs, v))
    else e == Entry(pn, 3)
  }

  lemma ProgramIs(t: Space, d: nat, gs: seq<Segment>, stack: nat)
    requires AllSound(gs) && gs != [] && ImageSpace(t.ram, d, gs, stack) && ImageFrames(t, d, gs)
    ensures ProgramSpace(t, d, gs, stack)
  {
    hide PageLeaf, ByteAt, ImageByte;
    SpanEncloses(gs);
    forall v: nat | v < WORD ensures ProgramByte(t, d, gs, stack, v) {
      SpanPageIs(gs, v / 4096);
      InSpanPage(ImageBase(gs), ImageEnd(gs), v);
    }
  }

  lemma InSpanPage(b: nat, e: nat, v: nat)
    requires b % 4096 == 0 && e % 4096 == 0
    ensures b <= 4096 * (v / 4096) < e <==> b <= v < e
  {
  }

  /** Nothing is built exactly when the segments have no page between them. */
  lemma EmptySpan(gs: seq<Segment>)
    requires AllSound(gs)
    ensures (gs == [] || ImageBase(gs) >= ImageEnd(gs)) <==> forall pn: nat :: !SpanPage(gs, pn)
  {
    if gs != [] {
      SpanEncloses(gs);
      SpanPageIs(gs, ImageBase(gs) / 4096);
      forall pn: nat ensures SpanPage(gs, pn) ==> ImageBase(gs) < ImageEnd(gs) { SpanPageIs(gs, pn); }
    }
  }

  /** The stack lies in memory that was handed out before. */
  ghost predicate StackReady(s: Space, stack: nat) { forall pn: nat :: StackPage(stack, pn) ==> Plain(s, pn) }

  /** No page of the span holds a byte of the stack. */
  ghost predicate StackClear(gs: seq<Segment>, stack: nat) {
    forall pn: nat :: ImagePage(gs, pn) ==> !StackPage(stack, pn)
  }

  lemma SpanPages(gs: seq<Segment>, v: nat)
    requires AllSound(gs) && gs != [] && ImageBase(gs) <= v < ImageEnd(gs)
    ensures ImagePage(gs, v / 4096) && v / 4096 < PAGES
  {
    SpanEncloses(gs);
  }

  /** The image is still seen after a step that keeps the directory's translations and the plain frames. */
  lemma ImageKept(s: Space, t: Space, d: nat, gs: seq<Segment>, stack: nat)
    requires AllSound(gs) && gs != [] && ImageSpace(s.ram, d, gs, stack) && ImageFrames(s, d, gs) && PlainKept(s, t)
    requires forall pn: nat :: pn < PAGES ==> PageLeaf(t.ram, d, pn) == PageLeaf(s.ram, d, pn)
    ensures ImageSpace(t.ram, d, gs, stack)
  {
    forall v: nat | ImageBase(gs) <= v < ImageEnd(gs) ensures ByteAt(t.ram, d, v) == Seen(ImageByte(gs, v)) {
      SpanPages(gs, v);
      assert ByteAt(s.ram, d, v) == Seen(ImageByte(gs, v));
      var f := PageLeaf(s.ram, d, v / 4096).frame;
      assert t.ram[f] == s.ram[f];
    }
  }

  /** The pages before the stack is mapped. */
  lemma ImageLaid(s: Space, t: Space, d: nat, ps: seq<nat>, gs: seq<Segment>)
    requires AllSound(gs) && gs != [] && Laid(s, t, d, ImageBase(gs) / 4096, ps)
      && Filled(t.ram, ps, ImageBase(gs) / 4096, gs)
    requires 4096 * |ps| == ImageEnd(gs) - ImageBase(gs)
    requires forall pn: nat :: pn < PAGES ==> PageLeaf(s.ram, d, pn) == Entry(pn, 3)
    ensures ImageFrames(t, d, gs)
    ensures forall v: nat :: ImageBase(gs) <= v < ImageEnd(gs) ==> ByteAt(t.ram, d, v) == Seen(ImageByte(gs, v))
    ensures forall pn: nat :: pn < PAGES && !ImagePage(gs, pn) ==> PageLeaf(t.ram, d, pn) == Entry(pn, 3)
  {
    SpanEncloses(gs);
    var lo := ImageBase(gs) / 4096;
    assert ImageBase(gs) == 4096 * lo && ImageEnd(gs) == 4096 * (lo + |ps|);
    forall pn: nat | ImagePage(gs, pn)
      ensures PageLeaf(t.ram, d, pn).flags == 7 && Plain(t, PageLeaf(t.ram, d, pn).frame)
    {
      assert PageLeaf(t.ram, d, lo + (pn - lo)) == Entry(ps[pn - lo], 7);
      assert NewPlain(s, t, ps[pn - lo]);
    }
    forall v: nat | ImageBase(gs) <= v < ImageEnd(gs) ensures ByteAt(t.ram, d, v) == Seen(ImageByte(gs, v)) {
      ImageSeen(s, t, d, lo, ps, gs, v);
    }
    forall pn: nat | pn < PAGES && !ImagePage(gs, pn) ensures PageLeaf(t.ram, d, pn) == Entry(pn, 3) {
      assert !InSpan(pn, lo, |ps|);
    }
  }

  lemma StackKept(s: Space, t: Space, d: nat, gs: seq<Segment>, stack: nat, n: nat)
    requires AllSound(gs) && gs != [] && ImageFrames(s, d, gs) && StackLaid(s, t, d, stack / 4096, n)
    requires StackClear(gs, stack)
    requires forall pn: nat :: InSpan(pn, stack / 4096, n) <==> StackPage(stack, pn)
    requires forall v: nat :: ImageBase(gs) <= v < ImageEnd(gs) ==> ByteAt(s.ram, d, v) == Seen(ImageByte(gs, v))
    requires forall pn: nat :: pn < PAGES && !ImagePage(gs, pn) ==> PageLeaf(s.ram, d, pn) == Entry(pn, 3)
    ensures ImageSpace(t.ram, d, gs, stack) && ImageFrames(t, d, gs)
  {
    SpanEncloses(gs);
    forall pn: nat | ImagePage(gs, pn)
      ensures PageLeaf(t.ram, d, pn) == PageLeaf(s.ram, d, pn)
      ensures var f := PageLeaf(t.ram, d, pn).frame; Plain(t, f) && t.ram[f] == s.ram[f]
    {
      assert !InSpan(pn, stack / 4096, n);
    }
    forall v: nat | ImageBase(gs) <= v < ImageEnd(gs) ensures ByteAt(t.ram, d, v) == Seen(ImageByte(gs, v)) {
      SpanPages(gs, v);
      assert ByteAt(s.ram, d, v) == Seen(ImageByte(gs, v));
    }
  }

  datatype Built = Failed | Built(dir: nat)

  /** The old directories translate as before and the old plain frames hold what they held. */
  ghost predicate Undisturbed(s: Space, t: Space) {
    SameLeaves(s.ram, t.ram, s.dirs) && PlainKept(s, t) && s.dirs <= t.dirs
    && forall f :: Plain(s, f) ==> f !in t.dirs && f !in t.tables
  }

  lemma UndisturbedTrans(s: Space, t: Space, u: Space)
    requires Undisturbed(s, t) && Undisturbed(t, u)
    ensures Undisturbed(s, u)
  {
    forall d, i, j | d in s.dirs && Slot(i, j) ensures Leaf(u.ram, d, i, j) == Leaf(s.ram, d, i, j) {
      assert Leaf(t.ram, d, i, j) == Leaf(s.ram, d, i, j);
    }
  }

  /** What a new directory looks like, and what building in it leaves alone. */
  lemma NewDirectory(s: Space, t: Space, d: nat)
    requires Inv(s) && Created(s, t, d)
    ensures d != t.kernel && Undisturbed(s, t)
    ensures forall pn: nat :: pn < PAGES ==> PageLeaf(t.ram, d, pn) == Entry(pn, 3)
  {
    CreatedInv(s, t, d);
    forall pn: nat | pn < PAGES ensures PageLeaf(t.ram, d, pn) == Entry(pn, 3) { PageSlot(pn); }
  }

  lemma BuiltApart(s: Space, t: Space, u: Space, v: Space, d: nat, lo: nat, ps: seq<nat>, slo: nat, n: nat)
    requires Inv(s) && Created(s, t, d) && Laid(t, u, d, lo, ps) && StackLaid(u, v, d, slo, n)
    ensures Undisturbed(s, v)
  {
    NewDirectory(s, t, d);
    forall d', i, j | d' in s.dirs && Slot(i, j) ensures Leaf(v.ram, d', i, j) == Leaf(s.ram, d', i, j) {
      assert d' != d && d' in t.dirs - {d} && d' in u.dirs - {d};
      assert Leaf(t.ram, d', i, j) == Leaf(s.ram, d', i, j);
      assert Leaf(u.ram, d', i, j) == Leaf(t.ram, d', i, j);
    }
    forall f | f in s.ram && f !in s.dirs && f !in s.tables ensures f in v.ram && v.ram[f] == s.ram[f] {
      assert t.ram[f] == s.ram[f] && f !in t.dirs && f !in t.tables;
      assert u.ram[f] == t.ram[f] && f !in u.dirs && f !in u.tables;
    }
  }

  // ------------------------------------------------------------------------------------------
  // Every directory stays fit to be cloned
  // ------------------------------------------------------------------------------------------

  /** Every directory can be cloned without losing or missing a page. */
  ghost predicate Orderly(s: Space) { Backed(s) && AllTransparent(s) }

  lemma IdentityOrderly(s: Space, d: nat)
    requires forall i, j :: Slot(i, j) ==> Leaf(s.ram, d, i, j) == Identity(i, j)
    ensures DirBacked(s, d) && Transparent(s.ram, d)
  {
  }

  lemma KeptOrderly(s: Space, t: Space, d: nat)
    requires DirBacked(s, d) && Transparent(s.ram, d) && PlainKept(s, t) && d in s.dirs
    requires forall f :: Plain(s, f) ==> f !in t.dirs && f !in t.tables
    requires forall i, j :: Slot(i, j) ==> Leaf(t.ram, d, i, j) == Leaf(s.ram, d, i, j)
    ensures DirBacked(t, d) && Transparent(t.ram, d)
  {
    hide Leaf;
  }

  lemma BuiltOrderly(t: Space, d: nat, gs: seq<Segment>, stack: nat)
    requires AllSound(gs) && gs != [] && ImageSpace(t.ram, d, gs, stack) && ImageFrames(t, d, gs)
      && StackReady(t, stack)
    ensures DirBacked(t, d) && Transparent(t.ram, d)
  {
    hide Leaf, ByteAt;
    forall i: nat, j: nat | Slot(i, j)
      ensures if Marked(t.ram, d, i, j) then Plain(t, Leaf(t.ram, d, i, j).frame)
              else Shares(Leaf(t.ram, d, i, j), Identity(i, j))
    {
      var pn := Own(i, j);
      assert pn < PAGES && pn / 1024 == i && pn % 1024 == j;
      assert Leaf(t.ram, d, i, j) == PageLeaf(t.ram, d, pn);
      if StackPage(stack, pn) {
        assert Plain(t, pn);
      } else if ImagePage(gs, pn) {
        assert Plain(t, PageLeaf(t.ram, d, pn).frame);
      }
    }
  }

  /** Old directories are as before, and the one new directory is fit. */
  lemma GrownOrderly(s: Space, t: Space, d: nat)
    requires Orderly(s) && Undisturbed(s, t) && t.dirs == s.dirs + {d} && DirBacked(t, d) && Transparent(t.ram, d)
    ensures Orderly(t)
  {
    hide Leaf, DirBacked, Transparent;
    forall d' | d' in t.dirs ensures DirBacked(t, d') && Transparent(t.ram, d') {
      if d' in s.dirs { KeptOrderly(s, t, d'); }
    }
  }

  lemma StackStays(s: Space, t: Space, stack: nat)
    requires StackReady(s, stack) && Undisturbed(s, t)
    ensures StackReady(t, stack)
  {
    forall pn: nat | StackPage(stack, pn) ensures Plain(t, pn) { assert Plain(s, pn); }
  }

  lemma FreedOrderly(s: Space, t: Space, d: nat)
    requires Inv(s) && d != s.kernel && Freed(s, t, d) && Orderly(s)
    ensures Orderly(t)
  {
    hide Leaf, Inv, DirBacked, Transparent;
    FreedExact(s, t, d);
    forall d' | d' in t.dirs ensures DirBacked(t, d') && Transparent(t.ram, d') {
      if d' == d { IdentityOrderly(t, d); } else { KeptOrderly(s, t, d'); }
    }
  }

  lemma ClonedOrderly(s: Space, t: Space, parent: nat, child: nat)
    requires Inv(s) && Inv(t) && Orderly(s) && Cloned(s, t, parent, child)
    ensures Orderly(t)
  {
    hide Leaf, Inv;
    ClonedOthers(s, t, parent, child);
    forall i, j | Slot(i, j)
      ensures if Marked(t.ram, child, i, j) then Plain(t, Leaf(t.ram, child, i, j).frame)
              else Shares(Leaf(t.ram, child, i, j), Identity(i, j))
    {
      assert PageCloned(s.ram, t.ram, parent, child, i, j);
    }
    GrownOrderly(s, t, child);
  }

  /** The part that spawn and exec have in common: a new directory with the image and the stack. */
  method BuildSpace(p: Paging, gs: seq<Segment>, stack: nat) returns (r: Built)
    requires p.Valid() && AllSound(gs) && gs != [] && StackFits(stack) && StackClear(gs, stack)
    requires StackReady(p.View(), stack)
    modifies p
    ensures p.Valid() && (r.Failed? <==> ImageBase(gs) >= ImageEnd(gs)) && Undisturbed(old(p.View()), p.View())
    ensures r.Built? ==>
      && r.dir in p.dirs && r.dir !in old(p.dirs) && ImageSpace(p.ram, r.dir, gs, stack)
      && ImageFrames(p.View(), r.dir, gs)
    ensures old(Orderly(p.View())) ==> Orderly(p.View())
  {
    hide Orderly;
    ghost var s := p.View();
    var d := p.CreateDirectory();
    ghost var t := p.View();
    NewDirectory(s, t, d);
    var ok, ps := BuildImage(p, d, gs);
    if !ok {
      if Orderly(s) { CreatedOrderly(s, t, d); }
      return Failed;
    }
    ghost var u := p.View();
    ImageLaid(t, u, d, ps, gs);
    ghost var n := MapStack(p, d, stack);
    StackKept(u, p.View(), d, gs, stack, n);
    BuiltApart(s, t, u, p.View(), d, ImageBase(gs) / 4096, ps, stack / 4096, n);
    StackStays(s, p.View(), stack);
    BuiltOrderly(p.View(), d, gs, stack);
    if Orderly(s) { GrownOrderly(s, p.View(), d); }
    return Built(d);
  }

  lemma CreatedOrderly(s: Space, t: Space, d: nat)
    requires Inv(s) && Created(s, t, d) && Orderly(s) && Undisturbed(s, t)
    ensures Orderly(t)
  {
    hide Leaf, Inv;
    CreatedInv(s, t, d);
    IdentityOrderly(t, d);
    GrownOrderly(s, t, d);
  }

  /** `create_user_task_from_segments`. */
  method Spawn(p: Paging, gs: seq<Segment>, stack: nat) returns (r: Built)
    requires p.Valid() && AllSound(gs) && StackFits(stack) && StackClear(gs, stack)
    requires StackReady(p.View(), stack)
    modifies p
    ensures p.Valid() && Undisturbed(old(p.View()), p.View())
    ensures r.Failed? <==> forall pn: nat :: !SpanPage(gs, pn)
    ensures r.Built? ==>
      && r.dir in p.dirs && r.dir !in old(p.dirs) && ImageSpace(p.ram, r.dir, gs, stack)
      && ImageFrames(p.View(), r.dir, gs) && ProgramSpace(p.View(), r.dir, gs, stack)
    ensures old(Orderly(p.View())) ==> Orderly(p.View())
  {
    hide SpanPage, ImageSpace, ImageFrames, Orderly, ProgramSpace;
    EmptySpan(gs);
    if gs == [] { return Failed; }
    r := BuildSpace(p, gs, stack);
    if r.Built? { ProgramIs(p.View(), r.dir, gs, stack); }
  }

  /** `scheduler_exec_replace`: a clone of the old directory is made and cleared, the new space is
      built, and the old directory is given up. */
  method Exec(p: Paging, cr3: nat, gs: seq<Segment>, stack: nat) returns (r: Built)
    requires p.Valid() && AllSound(gs) && StackFits(stack) && StackClear(gs, stack)
    requires cr3 in p.dirs && Held(p.ram, cr3) && StackReady(p.View(), stack)
    modifies p
    ensures p.Valid() && PlainKept(old(p.View()), p.View())
    ensures r.Failed? <==> forall pn: nat :: !SpanPage(gs, pn)
    ensures r.Failed? ==> Undisturbed(old(p.View()), p.View())
    ensures r.Built? ==>
      && r.dir in p.dirs && r.dir !in old(p.dirs) && ImageSpace(p.ram, r.dir, gs, stack)
      && ImageFrames(p.View(), r.dir, gs) && ProgramSpace(p.View(), r.dir, gs, stack)
      && SameLeaves(old(p.ram), p.ram, old(p.dirs) - {cr3})
      && forall i, j :: Slot(i, j) ==> Leaf(p.ram, cr3, i, j) == Identity(i, j)
    ensures old(Orderly(p.View())) ==> Orderly(p.View())
  {
    hide Orderly, Inv, ImageSpace, ImageFrames, SpanPage, ProgramSpace;
    EmptySpan(gs);
    if gs == [] { return Failed; }
    ghost var s := p.View();
    CloneAndClear(p, cr3);
    ghost var t := p.View();
    StackStays(s, t, stack);
    r := BuildSpace(p, gs, stack);
    UndisturbedTrans(s, t, p.View());
    if r.Failed? { return; }
    ghost var u := p.View();
    p.FreeDirectory(cr3);
    GivenUp(s, u, p.View(), cr3, r.dir, gs, stack);
    ProgramIs(p.View(), r.dir, gs, stack);
    if Orderly(u) && cr3 != p.kernel { FreedOrderly(u, p.View(), cr3); }
  }

  /** The address space of a forked task. */
  method ForkSpace(p: Paging, parent: nat) returns (child: nat)
    requires p.Valid() && parent in p.dirs && Orderly(p.View())
    modifies p
    ensures p.Valid() && Orderly(p.View()) && Undisturbed(old(p.View()), p.View())
    ensures child in p.dirs && child !in old(p.dirs) && Cloned(old(p.View()), p.View(), parent, child)
    ensures forall i, j :: Slot(i, j) ==> Read(p.ram, child, i, j) == Read(p.ram, parent, i, j)
  {
    ghost var s := p.View();
    OrderlyHeld(s, parent);
    child := p.CloneDirectory(parent);
    ClonedOrderly(s, p.View(), parent, child);
    ClonedOthers(s, p.View(), parent, child);
    forall i, j | Slot(i, j) ensures Read(p.ram, child, i, j) == Read(p.ram, parent, i, j) {
      ForkReadsSame(s, p.View(), parent, child, i, j);
    }
  }

  lemma OrderlyHeld(s: Space, d: nat)
    requires Orderly(s) && d in s.dirs
    ensures Held(s.ram, d) && Transparent(s.ram, d)
  {
    assert DirBacked(s, d);
  }

  /** A forked program sees the same image: wherever the directory came from, spawn or exec. */
  method ForkProgram(p: Paging, dir: nat, gs: seq<Segment>, stack: nat) returns (child: nat)
    requires p.Valid() && dir in p.dirs && Orderly(p.View()) && AllSound(gs) && gs != []
    requires ImageSpace(p.ram, dir, gs, stack) && ImageFrames(p.View(), dir, gs)
    modifies p
    ensures p.Valid() && Orderly(p.View()) && ImageSpace(p.ram, dir, gs, stack) && child !in old(p.dirs)
    ensures forall v: nat :: v < 0x1_0000_0000 ==> ByteAt(p.ram, child, v) == ByteAt(p.ram, dir, v)
    ensures forall v: nat :: ImageBase(gs) <= v < ImageEnd(gs) ==> ByteAt(p.ram, child, v) == Seen(ImageByte(gs, v))
  {
    hide Orderly, Inv, Cloned, Leaf, ByteAt;
    ghost var s := p.View();
    child := ForkSpace(p, dir);
    forall pn: nat | pn < PAGES ensures PageLeaf(p.ram, dir, pn) == PageLeaf(s.ram, dir, pn) { PageSlot(pn); }
    ImageKept(s, p.View(), dir, gs, stack);
    forall v: nat | v < 0x1_0000_0000 ensures ByteAt(p.ram, child, v) == ByteAt(p.ram, dir, v) {
      SameByte(p.ram, child, dir, v);
    }
    forall v: nat | ImageBase(gs) <= v < ImageEnd(gs) ensures ByteAt(p.ram, child, v) == Seen(ImageByte(gs, v)) {
      SpanPages(gs, v);
      assert ByteAt(p.ram, child, v) == ByteAt(p.ram, dir, v);
    }
  }

  lemma SameByte(ram: Ram, d: nat, d': nat, v: nat)
    requires v < 0x1_0000_0000 && forall i, j :: Slot(i, j) ==> Read(ram, d, i, j) == Read(ram, d', i, j)
    ensures ByteAt(ram, d, v) == ByteAt(ram, d', v)
  {
    PageSlot(v / 4096);
    assert Read(ram, d, v / 4096 / 1024, v / 4096 % 1024) == Read(ram, d', v / 4096 / 1024, v / 4096 % 1024);
  }

  // ------------------------------------------------------------------------------------------
  // What stays shared after fork
  // ------------------------------------------------------------------------------------------

  /** After the fork of a program, parent and child see the same frame at an address if and only if its
      page belongs neither to the image nor to the stack. */
  lemma ForkShares(s: Space, t: Space, parent: nat, child: nat, gs: seq<Segment>, stack: nat, pn: nat)
    requires Inv(s) && Orderly(s) && Cloned(s, t, parent, child) && pn < PAGES
    requires ImageSpace(s.ram, parent, gs, stack) && ImageFrames(s, parent, gs)
    ensures Marked(s.ram, parent, pn / 1024, pn % 1024) <==> StackPage(stack, pn) || ImagePage(gs, pn)
    ensures Shares(PageLeaf(t.ram, parent, pn), PageLeaf(t.ram, child, pn)) <==>
      !StackPage(stack, pn) && !ImagePage(gs, pn)
    ensures !StackPage(stack, pn) && !ImagePage(gs, pn) ==>
      PageLeaf(t.ram, parent, pn) == PageLeaf(t.ram, child, pn) == Entry(pn, 3)
  {
    hide Leaf, Inv, ByteAt, Cloned, ImageSpace, ImageFrames, DirBacked;
    PageSlot(pn);
    var i, j := pn / 1024, pn % 1024;
    CloneParent(s, t, parent, child, i, j);
    ProgramPage(s, parent, gs, stack, pn);
    ClonedPage(s, t, parent, child, i, j);
    assert Leaf(s.ram, parent, i, j) == PageLeaf(s.ram, parent, pn);
  }

  lemma ProgramPage(s: Space, d: nat, gs: seq<Segment>, stack: nat, pn: nat)
    requires ImageSpace(s.ram, d, gs, stack) && ImageFrames(s, d, gs) && pn < PAGES
    ensures var e := PageLeaf(s.ram, d, pn);
      if StackPage(stack, pn) || ImagePage(gs, pn) then e.Present() && e.User() else e == Entry(pn, 3)
  {
    hide ByteAt, PageLeaf;
  }

  lemma ClonedPage(s: Space, t: Space, parent: nat, child: nat, i: nat, j: nat)
    requires Orderly(s) && Cloned(s, t, parent, child) && Slot(i, j)
    ensures var p, c := Leaf(s.ram, parent, i, j), Leaf(t.ram, child, i, j);
      if Marked(s.ram, parent, i, j) then p.frame != c.frame && c.Present() else c == Identity(i, j)
  {
    hide Leaf;
    assert PageCloned(s.ram, t.ram, parent, child, i, j);
    assert DirBacked(s, parent);
  }

  /** So a store by the child shows at the same address of the parent exactly there. */
  lemma ForkedStore(s: Space, t: Space, parent: nat, child: nat, gs: seq<Segment>, stack: nat, pn: nat, x: Frame)
    requires Inv(s) && Orderly(s) && Cloned(s, t, parent, child) && pn < PAGES
    requires ImageSpace(s.ram, parent, gs, stack) && ImageFrames(s, parent, gs)
    ensures Stored(t.ram, parent, PageLeaf(t.ram, child, pn).frame, x, pn / 1024, pn % 1024) ==
      if StackPage(stack, pn) || ImagePage(gs, pn) then Read(t.ram, parent, pn / 1024, pn % 1024) else Reads(x)
  {
    hide Leaf, Inv, ByteAt, Cloned, ImageSpace, ImageFrames;
    PageSlot(pn);
    ForkShares(s, t, parent, child, gs, stack, pn);
    if StackPage(stack, pn) || ImagePage(gs, pn) {
      CloneOf(s, t, parent, child);
      OrderlyHeld(s, parent);
      ChildWriteHidden(s, t, parent, child, pn / 1024, pn % 1024, pn / 1024, pn % 1024, x);
    }
  }

  lemma CloneOf(s: Space, t: Space, parent: nat, child: nat)
    requires Cloned(s, t, parent, child)
    ensures parent in s.dirs
  {
  }

  /** Address `a` outside the stack lies on the first or the last page of the stack. */
  predicate BesideStack(stack: nat, a: nat) {
    PageDown(stack) <= a < stack || stack + STACK_SIZE <= a < Heap.AlignUp(stack + STACK_SIZE, 4096)
  }

  lemma StackEdges(stack: nat, a: nat)
    requires a < stack || stack + STACK_SIZE <= a
    ensures StackPage(stack, a / 4096) <==> BesideStack(stack, a)
  {
  }

  /** The kernel heap is shared between parent and child, except for the bytes beside the stack: a byte of
      another block, or of the header of the stack's own block, leads to the same frame on both sides if
      and only if it does not lie on the first or the last page of the stack. */
  lemma HeapShared(s: Space, t: Space, parent: nat, child: nat, gs: seq<Segment>, stack: nat,
                   l: Heap.Layout, i: nat, j: nat, a: nat)
    requires Inv(s) && Orderly(s) && Cloned(s, t, parent, child)
    requires ImageSpace(s.ram, parent, gs, stack) && ImageFrames(s, parent, gs)
    requires Heap.Partition(l) && i < |l.blocks| && j < |l.blocks|
    requires l.blocks[i].Payload() == stack && STACK_SIZE <= l.blocks[i].size
    requires l.blocks[j].addr <= a < l.blocks[j].End() && a < WORD && !ImagePage(gs, a / 4096)
    requires i == j ==> a < stack
    ensures Shares(PageLeaf(t.ram, parent, a / 4096), PageLeaf(t.ram, child, a / 4096)) <==> !BesideStack(stack, a)
  {
    hide Leaf, Inv, ByteAt, Cloned, ImageSpace, ImageFrames;
    if i < j {
      Heap.Disjoint(l.blocks, l.base, l.bump, i, j);
    } else if j < i {
      Heap.Disjoint(l.blocks, l.base, l.bump, j, i);
    }
    StackEdges(stack, a);
    ForkShares(s, t, parent, child, gs, stack, a / 4096);
  }

  /** A stack whose block starts at a page boundary shares that page with its own block header. */
  lemma HeaderBesideStack(page: nat, a: nat)
    requires page % 4096 == 0 && page <= a < page + Heap.HDR
    ensures BesideStack(page + Heap.HDR, a)
  {
  }

  /** A program is spawned, replaces its image and forks: the child runs the replacement. */
  method SpawnExecFork(p: Paging, gs: seq<Segment>, stack: nat, gs': seq<Segment>) returns (child: Built)
    requires p.Valid() && Orderly(p.View()) && AllSound(gs) && AllSound(gs') && StackFits(stack)
    requires StackReady(p.View(), stack) && StackClear(gs, stack) && StackClear(gs', stack)
    modifies p
    ensures p.Valid() && Orderly(p.View())
    ensures child.Built? ==>
      forall v: nat :: ImageBase(gs') <= v < ImageEnd(gs') ==> ByteAt(p.ram, child.dir, v) == Seen(ImageByte(gs', v))
  {
    hide Orderly, Inv, ImageSpace, ByteAt;
    ghost var s := p.View();
    var first := Spawn(p, gs, stack);
    if first.Failed? { return Failed; }
    StackStays(s, p.View(), stack);
    OrderlyHeld(p.View(), first.dir);
    var second := Exec(p, first.dir, gs', stack);
    if second.Failed? { return Failed; }
    var d := ForkProgram(p, second.dir, gs', stack);
    return Built(d);
  }

  /** The temporary clone of `scheduler_exec_replace`. */
  method CloneAndClear(p: Paging, cr3: nat)
    requires p.Valid() && cr3 in p.dirs && Held(p.ram, cr3)
    modifies p
    ensures p.Valid() && Undisturbed(old(p.View()), p.View())
    ensures old(Orderly(p.View())) ==> Orderly(p.View())
  {
    ghost var s := p.View();
    var tmp := p.CloneDirectory(cr3);
    ghost var t := p.View();
    p.FreeDirectory(tmp);
    ClearedClone(s, t, p.View(), cr3, tmp);
    if Orderly(s) {
      ClonedOrderly(s, t, cr3, tmp);
      FreedOrderly(t, p.View(), tmp);
    }
  }

  lemma ClearedClone(s: Space, t: Space, u: Space, parent: nat, child: nat)
    requires Inv(s) && Inv(t) && Cloned(s, t, parent, child) && t.kernel != child && Freed(t, u, child)
    ensures Undisturbed(s, u)
  {
    hide Inv, Cloned, Leaf;
    FreedExact(t, u, child);
    ClonedOthers(s, t, parent, child);
    forall d, i, j | d in s.dirs && Slot(i, j) ensures Leaf(u.ram, d, i, j) == Leaf(s.ram, d, i, j) {
      assert Leaf(t.ram, d, i, j) == Leaf(s.ram, d, i, j);
      assert d in t.dirs - {child};
    }
  }

  lemma ClonedOthers(s: Space, t: Space, parent: nat, child: nat)
    requires Inv(s) && Inv(t) && Cloned(s, t, parent, child)
    ensures Undisturbed(s, t) && child !in s.dirs
  {
    forall d, i, j | d in s.dirs && Slot(i, j) ensures Leaf(t.ram, d, i, j) == Leaf(s.ram, d, i, j) {
      assert SlotOk(s.ram, s.tables, s.ram[d].entries[i], i);
    }
  }

  lemma GivenUp(s: Space, u: Space, v: Space, cr3: nat, d: nat, gs: seq<Segment>, stack: nat)
    requires Inv(s) && Inv(u) && Undisturbed(s, u) && cr3 in s.dirs && s.kernel == u.kernel
    requires AllSound(gs) && gs != [] && ImageSpace(u.ram, d, gs, stack) && ImageFrames(u, d, gs)
    requires d in u.dirs && d !in s.dirs
    requires if cr3 == u.kernel then v == u else Freed(u, v, cr3)
    ensures ImageSpace(v.ram, d, gs, stack) && PlainKept(s, v) && SameLeaves(s.ram, v.ram, s.dirs - {cr3})
    ensures ImageFrames(v, d, gs)
    ensures forall i, j :: Slot(i, j) ==> Leaf(v.ram, cr3, i, j) == Identity(i, j)
  {
    if cr3 == u.kernel {
      forall i, j | Slot(i, j) ensures Leaf(v.ram, cr3, i, j) == Identity(i, j) {
        LargeLeaf(i, j);
        UnsplitLeaf(u, cr3, i, j);
      }
    } else {
      FreedExact(u, v, cr3);
      forall pn: nat | pn < PAGES ensures PageLeaf(v.ram, d, pn) == PageLeaf(u.ram, d, pn) { PageSlot(pn); }
      ImageKept(u, v, d, gs, stack);
      forall d', i, j | d' in s.dirs - {cr3} && Slot(i, j) ensures Leaf(v.ram, d', i, j) == Leaf(s.ram, d', i, j) {
        assert Leaf(u.ram, d', i, j) == Leaf(s.ram, d', i, j) && d' in u.dirs - {cr3};
      }
    }
  }

  /** Two directories built from the same segments show the same byte at every address of the image,
      and elsewhere lead to the same frame whenever their stacks do not reach the page. */
  lemma BuildersAgree(a: Ram, d: nat, b: Ram, d': nat, gs: seq<Segment>, stack: nat, stack': nat)
    requires ImageSpace(a, d, gs, stack) && ImageSpace(b, d', gs, stack')
    ensures forall v: nat :: ImageBase(gs) <= v < ImageEnd(gs) ==> ByteAt(a, d, v) == ByteAt(b, d', v) != Nothing
    ensures forall pn: nat :: pn < PAGES && !ImagePage(gs, pn) ==>
      && PageLeaf(a, d, pn).frame == PageLeaf(b, d', pn).frame == pn
      && (PageLeaf(a, d, pn) == PageLeaf(b, d', pn) <==> StackPage(stack, pn) == StackPage(stack', pn))
  {
    forall v: nat | ImageBase(gs) <= v < ImageEnd(gs) ensures ByteAt(a, d, v) == ByteAt(b, d', v) != Nothing {
      assert ByteAt(a, d, v) == Seen(ImageByte(gs, v));
    }
  }
}
