/** Reading files from a FAT16 partition as stage2/fat16.c does: whole sectors, two-byte table entries
    and cluster chains, against the file as one flat sequence of bytes. */
module Fat16Files {
  import opened Bytes

  const SECTOR_SIZE := 512
  const END_OF_CHAIN := 0xFFF8
  const MAX_OPEN_FILES := 8
  const WORD := 0x1_0000_0000

  type Sector = s: seq<Byte> | |s| == SECTOR_SIZE witness seq(SECTOR_SIZE, _ => 0)

  /** The fields of the boot parameter block that the layout depends on. */
  datatype Bpb = Bpb(bytsPerSec: nat, secPerClus: nat, rsvdSecCnt: nat, numFATs: nat, fatSz16: nat, rootEntCnt: nat)

  /** The disk, the byte at which the partition starts, and its parameter block. */
  datatype Volume = Volume(disk: seq<Sector>, part: nat, bpb: Bpb)

  function FatAddr(b: Bpb): nat { b.rsvdSecCnt * b.bytsPerSec }

  function RootAddr(b: Bpb): nat { FatAddr(b) + b.numFATs * b.fatSz16 * b.bytsPerSec }

  function DataAddr(b: Bpb): nat { RootAddr(b) + b.rootEntCnt * 32 }

  function ClusterSize(v: Volume): nat { v.bpb.bytsPerSec * v.bpb.secPerClus }

  /** `cluster_offset`, in 32 bits like all the addresses that the code computes. */
  function ClusterOffset(v: Volume, c: nat): nat {
    if c < 2 then 0 else (v.part % WORD + DataAddr(v.bpb) + (c - 2) * ClusterSize(v)) % WORD
  }

  predicate OnDisk(disk: seq<Sector>, off: nat, len: nat) { off + len <= |disk| * SECTOR_SIZE }

  function ByteAt(disk: seq<Sector>, a: nat): Byte {
    if a / SECTOR_SIZE < |disk| then disk[a / SECTOR_SIZE][a % SECTOR_SIZE] else 0
  }

  function BytesAt(disk: seq<Sector>, off: nat, n: nat): (d: seq<Byte>)
    ensures |d| == n && forall k :: 0 <= k < n ==> d[k] == ByteAt(disk, off + k)
  {
    seq<Byte>(n, k requires 0 <= k < n => ByteAt(disk, off + k))
  }

  /** How many sectors a range of bytes touches; the disk command takes at most 255. */
  function SectorsOf(off: nat, len: nat): nat
    requires len > 0
  {
    (off + len - 1) / SECTOR_SIZE - off / SECTOR_SIZE + 1
  }

  predicate Readable(disk: seq<Sector>, off: nat, len: nat) {
    off < WORD && len > 0 && OnDisk(disk, off, len) && SectorsOf(off, len) <= 255
  }

  // ------------------------------------------------------------------------------------------
  // Sectors and bytes
  // ------------------------------------------------------------------------------------------

  /** `ata_lba_read`, with the sector count passed in one byte. */
  method AtaLbaRead(disk: seq<Sector>, lba: nat, count: nat) returns (buf: seq<Byte>)
    requires count < 256 && lba + count <= |disk|
    ensures |buf| == count * SECTOR_SIZE
    ensures forall k :: 0 <= k < |buf| ==> buf[k] == ByteAt(disk, lba * SECTOR_SIZE + k)
  {
    buf := [];
    var s := 0;
    while s < count
      invariant 0 <= s <= count && |buf| == s * SECTOR_SIZE
      invariant forall k :: 0 <= k < |buf| ==> buf[k] == ByteAt(disk, lba * SECTOR_SIZE + k)
    {
      var sector := disk[lba + s];
      forall k | 0 <= k < SECTOR_SIZE ensures sector[k] == ByteAt(disk, lba * SECTOR_SIZE + (s * SECTOR_SIZE + k)) {
        InSector(lba + s, k);
      }
      buf := buf + sector;
      s := s + 1;
    }
  }

  lemma InSector(lba: nat, k: nat)
    requires k < SECTOR_SIZE
    ensures (lba * SECTOR_SIZE + k) / SECTOR_SIZE == lba && (lba * SECTOR_SIZE + k) % SECTOR_SIZE == k
  {
  }

  /** `read_bytes` returns exactly the requested bytes, however they lie across sectors. */
  method ReadBytes(disk: seq<Sector>, off: nat, len: nat) returns (buf: seq<Byte>)
    requires Readable(disk, off, len)
    ensures buf == BytesAt(disk, off, len)
  {
    var first, last := off / SECTOR_SIZE, (off + len - 1) % WORD / SECTOR_SIZE;
    SectorCount(off, len);
    var tmp := AtaLbaRead(disk, first, (last - first + 1) % WORD % 256);
    buf := tmp[off % SECTOR_SIZE..off % SECTOR_SIZE + len];
    assert first * SECTOR_SIZE + off % SECTOR_SIZE == off;
    forall k | 0 <= k < len ensures buf[k] == ByteAt(disk, off + k) {
      assert buf[k] == tmp[off % SECTOR_SIZE + k];
    }
  }

  /** The number of sectors comes out right also when the range ends beyond 4 GiB: a wrapped end is off by
      a multiple of 256 sectors, and the disk command takes the count in one byte. */
  lemma SectorCount(off: nat, len: nat)
    requires off < WORD && len > 0 && SectorsOf(off, len) <= 255
    ensures ((off + len - 1) % WORD / SECTOR_SIZE - off / SECTOR_SIZE + 1) % WORD % 256 == SectorsOf(off, len)
  {
    var e := off + len - 1;
    var first, last := off / SECTOR_SIZE, e / SECTOR_SIZE;
    assert last - first + 1 == SectorsOf(off, len);
    if e >= WORD {
      assert e < 2 * WORD;
      assert e % WORD == e - WORD && (e - WORD) / SECTOR_SIZE == last - 0x80_0000;
      assert (last - 0x80_0000 - first + 1) % WORD == last - 0x80_0000 - first + 1 + WORD;
      assert last - 0x80_0000 - first + 1 + WORD == 256 * 0xFF_8000 + (last - first + 1);
    }
  }

  // ------------------------------------------------------------------------------------------
  // Cluster chains
  // ------------------------------------------------------------------------------------------

  function FatEntryAddr(v: Volume, c: nat): nat { (v.part % WORD + FatAddr(v.bpb) + c * 2) % WORD }

  /** The table entry of a cluster, low byte first. */
  function NextOf(v: Volume, c: nat): nat {
    ByteAt(v.disk, FatEntryAddr(v, c)) + 256 * ByteAt(v.disk, FatEntryAddr(v, c) + 1)
  }

  /** A cluster whose contents and table entry are on the disk. */
  predicate GoodCluster(v: Volume, c: nat) {
    && 2 <= c < END_OF_CHAIN && Readable(v.disk, FatEntryAddr(v, c), 2)
    && Readable(v.disk, ClusterOffset(v, c), ClusterSize(v))
  }

  /** The whole chain from `start` up to the end mark. */
  predicate Chain(v: Volume, start: nat, cs: seq<nat>) {
    && cs != [] && cs[0] == start && ClusterSize(v) > 0
    && (forall i :: 0 <= i < |cs| ==> GoodCluster(v, cs[i]))
    && (forall i :: 0 <= i < |cs| - 1 ==> NextOf(v, cs[i]) == cs[i + 1])
    && NextOf(v, cs[|cs| - 1]) >= END_OF_CHAIN
  }

  /** `get_next_cluster`. */
  method GetNextCluster(v: Volume, c: nat) returns (next: nat)
    requires GoodCluster(v, c)
    ensures next == NextOf(v, c)
  {
    var b := ReadBytes(v.disk, FatEntryAddr(v, c), 2);
    next := b[0] as int + 256 * b[1] as int;
  }

  /** The bytes of one cluster. */
  function Cluster(v: Volume, c: nat): (d: seq<Byte>)
    ensures |d| == ClusterSize(v)
  {
    BytesAt(v.disk, ClusterOffset(v, c), ClusterSize(v))
  }

  /** The clusters of a chain laid end to end; a file is the first bytes of that. */
  function Whole(v: Volume, cs: seq<nat>): seq<Byte> {
    if cs == [] then [] else Cluster(v, cs[0]) + Whole(v, cs[1..])
  }

  /** What is left of the chain from offset `from` of its `i`th cluster on. */
  function Rest(v: Volume, cs: seq<nat>, i: nat, from: nat): seq<Byte>
    requires i <= |cs| && from <= ClusterSize(v)
  {
    if i == |cs| then [] else Cluster(v, cs[i])[from..] + Whole(v, cs[i + 1..])
  }

  lemma {:induction false} WholeLength(v: Volume, cs: seq<nat>)
    ensures |Whole(v, cs)| == |cs| * ClusterSize(v)
  {
    if cs != [] {
      WholeLength(v, cs[1..]);
      assert |cs| * ClusterSize(v) == ClusterSize(v) + (|cs| - 1) * ClusterSize(v);
    }
  }

  /** The walk over whole clusters ends where the offset says. */
  lemma {:induction false} RestIs(v: Volume, cs: seq<nat>, i: nat, from: nat)
    requires i < |cs| && from < ClusterSize(v)
    ensures i * ClusterSize(v) + from < |Whole(v, cs)|
    ensures Rest(v, cs, i, from) == Whole(v, cs)[i * ClusterSize(v) + from..]
  {
    hide Cluster, ClusterSize;
    var n := ClusterSize(v);
    if i == 0 {
      assert 0 * n + from == from;
      assert Whole(v, cs)[from..] == Cluster(v, cs[0])[from..] + Whole(v, cs[1..]);
    } else {
      RestIs(v, cs[1..], i - 1, from);
      assert cs[i + 1..] == cs[1..][i..];
      OneFurther(i, n, from);
      DropBoth(Cluster(v, cs[0]), Whole(v, cs[1..]), (i - 1) * n + from);
    }
  }

  lemma OneFurther(i: nat, n: nat, from: nat)
    requires i > 0
    ensures i * n + from == n + ((i - 1) * n + from)
  {
  }

  lemma DropBoth(a: seq<Byte>, b: seq<Byte>, k: nat)
    requires k <= |b|
    ensures (a + b)[|a| + k..] == b[k..]
  {
  }

  method ReadCluster(v: Volume, c: nat) returns (tmp: seq<Byte>)
    requires GoodCluster(v, c)
    ensures tmp == Cluster(v, c)
  {
    tmp := ReadBytes(v.disk, ClusterOffset(v, c), ClusterSize(v));
  }

  // ------------------------------------------------------------------------------------------
  // Reading
  // ------------------------------------------------------------------------------------------

  /** One entry of the table of open files. */
  datatype File = File(used: bool, start: nat, size: nat, offset: nat)

  /** The file as one sequence: as much of its chain as its size says. */
  function Flat(v: Volume, f: File, cs: seq<nat>): seq<Byte> { Take(Whole(v, cs), f.size) }

  lemma NextInChain(v: Volume, start: nat, cs: seq<nat>, i: nat)
    requires Chain(v, start, cs) && i < |cs|
    ensures GoodCluster(v, cs[i]) && 2 <= cs[i] < END_OF_CHAIN && ClusterSize(v) > 0
    ensures if i + 1 < |cs| then NextOf(v, cs[i]) == cs[i + 1] && cs[i + 1] < END_OF_CHAIN
            else NextOf(v, cs[i]) >= END_OF_CHAIN
  {
    if i + 1 < |cs| { assert GoodCluster(v, cs[i + 1]); }
  }

  /** The walk to the cluster that holds the current offset. */
  method SkipClusters(v: Volume, start: nat, n: nat, ghost cs: seq<nat>) returns (ok: bool, c: nat)
    requires Chain(v, start, cs)
    ensures ok == (n < |cs|) && (ok ==> c == cs[n])
  {
    c := start;
    var i := 0;
    while i < n
      invariant 0 <= i <= n && i < |cs| && c == cs[i]
    {
      NextInChain(v, start, cs, i);
      c := GetNextCluster(v, c);
      if c >= END_OF_CHAIN { return false, c; }
      i := i + 1;
    }
    return true, c;
  }

  lemma Piece(v: Volume, cs: seq<nat>, i: nat, from: nat, n: nat)
    requires i < |cs| && from + n <= ClusterSize(v)
    ensures var d := Cluster(v, cs[i]);
      && d[from..from + n] <= Rest(v, cs, i, from)
      && (from + n == ClusterSize(v) ==> Rest(v, cs, i, from) == d[from..from + n] + Rest(v, cs, i + 1, 0))
  {
    if i + 1 < |cs| { assert cs[i + 1..][0] == cs[i + 1] && cs[i + 1..][1..] == cs[i + 2..]; }
  }

  /** The copy loop: `want` bytes from offset `from` of cluster `ci` of the chain, or up to its end. */
  method CopyChain(v: Volume, c: nat, from: nat, want: nat, ghost ci: nat, ghost start: nat, ghost cs: seq<nat>)
    returns (buf: seq<Byte>)
    requires Chain(v, start, cs) && ci < |cs| && c == cs[ci] && from < ClusterSize(v)
    ensures buf == Take(Rest(v, cs, ci, from), want)
  {
    hide Chain, GoodCluster, Rest, Cluster, ClusterSize, NextOf, Whole, BytesAt;
    ghost var w := Rest(v, cs, ci, from);
    var cluster: nat, at: nat, left: nat := c, from, want;
    ghost var i: nat := ci;
    buf := [];
    NextInChain(v, start, cs, ci);
    while left > 0 && cluster < END_OF_CHAIN
      invariant |buf| + left == want && buf <= w && i <= |cs| && at < ClusterSize(v)
      invariant left > 0 ==> buf + Rest(v, cs, i, at) == w
      invariant left > 0 ==> if i < |cs| then cluster == cs[i] < END_OF_CHAIN else cluster >= END_OF_CHAIN
      decreases left
    {
      NextInChain(v, start, cs, i);
      var tmp := ReadCluster(v, cluster);
      var copy := if ClusterSize(v) - at > left then left else ClusterSize(v) - at;
      Piece(v, cs, i, at, copy);
      ghost var done := buf;
      buf := buf + tmp[at..at + copy];
      left := left - copy;
      Appended(done, tmp[at..at + copy], Rest(v, cs, i, at), w);
      if left > 0 {
        assert buf + Rest(v, cs, i + 1, 0) == done + Rest(v, cs, i, at);
        cluster := GetNextCluster(v, cluster);
        i := i + 1;
      }
      at := 0;
    }
    if left > 0 { RestEnd(v, cs, i, at); }
  }

  lemma RestEnd(v: Volume, cs: seq<nat>, i: nat, from: nat)
    requires i == |cs| && from <= ClusterSize(v)
    ensures Rest(v, cs, i, from) == []
  {
  }

  lemma Appended(done: seq<Byte>, piece: seq<Byte>, rest: seq<Byte>, w: seq<Byte>)
    requires done + rest == w && piece <= rest
    ensures done + piece <= w
  {
  }

  /** What a read does to a slot, given the flat file and how far the chain reaches. */
  datatype Outcome = Outcome(r: int, data: seq<Byte>)

  /** `fat16_read` in terms of the whole chain: the flat file's bytes from the offset on. */
  function ReadSpec(f: File, whole: seq<Byte>, want: nat): Outcome {
    if !f.used then Outcome(-1, [])
    else if want == 0 || f.offset >= f.size then Outcome(0, [])
    else if f.offset >= |whole| then Outcome(-1, [])
    else
      var d := Take(Take(whole, f.size)[f.offset..], want);
      Outcome(|d|, d)
  }

  class OpenFiles {
    const v: Volume
    var files: seq<File>

    predicate Valid()
      reads this
    {
      |files| == MAX_OPEN_FILES
    }

    constructor (v: Volume)
      ensures Valid() && this.v == v && forall i :: 0 <= i < MAX_OPEN_FILES ==> !files[i].used
    {
      this.v := v;
      files := seq(MAX_OPEN_FILES, _ => File(false, 0, 0, 0));
    }

    /** `fat16_read`: the slot's offset moves past the bytes delivered; nothing else changes. */
    method Read(fd: int, want: nat, ghost cs: seq<nat>) returns (r: int, buf: seq<Byte>)
      requires Valid()
      requires 0 <= fd < MAX_OPEN_FILES && files[fd].used && files[fd].size > 0 ==> Chain(v, files[fd].start, cs)
      modifies this`files
      ensures Valid()
      ensures if 0 <= fd < 8
        then Outcome(r, buf) == ReadSpec(old(files[fd]), Whole(v, cs), want)
             && files == old(files)[fd := old(files[fd]).(offset := old(files[fd]).offset + |buf|)]
        else r == -1 && buf == [] && files == old(files)
    {
      if fd < 0 || fd >= MAX_OPEN_FILES { return -1, []; }
      assert files == files[fd := files[fd].(offset := files[fd].offset)];
      if !files[fd].used { return -1, []; }
      if want == 0 || files[fd].offset >= files[fd].size { return 0, []; }
      r, buf := ReadOpen(v, files[fd], want, cs);
      files := files[fd := files[fd].(offset := files[fd].offset + |buf|)];
    }
  }

  /** The part of `fat16_read` after its early exits. */
  method ReadOpen(v: Volume, f: File, want: nat, ghost cs: seq<nat>) returns (r: int, buf: seq<Byte>)
    requires f.used && want > 0 && f.offset < f.size && Chain(v, f.start, cs)
    ensures Outcome(r, buf) == ReadSpec(f, Whole(v, cs), want)
  {
    hide GoodCluster, Rest, Whole, ClusterSize, Take;
    NextInChain(v, f.start, cs, 0);
    var n := if want > f.size - f.offset then f.size - f.offset else want;
    var skip, at := f.offset / ClusterSize(v), f.offset % ClusterSize(v);
    Divided(f.offset, ClusterSize(v));
    var ok, c := SkipClusters(v, f.start, skip, cs);
    if !ok {
      PastEnd(v, cs, skip, at);
      return -1, [];
    }
    RestIs(v, cs, skip, at);
    buf := CopyChain(v, c, at, n, skip, f.start, cs);
    r := |buf|;
    TakeTwice(Whole(v, cs), f.size, f.offset, want);
  }

  lemma Divided(a: nat, n: nat)
    requires n > 0
    ensures a == a / n * n + a % n && a % n < n
  {
  }

  lemma PastEnd(v: Volume, cs: seq<nat>, i: nat, from: nat)
    requires i >= |cs|
    ensures i * ClusterSize(v) + from >= |Whole(v, cs)|
  {
    hide ClusterSize, Whole;
    WholeLength(v, cs);
    assert i * ClusterSize(v) == |cs| * ClusterSize(v) + (i - |cs|) * ClusterSize(v);
  }

  lemma TakeTwice(w: seq<Byte>, size: nat, at: nat, want: nat)
    requires at < size && at < |w|
    ensures Take(Take(w, size)[at..], want) == Take(w[at..], if want > size - at then size - at else want)
  {
  }

  // ------------------------------------------------------------------------------------------
  // The layout of a partition
  // ------------------------------------------------------------------------------------------

  /** The regions of a partition in the order in which they lie on the disk. */
  datatype Region =
    | Reserved(sector: nat)
    | FatCopy(copy: nat)
    | RootEntry(entry: nat)
    | DataCluster(cluster: nat)

  /** Which of the regions exist; clusters are numbered from two. */
  predicate Exists(b: Bpb, r: Region) {
    match r
    case Reserved(k) => k < b.rsvdSecCnt
    case FatCopy(k) => k < b.numFATs
    case RootEntry(k) => k < b.rootEntCnt
    case DataCluster(c) => c >= 2
  }

  /** How many bytes a region takes. */
  function SizeOf(b: Bpb, r: Region): nat {
    match r
    case Reserved(_) => b.bytsPerSec
    case FatCopy(_) => b.fatSz16 * b.bytsPerSec
    case RootEntry(_) => 32
    case DataCluster(_) => b.bytsPerSec * b.secPerClus
  }

  /** The sizes of all regions that lie before one. */
  function SizesBefore(b: Bpb, r: Region): seq<nat>
    requires Exists(b, r)
  {
    match r
    case Reserved(k) => Repeat(SizeOf(b, r), k)
    case FatCopy(k) => Repeat(SizeOf(b, Reserved(0)), b.rsvdSecCnt) + Repeat(SizeOf(b, r), k)
    case RootEntry(k) =>
      Repeat(SizeOf(b, Reserved(0)), b.rsvdSecCnt) + Repeat(SizeOf(b, FatCopy(0)), b.numFATs) + Repeat(SizeOf(b, r), k)
    case DataCluster(c) =>
      Repeat(SizeOf(b, Reserved(0)), b.rsvdSecCnt) + Repeat(SizeOf(b, FatCopy(0)), b.numFATs)
      + Repeat(SizeOf(b, RootEntry(0)), b.rootEntCnt) + Repeat(SizeOf(b, r), c - 2)
  }

  function Repeat(x: nat, n: nat): seq<nat> { seq(n, _ => x) }

  function Total(xs: seq<nat>): nat { if xs == [] then 0 else xs[0] + Total(xs[1..]) }

  /** Regions follow one another without a gap, from the start of the partition. */
  function StartOf(b: Bpb, r: Region): nat
    requires Exists(b, r)
  {
    Total(SizesBefore(b, r))
  }

  lemma {:induction false} TotalAppend(xs: seq<nat>, ys: seq<nat>)
    ensures Total(xs + ys) == Total(xs) + Total(ys)
  {
    if xs == [] {
      assert xs + ys == ys;
    } else {
      TotalAppend(xs[1..], ys);
      assert (xs + ys)[1..] == xs[1..] + ys;
    }
  }

  lemma {:induction false} TotalRepeat(x: nat, n: nat)
    ensures Total(Repeat(x, n)) == n * x
    decreases n
  {
    if n > 0 {
      TotalRepeat(x, n - 1);
      assert Repeat(x, n)[1..] == Repeat(x, n - 1);
      assert n * x == x + (n - 1) * x;
    }
  }

  lemma Associate(x: nat, y: nat, z: nat)
    ensures x * y * z == x * (y * z)
  {
  }

  /** What the first four kinds of regions add up to. */
  lemma TotalsAre(w: nat, n: nat, x: nat, m: nat, y: nat, k: nat, z: nat, l: nat)
    ensures Total(Repeat(w, n) + Repeat(x, m)) == n * w + m * x
    ensures Total(Repeat(w, n) + Repeat(x, m) + Repeat(y, k)) == n * w + m * x + k * y
    ensures Total(Repeat(w, n) + Repeat(x, m) + Repeat(y, k) + Repeat(z, l)) == n * w + m * x + k * y + l * z
  {
    hide Total, Repeat;
    TotalRepeat(w, n);
    TotalRepeat(x, m);
    TotalRepeat(y, k);
    TotalRepeat(z, l);
    TotalAppend(Repeat(w, n), Repeat(x, m));
    TotalAppend(Repeat(w, n) + Repeat(x, m), Repeat(y, k));
    TotalAppend(Repeat(w, n) + Repeat(x, m) + Repeat(y, k), Repeat(z, l));
  }

  /** The code computes the start of the table, of the root directory and of every cluster from the sizes
      of the regions before them. */
  lemma LayoutIs(b: Bpb, c: nat)
    requires c >= 2
    ensures b.numFATs > 0 ==> FatAddr(b) == StartOf(b, FatCopy(0))
    ensures b.rootEntCnt > 0 ==> RootAddr(b) == StartOf(b, RootEntry(0))
    ensures DataAddr(b) + (c - 2) * (b.bytsPerSec * b.secPerClus) == StartOf(b, DataCluster(c))
  {
    hide Total, Repeat;
    var w, x, z := b.bytsPerSec, b.fatSz16 * b.bytsPerSec, b.bytsPerSec * b.secPerClus;
    TotalsAre(w, b.rsvdSecCnt, x, b.numFATs, 32, b.rootEntCnt, z, c - 2);
    TotalsAre(w, b.rsvdSecCnt, x, 0, 0, 0, 0, 0);
    TotalsAre(w, b.rsvdSecCnt, x, b.numFATs, 32, 0, 0, 0);
    Associate(b.numFATs, b.fatSz16, b.bytsPerSec);
  }

  /** The place of a region in the order of the disk. */
  function Rank(r: Region): (nat, nat) {
    match r
    case Reserved(k) => (0, k)
    case FatCopy(k) => (1, k)
    case RootEntry(k) => (2, k)
    case DataCluster(c) => (3, c)
  }

  predicate Precedes(r: Region, s: Region) {
    Rank(r).0 < Rank(s).0 || (Rank(r).0 == Rank(s).0 && Rank(r).1 < Rank(s).1)
  }

  lemma RegionsApart(b: Bpb, r: Region, s: Region)
    requires Exists(b, r) && Exists(b, s) && Precedes(r, s)
    ensures StartOf(b, r) + SizeOf(b, r) <= StartOf(b, s)
  {
    var x, y := SizesBefore(b, r) + [SizeOf(b, r)], SizesBefore(b, s);
    TotalAppend(SizesBefore(b, r), [SizeOf(b, r)]);
    assert Total([SizeOf(b, r)]) == SizeOf(b, r) + Total([]);
    assert x <= y;
    TotalAppend(x, y[|x|..]);
    assert y == x + y[|x|..];
  }

  /** No byte of a cluster lies in a copy of the table, in the root directory or in another cluster. */
  lemma ClusterApart(v: Volume, c: nat, a: nat, r: Region)
    requires c >= 2 && TrueOffset(v, c) <= a < TrueOffset(v, c) + ClusterSize(v)
    requires Exists(v.bpb, r) && r != DataCluster(c)
    ensures !(v.part + StartOf(v.bpb, r) <= a < v.part + StartOf(v.bpb, r) + SizeOf(v.bpb, r))
  {
    hide Total, SizesBefore;
    if Precedes(r, DataCluster(c)) {
      RegionsApart(v.bpb, r, DataCluster(c));
    } else {
      RegionsApart(v.bpb, DataCluster(c), r);
    }
  }

  /** The entry of a cluster lies in the first copy of the table if and only if that copy has room for it. */
  lemma EntryInTable(v: Volume, c: nat)
    requires v.bpb.numFATs > 0
    ensures var start, size := v.part + StartOf(v.bpb, FatCopy(0)), SizeOf(v.bpb, FatCopy(0));
      && start <= TrueEntryAddr(v, c)
      && (TrueEntryAddr(v, c) + 2 <= start + size <==> 2 * c + 2 <= v.bpb.fatSz16 * v.bpb.bytsPerSec)
  {
    hide Total, Repeat, RootAddr, DataAddr;
    LayoutIs(v.bpb, 2);
    TrueAddresses(v, c);
  }

  /** A table entry is stored low byte first. */
  lemma EntryBytes(v: Volume, c: nat, w: nat)
    requires w < 65536
    requires ByteAt(v.disk, FatEntryAddr(v, c)) == w % 256 && ByteAt(v.disk, FatEntryAddr(v, c) + 1) == w / 256
    ensures NextOf(v, c) == w
  {
  }

  // ------------------------------------------------------------------------------------------
  // Beyond 4 GiB
  // ------------------------------------------------------------------------------------------

  /** Where the layout puts the table entry of a cluster: two bytes each, behind the reserved sectors. */
  function TrueEntryAddr(v: Volume, c: nat): nat {
    v.part + Total(Repeat(SizeOf(v.bpb, Reserved(0)), v.bpb.rsvdSecCnt)) + Total(Repeat(2, c))
  }

  /** Where it puts the contents. */
  function TrueOffset(v: Volume, c: nat): nat {
    if c < 2 then 0 else v.part + StartOf(v.bpb, DataCluster(c))
  }

  function TrueCluster(v: Volume, c: nat): seq<Byte> { BytesAt(v.disk, TrueOffset(v, c), ClusterSize(v)) }

  function TrueNext(v: Volume, c: nat): nat {
    ByteAt(v.disk, TrueEntryAddr(v, c)) + 256 * ByteAt(v.disk, TrueEntryAddr(v, c) + 1)
  }

  function TrueWhole(v: Volume, cs: seq<nat>): seq<Byte> {
    if cs == [] then [] else TrueCluster(v, cs[0]) + TrueWhole(v, cs[1..])
  }

  lemma WrapSum(part: nat, rest: nat)
    ensures (part % WORD + rest) % WORD == (part + rest) % WORD
  {
    var q, r := part / WORD, part % WORD;
    assert part + rest == WORD * q + (r + rest);
    WrapMultiple(q, r + rest);
  }

  lemma WrapMultiple(q: nat, x: nat)
    ensures (WORD * q + x) % WORD == x % WORD
  {
    var k, r := x / WORD, x % WORD;
    assert WORD * q + x == WORD * (q + k) + r;
  }

  /** The layout's addresses as the code would compute them in unbounded arithmetic. */
  lemma TrueAddresses(v: Volume, c: nat)
    ensures TrueEntryAddr(v, c) == v.part + FatAddr(v.bpb) + c * 2
    ensures c >= 2 ==> TrueOffset(v, c) == v.part + DataAddr(v.bpb) + (c - 2) * ClusterSize(v)
  {
    hide Total, Repeat, StartOf, RootAddr, DataAddr;
    TotalRepeat(v.bpb.bytsPerSec, v.bpb.rsvdSecCnt);
    TotalRepeat(2, c);
    if c >= 2 { LayoutIs(v.bpb, c); }
  }

  /** The code's addresses are the layout's modulo 2^32. */
  lemma AddressesWrap(v: Volume, c: nat)
    ensures FatEntryAddr(v, c) == TrueEntryAddr(v, c) % WORD
    ensures ClusterOffset(v, c) == TrueOffset(v, c) % WORD
  {
    hide Total, Repeat, StartOf, RootAddr, FatAddr, DataAddr;
    TrueAddresses(v, c);
    WrapSum(v.part, FatAddr(v.bpb) + c * 2);
    if c >= 2 { WrapSum(v.part, DataAddr(v.bpb) + (c - 2) * ClusterSize(v)); }
  }

  /** A disk of zeros with a one at byte `a`. */
  function OneByteSet(n: nat, a: nat): (disk: seq<Sector>)
    requires a / SECTOR_SIZE < n
    ensures |disk| == n && ByteAt(disk, a) == 1 && forall b: nat :: b != a ==> ByteAt(disk, b) == 0
  {
    var zero: Sector := Zeros(SECTOR_SIZE);
    var disk := seq<Sector>(n, _ => zero)[a / SECTOR_SIZE := zero[a % SECTOR_SIZE := 1]];
    assert forall b: nat :: b != a && b / SECTOR_SIZE == a / SECTOR_SIZE ==> b % SECTOR_SIZE != a % SECTOR_SIZE;
    disk
  }

  /** Reading at a wrapped address gives the right bytes on every disk if and only if nothing wraps, that
      is, if and only if the range starts below 4 GiB. */
  lemma AddressExact(n: nat, a: nat, len: nat)
    requires len > 0 && a + len <= n * SECTOR_SIZE
    ensures (forall disk: seq<Sector> :: |disk| == n ==> BytesAt(disk, a % WORD, len) == BytesAt(disk, a, len))
      <==> a < WORD
  {
    if a >= WORD {
      var disk := OneByteSet(n, a);
      assert BytesAt(disk, a % WORD, len)[0] == 0 && BytesAt(disk, a, len)[0] == 1;
    }
  }

  /** The table entry and the contents of the cluster start below 4 GiB. */
  predicate Low(v: Volume, c: nat) { TrueEntryAddr(v, c) < WORD && TrueOffset(v, c) < WORD }

  lemma LowCluster(v: Volume, c: nat)
    requires Low(v, c)
    ensures Cluster(v, c) == TrueCluster(v, c) && NextOf(v, c) == TrueNext(v, c)
  {
    hide BytesAt, ByteAt, FatEntryAddr, TrueEntryAddr, ClusterOffset, TrueOffset, ClusterSize;
    AddressesWrap(v, c);
  }

  /** A file whose clusters are all of that kind is the file that the layout describes. */
  lemma {:induction false} LowIsTrue(v: Volume, cs: seq<nat>)
    requires forall i :: 0 <= i < |cs| ==> Low(v, cs[i])
    ensures Whole(v, cs) == TrueWhole(v, cs) && forall i :: 0 <= i < |cs| ==> NextOf(v, cs[i]) == TrueNext(v, cs[i])
  {
    hide Cluster, TrueCluster, NextOf, TrueNext, Low;
    forall i | 0 <= i < |cs| ensures NextOf(v, cs[i]) == TrueNext(v, cs[i]) { LowCluster(v, cs[i]); }
    if cs != [] {
      LowCluster(v, cs[0]);
      LowIsTrue(v, cs[1..]);
    }
  }

  /** A partition that starts at sector 0x800000, byte 2^32. Its first data byte is a one, but the code
      reads the zeros that lie 4 GiB before it. */
  function FarVolume(): Volume {
    Volume(OneByteSet(0x80_0004, 0x1_0000_0600), WORD, Bpb(512, 1, 1, 1, 1, 16))
  }

  lemma HighMisread()
    ensures var v := FarVolume();
      !Low(v, 2) && TrueOffset(v, 2) == 0x1_0000_0600 && ClusterOffset(v, 2) == 0x600
      && Readable(v.disk, ClusterOffset(v, 2), ClusterSize(v)) && Whole(v, [2]) != TrueWhole(v, [2])
  {
    var v := FarVolume();
    AddressesWrap(v, 2);
    TrueAddresses(v, 2);
    assert ClusterSize(v) == 512 && DataAddr(v.bpb) == 0x600;
    assert [2][1..] == [];
    assert Whole(v, [2]) == Cluster(v, 2) && TrueWhole(v, [2]) == TrueCluster(v, 2);
    assert Cluster(v, 2)[0] == 0 && TrueCluster(v, 2)[0] == 1;
  }

  // ------------------------------------------------------------------------------------------
  // Chains and results
  // ------------------------------------------------------------------------------------------

  /** A chain goes on at the entries from 2 to 0xFFF7 and ends at those from 0xFFF8 on. */
  lemma ChainStep(v: Volume, c: nat, cs: seq<nat>)
    requires ClusterSize(v) > 0 && GoodCluster(v, c)
    ensures Chain(v, c, [c] + cs) <==>
      if cs == [] then 0xFFF8 <= NextOf(v, c) <= 0xFFFF else NextOf(v, c) < 0xFFF8 && Chain(v, NextOf(v, c), cs)
  {
    var ds := [c] + cs;
    if cs != [] {
      assert ds[|ds| - 1] == cs[|cs| - 1];
      if Chain(v, c, ds) {
        assert ds[1] == cs[0] && NextOf(v, ds[0]) == ds[1] && GoodCluster(v, ds[1]);
        forall i | 0 <= i < |cs| ensures GoodCluster(v, cs[i]) { assert GoodCluster(v, ds[i + 1]); }
        forall i | 0 <= i < |cs| - 1 ensures NextOf(v, cs[i]) == cs[i + 1] {
          assert NextOf(v, ds[i + 1]) == ds[i + 2];
        }
      }
      if Chain(v, NextOf(v, c), cs) {
        forall i | 0 <= i < |ds| - 1 ensures NextOf(v, ds[i]) == ds[i + 1] {
          if i > 0 { assert NextOf(v, cs[i - 1]) == cs[i]; }
        }
      }
    }
  }

  /** A cluster starts at most one chain. */
  lemma {:induction false} ChainUnique(v: Volume, c: nat, cs: seq<nat>, ds: seq<nat>)
    requires Chain(v, c, cs) && Chain(v, c, ds)
    ensures cs == ds
    decreases |cs|
  {
    assert cs == [c] + cs[1..] && ds == [c] + ds[1..];
    assert GoodCluster(v, cs[0]);
    ChainStep(v, c, cs[1..]);
    ChainStep(v, c, ds[1..]);
    if cs[1..] != [] && ds[1..] != [] { ChainUnique(v, NextOf(v, c), cs[1..], ds[1..]); }
  }

  /** A read fails if and only if the slot is not in use, or more is asked for of a file whose chain ends
      at its offset or before; otherwise it returns the number of bytes it delivers, which is zero exactly
      when none are asked for or left. */
  lemma ReadResult(f: File, whole: seq<Byte>, want: nat)
    ensures var o := ReadSpec(f, whole, want);
      && (o.r < 0 <==> !f.used || (want > 0 && |whole| <= f.offset < f.size))
      && (if o.r < 0 then o.r == -1 && o.data == [] else o.r == |o.data| <= want)
      && (f.used && (want == 0 || f.offset >= f.size) ==> o.r == 0)
      && (f.used && want > 0 && f.offset < f.size && f.offset < |whole| ==> 0 < o.r)
  {
  }

  // ------------------------------------------------------------------------------------------
  // Sequences of reads
  // ------------------------------------------------------------------------------------------

  /** On a chain that covers the file a read returns exactly the flat file's bytes from the offset on,
      as many as were asked for or are left. */
  lemma ReadIsFlat(v: Volume, f: File, cs: seq<nat>, want: nat)
    requires f.used && f.offset <= f.size <= |Whole(v, cs)|
    ensures var n := Min(want, f.size - f.offset);
      ReadSpec(f, Whole(v, cs), want) == Outcome(n, Flat(v, f, cs)[f.offset..f.offset + n])
  {
  }

  /** A read of `want` bytes through a descriptor that names slot `slot`. */
  datatype Request = Request(slot: nat, want: nat)

  /** The slots after a list of reads. */
  function AfterReads(files: seq<File>, wholes: seq<seq<Byte>>, rs: seq<Request>): (r: seq<File>)
    requires |wholes| == |files| && forall k :: 0 <= k < |rs| ==> rs[k].slot < |files|
    ensures |r| == |files|
    decreases |rs|
  {
    if rs == [] then files else
      var i := rs[0].slot;
      var d := ReadSpec(files[i], wholes[i], rs[0].want).data;
      AfterReads(files[i := files[i].(offset := files[i].offset + |d|)], wholes, rs[1..])
  }

  /** Everything that was delivered from slot `slot`, in order, whatever descriptors asked for it. */
  function Delivered(files: seq<File>, wholes: seq<seq<Byte>>, rs: seq<Request>, slot: nat): seq<Byte>
    requires |wholes| == |files| && slot < |files| && forall k :: 0 <= k < |rs| ==> rs[k].slot < |files|
    decreases |rs|
  {
    if rs == [] then [] else
      var i := rs[0].slot;
      var d := ReadSpec(files[i], wholes[i], rs[0].want).data;
      (if i == slot then d else [])
      + Delivered(files[i := files[i].(offset := files[i].offset + |d|)], wholes, rs[1..], slot)
  }

  /** Any sequence of reads through any descriptors delivers from each slot the next bytes of its file:
      together a contiguous piece from where the slot stood to where it stands afterwards. */
  lemma {:induction false} ReadsConcatenate(files: seq<File>, wholes: seq<seq<Byte>>, rs: seq<Request>, slot: nat)
    requires |wholes| == |files| && slot < |files| && forall k :: 0 <= k < |rs| ==> rs[k].slot < |files|
    requires files[slot].used && files[slot].offset <= files[slot].size <= |wholes[slot]|
    ensures var f, g := files[slot], AfterReads(files, wholes, rs)[slot];
      && f.offset <= g.offset <= f.size && g == f.(offset := g.offset)
      && Delivered(files, wholes, rs, slot) == wholes[slot][f.offset..g.offset]
    decreases |rs|
  {
    hide ReadSpec;
    if rs != [] {
      var i := rs[0].slot;
      var d := ReadSpec(files[i], wholes[i], rs[0].want).data;
      var files' := files[i := files[i].(offset := files[i].offset + |d|)];
      if i == slot { NextPiece(files[slot], wholes[slot], rs[0].want); }
      ReadsConcatenate(files', wholes, rs[1..], slot);
    }
  }

  lemma NextPiece(f: File, whole: seq<Byte>, want: nat)
    requires f.used && f.offset <= f.size <= |whole|
    ensures var d := ReadSpec(f, whole, want).data;
      f.offset + |d| <= f.size && d == whole[f.offset..f.offset + |d|]
  {
  }

  function Asked(rs: seq<Request>, slot: nat): nat {
    if rs == [] then 0 else (if rs[0].slot == slot then rs[0].want else 0) + Asked(rs[1..], slot)
  }

  /** How far the reads get: to the sum of the sizes asked for, or to the end of the file. */
  lemma {:induction false} ReadsReach(files: seq<File>, wholes: seq<seq<Byte>>, rs: seq<Request>, slot: nat)
    requires |wholes| == |files| && slot < |files| && forall k :: 0 <= k < |rs| ==> rs[k].slot < |files|
    requires files[slot].used && files[slot].offset <= files[slot].size <= |wholes[slot]|
    ensures AfterReads(files, wholes, rs)[slot].offset == Min(files[slot].offset + Asked(rs, slot), files[slot].size)
    decreases |rs|
  {
    if rs != [] {
      var i := rs[0].slot;
      var d := ReadSpec(files[i], wholes[i], rs[0].want).data;
      ReadsReach(files[i := files[i].(offset := files[i].offset + |d|)], wholes, rs[1..], slot);
    }
  }
}
