/** Two-level x86 page tables, as stage2/paging.c lays them out, and what each of its operations does
    to what every virtual page of every directory translates to. A virtual page is named by its
    directory index and its table index, both below 1024. */
module PageTables {
  import opened Bytes

  const ENTRIES := 1024
  const PRESENT := 0x1
  const WRITABLE := 0x2
  const USER := 0x4
  const SIZE_4MB := 0x80
  const PAGE_SIZE := 4096

  /** The lower 12 bits of an entry. */
  type Flags = n: nat | n < PAGE_SIZE

  /** One 32-bit entry: the upper 20 bits and the lower 12. */
  datatype Entry = Entry(frame: nat, flags: Flags)
  {
    predicate Present() { flags % 2 == 1 }
    predicate User() { flags / 4 % 2 == 1 }
    predicate Large() { flags / 128 % 2 == 1 }
  }

  /** A 4 KiB frame seen as 1024 entries or as plain bytes. */
  datatype Frame = Table(entries: seq<Entry>) | Page(bytes: seq<Byte>)

  /** The frames that have been handed out so far; frames not in the map still read as zeros. */
  type Ram = map<nat, Frame>

  function ZeroPage(): Frame { Page(Zeros(PAGE_SIZE)) }

  function Content(ram: Ram, f: nat): Frame { if f in ram then ram[f] else ZeroPage() }

  /** The physical frames, which of them is the boot directory, which are directories and which
      are page tables. */
  datatype Space = Space(ram: Ram, kernel: nat, dirs: set<nat>, tables: set<nat>)

  function Own(i: nat, j: nat): nat { 1024 * i + j }

  function LargeIdentity(i: nat): Entry { Entry(Own(i, 0), 0x83) }

  function Identity(i: nat, j: nat): Entry { Entry(Own(i, j), 0x3) }

  /** `flags | PAGE_PRESENT`. */
  function WithPresent(flags: Flags): (r: Flags)
    ensures Entry(0, r).Present() && (Entry(0, flags).Present() ==> r == flags)
    ensures Entry(0, r).User() == Entry(0, flags).User()
  {
    if flags % 2 == 1 then flags else EvenQuarter(flags); flags + 1
  }

  lemma EvenQuarter(n: nat)
    requires n % 2 != 1
    ensures (n + 1) / 4 == n / 4 && (n + 1) % 2 == 1
  {
    var q, r := n / 4, n % 4;
    assert r != 3;
    assert n + 1 == 4 * q + (r + 1);
  }

  predicate IsTable(ram: Ram, f: nat) { f in ram && ram[f].Table? && |ram[f].entries| == ENTRIES }

  /** A directory slot is either the large identity page or a pointer to a page table. */
  predicate SlotOk(ram: Ram, tables: set<nat>, e: Entry, i: nat) {
    e == LargeIdentity(i) || (e.flags == 0x3 && e.frame in tables && IsTable(ram, e.frame))
  }

  predicate DirOk(ram: Ram, tables: set<nat>, d: nat) {
    IsTable(ram, d) && forall i :: 0 <= i < ENTRIES ==> SlotOk(ram, tables, ram[d].entries[i], i)
  }

  /** Slot `i` of directory `d` points to a page table. */
  predicate Split(ram: Ram, d: nat, i: nat) {
    IsTable(ram, d) && i < ENTRIES && !ram[d].entries[i].Large()
  }

  /** The page table behind a split slot. */
  function Sub(ram: Ram, d: nat, i: nat): nat
    requires Split(ram, d, i)
  {
    ram[d].entries[i].frame
  }

  predicate Slot(i: int, j: int) { 0 <= i < ENTRIES && 0 <= j < ENTRIES }

  /** What the processor finds for a virtual page: the slice of a large page or a table entry. */
  function Leaf(ram: Ram, d: nat, i: nat, j: nat): Entry {
    if !Slot(i, j) || !IsTable(ram, d) then Entry(0, 0)
    else
      var e := ram[d].entries[i];
      if e.Large() then Entry(e.frame / 1024 * 1024 + j, e.flags - SIZE_4MB)
      else if IsTable(ram, e.frame) then ram[e.frame].entries[j]
      else Entry(0, 0)
  }

  /** The contents a virtual page reads as. */
  datatype Reading = Fault | Reads(frame: Frame)

  function Read(ram: Ram, d: nat, i: nat, j: nat): Reading {
    var e := Leaf(ram, d, i, j);
    if e.Present() then Reads(Content(ram, e.frame)) else Fault
  }

  /** Each page table belongs to exactly one slot of exactly one directory. */
  ghost predicate OneOwner(ram: Ram, dirs: set<nat>) {
    forall d, i, d', i' ::
      d in dirs && d' in dirs && Split(ram, d, i) && Split(ram, d', i') && Sub(ram, d, i) == Sub(ram, d', i') ==>
        d == d' && i == i'
  }

  ghost predicate Inv(s: Space) {
    && s.kernel in s.dirs && s.dirs !! s.tables
    && (forall f :: f in s.tables ==> IsTable(s.ram, f))
    && (forall d :: d in s.dirs ==> DirOk(s.ram, s.tables, d))
    && (forall i: nat :: i < ENTRIES ==> s.ram[s.kernel].entries[i] == LargeIdentity(i))
    && OneOwner(s.ram, s.dirs)
  }

  /** A page that clone copies. */
  predicate Marked(ram: Ram, d: nat, i: nat, j: nat) {
    Leaf(ram, d, i, j).Present() && Leaf(ram, d, i, j).User()
  }

  // ------------------------------------------------------------------------------------------
  // The operations, as relations between the states before and after
  // ------------------------------------------------------------------------------------------

  /** A fresh zeroed frame. */
  predicate Allocated(s: Space, t: Space, f: nat) {
    f !in s.ram && t == s.(ram := s.ram[f := ZeroPage()])
  }

  /** A copy of the boot directory in a fresh frame. */
  predicate Created(s: Space, t: Space, d: nat) {
    && d !in s.ram && s.kernel in s.ram
    && t == s.(ram := s.ram[d := s.ram[s.kernel]], dirs := s.dirs + {d})
  }

  function IdentityTable(i: nat): seq<Entry> { seq(ENTRIES, j requires 0 <= j < ENTRIES => Identity(i, j)) }

  /** Entry `k` of the table in frame `f` overwritten. */
  function SetEntry(ram: Ram, f: nat, k: nat, e: Entry): Ram
    requires IsTable(ram, f) && k < ENTRIES
  {
    ram[f := Table(ram[f].entries[k := e])]
  }

  function SplitRam(ram: Ram, d: nat, i: nat, j: nat, e: Entry, f: nat): Ram
    requires IsTable(ram, d) && i < ENTRIES && j < ENTRIES && f !in ram
  {
    SetEntry(ram[f := Table(IdentityTable(i)[j := e])], d, i, Entry(f, 0x3))
  }

  /** Entry `e` written to a slot that already has a table. */
  predicate MappedInTable(s: Space, t: Space, d: nat, i: nat, j: nat, e: Entry) {
    && j < ENTRIES && Split(s.ram, d, i) && IsTable(s.ram, Sub(s.ram, d, i))
    && t == s.(ram := SetEntry(s.ram, Sub(s.ram, d, i), j, e))
  }

  /** Entry `e` written to a slot whose large page is first split into the fresh table `f`. */
  predicate MappedBySplit(s: Space, t: Space, d: nat, i: nat, j: nat, e: Entry, f: nat) {
    && i < ENTRIES && j < ENTRIES && IsTable(s.ram, d) && !Split(s.ram, d, i) && f !in s.ram
    && t == s.(ram := SplitRam(s.ram, d, i, j, e, f), tables := s.tables + {f})
  }

  ghost predicate Mapped(s: Space, t: Space, d: nat, i: nat, j: nat, e: Entry) {
    MappedInTable(s, t, d, i, j, e) || exists f :: MappedBySplit(s, t, d, i, j, e, f)
  }

  /** Frames handed out before are still as they were. */
  predicate Keeps(s: Ram, t: Ram) { forall f :: f in s ==> f in t && t[f] == s[f] }

  /** Page (i, j) of the child is a copy of the parent's, in a frame that was not in use before. */
  predicate Copied(s: Ram, t: Ram, parent: nat, child: nat, i: nat, j: nat) {
    var p, c := Leaf(s, parent, i, j), Leaf(t, child, i, j);
    c.flags == p.flags && c.frame !in s && c.frame in t && t[c.frame] == Content(s, p.frame)
  }

  /** What the clone loop has to achieve for one page. */
  predicate PageCloned(s: Ram, t: Ram, parent: nat, child: nat, i: nat, j: nat) {
    if Marked(s, parent, i, j) then Copied(s, t, parent, child, i, j)
    else Leaf(t, child, i, j) == Identity(i, j)
  }

  /** The child directory after clone, apart from the invariants. */
  ghost predicate Cloned(s: Space, t: Space, parent: nat, child: nat) {
    && parent in s.dirs && child !in s.ram
    && t.kernel == s.kernel && t.dirs == s.dirs + {child} && s.tables <= t.tables
    && Keeps(s.ram, t.ram) && (forall f :: f in t.tables && f in s.ram ==> f in s.tables)
    && (forall i, j :: Slot(i, j) ==> PageCloned(s.ram, t.ram, parent, child, i, j))
    && (forall i, j :: Slot(i, j) && Marked(s.ram, parent, i, j) ==> Plain(t, Leaf(t.ram, child, i, j).frame))
    && OwnFrames(s.ram, t.ram, parent, child)
  }

  /** A frame that was handed out and is neither a directory nor a table. */
  predicate Plain(s: Space, f: nat) { f in s.ram && f !in s.dirs && f !in s.tables }

  /** Different marked pages of the child sit in different frames. */
  ghost predicate OwnFrames(s: Ram, t: Ram, parent: nat, child: nat) {
    forall i, j, i', j' :: Marked(s, parent, i, j) && Marked(s, parent, i', j') && (i, j) != (i', j') ==>
      Leaf(t, child, i, j).frame != Leaf(t, child, i', j').frame
  }

  /** A table whose marked entries have been zeroed. */
  predicate ClearedAt(s: Ram, t: Ram, f: nat) {
    IsTable(s, f) && f in t && t[f] == Table(Cleared(s[f].entries))
  }

  function Cleared(es: seq<Entry>): (r: seq<Entry>)
    ensures |r| == |es|
    ensures forall k :: 0 <= k < |es| ==> r[k] == if es[k].Present() && es[k].User() then Entry(0, 0) else es[k]
  {
    seq(|es|, k requires 0 <= k < |es| => if es[k].Present() && es[k].User() then Entry(0, 0) else es[k])
  }

  /** The boot directory's contents in `d`, whose former tables have lost their marked entries. */
  ghost predicate Freed(s: Space, t: Space, d: nat) {
    && t.kernel == s.kernel && t.dirs == s.dirs && t.tables == s.tables && d in s.dirs && s.kernel in s.ram
    && t.ram.Keys == s.ram.Keys && d in t.ram && t.ram[d] == s.ram[s.kernel]
    && (forall i :: Split(s.ram, d, i) ==> ClearedAt(s.ram, t.ram, Sub(s.ram, d, i)))
    && (forall f :: f in s.ram && f != d && !(exists i :: Split(s.ram, d, i) && Sub(s.ram, d, i) == f) ==>
         t.ram[f] == s.ram[f])
  }

  // ------------------------------------------------------------------------------------------
  // What each operation does to every translation
  // ------------------------------------------------------------------------------------------

  /** Every page of every directory in `dirs` translates as before. */
  ghost predicate SameLeaves(s: Ram, t: Ram, dirs: set<nat>) {
    forall d, i, j :: d in dirs && Slot(i, j) ==> Leaf(t, d, i, j) == Leaf(s, d, i, j)
  }

  /** Every page of every directory translates as before, except page (i, j) of directory `d`. */
  ghost predicate SameBut(s: Ram, t: Ram, dirs: set<nat>, d: nat, i: nat, j: nat) {
    forall d', i', j' :: d' in dirs && Slot(i', j') && (d', i', j') != (d, i, j) ==>
      Leaf(t, d', i', j') == Leaf(s, d', i', j')
  }

  /** Frames that hold neither a directory nor a table are as before. */
  predicate PlainKept(s: Space, t: Space) {
    forall f :: f in s.ram && f !in s.dirs && f !in s.tables ==> f in t.ram && t.ram[f] == s.ram[f]
  }

  lemma LargeLeaf(i: nat, j: nat)
    ensures Own(i, 0) / 1024 * 1024 + j == Own(i, j) && LargeIdentity(i).Large() && !Identity(i, j).Large()
  {
    assert Own(i, 0) / 1024 == i;
  }

  /** A large slot translates every page of its range to itself. */
  lemma UnsplitLeaf(s: Space, d: nat, i: nat, j: nat)
    requires Inv(s) && d in s.dirs && Slot(i, j) && !Split(s.ram, d, i)
    ensures Leaf(s.ram, d, i, j) == Identity(i, j)
  {
    assert DirOk(s.ram, s.tables, d);
    assert SlotOk(s.ram, s.tables, s.ram[d].entries[i], i);
    LargeLeaf(i, j);
  }

  lemma AllocatedInv(s: Space, t: Space, f: nat)
    requires Inv(s) && Allocated(s, t, f)
    ensures Inv(t) && SameLeaves(s.ram, t.ram, s.dirs) && PlainKept(s, t)
  {
    KeptDirs(s, t.ram);
  }

  /** Nothing about the directories changes when no directory and no table changes. */
  lemma KeptDirs(s: Space, t: Ram)
    requires Inv(s) && forall f :: f in s.dirs || f in s.tables ==> f in t && t[f] == s.ram[f]
    ensures Inv(s.(ram := t)) && SameLeaves(s.ram, t, s.dirs)
  {
    forall d | d in s.dirs ensures DirOk(t, s.tables, d) {
      assert DirOk(s.ram, s.tables, d);
      forall i | 0 <= i < ENTRIES ensures SlotOk(t, s.tables, t[d].entries[i], i) {
        assert SlotOk(s.ram, s.tables, s.ram[d].entries[i], i);
      }
    }
    forall d, i | d in s.dirs && Split(t, d, i) ensures Split(s.ram, d, i) && Sub(t, d, i) == Sub(s.ram, d, i) {}
    forall d, i, j | d in s.dirs && Slot(i, j) ensures Leaf(t, d, i, j) == Leaf(s.ram, d, i, j) {
      assert SlotOk(s.ram, s.tables, s.ram[d].entries[i], i);
    }
  }

  /** A new directory translates every page to itself, like the boot directory. */
  lemma CreatedInv(s: Space, t: Space, d: nat)
    requires Inv(s) && Created(s, t, d)
    ensures Inv(t) && SameLeaves(s.ram, t.ram, s.dirs) && PlainKept(s, t)
    ensures forall i, j :: Slot(i, j) ==> Leaf(t.ram, d, i, j) == Identity(i, j)
  {
    KeptDirs(s, t.ram);
    forall d', i: nat | d' in t.dirs && Split(t.ram, d', i) ensures d' in s.dirs {
      assert t.ram[s.kernel].entries[i] == LargeIdentity(i);
      LargeLeaf(i, 0);
    }
    forall i | 0 <= i < ENTRIES ensures SlotOk(t.ram, t.tables, t.ram[d].entries[i], i) {
      assert t.ram[s.kernel].entries[i] == LargeIdentity(i);
    }
    forall i, j | Slot(i, j) ensures Leaf(t.ram, d, i, j) == Identity(i, j) {
      LargeLeaf(i, j);
      UnsplitLeaf(t, d, i, j);
    }
  }

  lemma MappedInTableExact(s: Space, t: Space, d: nat, i: nat, j: nat, e: Entry)
    requires Inv(s) && d in s.dirs && MappedInTable(s, t, d, i, j, e)
    ensures Inv(t) && PlainKept(s, t) && Leaf(t.ram, d, i, j) == e && SameBut(s.ram, t.ram, s.dirs, d, i, j)
  {
    var f := Sub(s.ram, d, i);
    assert SlotOk(s.ram, s.tables, s.ram[d].entries[i], i);
    forall d' | d' in s.dirs ensures DirOk(t.ram, t.tables, d') {
      assert DirOk(s.ram, s.tables, d');
      forall i' | 0 <= i' < ENTRIES ensures SlotOk(t.ram, t.tables, t.ram[d'].entries[i'], i') {
        assert SlotOk(s.ram, s.tables, s.ram[d'].entries[i'], i');
      }
    }
    assert OneOwner(t.ram, t.dirs) by {
      forall d', i' | d' in s.dirs && Split(t.ram, d', i')
        ensures Split(s.ram, d', i') && Sub(t.ram, d', i') == Sub(s.ram, d', i') {}
    }
    forall d', i', j' | d' in s.dirs && Slot(i', j') && (d', i', j') != (d, i, j)
      ensures Leaf(t.ram, d', i', j') == Leaf(s.ram, d', i', j')
    {
      assert SlotOk(s.ram, s.tables, s.ram[d'].entries[i'], i');
      if Split(s.ram, d', i') && Sub(s.ram, d', i') == f { assert d' == d && i' == i; }
    }
  }

  lemma SplitSlots(s: Space, t: Space, d: nat, i: nat, j: nat, e: Entry, f: nat)
    requires Inv(s) && d in s.dirs && d != s.kernel && MappedBySplit(s, t, d, i, j, e, f)
    ensures forall d' :: d' in t.dirs ==> DirOk(t.ram, t.tables, d')
    ensures forall d', i' :: d' in t.dirs && Split(t.ram, d', i') ==>
      if d' == d && i' == i then Sub(t.ram, d', i') == f
      else Split(s.ram, d', i') && Sub(t.ram, d', i') == Sub(s.ram, d', i') && Sub(s.ram, d', i') in s.tables
  {
    forall d' | d' in s.dirs ensures DirOk(t.ram, t.tables, d') {
      assert DirOk(s.ram, s.tables, d');
      forall i' | 0 <= i' < ENTRIES ensures SlotOk(t.ram, t.tables, t.ram[d'].entries[i'], i') {
        assert SlotOk(s.ram, s.tables, s.ram[d'].entries[i'], i');
      }
    }
    forall d', i': nat | d' in t.dirs && Split(t.ram, d', i') && !(d' == d && i' == i)
      ensures Split(s.ram, d', i') && Sub(t.ram, d', i') == Sub(s.ram, d', i') && Sub(s.ram, d', i') in s.tables
    {
      assert SlotOk(s.ram, s.tables, s.ram[d'].entries[i'], i');
      LargeLeaf(i', 0);
    }
  }

  lemma MappedBySplitExact(s: Space, t: Space, d: nat, i: nat, j: nat, e: Entry, f: nat)
    requires Inv(s) && d in s.dirs && d != s.kernel && MappedBySplit(s, t, d, i, j, e, f)
    ensures Inv(t) && PlainKept(s, t) && Leaf(t.ram, d, i, j) == e && SameBut(s.ram, t.ram, s.dirs, d, i, j)
  {
    SplitSlots(s, t, d, i, j, e, f);
    assert Inv(t);
    LargeLeaf(i, j);
    forall d', i', j' | d' in s.dirs && Slot(i', j') && (d', i', j') != (d, i, j)
      ensures Leaf(t.ram, d', i', j') == Leaf(s.ram, d', i', j')
    {
      assert SlotOk(s.ram, s.tables, s.ram[d'].entries[i'], i');
      if d' == d && i' == i { UnsplitLeaf(s, d, i, j'); }
    }
  }

  /** Mapping a page changes the translation of exactly that page of exactly that directory, also
      when a large page has to be split first. */
  lemma MappedExact(s: Space, t: Space, d: nat, i: nat, j: nat, e: Entry)
    requires Inv(s) && d in s.dirs && d != s.kernel && Mapped(s, t, d, i, j, e)
    ensures Inv(t) && PlainKept(s, t) && Leaf(t.ram, d, i, j) == e && SameBut(s.ram, t.ram, s.dirs, d, i, j)
    ensures t.dirs == s.dirs && t.kernel == s.kernel && s.tables <= t.tables && s.ram.Keys <= t.ram.Keys
    ensures forall f :: f in t.tables && f in s.ram ==> f in s.tables
  {
    if MappedInTable(s, t, d, i, j, e) {
      MappedInTableExact(s, t, d, i, j, e);
    } else {
      var f :| MappedBySplit(s, t, d, i, j, e, f);
      MappedBySplitExact(s, t, d, i, j, e, f);
    }
  }

  lemma FreedKeeps(s: Space, t: Space, d: nat, f: nat)
    requires Inv(s) && Freed(s, t, d) && f in s.ram && f != d && f !in s.tables
    ensures t.ram[f] == s.ram[f]
  {
    forall i: nat | Split(s.ram, d, i) ensures Sub(s.ram, d, i) != f {
      assert SlotOk(s.ram, s.tables, s.ram[d].entries[i], i);
    }
  }

  lemma FreedInv(s: Space, t: Space, d: nat)
    requires Inv(s) && d != s.kernel && Freed(s, t, d)
    ensures Inv(t) && forall i: nat :: i < ENTRIES ==> !Split(t.ram, d, i) && !Split(t.ram, s.kernel, i)
  {
    forall d' | d' in s.dirs && d' != d ensures t.ram[d'] == s.ram[d'] { FreedKeeps(s, t, d, d'); }
    forall i: nat | i < ENTRIES ensures !Split(t.ram, d, i) && !Split(t.ram, s.kernel, i) {
      assert s.ram[s.kernel].entries[i] == LargeIdentity(i);
      LargeLeaf(i, 0);
    }
    forall f | f in s.tables ensures IsTable(t.ram, f) {
      assert IsTable(s.ram, f);
      if i :| Split(s.ram, d, i) && Sub(s.ram, d, i) == f { assert ClearedAt(s.ram, t.ram, f); }
    }
    forall d' | d' in s.dirs ensures DirOk(t.ram, t.tables, d') {
      assert DirOk(s.ram, s.tables, d');
      forall i | 0 <= i < ENTRIES ensures SlotOk(t.ram, t.tables, t.ram[d'].entries[i], i) {
        assert SlotOk(s.ram, s.tables, s.ram[d'].entries[i], i);
        if d' == d { assert s.ram[s.kernel].entries[i] == LargeIdentity(i); }
      }
    }
    forall d', i: nat | d' in t.dirs && Split(t.ram, d', i)
      ensures Split(s.ram, d', i) && Sub(t.ram, d', i) == Sub(s.ram, d', i) {}
  }

  /** A freed directory translates like the boot directory, and no other directory is affected. */
  lemma FreedExact(s: Space, t: Space, d: nat)
    requires Inv(s) && d != s.kernel && Freed(s, t, d)
    ensures Inv(t) && PlainKept(s, t)
    ensures forall i, j :: Slot(i, j) ==> Leaf(t.ram, d, i, j) == Identity(i, j) == Leaf(t.ram, s.kernel, i, j)
    ensures SameLeaves(s.ram, t.ram, s.dirs - {d})
  {
    FreedInv(s, t, d);
    forall i, j | Slot(i, j) ensures Leaf(t.ram, d, i, j) == Identity(i, j) == Leaf(t.ram, s.kernel, i, j) {
      UnsplitLeaf(t, d, i, j);
      UnsplitLeaf(t, s.kernel, i, j);
    }
    forall d', i, j | d' in s.dirs && d' != d && Slot(i, j) ensures Leaf(t.ram, d', i, j) == Leaf(s.ram, d', i, j) {
      FreedKeeps(s, t, d, d');
      assert SlotOk(s.ram, s.tables, s.ram[d'].entries[i], i);
      if Split(s.ram, d', i) { FreedElsewhere(s, t, d, d', i); }
    }
    forall f | f in s.ram && f !in s.dirs && f !in s.tables ensures t.ram[f] == s.ram[f] {
      FreedKeeps(s, t, d, f);
    }
  }

  /** The tables that the directory gives up lead to none of its marked pages any more; their other
      entries are as they were. */
  lemma FreedTables(s: Space, t: Space, d: nat, i: nat, j: nat)
    requires Inv(s) && d != s.kernel && Freed(s, t, d) && Split(s.ram, d, i) && j < ENTRIES
    ensures var f := Sub(s.ram, d, i);
      && IsTable(s.ram, f) && IsTable(t.ram, f)
      && t.ram[f].entries[j] == if Marked(s.ram, d, i, j) then Entry(0, 0) else Leaf(s.ram, d, i, j)
  {
    assert SlotOk(s.ram, s.tables, s.ram[d].entries[i], i);
    LargeLeaf(i, 0);
    assert ClearedAt(s.ram, t.ram, Sub(s.ram, d, i));
  }

  /** The tables of the other directories are not touched. */
  lemma FreedElsewhere(s: Space, t: Space, d: nat, d': nat, i: nat)
    requires Inv(s) && Freed(s, t, d) && d' in s.dirs && d' != d && Split(s.ram, d', i)
    ensures Sub(s.ram, d', i) in s.ram && t.ram[Sub(s.ram, d', i)] == s.ram[Sub(s.ram, d', i)]
  {
    assert SlotOk(s.ram, s.tables, s.ram[d'].entries[i], i);
    LargeLeaf(i, 0);
    assert !exists k :: Split(s.ram, d, k) && Sub(s.ram, d, k) == Sub(s.ram, d', i);
  }

  // ------------------------------------------------------------------------------------------
  // Fork
  // ------------------------------------------------------------------------------------------

  /** Every unmarked page of `d` translates to the frame of its own number. */
  ghost predicate Transparent(ram: Ram, d: nat) {
    forall i, j :: Slot(i, j) && !Marked(ram, d, i, j) ==> Shares(Leaf(ram, d, i, j), Identity(i, j))
  }

  /** Both entries lead to the same frame, or both fault. */
  predicate Shares(a: Entry, b: Entry) { a.Present() == b.Present() && (a.Present() ==> a.frame == b.frame) }

  lemma CloneParent(s: Space, t: Space, parent: nat, child: nat, i: nat, j: nat)
    requires Inv(s) && Cloned(s, t, parent, child) && Slot(i, j)
    ensures Leaf(t.ram, parent, i, j) == Leaf(s.ram, parent, i, j)
  {
    assert SlotOk(s.ram, s.tables, s.ram[parent].entries[i], i);
  }

  /** The parent is not changed by the clone. Every marked page reads the same in the child, from a
      frame that was not in use. The unmarked pages are shared if and only if the parent maps none
      of them away from its own frame. */
  lemma CloneShares(s: Space, t: Space, parent: nat, child: nat)
    requires Inv(s) && Cloned(s, t, parent, child)
    ensures SameLeaves(s.ram, t.ram, {parent})
    ensures forall i, j :: Slot(i, j) && Marked(s.ram, parent, i, j) ==> Copied(s.ram, t.ram, parent, child, i, j)
    ensures (forall i, j :: Slot(i, j) && !Marked(s.ram, parent, i, j) ==>
              Shares(Leaf(t.ram, parent, i, j), Leaf(t.ram, child, i, j)))
      <==> Transparent(s.ram, parent)
  {
    forall i, j | Slot(i, j) ensures Leaf(t.ram, parent, i, j) == Leaf(s.ram, parent, i, j) {
      CloneParent(s, t, parent, child, i, j);
    }
    forall i, j | Slot(i, j) && !Marked(s.ram, parent, i, j) ensures Leaf(t.ram, child, i, j) == Identity(i, j) {
      assert PageCloned(s.ram, t.ram, parent, child, i, j);
    }
    forall i, j | Slot(i, j) && Marked(s.ram, parent, i, j)
      ensures Copied(s.ram, t.ram, parent, child, i, j) {
      assert PageCloned(s.ram, t.ram, parent, child, i, j);
    }
  }

  /** Every marked page of `d` lies in a plain frame. */
  ghost predicate DirBacked(s: Space, d: nat) {
    forall i, j :: Slot(i, j) && Marked(s.ram, d, i, j) ==> Plain(s, Leaf(s.ram, d, i, j).frame)
  }

  ghost predicate Backed(s: Space) { forall d :: d in s.dirs ==> DirBacked(s, d) }

  /** No page of any directory is mapped away from its own frame without the mark. */
  ghost predicate AllTransparent(s: Space) { forall d :: d in s.dirs ==> Transparent(s.ram, d) }

  /** After fork every virtual page reads the same in parent and child. */
  lemma ForkReadsSame(s: Space, t: Space, parent: nat, child: nat, i: nat, j: nat)
    requires Inv(s) && Backed(s) && Transparent(s.ram, parent) && Cloned(s, t, parent, child) && Slot(i, j)
    ensures Read(t.ram, child, i, j) == Read(t.ram, parent, i, j)
    ensures Marked(s.ram, parent, i, j) ==> Read(t.ram, child, i, j) == Read(s.ram, parent, i, j)
  {
    CloneParent(s, t, parent, child, i, j);
    assert PageCloned(s.ram, t.ram, parent, child, i, j);
    if Marked(s.ram, parent, i, j) {
      assert DirBacked(s, parent);
    } else {
      assert Shares(Leaf(s.ram, parent, i, j), Identity(i, j));
    }
  }

  /** A write through a marked page of the child shows in the parent exactly through the page whose
      own number is the frame, if the parent has not marked that one. */
  lemma ChildWriteHidden(s: Space, t: Space, parent: nat, child: nat, i: nat, j: nat, a: nat, b: nat, x: Frame)
    requires Inv(s) && Backed(s) && Transparent(s.ram, parent) && Cloned(s, t, parent, child)
    requires Slot(i, j) && Slot(a, b) && Marked(s.ram, parent, i, j)
    ensures var f := Leaf(t.ram, child, i, j).frame;
      && f !in s.ram
      && (Leaf(t.ram, parent, a, b).Present() && Leaf(t.ram, parent, a, b).frame == f <==>
           !Marked(s.ram, parent, a, b) && f == Own(a, b))
      && Stored(t.ram, parent, f, x, a, b) ==
           if !Marked(s.ram, parent, a, b) && f == Own(a, b) then Reads(x) else Read(t.ram, parent, a, b)
  {
    CloneParent(s, t, parent, child, a, b);
    assert PageCloned(s.ram, t.ram, parent, child, i, j);
    if Marked(s.ram, parent, a, b) {
      assert DirBacked(s, parent);
    } else {
      assert Shares(Leaf(s.ram, parent, a, b), Identity(a, b));
    }
  }

  /** A write through a marked page of the parent shows in the child exactly through the page whose
      own number is the frame, if that one is not marked. */
  lemma ParentWriteHidden(s: Space, t: Space, parent: nat, child: nat, i: nat, j: nat, a: nat, b: nat, x: Frame)
    requires Inv(s) && Backed(s) && Cloned(s, t, parent, child)
    requires Slot(i, j) && Slot(a, b) && Marked(s.ram, parent, i, j)
    ensures var f := Leaf(t.ram, parent, i, j).frame;
      && (Leaf(t.ram, child, a, b).Present() && Leaf(t.ram, child, a, b).frame == f <==>
           !Marked(s.ram, parent, a, b) && f == Own(a, b))
      && Stored(t.ram, child, f, x, a, b) ==
           if !Marked(s.ram, parent, a, b) && f == Own(a, b) then Reads(x) else Read(t.ram, child, a, b)
  {
    CloneParent(s, t, parent, child, i, j);
    assert DirBacked(s, parent);
    assert PageCloned(s.ram, t.ram, parent, child, a, b);
  }

  /** What page (a, b) of `d` reads once frame `f` has been overwritten by a store through some page;
      the tables themselves are as in `ram`. */
  function Stored(ram: Ram, d: nat, f: nat, x: Frame, a: nat, b: nat): Reading {
    var e := Leaf(ram, d, a, b);
    if !e.Present() then Fault else Reads(Content(ram[f := x], e.frame))
  }

  // A parent in frame 2 with table 3 and one marked page, (0, 0) in frame 4, and its clone in frame 5
  // with table 7 and the copy in frame 6.

  function LargeSlots(): seq<Entry> { seq(ENTRIES, i requires 0 <= i < ENTRIES => LargeIdentity(i)) }

  function OneTable(f: nat): Frame { Table(LargeSlots()[0 := Entry(f, 0x3)]) }

  function OnePage(f: nat): Frame { Table(IdentityTable(0)[0 := Entry(f, 0x7)]) }

  function OneMarked(): Space {
    Space(map[1 := Table(LargeSlots()), 2 := OneTable(3), 3 := OnePage(4), 4 := ZeroPage()], 1, {1, 2}, {3})
  }

  function OneCloned(): Space {
    var s := OneMarked();
    Space(s.ram[5 := OneTable(7)][6 := ZeroPage()][7 := OnePage(6)], 1, {1, 2, 5}, {3, 7})
  }

  lemma OneLeaf(ram: Ram, d: nat, table: nat, page: nat, i: nat, j: nat)
    requires d in ram && table in ram && ram[d] == OneTable(table) && ram[table] == OnePage(page) && Slot(i, j)
    ensures Leaf(ram, d, i, j) == if (i, j) == (0, 0) then Entry(page, 0x7) else Identity(i, j)
  {
    if i > 0 { LargeLeaf(i, j); }
  }

  lemma OneLeaves(i: nat, j: nat)
    requires Slot(i, j)
    ensures Leaf(OneMarked().ram, 1, i, j) == Identity(i, j)
    ensures Leaf(OneMarked().ram, 2, i, j) == if (i, j) == (0, 0) then Entry(4, 0x7) else Identity(i, j)
    ensures Leaf(OneCloned().ram, 5, i, j) == if (i, j) == (0, 0) then Entry(6, 0x7) else Identity(i, j)
  {
    LargeLeaf(i, j);
    OneLeaf(OneMarked().ram, 2, 3, 4, i, j);
    OneLeaf(OneCloned().ram, 5, 7, 6, i, j);
  }

  lemma OneInv()
    ensures Inv(OneMarked())
  {
    var s := OneMarked();
    forall i: nat | i < ENTRIES ensures !Split(s.ram, 1, i) && (Split(s.ram, 2, i) ==> i == 0) { LargeLeaf(i, 0); }
    forall d | d in s.dirs ensures DirOk(s.ram, s.tables, d) {}
  }

  lemma OneBacked()
    ensures Backed(OneMarked()) && AllTransparent(OneMarked())
  {
    hide OneCloned, IdentityTable, LargeSlots;
    var s := OneMarked();
    forall d | d in s.dirs ensures DirBacked(s, d) && Transparent(s.ram, d) {
      forall i, j | Slot(i, j)
        ensures if Marked(s.ram, d, i, j) then Plain(s, Leaf(s.ram, d, i, j).frame)
                else Shares(Leaf(s.ram, d, i, j), Identity(i, j))
      {
        OneLeaves(i, j);
      }
    }
  }

  lemma OneClone()
    ensures Cloned(OneMarked(), OneCloned(), 2, 5)
  {
    hide Leaf, IdentityTable, LargeSlots;
    var s, t := OneMarked(), OneCloned();
    forall i, j | Slot(i, j)
      ensures PageCloned(s.ram, t.ram, 2, 5, i, j)
      ensures Marked(s.ram, 2, i, j) ==> (i, j) == (0, 0) && Plain(t, Leaf(t.ram, 5, i, j).frame)
    {
      OneLeaves(i, j);
    }
    forall i: nat, j: nat | Marked(s.ram, 2, i, j) ensures Slot(i, j) { MarkedSlot(s.ram, 2, i, j); }
  }

  lemma MarkedSlot(ram: Ram, d: nat, i: nat, j: nat)
    requires Marked(ram, d, i, j)
    ensures Slot(i, j)
  {
  }

  /** There a store through page (0, 0) of the child shows in page (0, 6) of the parent, and a store
      through page (0, 0) of the parent in page (0, 4) of the child. */
  lemma WritesLeak(x: Frame)
    ensures var s, t := OneMarked(), OneCloned();
      && Inv(s) && Backed(s) && AllTransparent(s) && Cloned(s, t, 2, 5) && Marked(s.ram, 2, 0, 0)
      && Stored(t.ram, 2, Leaf(t.ram, 5, 0, 0).frame, x, 0, 6) == Reads(x)
      && Stored(t.ram, 5, Leaf(t.ram, 2, 0, 0).frame, x, 0, 4) == Reads(x)
  {
    hide OneMarked, OneCloned, Cloned, Inv;
    var s, t := OneMarked(), OneCloned();
    OneInv();
    OneBacked();
    OneClone();
    OneFrames();
    ChildWriteHidden(s, t, 2, 5, 0, 0, 0, 6, x);
    ParentWriteHidden(s, t, 2, 5, 0, 0, 0, 4, x);
  }

  lemma OneFrames()
    ensures var s, t := OneMarked(), OneCloned();
      && 2 in s.dirs && Leaf(s.ram, 2, 0, 0) == Entry(4, 0x7) == Leaf(t.ram, 2, 0, 0)
        && Leaf(t.ram, 5, 0, 0) == Entry(6, 0x7)
      && Leaf(s.ram, 2, 0, 6) == Identity(0, 6) && Leaf(s.ram, 2, 0, 4) == Identity(0, 4)
  {
    var s, t := OneMarked(), OneCloned();
    OneLeaf(s.ram, 2, 3, 4, 0, 0);
    OneLeaf(s.ram, 2, 3, 4, 0, 4);
    OneLeaf(s.ram, 2, 3, 4, 0, 6);
    OneLeaf(t.ram, 2, 3, 4, 0, 0);
    OneLeaf(t.ram, 5, 7, 6, 0, 0);
  }

  /** A page mapped elsewhere without the mark is lost in the clone: the child sees the page's own frame. */
  lemma UnmarkedIsLost(s: Space, m: Space, t: Space, d: nat, i: nat, j: nat, g: nat, child: nat)
    requires Inv(s) && d in s.dirs && d != s.kernel && Mapped(s, m, d, i, j, Entry(g, PRESENT + WRITABLE))
    requires Cloned(m, t, d, child) && Slot(i, j) && g != Own(i, j)
    ensures Leaf(t.ram, d, i, j).frame == g && Leaf(t.ram, child, i, j).frame == Own(i, j)
    ensures !Transparent(m.ram, d)
  {
    MappedExact(s, m, d, i, j, Entry(g, PRESENT + WRITABLE));
    CloneParent(m, t, d, child, i, j);
    assert PageCloned(m.ram, t.ram, d, child, i, j);
    assert !Marked(m.ram, d, i, j);
  }

  // ------------------------------------------------------------------------------------------
  // Runs
  // ------------------------------------------------------------------------------------------

  /** The steps that address spaces are made of. Cloning is a `Create` followed by an `Alloc`, a
      `Store` and a `Map` for each marked page. */
  datatype Op =
    | Create(d: nat)
    | Alloc(f: nat)
    | Store(f: nat, x: Frame)
    | Map(d: nat, i: nat, j: nat, e: Entry)
    | Free(d: nat)

  ghost predicate Next(s: Space, op: Op, t: Space) {
    match op
    case Create(d) => Created(s, t, d)
    case Alloc(f) => Allocated(s, t, f)
    case Store(f, x) => f in s.ram && f !in s.dirs && f !in s.tables && t == s.(ram := s.ram[f := x])
    case Map(d, i, j, e) => d in s.dirs && d != s.kernel && e.Present() && Mapped(s, t, d, i, j, e)
    case Free(d) => d in s.dirs && if d == s.kernel then t == s else Freed(s, t, d)
  }

  ghost predicate Booted(s: Space) {
    && s.dirs == {s.kernel} && s.tables == {} && IsTable(s.ram, s.kernel)
    && forall i: nat :: i < ENTRIES ==> s.ram[s.kernel].entries[i] == LargeIdentity(i)
  }

  ghost predicate Run(ss: seq<Space>, ops: seq<Op>) {
    |ss| == |ops| + 1 && forall k :: 0 <= k < |ops| ==> Next(ss[k], ops[k], ss[k + 1])
  }

  lemma BootedInv(s: Space)
    requires Booted(s)
    ensures Inv(s) && AllTransparent(s) && Backed(s)
  {
    forall i: nat | i < ENTRIES ensures !Split(s.ram, s.kernel, i) { LargeLeaf(i, 0); }
    forall i, j | Slot(i, j) ensures Leaf(s.ram, s.kernel, i, j) == Identity(i, j) { UnsplitLeaf(s, s.kernel, i, j); }
  }

  lemma NextInv(s: Space, op: Op, t: Space)
    requires Inv(s) && Next(s, op, t)
    ensures Inv(t) && t.kernel == s.kernel && s.dirs <= t.dirs
  {
    match op {
      case Create(d) => CreatedInv(s, t, d);
      case Alloc(f) => AllocatedInv(s, t, f);
      case Store(f, x) => KeptDirs(s, t.ram);
      case Map(d, i, j, e) => MappedExact(s, t, d, i, j, e);
      case Free(d) => if d != s.kernel { FreedExact(s, t, d); }
    }
  }

  /** In every run the boot directory keeps mapping everything to itself by large pages and each
      page table has one owner. */
  lemma {:induction false} RunInv(ss: seq<Space>, ops: seq<Op>, k: nat)
    requires Run(ss, ops) && Booted(ss[0]) && k < |ss|
    ensures Inv(ss[k]) && ss[k].kernel == ss[0].kernel
  {
    if k == 0 {
      BootedInv(ss[0]);
    } else {
      RunInv(ss, ops, k - 1);
      assert Next(ss[k - 1], ops[k - 1], ss[k]);
      NextInv(ss[k - 1], ops[k - 1], ss[k]);
    }
  }

  /** Each translation after a step is an old one of the same page, the page's own frame, or the entry
      just mapped. */
  lemma NextLeaf(s: Space, op: Op, t: Space, d: nat, i: nat, j: nat)
    requires Inv(s) && Next(s, op, t) && d in t.dirs && Slot(i, j)
    ensures
      || (d in s.dirs && Leaf(t.ram, d, i, j) == Leaf(s.ram, d, i, j))
      || Leaf(t.ram, d, i, j) == Identity(i, j)
      || (op.Map? && Leaf(t.ram, d, i, j) == op.e)
  {
    match op {
      case Create(d') => CreatedInv(s, t, d');
      case Alloc(f) => AllocatedInv(s, t, f);
      case Store(f, x) => KeptDirs(s, t.ram);
      case Map(d', i', j', e) => MappedExact(s, t, d', i', j', e);
      case Free(d') => if d' != s.kernel { FreedExact(s, t, d'); }
    }
  }

  lemma NextFrames(s: Space, op: Op, t: Space, f: nat)
    requires Inv(s) && Next(s, op, t) && Plain(s, f)
    ensures Plain(t, f)
  {
    match op {
      case Create(d) =>
      case Alloc(f') =>
      case Store(f', x) =>
      case Map(d, i, j, e) => MappedExact(s, t, d, i, j, e);
      case Free(d) =>
    }
  }

  /** A mapping as the kernel makes it: marked, and of a frame that was handed out and is not itself a
      directory or a table. */
  predicate Proper(s: Space, op: Op) {
    op.Map? ==> op.e.User() && Plain(s, op.e.frame)
  }

  ghost predicate ProperRun(ss: seq<Space>, ops: seq<Op>) {
    Run(ss, ops) && forall n :: 0 <= n < |ops| ==> Proper(ss[n], ops[n])
  }

  lemma NextMarked(s: Space, op: Op, t: Space)
    requires Inv(s) && AllTransparent(s) && Backed(s) && Next(s, op, t) && Proper(s, op)
    ensures AllTransparent(t) && Backed(t)
  {
    hide Inv, Next;
    forall d, i, j | d in t.dirs && Slot(i, j)
      ensures Marked(t.ram, d, i, j) || Shares(Leaf(t.ram, d, i, j), Identity(i, j))
    {
      NextLeaf(s, op, t, d, i, j);
      if d in s.dirs { assert Transparent(s.ram, d); }
      MapPresent(s, op, t);
    }
    forall d, i, j | d in t.dirs && Slot(i, j) && Marked(t.ram, d, i, j) ensures Plain(t, Leaf(t.ram, d, i, j).frame) {
      NextLeaf(s, op, t, d, i, j);
      if d in s.dirs { assert DirBacked(s, d); }
      MapPresent(s, op, t);
      NextFrames(s, op, t, Leaf(t.ram, d, i, j).frame);
    }
  }

  lemma MapPresent(s: Space, op: Op, t: Space)
    requires Next(s, op, t)
    ensures op.Map? ==> op.e.Present()
  {
  }

  lemma {:induction false} RunMarked(ss: seq<Space>, ops: seq<Op>, k: nat)
    requires ProperRun(ss, ops) && Booted(ss[0]) && k < |ss|
    ensures Inv(ss[k]) && AllTransparent(ss[k]) && Backed(ss[k])
  {
    RunInv(ss, ops, k);
    if k == 0 {
      BootedInv(ss[0]);
    } else {
      RunMarked(ss, ops, k - 1);
      assert Next(ss[k - 1], ops[k - 1], ss[k]) && Proper(ss[k - 1], ops[k - 1]);
      NextMarked(ss[k - 1], ops[k - 1], ss[k]);
    }
  }

  /** In every run whose mappings are all like the kernel's, a fork at any point
      gives a child that reads the same as its parent at every page. */
  lemma ForkInRun(ss: seq<Space>, ops: seq<Op>, k: nat, t: Space, parent: nat, child: nat)
    requires ProperRun(ss, ops) && Booted(ss[0]) && k < |ss|
    requires Cloned(ss[k], t, parent, child)
    ensures forall i, j :: Slot(i, j) ==> Read(t.ram, child, i, j) == Read(t.ram, parent, i, j)
  {
    RunMarked(ss, ops, k);
    forall i, j | Slot(i, j) ensures Read(t.ram, child, i, j) == Read(t.ram, parent, i, j) {
      ForkReadsSame(ss[k], t, parent, child, i, j);
    }
  }

  /** The state with one marked page comes about in three steps after boot. */
  lemma OneReachable() returns (ss: seq<Space>, ops: seq<Op>)
    ensures ProperRun(ss, ops) && Booted(ss[0]) && ss[|ops|] == OneMarked()
  {
    var s0 := Space(map[1 := Table(LargeSlots())], 1, {1}, {});
    var s1 := Space(s0.ram[2 := Table(LargeSlots())], 1, {1, 2}, {});
    var s2 := s1.(ram := s1.ram[4 := ZeroPage()]);
    var e := Entry(4, 0x7);
    ss, ops := [s0, s1, s2, OneMarked()], [Create(2), Alloc(4), Map(2, 0, 0, e)];
    LargeLeaf(0, 0);
    assert OneMarked().ram == SplitRam(s2.ram, 2, 0, 0, e, 3);
    assert MappedBySplit(s2, OneMarked(), 2, 0, 0, e, 3);
  }
}
