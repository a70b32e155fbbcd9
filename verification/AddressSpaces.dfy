/** The paging code of stage2/paging.c as methods that write directories and tables in place, each
    proved to perform the operation that `PageTables` describes. */
module AddressSpaces {
  import opened PageTables

  lemma {:induction false} Bounded(fs: set<nat>) returns (m: nat)
    ensures forall f :: f in fs ==> f < m
    decreases |fs|
  {
    if fs == {} {
      m := 0;
    } else {
      var f :| f in fs;
      var k := Bounded(fs - {f});
      m := if f < k then k else f + 1;
      forall x | x in fs ensures x < m { assert x == f || x in fs - {f}; }
    }
  }

  // ------------------------------------------------------------------------------------------
  // The clone loop
  // ------------------------------------------------------------------------------------------

  /** Page (a, b) comes before (i, j) in the order of the loop. */
  predicate Before(a: int, b: int, i: int, j: int) { a < i || (a == i && b < j) }

  /** The parts of the state that the loop leaves alone, and the child's own tables. */
  ghost predicate CloneBase(s: Space, t: Space, child: nat) {
    && Inv(t) && t.kernel == s.kernel && child !in s.ram && t.dirs == s.dirs + {child}
    && s.tables <= t.tables && Keeps(s.ram, t.ram) && t.kernel != child
    && (forall i: nat :: Split(t.ram, child, i) ==> Sub(t.ram, child, i) !in s.ram)
    && (forall f :: f in t.tables && f in s.ram ==> f in s.tables)
  }

  ghost predicate PageDone(s: Ram, t: Space, parent: nat, child: nat, a: nat, b: nat) {
    && PageCloned(s, t.ram, parent, child, a, b)
    && (Marked(s, parent, a, b) ==>
         var f := Leaf(t.ram, child, a, b).frame; f !in t.dirs && f !in t.tables)
  }

  ghost predicate PagesDone(s: Ram, t: Space, parent: nat, child: nat, i: nat, j: nat) {
    forall a, b :: Slot(a, b) ==>
      if Before(a, b, i, j) then PageDone(s, t, parent, child, a, b)
      else Leaf(t.ram, child, a, b) == Identity(a, b)
  }

  ghost predicate Apart(s: Ram, t: Ram, parent: nat, child: nat, i: nat, j: nat) {
    forall a: nat, b: nat, a': nat, b': nat ::
      Before(a, b, i, j) && Before(a', b', i, j) && (a, b) != (a', b')
      && Marked(s, parent, a, b) && Marked(s, parent, a', b') ==>
        Leaf(t, child, a, b).frame != Leaf(t, child, a', b').frame
  }

  ghost predicate CloneSoFar(s: Space, t: Space, parent: nat, child: nat, i: nat, j: nat) {
    CloneBase(s, t, child) && PagesDone(s.ram, t, parent, child, i, j) && Apart(s.ram, t.ram, parent, child, i, j)
  }

  lemma CloneStart(s: Space, t: Space, parent: nat, child: nat)
    requires Inv(s) && Created(s, t, child)
    ensures CloneSoFar(s, t, parent, child, 0, 0)
  {
    CreatedInv(s, t, child);
    forall i: nat ensures !Split(t.ram, child, i) {
      if i < ENTRIES {
        assert t.ram[s.kernel].entries[i] == LargeIdentity(i);
        LargeLeaf(i, 0);
      }
    }
  }

  /** A page without the mark needs no work. */
  lemma CloneSkip(s: Space, t: Space, parent: nat, child: nat, i: nat, j: nat)
    requires CloneSoFar(s, t, parent, child, i, j) && Slot(i, j) && !Marked(s.ram, parent, i, j)
    ensures CloneSoFar(s, t, parent, child, i, j + 1)
  {
    forall a, b | Slot(a, b) && Before(a, b, i, j + 1) ensures PageDone(s.ram, t, parent, child, a, b) {
      if (a, b) == (i, j) { assert Leaf(t.ram, child, i, j) == Identity(i, j); } else { assert Before(a, b, i, j); }
    }
    forall a: nat, b: nat, a': nat, b': nat | Before(a, b, i, j + 1) && Before(a', b', i, j + 1) && (a, b) != (a', b')
      && Marked(s.ram, parent, a, b) && Marked(s.ram, parent, a', b')
      ensures Leaf(t.ram, child, a, b).frame != Leaf(t.ram, child, a', b').frame
    {
      assert Before(a, b, i, j) && Before(a', b', i, j);
    }
  }

  lemma CloneRow(s: Space, t: Space, parent: nat, child: nat, i: nat)
    requires CloneSoFar(s, t, parent, child, i, ENTRIES)
    ensures CloneSoFar(s, t, parent, child, i + 1, 0)
  {
    forall a, b | Slot(a, b) ensures Before(a, b, i, ENTRIES) == Before(a, b, i + 1, 0) {}
    forall a: nat, b: nat | Marked(s.ram, parent, a, b) ensures Slot(a, b) {}
  }

  /** Mapping a page writes only the directory and the table of the slot. */
  lemma MappedFrames(u: Space, v: Space, d: nat, i: nat, j: nat, e: Entry)
    requires Inv(u) && d in u.dirs && Mapped(u, v, d, i, j, e)
    ensures forall g :: g in u.ram && g != d && !(Split(u.ram, d, i) && g == Sub(u.ram, d, i)) ==>
      g in v.ram && v.ram[g] == u.ram[g]
    ensures forall k: nat :: Split(v.ram, d, k) ==>
      (Split(u.ram, d, k) && Sub(v.ram, d, k) == Sub(u.ram, d, k)) || Sub(v.ram, d, k) !in u.ram
  {
    if MappedInTable(u, v, d, i, j, e) {
      assert SlotOk(u.ram, u.tables, u.ram[d].entries[i], i);
    } else {
      var f :| MappedBySplit(u, v, d, i, j, e, f);
    }
  }

  lemma CloneCopyBase(s: Space, t: Space, u: Space, v: Space, child: nat, i: nat, j: nat, f: nat, x: Frame, e: Entry)
    requires CloneBase(s, t, child) && Slot(i, j) && f !in t.ram
    requires u == t.(ram := t.ram[f := x]) && Mapped(u, v, child, i, j, e)
    ensures CloneBase(s, v, child)
    ensures SameLeaves(t.ram, u.ram, t.dirs) && SameBut(u.ram, v.ram, u.dirs, child, i, j) && PlainKept(u, v)
    ensures Leaf(v.ram, child, i, j) == e && forall g :: g in v.tables && g in u.ram ==> g in u.tables
    ensures v.dirs == t.dirs
  {
    hide Leaf, Mapped, OneOwner, SlotOk;
    KeptDirs(t, u.ram);
    MappedExact(u, v, child, i, j, e);
    MappedFrames(u, v, child, i, j, e);
    forall k: nat | Split(u.ram, child, k)
      ensures Split(t.ram, child, k) && Sub(u.ram, child, k) == Sub(t.ram, child, k) {}
  }

  /** A marked page copied to the fresh frame `f` and mapped into the child. */
  lemma CloneCopy(s: Space, t: Space, u: Space, v: Space, parent: nat, child: nat, i: nat, j: nat, f: nat)
    requires CloneSoFar(s, t, parent, child, i, j) && Slot(i, j) && Marked(s.ram, parent, i, j) && f !in t.ram
    requires Leaf(s.ram, parent, i, j).frame in s.ram
    requires u == t.(ram := t.ram[f := Content(t.ram, Leaf(s.ram, parent, i, j).frame)])
    requires Mapped(u, v, child, i, j, Entry(f, Leaf(s.ram, parent, i, j).flags))
    ensures CloneSoFar(s, v, parent, child, i, j + 1)
  {
    var e := Entry(f, Leaf(s.ram, parent, i, j).flags);
    CloneCopyBase(s, t, u, v, child, i, j, f, Content(t.ram, Leaf(s.ram, parent, i, j).frame), e);
    forall a, b | Slot(a, b) ensures
      if Before(a, b, i, j + 1) then PageDone(s.ram, v, parent, child, a, b)
      else Leaf(v.ram, child, a, b) == Identity(a, b)
    {
      if (a, b) == (i, j) {
        assert f !in t.dirs && f !in t.tables;
      } else {
        assert Leaf(v.ram, child, a, b) == Leaf(t.ram, child, a, b);
        assert Before(a, b, i, j + 1) == Before(a, b, i, j);
        if Before(a, b, i, j) { assert PageDone(s.ram, t, parent, child, a, b); }
      }
    }
    CloneCopyApart(s, t, u, v, parent, child, i, j, f);
  }

  lemma CloneCopyApart(s: Space, t: Space, u: Space, v: Space, parent: nat, child: nat, i: nat, j: nat, f: nat)
    requires CloneSoFar(s, t, parent, child, i, j) && Slot(i, j) && f !in t.ram && Leaf(v.ram, child, i, j).frame == f
    requires u.dirs == t.dirs && SameLeaves(t.ram, u.ram, t.dirs) && SameBut(u.ram, v.ram, u.dirs, child, i, j)
    ensures Apart(s.ram, v.ram, parent, child, i, j + 1)
  {
    forall a, b | Slot(a, b) && (a, b) != (i, j) ensures Leaf(v.ram, child, a, b) == Leaf(t.ram, child, a, b) {
      assert child in t.dirs;
    }
    forall a, b | Slot(a, b) && Before(a, b, i, j) && Marked(s.ram, parent, a, b)
      ensures Leaf(t.ram, child, a, b).frame in t.ram { assert PageDone(s.ram, t, parent, child, a, b); }
    forall a: nat, b: nat, a': nat, b': nat | Before(a, b, i, j + 1) && Before(a', b', i, j + 1) && (a, b) != (a', b')
      && Marked(s.ram, parent, a, b) && Marked(s.ram, parent, a', b')
      ensures Leaf(v.ram, child, a, b).frame != Leaf(v.ram, child, a', b').frame
    {
      assert Slot(a, b) && Slot(a', b');
      assert (a, b) == (i, j) || Before(a, b, i, j);
      assert (a', b') == (i, j) || Before(a', b', i, j);
    }
  }

  lemma CloneEnd(s: Space, t: Space, parent: nat, child: nat)
    requires parent in s.dirs && CloneSoFar(s, t, parent, child, ENTRIES, 0)
    ensures Cloned(s, t, parent, child)
  {
    forall a, b | Slot(a, b) ensures PageCloned(s.ram, t.ram, parent, child, a, b) {
      assert Before(a, b, ENTRIES, 0);
    }
    forall a, b | Slot(a, b) && Marked(s.ram, parent, a, b) ensures Plain(t, Leaf(t.ram, child, a, b).frame) {
      assert Before(a, b, ENTRIES, 0) && PageDone(s.ram, t, parent, child, a, b);
    }
    forall a: nat, b: nat | Marked(s.ram, parent, a, b) ensures Before(a, b, ENTRIES, 0) {}
  }

  /** Every marked page of `d` lies in a frame that was handed out. */
  ghost predicate Held(ram: Ram, d: nat) {
    forall i, j :: Slot(i, j) && Marked(ram, d, i, j) ==> Leaf(ram, d, i, j).frame in ram
  }

  // ------------------------------------------------------------------------------------------
  // The free loop
  // ------------------------------------------------------------------------------------------

  /** The slots below `i` have been given back. */
  ghost predicate FreeSoFar(s: Ram, t: Ram, d: nat, i: nat) {
    && t.Keys == s.Keys && IsTable(s, d) && IsTable(t, d) && i <= ENTRIES
    && (forall k :: 0 <= k < i ==> t[d].entries[k] == LargeIdentity(k))
    && (forall k :: i <= k < ENTRIES ==> t[d].entries[k] == s[d].entries[k])
    && (forall k :: 0 <= k < i && Split(s, d, k) ==> ClearedAt(s, t, Sub(s, d, k)))
    && (forall f :: f in s && f != d && !(exists k :: 0 <= k < i && Split(s, d, k) && Sub(s, d, k) == f) ==>
         t[f] == s[f])
  }

  lemma FreeSkip(s: Space, t: Ram, d: nat, i: nat)
    requires Inv(s) && d in s.dirs && FreeSoFar(s.ram, t, d, i) && i < ENTRIES && t[d].entries[i].Large()
    ensures FreeSoFar(s.ram, t, d, i + 1)
  {
    assert SlotOk(s.ram, s.tables, s.ram[d].entries[i], i);
  }

  /** The table behind a split slot is a table of its own, different from every directory and from
      the table behind every other slot. */
  lemma SubOf(s: Space, d: nat, i: nat)
    requires Inv(s) && d in s.dirs && Split(s.ram, d, i)
    ensures Sub(s.ram, d, i) in s.tables && IsTable(s.ram, Sub(s.ram, d, i)) && Sub(s.ram, d, i) !in s.dirs
    ensures forall k: nat :: Split(s.ram, d, k) && k != i ==> Sub(s.ram, d, k) != Sub(s.ram, d, i)
  {
    assert SlotOk(s.ram, s.tables, s.ram[d].entries[i], i);
    LargeLeaf(i, 0);
  }

  lemma FreeSlot(s: Space, t: Ram, u: Ram, d: nat, i: nat)
    requires Inv(s) && d in s.dirs && FreeSoFar(s.ram, t, d, i) && Split(s.ram, d, i) && Split(t, d, i)
    requires IsTable(t, Sub(t, d, i))
    requires u == SetEntry(t[Sub(t, d, i) := Table(Cleared(t[Sub(t, d, i)].entries))], d, i, LargeIdentity(i))
    ensures FreeSoFar(s.ram, u, d, i + 1)
  {
    hide Inv, OneOwner, DirOk, SlotOk;
    var f := Sub(s.ram, d, i);
    SubOf(s, d, i);
    assert t[f] == s.ram[f];
    forall k: nat | k < i + 1 && Split(s.ram, d, k) ensures ClearedAt(s.ram, u, Sub(s.ram, d, k)) {
      SubOf(s, d, k);
      if k < i { assert ClearedAt(s.ram, t, Sub(s.ram, d, k)); }
    }
    forall g | g in s.ram && g != d && !(exists k :: 0 <= k < i + 1 && Split(s.ram, d, k) && Sub(s.ram, d, k) == g)
      ensures u[g] == s.ram[g] { assert g != f; }
  }

  lemma FreeEnd(s: Space, t: Space, d: nat)
    requires Inv(s) && d in s.dirs && FreeSoFar(s.ram, t.ram, d, ENTRIES) && t == s.(ram := t.ram)
    ensures Freed(s, t, d)
  {
    assert t.ram[d].entries == s.ram[s.kernel].entries;
    forall i: nat | Split(s.ram, d, i) ensures ClearedAt(s.ram, t.ram, Sub(s.ram, d, i)) {}
    forall f | f in s.ram && f != d && !(exists i :: Split(s.ram, d, i) && Sub(s.ram, d, i) == f)
      ensures t.ram[f] == s.ram[f]
    {
      forall k | 0 <= k < ENTRIES && Split(s.ram, d, k) ensures Sub(s.ram, d, k) != f {}
    }
  }

  // ------------------------------------------------------------------------------------------
  // The code
  // ------------------------------------------------------------------------------------------

  class Paging {
    var ram: Ram
    const kernel: nat
    ghost var dirs: set<nat>
    ghost var tables: set<nat>

    ghost function View(): Space
      reads this
    {
      Space(ram, kernel, dirs, tables)
    }

    ghost predicate Valid()
      reads this
    {
      Inv(View()) && 0 !in dirs
    }

    /** `paging_init`: 1024 large pages, each mapped to itself. */
    constructor (f: nat)
      requires f != 0
      ensures Valid() && Booted(View()) && kernel == f
    {
      kernel, dirs, tables := f, {f}, {};
      ram := map[f := Table(seq(ENTRIES, _ => Entry(0, 0)))];
      new;
      var i := 0;
      while i < ENTRIES
        invariant 0 <= i <= ENTRIES && ram.Keys == {f} && IsTable(ram, f)
        invariant dirs == {f} && tables == {} && kernel == f
        invariant forall k: nat :: k < i ==> ram[f].entries[k] == LargeIdentity(k)
      {
        ram := SetEntry(ram, f, i, Entry(1024 * i, PRESENT + WRITABLE + SIZE_4MB));
        i := i + 1;
      }
      BootedInv(View());
    }

    /** `alloc_aligned_page`: some frame that is not in use, zeroed. */
    method AllocPage() returns (f: nat)
      requires Valid()
      modifies this`ram
      ensures Valid() && f != 0 && Allocated(old(View()), View(), f)
    {
      ghost var m := Bounded(ram.Keys);
      assert m + 1 !in ram;
      f :| f !in ram && f != 0;
      ram := ram[f := ZeroPage()];
      AllocatedInv(old(View()), View(), f);
    }

    /** `paging_create_directory`. */
    method CreateDirectory() returns (d: nat)
      requires Valid()
      modifies this
      ensures Valid() && Created(old(View()), View(), d)
    {
      d := AllocPage();
      ram := ram[d := ram[kernel]];
      dirs := dirs + {d};
      assert ram == old(ram)[d := old(ram)[kernel]];
      CreatedInv(old(View()), View(), d);
    }

    /** The 1024 entries that stand for one large page. */
    method FillIdentity(f: nat, base: nat, ghost i: nat)
      requires f in ram && base == Own(i, 0)
      modifies this`ram
      ensures ram == old(ram)[f := Table(IdentityTable(i))]
    {
      ram := ram[f := Table(seq(ENTRIES, _ => Entry(0, 0)))];
      var k := 0;
      while k < ENTRIES
        invariant 0 <= k <= ENTRIES && IsTable(ram, f) && ram == old(ram)[f := ram[f]]
        invariant forall j :: 0 <= j < k ==> ram[f].entries[j] == Identity(i, j)
      {
        ram := SetEntry(ram, f, k, Entry(base + k, PRESENT + WRITABLE));
        k := k + 1;
      }
      assert ram[f].entries == IdentityTable(i);
    }

    /** `paging_map_page`. */
    method MapPage(pd: nat, vaddr: nat, paddr: nat, flags: Flags)
      requires Valid() && pd in dirs && vaddr < 0x1_0000_0000
      modifies this
      ensures Mapped(old(View()), View(), pd, vaddr / 0x40_0000, vaddr / 4096 % 1024,
                     Entry(paddr / 4096, WithPresent(flags)))
      ensures pd != kernel ==> Valid()
    {
      var dirIdx, tableIdx := vaddr / 0x40_0000, vaddr / 4096 % 1024;
      ghost var e := Entry(paddr / 4096, WithPresent(flags));
      var entry := ram[pd].entries[dirIdx];
      assert SlotOk(ram, tables, entry, dirIdx);
      if entry.Large() {
        SplitAndMap(pd, dirIdx, tableIdx, entry, Entry(paddr / 4096, WithPresent(flags)));
      } else {
        ram := SetEntry(ram, entry.frame, tableIdx, Entry(paddr / 4096, WithPresent(flags)));
        assert MappedInTable(old(View()), View(), pd, dirIdx, tableIdx, e);
      }
      if pd != kernel { MappedExact(old(View()), View(), pd, dirIdx, tableIdx, e); }
    }

    /** The branch of `paging_map_page` that first replaces a large page by a table. */
    method SplitAndMap(pd: nat, i: nat, j: nat, entry: Entry, e: Entry)
      requires Valid() && pd in dirs && Slot(i, j) && entry == ram[pd].entries[i] && entry.Large()
      modifies this
      ensures exists f :: MappedBySplit(old(View()), View(), pd, i, j, e, f)
      ensures dirs == old(dirs)
    {
      assert SlotOk(ram, tables, entry, i);
      LargeLeaf(i, 0);
      var table := AllocPage();
      FillIdentity(table, entry.frame / 1024 * 1024, i);
      ram := SetEntry(ram, pd, i, Entry(table, PRESENT + WRITABLE));
      ram := SetEntry(ram, table, j, e);
      tables := tables + {table};
      assert ram == SplitRam(old(ram), pd, i, j, e, table);
      assert MappedBySplit(old(View()), View(), pd, i, j, e, table);
    }

    /** `paging_clone_directory`. */
    method CloneDirectory(parent: nat) returns (child: nat)
      requires Valid() && parent in dirs && Held(ram, parent)
      modifies this
      ensures Valid() && Cloned(old(View()), View(), parent, child)
    {
      ghost var s := View();
      child := CreateDirectory();
      CloneStart(s, View(), parent, child);
      var i := 0;
      while i < ENTRIES
        invariant 0 <= i <= ENTRIES && Valid() && CloneSoFar(s, View(), parent, child, i, 0)
      {
        var entry := ram[parent].entries[i];
        assert SlotOk(s.ram, s.tables, entry, i);
        if entry.Present() && !entry.Large() {
          CloneTable(parent, child, i, entry.frame, s);
        } else {
          CloneLargeRow(s, View(), parent, child, i);
        }
        CloneRow(s, View(), parent, child, i);
        i := i + 1;
      }
      CloneEnd(s, View(), parent, child);
    }

    /** The inner loop of `paging_clone_directory`. */
    method CloneTable(parent: nat, child: nat, i: nat, table: nat, ghost s: Space)
      requires Valid() && i < ENTRIES && Inv(s) && parent in s.dirs && 0 !in s.dirs && Held(s.ram, parent)
      requires Split(s.ram, parent, i) && Sub(s.ram, parent, i) == table
      requires CloneSoFar(s, View(), parent, child, i, 0)
      modifies this
      ensures Valid() && CloneSoFar(s, View(), parent, child, i, ENTRIES)
    {
      assert SlotOk(s.ram, s.tables, s.ram[parent].entries[i], i);
      var j := 0;
      while j < ENTRIES
        invariant 0 <= j <= ENTRIES && Valid() && CloneSoFar(s, View(), parent, child, i, j)
      {
        var pte := ram[table].entries[j];
        assert pte == Leaf(s.ram, parent, i, j);
        if pte.Present() && pte.User() {
          CopyPage(parent, child, i, j, pte, s);
        } else {
          CloneSkip(s, View(), parent, child, i, j);
        }
        j := j + 1;
      }
    }

    method CopyPage(parent: nat, child: nat, i: nat, j: nat, pte: Entry, ghost s: Space)
      requires Valid() && Slot(i, j) && Held(s.ram, parent) && CloneSoFar(s, View(), parent, child, i, j)
      requires pte == Leaf(s.ram, parent, i, j) && pte.Present() && pte.User()
      modifies this
      ensures Valid() && CloneSoFar(s, View(), parent, child, i, j + 1)
    {
      ghost var t := View();
      var page := AllocPage();
      ram := ram[page := ram[pte.frame]];
      ghost var u := View();
      assert u.ram == t.ram[page := Content(t.ram, pte.frame)];
      KeptDirs(t, u.ram);
      VirtualAddress(i, j);
      MapPage(child, i * 0x40_0000 + j * 4096, page * 4096, pte.flags);
      CloneCopy(s, t, u, View(), parent, child, i, j, page);
    }

    /** `paging_free_directory`. */
    method FreeDirectory(pd: nat)
      requires Valid() && (pd == 0 || pd in dirs)
      modifies this`ram
      ensures Valid()
      ensures if pd == 0 || pd == kernel then ram == old(ram) else Freed(old(View()), View(), pd)
    {
      if pd == 0 || pd == kernel { return; }
      ghost var s := View();
      var i := 0;
      while i < ENTRIES
        invariant 0 <= i <= ENTRIES && FreeSoFar(s.ram, ram, pd, i)
      {
        var entry := ram[pd].entries[i];
        assert SlotOk(s.ram, s.tables, entry, i);
        LargeLeaf(i, 0);
        if entry.Present() && !entry.Large() {
          ghost var t := ram;
          ReadyToClear(s, t, pd, i);
          ClearTable(entry.frame);
          ram := SetEntry(ram, pd, i, ram[kernel].entries[i]);
          FreeSlot(s, t, ram, pd, i);
        } else {
          FreeSkip(s, ram, pd, i);
        }
        i := i + 1;
      }
      FreeEnd(s, View(), pd);
      FreedExact(s, View(), pd);
    }

    method ClearTable(f: nat)
      requires IsTable(ram, f)
      modifies this`ram
      ensures ram == old(ram)[f := Table(Cleared(old(ram[f].entries)))]
    {
      ghost var es := ram[f].entries;
      var j := 0;
      while j < ENTRIES
        invariant 0 <= j <= ENTRIES && IsTable(ram, f) && ram == old(ram)[f := ram[f]]
        invariant forall k :: 0 <= k < ENTRIES ==> ram[f].entries[k] == if k < j then Cleared(es)[k] else es[k]
      {
        var pte := ram[f].entries[j];
        if pte.Present() && pte.User() {
          ram := SetEntry(ram, f, j, Entry(0, 0));
        }
        j := j + 1;
      }
      assert ram[f].entries == Cleared(es);
    }
  }

  /** A slot that is not split has no marked page, so the whole row is skipped. */
  lemma CloneLargeRow(s: Space, t: Space, parent: nat, child: nat, i: nat)
    requires Inv(s) && parent in s.dirs && i < ENTRIES && !Split(s.ram, parent, i)
    requires CloneSoFar(s, t, parent, child, i, 0)
    ensures CloneSoFar(s, t, parent, child, i, ENTRIES)
  {
    var j := 0;
    while j < ENTRIES
      invariant 0 <= j <= ENTRIES && CloneSoFar(s, t, parent, child, i, j)
    {
      UnsplitLeaf(s, parent, i, j);
      CloneSkip(s, t, parent, child, i, j);
      j := j + 1;
    }
  }

  lemma ReadyToClear(s: Space, t: Ram, d: nat, i: nat)
    requires Inv(s) && d in s.dirs && d != s.kernel && FreeSoFar(s.ram, t, d, i) && i < ENTRIES && Split(t, d, i)
    ensures Split(s.ram, d, i) && Sub(t, d, i) == Sub(s.ram, d, i) && IsTable(t, Sub(t, d, i))
    ensures s.kernel in t && t[s.kernel] == s.ram[s.kernel] && Sub(t, d, i) != s.kernel && Sub(t, d, i) != d
  {
    hide OneOwner, SlotOk;
    SubOf(s, d, i);
    forall k: nat | Split(s.ram, d, k) ensures Sub(s.ram, d, k) != s.kernel { SubOf(s, d, k); }
    assert t[Sub(s.ram, d, i)] == s.ram[Sub(s.ram, d, i)];
  }

  /** The indices that the processor takes from a virtual address. */
  lemma VirtualAddress(i: nat, j: nat)
    requires Slot(i, j)
    ensures var v := i * 0x40_0000 + j * 4096; v < 0x1_0000_0000 && v / 0x40_0000 == i && v / 4096 % 1024 == j
  {
    assert (i * 0x40_0000 + j * 4096) / 4096 == 1024 * i + j;
  }
}
