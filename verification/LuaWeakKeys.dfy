/** The other half of the ephemeron rule: the atomic phase marks nothing on account of a key that nothing
    else keeps alive, and lists every table that still has such a key, so that its entries are cleared. */
module LuaWeakKeys {
  import opened LuaMarking
  import opened LuaAtomic
  import opened LuaEphemerons
  import opened Reclaim = LuaReclaim

  // ------------------------------------------------------------------------------------------
  // What is not marked
  // ------------------------------------------------------------------------------------------

  /** The entry leads into `U` through a key in `U` only, and not by a string. */
  predicate EntryBars(g: Graph, e: Entry, U: set<Id>) {
    e.Pair? ==>
      && (e.key.Some? && e.key.value in g && g[e.key.value].kind.String? ==> e.key.value !in U)
      && (e.value.Some? && e.value.value in U ==>
           e.key.Some? && e.key.value in U && e.key.value in g && !g[e.key.value].kind.String?)
  }

  predicate TableBars(g: Graph, w: Weak, U: set<Id>) {
    Outside(w.arr, U) && forall e :: e in w.entries ==> EntryBars(g, e, U)
  }

  /** Nothing outside `U` refers into it, except for weak tables through keys in `U`. */
  predicate Barred(g: Graph, ts: Tables, U: set<Id>) {
    Isolated(g, U) && forall h :: h in ts && h !in U ==> TableBars(g, ts[h], U)
  }

  lemma UntouchedTrans(l: Marks, m: Marks, n: Marks, U: set<Id>)
    requires AllWhite(l, U) && Untouched(l, m, U) && (AllWhite(m, U) ==> Untouched(m, n, U))
    ensures AllWhite(m, U) && Untouched(l, n, U) && AllWhite(n, U)
  {
    assert AllWhite(m, U);
  }

  lemma ScanEntryAvoids(g: Graph, s: Scan, e: Entry, U: set<Id>)
    requires Typed(g) && EntryIn(g, e) && Isolated(g, U) && AllWhite(s.m, U) && EntryBars(g, e, U)
    ensures Untouched(s.m, ScanEntry(g, s, e).m, U)
  {
    if e.Pair? && !Cleared(g, s.m, e.key) {
      var m := KeyMarks(g, s.m, e.key);
      if e.key.Some? && g[e.key.value].kind.String? { MarkValueAvoids(g, s.m, e.key.value, U); }
      if WhiteValue(m, e.value) {
        assert e.value.value !in U;
        MarkAvoids(g, m, e.value.value, U);
      }
    }
  }

  lemma {:induction false} ScanAllAvoids(g: Graph, s: Scan, es: seq<Entry>, U: set<Id>)
    requires Typed(g) && (forall e :: e in es ==> EntryIn(g, e)) && Isolated(g, U) && AllWhite(s.m, U)
    requires forall e :: e in es ==> EntryBars(g, e, U)
    ensures Untouched(s.m, ScanAll(g, s, es).m, U)
    decreases |es|
  {
    if es != [] {
      var t := ScanEntry(g, s, es[0]);
      ScanEntryAvoids(g, s, es[0], U);
      UntouchedTrans(s.m, t.m, t.m, U);
      ScanAllAvoids(g, t, es[1..], U);
    }
  }

  lemma TraverseTableAvoids(g: Graph, ts: Tables, l: Lists, h: Id, inv: bool, U: set<Id>)
    requires Start(g, ts, l) && h in ts && h !in U && Barred(g, ts, U) && AllWhite(l.m, U)
    ensures Untouched(l.m, TraverseTable(g, ts, l, h, inv).0.m, U)
  {
    var w := ts[h];
    assert WeakOk(g, h, w) && TableBars(g, w, U);
    var m := MarkAll(g, l.m, w.arr);
    MarkAllAvoids(g, l.m, w.arr, U);
    var s := Scan(m, exists x :: x in w.arr && IsWhite(l.m, x), false, false);
    ScanAllAvoids(g, s, if inv then Reversed(w.entries) else w.entries, U);
  }

  lemma PropagateOneAvoids(g: Graph, ts: Tables, l: Lists, U: set<Id>)
    requires Start(g, ts, l) && l.m.gray != [] && Barred(g, ts, U) && AllWhite(l.m, U)
    ensures Untouched(l.m, PropagateOne(g, ts, l).m, U)
  {
    hide TraverseTable, Barred, Isolated;
    var x, k := l.m.gray[0], l.(m := Traverse(g, l.m, Black));
    BarredIsolated(g, ts, U);
    assert x in l.m.gray && x !in U;
    TraverseAvoids(g, l.m, Black, U);
    if x in ts {
      UntouchedTrans(l.m, k.m, k.m, U);
      TraverseTableAvoids(g, ts, k, x, false, U);
    }
  }

  lemma BarredIsolated(g: Graph, ts: Tables, U: set<Id>)
    requires Barred(g, ts, U)
    ensures Isolated(g, U)
  {}

  lemma {:induction false} PropagateTablesAvoids(g: Graph, ts: Tables, l: Lists, U: set<Id>)
    requires Start(g, ts, l) && Barred(g, ts, U) && AllWhite(l.m, U)
    ensures Untouched(l.m, PropagateTables(g, ts, l).m, U)
    decreases Work(l.m)
  {
    hide PropagateOne, Barred, Untouched, AllWhite;
    if l.m.gray != [] {
      var k := PropagateOne(g, ts, l);
      PropagateOneAvoids(g, ts, l, U);
      PropagateOneWork(g, ts, l);
      UntouchedSame(l.m, k.m, U);
      UntouchedTrans(l.m, k.m, k.m, U);
      PropagateTablesAvoids(g, ts, k, U);
      UntouchedTrans(l.m, k.m, PropagateTables(g, ts, k).m, U);
    } else {
      UntouchedSelf(l.m, U);
    }
  }

  lemma StaysWhite(m: Marks, n: Marks, U: set<Id>)
    requires AllWhite(m, U) && Untouched(m, n, U)
    ensures AllWhite(n, U)
  {}

  lemma UntouchedSelf(m: Marks, U: set<Id>)
    requires AllWhite(m, U)
    ensures Untouched(m, m, U)
  {}

  lemma UntouchedSame(m: Marks, n: Marks, U: set<Id>)
    requires Untouched(m, n, U)
    ensures Untouched(n, n, U)
  {}

  lemma ReachedAvoids(g: Graph, ts: Tables, m: Marks, roots: seq<Id>, threads: seq<Id>, U: set<Id>)
    requires Ready(g, m) && TablesOk(g, ts) && Barred(g, ts, U) && AllWhite(m, U) && Outside(roots, U)
    requires (forall x :: x in roots ==> x in g) && (forall t :: t in threads ==> t in g)
    ensures Untouched(m, Reached(g, ts, m, roots, threads).m, U)
  {
    hide PropagateTables, Barred, Isolated, Remark, MarkAll, Grows, Untouched, AllWhite, Typed, GrayOk, TablesOk;
    BarredIsolated(g, ts, U);
    UntouchedSelf(m, U);
    var a := Lists(MarkAll(g, m, roots), [], []);
    MarkAllGrows(g, m, roots);
    MarkAllAvoids(g, m, roots, U);
    StaysWhite(m, a.m, U);
    PropagateTablesAvoids(g, ts, a, U);
    var b := PropagateTables(g, ts, a);
    StaysWhite(a.m, b.m, U);
    RemarkReady(g, b.m, threads);
    RemarkAvoids(g, b.m, threads, U);
    var c := b.(m := Remark(g, b.m, threads));
    StaysWhite(b.m, c.m, U);
    PropagateTablesAvoids(g, ts, c, U);
    var d := PropagateTables(g, ts, c);
    UntouchedTrans(m, a.m, b.m, U);
    UntouchedTrans(m, b.m, c.m, U);
    UntouchedTrans(m, c.m, d.m, U);
  }

  lemma RevisitedAvoids(g: Graph, ts: Tables, m: Marks, again: seq<Id>, roots: seq<Id>, threads: seq<Id>, U: set<Id>)
    requires Entered(g, ts, m, again) && Barred(g, ts, U) && AllWhite(m, U) && Outside(roots, U)
    requires (forall x :: x in roots ==> x in g) && (forall t :: t in threads ==> t in g)
    ensures Untouched(m, Revisited(g, ts, m, again, roots, threads).m, U)
  {
    hide PropagateTables, Barred, Reached;
    var d := Reached(g, ts, m, roots, threads);
    ReachedAvoids(g, ts, m, roots, threads, U);
    ReachedUnder(g, ts, m, again, roots, threads);
    PropagateTablesAvoids(g, ts, d.(m := Marks(d.m.color, again)), U);
  }

  lemma VisitTableAvoids(g: Graph, ts: Tables, l: Lists, h: Id, dir: bool, U: set<Id>)
    requires Start(g, ts, l) && l.m.gray == [] && h in ts && Marked(l.m, h) && Barred(g, ts, U) && AllWhite(l.m, U)
    ensures Untouched(l.m, VisitTable(g, ts, l, h, dir).0.m, U)
  {
    hide PropagateTables, TraverseTable, Barred;
    var l0 := l.(m := Paint(l.m, h, Black));
    assert h !in U;
    VisitWork(g, ts, l, h, dir);
    TraverseTableAvoids(g, ts, l0, h, dir, U);
    var (k, marked) := TraverseTable(g, ts, l0, h, dir);
    if marked { PropagateTablesAvoids(g, ts, k, U); }
  }

  lemma {:induction false} RoundAvoids(g: Graph, ts: Tables, l: Lists, todo: seq<Id>, dir: bool, U: set<Id>)
    requires Quiet(g, ts, l, todo) && TableInv(ts, l.m, todo + l.ephemeron) && Listed(ts, l.m, l.ephemeron)
    requires Barred(g, ts, U) && AllWhite(l.m, U)
    ensures Untouched(l.m, Round(g, ts, l, todo, dir).0.m, U)
    decreases |todo|
  {
    hide VisitTable, Typed, TableInv, GrayOk, Barred;
    if todo != [] {
      var h, rest := todo[0], todo[1..];
      assert h in todo && todo + l.ephemeron == [h] + rest + l.ephemeron;
      VisitTableInv(g, ts, l, h, dir, rest);
      VisitTableAvoids(g, ts, l, h, dir, U);
      var (k, marked) := VisitTable(g, ts, l, h, dir);
      ListedStays(g, ts, l, h, k, marked, rest);
      RoundAvoids(g, ts, k, rest, dir, U);
    }
  }

  lemma {:induction false} ConvergeAvoids(g: Graph, ts: Tables, l: Lists, dir: bool, U: set<Id>)
    requires Quiet(g, ts, l, l.ephemeron) && TableInv(ts, l.m, l.ephemeron)
    requires Barred(g, ts, U) && AllWhite(l.m, U)
    ensures Untouched(l.m, Converge(g, ts, l, dir).m, U)
    decreases |Whites(l.m)|
  {
    hide Round, Typed, GrayOk, Barred;
    var l0 := l.(ephemeron := []);
    assert l.ephemeron + [] == l.ephemeron;
    RoundInv(g, ts, l0, l.ephemeron, dir);
    RoundAvoids(g, ts, l0, l.ephemeron, dir, U);
    var (k, changed) := Round(g, ts, l0, l.ephemeron, dir);
    if changed { ConvergeAvoids(g, ts, k, !dir, U); }
  }

  /** The atomic phase with ephemeron tables marks nothing in a set that is reached from outside only
      through keys in the set itself. */
  lemma AtomicAvoidsTables(g: Graph, ts: Tables, m: Marks, again: seq<Id>, roots: seq<Id>, threads: seq<Id>, U: set<Id>)
    requires Entered(g, ts, m, again) && Barred(g, ts, U) && AllWhite(m, U) && Outside(roots, U)
    requires (forall x :: x in roots ==> x in g) && (forall t :: t in threads ==> t in g)
    ensures var l := Revisited(g, ts, m, again, roots, threads);
      && Quiet(g, ts, l, l.ephemeron) && TableInv(ts, l.m, l.ephemeron)
      && Untouched(m, Converge(g, ts, l, false).m, U)
  {
    hide Revisited, TableInv, Converge, Barred, Entered;
    RevisitedQuiet(g, ts, m, again, roots, threads);
    RevisitedAvoids(g, ts, m, again, roots, threads, U);
    ConvergeAvoids(g, ts, Revisited(g, ts, m, again, roots, threads), false, U);
  }

  // ------------------------------------------------------------------------------------------
  // What is listed
  // ------------------------------------------------------------------------------------------

  /** The string keys of the table are marked; strings are never removed from a weak table. */
  predicate StringKeys(g: Graph, m: Marks, w: Weak) {
    forall e :: e in w.entries ==> StringKey(g, m, e)
  }

  predicate StringKey(g: Graph, m: Marks, e: Entry) {
    e.Pair? && e.key.Some? && e.key.value in g && g[e.key.value].kind.String? ==> Marked(m, e.key.value)
  }

  /** No entry of the table has to be cleared. */
  predicate NoClears(g: Graph, m: Marks, w: Weak) {
    forall e :: e in w.entries ==> !ClearedEntry(g, m, e)
  }

  predicate ClearedEntry(g: Graph, m: Marks, e: Entry) { e.Pair? && Cleared(g, m, e.key) }

  predicate Sorted(g: Graph, ts: Tables, l: Lists, pending: seq<Id>, h: Id)
    requires h in ts
  {
    && StringKeys(g, l.m, ts[h])
    && (NoClears(g, l.m, ts[h]) || h in pending || h in l.ephemeron || h in l.allweak)
  }

  /** A marked table is still to be traversed, or is in a list if it has keys to be cleared. */
  predicate ListInv(g: Graph, ts: Tables, l: Lists, again: seq<Id>, pending: seq<Id>) {
    forall h :: h in ts && Marked(l.m, h) ==> h in l.m.gray || h in again || Sorted(g, ts, l, pending, h)
  }

  lemma KeysStay(g: Graph, m: Marks, n: Marks, w: Weak)
    requires (forall e :: e in w.entries ==> EntryIn(g, e)) && m.color.Keys == g.Keys
    requires forall x :: Marked(m, x) ==> Marked(n, x)
    ensures StringKeys(g, m, w) ==> StringKeys(g, n, w)
    ensures NoClears(g, m, w) ==> NoClears(g, n, w)
  {
    if StringKeys(g, m, w) {
      forall e | e in w.entries ensures StringKey(g, n, e) { assert StringKey(g, m, e) && EntryIn(g, e); }
    }
    if NoClears(g, m, w) {
      forall e | e in w.entries ensures !ClearedEntry(g, n, e) {
        assert !ClearedEntry(g, m, e) && EntryIn(g, e);
        assert e.Pair? && e.key.Some? && Marked(m, e.key.value) ==> Marked(n, e.key.value);
      }
    }
  }

  lemma SortedStays(g: Graph, ts: Tables, l: Lists, k: Lists, pending: seq<Id>, h: Id)
    requires Start(g, ts, l) && h in ts && Sorted(g, ts, l, pending, h)
    requires (forall x :: Marked(l.m, x) ==> Marked(k.m, x))
    requires (forall x :: x in l.ephemeron ==> x in k.ephemeron) && (forall x :: x in l.allweak ==> x in k.allweak)
    ensures Sorted(g, ts, k, pending, h)
  {
    assert WeakOk(g, h, ts[h]);
    KeysStay(g, l.m, k.m, ts[h]);
  }

  /** What the scan of `es` has seen to. */
  ghost predicate Sifted(g: Graph, s: Scan, t: Scan, es: seq<Entry>) {
    && (s.clears ==> t.clears)
    && forall e :: e in es ==> StringKey(g, t.m, e) && (ClearedEntry(g, t.m, e) ==> t.clears)
  }

  lemma ScanEntrySifts(g: Graph, s: Scan, e: Entry)
    requires Ready(g, s.m) && EntryIn(g, e)
    ensures var t := ScanEntry(g, s, e);
      (s.clears ==> t.clears) && StringKey(g, t.m, e) && (ClearedEntry(g, t.m, e) ==> t.clears)
  {
    if e.Pair? && !Cleared(g, s.m, e.key) {
      var m, t := KeyMarks(g, s.m, e.key), ScanEntry(g, s, e);
      KeyMarksGrows(g, s.m, e.key);
      MarkedStays(g, s.m, m);
      if e.key.Some? && g[e.key.value].kind.String? { MarkValueGrows(g, s.m, e.key.value); }
      if WhiteValue(m, e.value) {
        MarkGrows(g, m, e.value.value);
        MarkedStays(g, m, t.m);
      }
    }
  }

  lemma {:induction false} ScanAllSifts(g: Graph, s: Scan, es: seq<Entry>)
    requires Ready(g, s.m) && forall e :: e in es ==> EntryIn(g, e)
    ensures Sifted(g, s, ScanAll(g, s, es), es)
    decreases |es|
  {
    hide ScanEntry;
    if es != [] {
      var u, t := ScanEntry(g, s, es[0]), ScanAll(g, s, es);
      ScanEntryGrows(g, s, es[0]);
      ScanEntrySifts(g, s, es[0]);
      assert Ready(g, u.m);
      ScanAllSifts(g, u, es[1..]);
      ScanAllGrows(g, u, es[1..]);
      MarkedStays(g, u.m, t.m);
      forall e | e in es ensures StringKey(g, t.m, e) && (ClearedEntry(g, t.m, e) ==> t.clears) {
        if e == es[0] {
          KeysStay(g, u.m, t.m, Weak([], [e]));
          assert e in [e];
          if !u.clears { assert NoClears(g, u.m, Weak([], [e])); }
        }
      }
    }
  }

  lemma ScanTableSifts(g: Graph, m: Marks, w: Weak, inv: bool)
    requires Ready(g, m) && (forall x :: x in w.arr ==> x in g) && forall e :: e in w.entries ==> EntryIn(g, e)
    ensures var t := ScanTable(g, m, w, inv); StringKeys(g, t.m, w) && (NoClears(g, t.m, w) || t.clears)
  {
    hide ScanAll;
    MarkAllGrows(g, m, w.arr);
    var s := Scan(MarkAll(g, m, w.arr), exists x :: x in w.arr && IsWhite(m, x), false, false);
    ScanAllSifts(g, s, if inv then Reversed(w.entries) else w.entries);
  }

  lemma GrowsLists(g: Graph, ts: Tables, l: Lists, n: Marks, again: seq<Id>, pending: seq<Id>)
    requires Start(g, ts, l) && Grows(g, l.m, n) && ListInv(g, ts, l, again, pending)
    ensures ListInv(g, ts, l.(m := n), again, pending)
  {
    hide Sorted;
    var k := l.(m := n);
    MarkedStays(g, l.m, n);
    forall h | h in ts && Marked(n, h) ensures h in n.gray || h in again || Sorted(g, ts, k, pending, h) {
      assert WeakOk(g, h, ts[h]);
      assert Kept(l.m, n, h) || Settled(g, n, h);
      if Marked(l.m, h) && h !in l.m.gray && h !in again { SortedStays(g, ts, l, k, pending, h); }
    }
  }

  lemma SameLists(g: Graph, ts: Tables, l: Lists, k: Lists, again: seq<Id>, again': seq<Id>, pending: seq<Id>)
    requires Start(g, ts, l) && ListInv(g, ts, l, again, pending) && (forall x :: Marked(l.m, x) <==> Marked(k.m, x))
    requires (forall x :: x in l.ephemeron ==> x in k.ephemeron) && (forall x :: x in l.allweak ==> x in k.allweak)
    requires forall h :: h in ts && (h in l.m.gray || h in again) ==>
      h in k.m.gray || h in again' || Sorted(g, ts, k, pending, h)
    ensures ListInv(g, ts, k, again', pending)
  {
    hide Sorted;
    forall h | h in ts && Marked(k.m, h) ensures h in k.m.gray || h in again' || Sorted(g, ts, k, pending, h) {
      assert Marked(l.m, h);
      if h !in l.m.gray && h !in again { SortedStays(g, ts, l, k, pending, h); }
    }
  }

  /** Table `h` traversed: it needs no further visit on account of its keys. */
  lemma TraverseTableLists(g: Graph, ts: Tables, l: Lists, h: Id, inv: bool, again: seq<Id>, pending: seq<Id>)
    requires Start(g, ts, l) && h in ts && Marked(l.m, h) && ListInv(g, ts, l, [h] + again, pending)
    ensures ListInv(g, ts, TraverseTable(g, ts, l, h, inv).0, again, pending)
  {
    hide ScanTable, StringKeys, NoClears, ListInv;
    var w := ts[h];
    assert WeakOk(g, h, w);
    var s, k := ScanTable(g, l.m, w, inv), TraverseTable(g, ts, l, h, inv).0;
    ScanTableGrows(g, l.m, w, inv);
    ScanTableSifts(g, l.m, w, inv);
    MarkedStays(g, l.m, s.m);
    GrowsLists(g, ts, l, s.m, [h] + again, pending);
    RepaintSame(s.m, h);
    KeysStay(g, s.m, k.m, w);
    assert Sorted(g, ts, k, pending, h);
    SameLists(g, ts, l.(m := s.m), k, [h] + again, again, pending);
  }

  lemma UnlinkLists(g: Graph, ts: Tables, l: Lists, again: seq<Id>, pending: seq<Id>)
    requires Start(g, ts, l) && l.m.gray != [] && ListInv(g, ts, l, again, pending)
    ensures var n := Traverse(g, l.m, Black);
      Start(g, ts, l.(m := n)) && Marked(n, l.m.gray[0]) && ListInv(g, ts, l.(m := n), [l.m.gray[0]] + again, pending)
  {
    hide Sorted, ListInv;
    var x, p, n := l.m.gray[0], Unlink(l.m, Black), Traverse(g, l.m, Black);
    assert x in l.m.gray;
    UnlinkReady(g, l.m, Black);
    MarkAllGrows(g, p, g[x].Succ());
    MarkedStays(g, p, n);
    SameLists(g, ts, l, l.(m := p), again, [x] + again, pending);
    GrowsLists(g, ts, l.(m := p), n, [x] + again, pending);
  }

  lemma PropagateOneLists(g: Graph, ts: Tables, l: Lists, again: seq<Id>, pending: seq<Id>)
    requires Start(g, ts, l) && l.m.gray != [] && ListInv(g, ts, l, again, pending)
    ensures ListInv(g, ts, PropagateOne(g, ts, l), again, pending)
  {
    hide TraverseTable, Traverse, Sorted;
    var x := l.m.gray[0];
    UnlinkLists(g, ts, l, again, pending);
    if x in ts { TraverseTableLists(g, ts, l.(m := Traverse(g, l.m, Black)), x, false, again, pending); }
  }

  lemma {:induction false} PropagateTablesLists(g: Graph, ts: Tables, l: Lists, again: seq<Id>, pending: seq<Id>)
    requires Start(g, ts, l) && ListInv(g, ts, l, again, pending)
    ensures ListInv(g, ts, PropagateTables(g, ts, l), again, pending)
    decreases Work(l.m)
  {
    hide PropagateOne, ListInv;
    if l.m.gray != [] {
      PropagateOneLists(g, ts, l, again, pending);
      PropagateOneWork(g, ts, l);
      PropagateTablesLists(g, ts, PropagateOne(g, ts, l), again, pending);
    }
  }

  /** On entry to the atomic phase every marked weak table waits in one of the two gray lists. */
  predicate AllWait(ts: Tables, m: Marks, again: seq<Id>) {
    forall h :: h in ts && Marked(m, h) ==> h in m.gray || h in again
  }

  lemma RevisitedLists(g: Graph, ts: Tables, m: Marks, again: seq<Id>, roots: seq<Id>, threads: seq<Id>)
    requires Entered(g, ts, m, again) && AllWait(ts, m, again)
    requires (forall x :: x in roots ==> x in g) && (forall t :: t in threads ==> t in g)
    ensures ListInv(g, ts, Revisited(g, ts, m, again, roots, threads), [], [])
  {
    hide Grows, PropagateTables, Remark, MarkAll, Sorted;
    var l := Lists(m, [], []);
    MarkAllGrows(g, m, roots);
    var a := l.(m := MarkAll(g, m, roots));
    GrowsLists(g, ts, l, a.m, again, []);
    PropagateTablesLists(g, ts, a, again, []);
    var b := PropagateTables(g, ts, a);
    RemarkReady(g, b.m, threads);
    var c := b.(m := Remark(g, b.m, threads));
    GrowsLists(g, ts, b, c.m, again, []);
    PropagateTablesLists(g, ts, c, again, []);
    var d := Reached(g, ts, m, roots, threads);
    ReachedUnder(g, ts, m, again, roots, threads);
    var e := d.(m := Marks(d.m.color, again));
    SameLists(g, ts, d, e, again, [], []);
    PropagateTablesLists(g, ts, e, [], []);
  }

  lemma VisitTableLists(g: Graph, ts: Tables, l: Lists, h: Id, dir: bool, pending: seq<Id>)
    requires Start(g, ts, l) && l.m.gray == [] && h in ts && Marked(l.m, h) && ListInv(g, ts, l, [], [h] + pending)
    ensures ListInv(g, ts, VisitTable(g, ts, l, h, dir).0, [], pending)
  {
    hide PropagateTables, TraverseTable, StringKeys, NoClears;
    var l0 := l.(m := Paint(l.m, h, Black));
    VisitWork(g, ts, l, h, dir);
    forall x | x in ts && Marked(l0.m, x) ensures x in [h] || Sorted(g, ts, l0, pending, x) {
      if x != h { SortedStays(g, ts, l, l0, [h] + pending, x); }
    }
    TraverseTableLists(g, ts, l0, h, dir, [], pending);
    var (k, marked) := TraverseTable(g, ts, l0, h, dir);
    if marked { PropagateTablesLists(g, ts, k, [], pending); }
  }

  lemma {:induction false} RoundLists(g: Graph, ts: Tables, l: Lists, todo: seq<Id>, dir: bool)
    requires Quiet(g, ts, l, todo) && TableInv(ts, l.m, todo + l.ephemeron) && Listed(ts, l.m, l.ephemeron)
    requires ListInv(g, ts, l, [], todo)
    ensures ListInv(g, ts, Round(g, ts, l, todo, dir).0, [], [])
    decreases |todo|
  {
    hide VisitTable, Typed, TableInv, GrayOk, ListInv;
    if todo != [] {
      var h, rest := todo[0], todo[1..];
      assert h in todo && todo + l.ephemeron == [h] + rest + l.ephemeron && todo == [h] + rest;
      VisitTableInv(g, ts, l, h, dir, rest);
      VisitTableLists(g, ts, l, h, dir, rest);
      var (k, marked) := VisitTable(g, ts, l, h, dir);
      ListedStays(g, ts, l, h, k, marked, rest);
      RoundLists(g, ts, k, rest, dir);
    }
  }

  lemma {:induction false} ConvergeLists(g: Graph, ts: Tables, l: Lists, dir: bool)
    requires Quiet(g, ts, l, l.ephemeron) && TableInv(ts, l.m, l.ephemeron) && ListInv(g, ts, l, [], [])
    ensures ListInv(g, ts, Converge(g, ts, l, dir), [], [])
    decreases |Whites(l.m)|
  {
    hide Round, Typed, GrayOk;
    var l0 := l.(ephemeron := []);
    assert l.ephemeron + [] == l.ephemeron;
    RoundInv(g, ts, l0, l.ephemeron, dir);
    RoundLists(g, ts, l0, l.ephemeron, dir);
    var (k, changed) := Round(g, ts, l0, l.ephemeron, dir);
    if changed { ConvergeLists(g, ts, k, !dir); }
  }

  /** When the atomic phase has converged, every marked table with a key to be cleared is in one of the two
      lists whose tables are cleared, and the string keys of every marked table are marked. */
  lemma AtomicListsTables(g: Graph, ts: Tables, m: Marks, again: seq<Id>, roots: seq<Id>, threads: seq<Id>, h: Id)
    requires Entered(g, ts, m, again) && AllWait(ts, m, again)
    requires (forall x :: x in roots ==> x in g) && (forall t :: t in threads ==> t in g)
    ensures var l := Revisited(g, ts, m, again, roots, threads);
      && Quiet(g, ts, l, l.ephemeron) && TableInv(ts, l.m, l.ephemeron)
      && var k := Converge(g, ts, l, false);
         h in ts && Marked(k.m, h) ==>
           && StringKeys(g, k.m, ts[h])
           && (NoClears(g, k.m, ts[h]) || h in k.ephemeron || h in k.allweak)
  {
    hide Revisited, TableInv, Converge, Entered, StringKeys, NoClears;
    RevisitedQuiet(g, ts, m, again, roots, threads);
    RevisitedLists(g, ts, m, again, roots, threads);
    ConvergeLists(g, ts, Revisited(g, ts, m, again, roots, threads), false);
  }

  // ------------------------------------------------------------------------------------------
  // Exactly what is marked
  // ------------------------------------------------------------------------------------------

  /** A key that keeps the value of its entry when the objects of `K` are kept. */
  predicate AliveIn(g: Graph, K: set<Id>, k: Option<Id>) {
    k.None? || (k.value in g && g[k.value].kind.String?) || k.value in K
  }

  predicate EntrySaturated(g: Graph, K: set<Id>, e: Entry) {
    e.Pair? ==>
      && (e.key.Some? && e.key.value in g && g[e.key.value].kind.String? ==> e.key.value in K)
      && (e.value.Some? && AliveIn(g, K, e.key) ==> e.value.value in K)
  }

  /** `K` keeps what is marked and the roots, with every object all it refers to, and with every
      ephemeron table its array part, its string keys, and the values of the keys in `K`. */
  ghost predicate Saturated(g: Graph, ts: Tables, m: Marks, roots: seq<Id>, K: set<Id>) {
    && (forall x :: Marked(m, x) ==> x in K) && (forall x :: x in roots ==> x in K)
    && (forall x, y :: x in g && x in K && y in g[x].Succ() ==> y in K)
    && (forall h, x :: h in ts && h in K && x in ts[h].arr ==> x in K)
    && (forall h, e :: h in ts && h in K && e in ts[h].entries ==> EntrySaturated(g, K, e))
  }

  function MarkedSet(m: Marks): set<Id> { set x | x in m.color && Marked(m, x) }

  lemma SaturatedBars(g: Graph, ts: Tables, m: Marks, roots: seq<Id>, K: set<Id>)
    requires Ready(g, m) && TablesOk(g, ts) && Saturated(g, ts, m, roots, K)
    ensures var U := g.Keys - K; Barred(g, ts, U) && AllWhite(m, U) && Outside(roots, U)
  {
    var U := g.Keys - K;
    forall h | h in ts && h !in U ensures TableBars(g, ts[h], U) {
      assert WeakOk(g, h, ts[h]) && h in K;
      forall e | e in ts[h].entries ensures EntryBars(g, e, U) { assert EntrySaturated(g, K, e) && EntryIn(g, e); }
    }
  }

  lemma MarkedSaturated(g: Graph, ts: Tables, m: Marks, n: Marks, roots: seq<Id>)
    requires n.color.Keys == g.Keys && TablesOk(g, ts) && Closed(g, n) && AllMarked(n, roots)
    requires forall x :: Marked(m, x) ==> Marked(n, x)
    requires forall h :: h in ts && Marked(n, h) ==> TableOk(g, n, ts[h]) && StringKeys(g, n, ts[h])
    ensures Saturated(g, ts, m, roots, MarkedSet(n))
  {
    var K := MarkedSet(n);
    forall h, e | h in ts && h in K && e in ts[h].entries ensures EntrySaturated(g, K, e) {
      assert TableOk(g, n, ts[h]) && EntryOk(g, n, e) && StringKey(g, n, e);
    }
  }

  /** When the atomic phase has converged, the marked objects are the least set that keeps the roots and
      follows ordinary references and ephemeron entries: no more and no less. */
  lemma MarkedIsLeast(g: Graph, ts: Tables, m: Marks, again: seq<Id>, roots: seq<Id>, threads: seq<Id>, K: set<Id>)
    requires Entered(g, ts, m, again) && AllWait(ts, m, again) && Marking(g, m, again) && GraphOk(g) && Queues(g, again)
    requires (forall x :: x in roots ==> x in g) && (forall t :: t in threads ==> t in g) && AllListed(g, threads)
    ensures var l := Revisited(g, ts, m, again, roots, threads);
      && Quiet(g, ts, l, l.ephemeron) && TableInv(ts, l.m, l.ephemeron)
      && var M := MarkedSet(Converge(g, ts, l, false).m);
         Saturated(g, ts, m, roots, M) && (Saturated(g, ts, m, roots, K) ==> M <= K)
  {
    hide Revisited, TableInv, Converge, GraphOk, Tri, AgainOk, Typed, GrayOk, Closed, Saturated, TableOk, StringKeys;
    AtomicClosesTables(g, ts, m, again, roots, threads);
    var n := Converge(g, ts, Revisited(g, ts, m, again, roots, threads), false).m;
    forall h | h in ts && Marked(n, h) ensures TableOk(g, n, ts[h]) && StringKeys(g, n, ts[h]) {
      AtomicSettles(g, ts, m, again, roots, threads, h);
      AtomicListsTables(g, ts, m, again, roots, threads, h);
    }
    MarkedSaturated(g, ts, m, n, roots);
    if Saturated(g, ts, m, roots, K) {
      SaturatedBars(g, ts, m, roots, K);
      AtomicAvoidsTables(g, ts, m, again, roots, threads, g.Keys - K);
    }
  }
}
