/** Ephemeron tables: weak keys whose values are marked only through their keys.  The convergence
    loop of the atomic phase terminates, and when it does no entry with a live key has a dead value. */
module LuaEphemerons {
  import Bags
  import opened LuaMarking
  import opened LuaAtomic

  datatype Option<+T> = None | Some(value: T)

  /** A node of the hash part; a missing key or value is one that is not collectable. */
  datatype Entry = Empty | Pair(key: Option<Id>, value: Option<Id>)

  /** The weak-key tables: array part and hash part.  Their metatable is an ordinary reference. */
  datatype Weak = Weak(arr: seq<Id>, entries: seq<Entry>)
  type Tables = map<Id, Weak>

  /** The lists a traversed ephemeron table can be linked into. */
  datatype Lists = Lists(m: Marks, ephemeron: seq<Id>, allweak: seq<Id>)

  predicate EntryIn(g: Graph, e: Entry) {
    e.Pair? ==> (e.key.Some? ==> e.key.value in g) && (e.value.Some? ==> e.value.value in g)
  }

  predicate WeakOk(g: Graph, h: Id, w: Weak) {
    && h in g && g[h].kind.Container?
    && (forall x :: x in w.arr ==> x in g)
    && (forall e :: e in w.entries ==> EntryIn(g, e))
  }

  predicate TablesOk(g: Graph, ts: Tables) {
    forall h :: h in ts ==> WeakOk(g, h, ts[h])
  }

  // ------------------------------------------------------------------------------------------
  // Traversal of one table
  // ------------------------------------------------------------------------------------------

  /** `iscleared`: strings count as values, so a white string key is marked and kept. */
  function KeyMarks(g: Graph, m: Marks, k: Option<Id>): Marks
    requires Typed(g) && (k.Some? ==> k.value in g)
  {
    if k.Some? && g[k.value].kind.String? then MarkValue(g, m, k.value) else m
  }

  predicate Cleared(g: Graph, m: Marks, k: Option<Id>) {
    k.Some? && k.value in g && !g[k.value].kind.String? && IsWhite(m, k.value)
  }

  predicate WhiteValue(m: Marks, v: Option<Id>) { v.Some? && IsWhite(m, v.value) }

  /** What the loop over the hash part has found so far. */
  datatype Scan = Scan(m: Marks, marked: bool, clears: bool, ww: bool)

  function ScanEntry(g: Graph, s: Scan, e: Entry): Scan
    requires Typed(g) && EntryIn(g, e)
  {
    match e
    case Empty => s
    case Pair(k, v) =>
      if Cleared(g, s.m, k) then
        s.(clears := true, ww := s.ww || WhiteValue(s.m, v))
      else
        var m := KeyMarks(g, s.m, k);
        if WhiteValue(m, v) then s.(m := Mark(g, m, v.value), marked := true) else s.(m := m)
  }

  function ScanAll(g: Graph, s: Scan, es: seq<Entry>): Scan
    requires Typed(g) && forall e :: e in es ==> EntryIn(g, e)
    decreases |es|
  {
    if es == [] then s else ScanAll(g, ScanEntry(g, s, es[0]), es[1..])
  }

  function Reversed(es: seq<Entry>): (r: seq<Entry>)
    ensures forall e :: e in r <==> e in es
  {
    if es == [] then [] else Reversed(es[1..]) + [es[0]]
  }

  /** `traverseephemeron` up to the linking: array part, then hash part in either direction. */
  function ScanTable(g: Graph, m: Marks, w: Weak, inv: bool): Scan
    requires Typed(g) && (forall x :: x in w.arr ==> x in g) && forall e :: e in w.entries ==> EntryIn(g, e)
  {
    ScanAll(g, Scan(MarkAll(g, m, w.arr), exists x :: x in w.arr && IsWhite(m, x), false, false),
            if inv then Reversed(w.entries) else w.entries)
  }

  /** The linking at the end of `traverseephemeron` in the atomic phase. */
  function Link(s: Scan, l: Lists, h: Id): Lists {
    if s.ww then Lists(Paint(s.m, h, Gray), [h] + l.ephemeron, l.allweak)
    else if s.clears then Lists(Paint(s.m, h, Gray), l.ephemeron, [h] + l.allweak)
    else l.(m := s.m)
  }

  // ------------------------------------------------------------------------------------------
  // What one traversal guarantees
  // ------------------------------------------------------------------------------------------

  predicate ValueMarked(m: Marks, e: Entry) { e.Pair? && e.value.Some? ==> Marked(m, e.value.value) }

  /** Nothing in the table is still to be marked, whatever happens to its keys. */
  predicate AllValues(m: Marks, w: Weak) {
    AllMarked(m, w.arr) && forall e :: e in w.entries ==> ValueMarked(m, e)
  }

  /** A key that is not going to be collected: not collectable, a string, or marked. */
  predicate KeyAlive(g: Graph, m: Marks, k: Option<Id>) {
    k.None? || (k.value in g && g[k.value].kind.String?) || Marked(m, k.value)
  }

  /** The ephemeron rule for one entry: a live key keeps its value alive. */
  predicate EntryOk(g: Graph, m: Marks, e: Entry) {
    e.Pair? && KeyAlive(g, m, e.key) ==> ValueMarked(m, e)
  }

  predicate TableOk(g: Graph, m: Marks, w: Weak) {
    AllMarked(m, w.arr) && forall e :: e in w.entries ==> EntryOk(g, m, e)
  }

  /** Only strings have been marked between `m` and `n`. */
  ghost predicate OnlyStrings(g: Graph, m: Marks, n: Marks) {
    forall x :: x in g && !g[x].kind.String? && IsWhite(m, x) ==> IsWhite(n, x)
  }

  /** What scanning the entries `es` adds to a scan. */
  ghost predicate Scanned(g: Graph, s: Scan, t: Scan, es: seq<Entry>) {
    && Grows(g, s.m, t.m) && (s.marked ==> t.marked) && (s.ww ==> t.ww)
    && (forall e :: e in es ==> ValueMarked(t.m, e) || t.ww)
    && (!t.marked ==> OnlyStrings(g, s.m, t.m) && forall e :: e in es ==> EntryOk(g, t.m, e))
    && (t.marked && !s.marked ==> |Whites(t.m)| < |Whites(s.m)|)
  }

  lemma KeyMarksGrows(g: Graph, m: Marks, k: Option<Id>)
    requires Ready(g, m) && (k.Some? ==> k.value in g)
    ensures var n := KeyMarks(g, m, k); Grows(g, m, n) && GrayOk(n) && OnlyStrings(g, m, n)
  {
    if k.Some? && g[k.value].kind.String? {
      MarkValueGrows(g, m, k.value);
      StringOnly(g, m, k.value);
    }
  }

  lemma ScanEntryGrows(g: Graph, s: Scan, e: Entry)
    requires Ready(g, s.m) && EntryIn(g, e)
    ensures var t := ScanEntry(g, s, e);
      Ready(g, t.m) && Scanned(g, s, t, [e])
  {
    hide Mark;
    if e.Pair? && !Cleared(g, s.m, e.key) {
      var m := KeyMarks(g, s.m, e.key);
      KeyMarksGrows(g, s.m, e.key);
      if WhiteValue(m, e.value) {
        var n := Mark(g, m, e.value.value);
        MarkGrows(g, m, e.value.value);
        GrowsTrans(g, s.m, m, n);
        MarkedStays(g, s.m, m);
        FewerWhites(g, s.m, n, e.value.value);
      }
    }
  }

  lemma {:induction false} ScanAllGrows(g: Graph, s: Scan, es: seq<Entry>)
    requires Ready(g, s.m) && forall e :: e in es ==> EntryIn(g, e)
    ensures Ready(g, ScanAll(g, s, es).m) && Scanned(g, s, ScanAll(g, s, es), es)
    decreases |es|
  {
    if es != [] {
      var u := ScanEntry(g, s, es[0]);
      ScanEntryGrows(g, s, es[0]);
      ScanAllGrows(g, u, es[1..]);
      assert es[..1] == [es[0]];
      ScannedTrans(g, s, u, ScanAll(g, s, es), es);
    }
  }

  lemma ScannedTrans(g: Graph, s: Scan, u: Scan, t: Scan, es: seq<Entry>)
    requires es != [] && Scanned(g, s, u, es[..1]) && Scanned(g, u, t, es[1..])
    requires u.m.color.Keys == g.Keys && forall e :: e in es ==> EntryIn(g, e)
    ensures Scanned(g, s, t, es)
  {
    GrowsTrans(g, s.m, u.m, t.m);
    MarkedStays(g, u.m, t.m);
    WhitesLe(g, s.m, u.m);
    WhitesLe(g, u.m, t.m);
    forall e | e in es ensures ValueMarked(t.m, e) || t.ww { assert e in es[..1] || e in es[1..]; }
    if !t.marked {
      forall e | e in es ensures EntryOk(g, t.m, e) {
        if e in es[..1] { EntryOkStays(g, u.m, t.m, e); } else { assert e in es[1..]; }
      }
    }
  }

  lemma EntryOkStays(g: Graph, m: Marks, n: Marks, e: Entry)
    requires EntryOk(g, m, e) && OnlyStrings(g, m, n) && EntryIn(g, e) && m.color.Keys == g.Keys
    requires forall x :: Marked(m, x) ==> Marked(n, x)
    ensures EntryOk(g, n, e)
  {
  }

  lemma WhitesLe(g: Graph, m: Marks, n: Marks)
    requires Grows(g, m, n)
    ensures |Whites(n)| <= |Whites(m)|
  {
    MarkedStays(g, m, n);
    CardLe(Whites(n), Whites(m));
  }

  lemma StringOnly(g: Graph, m: Marks, x: Id)
    requires Typed(g) && x in g && g[x].kind.String?
    ensures OnlyStrings(g, m, MarkValue(g, m, x))
  {
  }

  /** Marking `x`, among others, leaves fewer white objects. */
  lemma FewerWhites(g: Graph, m: Marks, n: Marks, x: Id)
    requires Grows(g, m, n) && IsWhite(m, x) && Marked(n, x)
    ensures |Whites(n)| < |Whites(m)|
  {
    MarkedStays(g, m, n);
    assert Whites(n) <= Whites(m) - {x};
    CardLe(Whites(n), Whites(m) - {x});
  }

  lemma {:induction false} CardLe(a: set<Id>, b: set<Id>)
    requires a <= b
    ensures |a| <= |b|
  {
    if a != {} {
      var x :| x in a;
      CardLe(a - {x}, b - {x});
    }
  }

  /** The array part: a scan of no entries yet. */
  lemma ArrayGrows(g: Graph, m: Marks, xs: seq<Id>)
    requires Ready(g, m) && forall x :: x in xs ==> x in g
    ensures var n := MarkAll(g, m, xs); var found := exists x :: x in xs && IsWhite(m, x);
      && Ready(g, n) && Grows(g, m, n) && AllMarked(n, xs)
      && (if found then |Whites(n)| < |Whites(m)| else n == m)
  {
    MarkAllGrows(g, m, xs);
    if x :| x in xs && IsWhite(m, x) {
      FewerWhites(g, m, MarkAll(g, m, xs), x);
    } else {
      MarkNothing(g, m, xs);
    }
  }

  /** What traversing table `w` guarantees. */
  ghost predicate TableScanned(g: Graph, m: Marks, s: Scan, w: Weak) {
    && Grows(g, m, s.m)
    && (!s.ww ==> AllValues(s.m, w))
    && (!s.marked ==> OnlyStrings(g, m, s.m) && TableOk(g, s.m, w))
    && (s.marked ==> |Whites(s.m)| < |Whites(m)|)
  }

  lemma JoinScans(g: Graph, m: Marks, a: Scan, t: Scan, es: seq<Entry>, w: Weak)
    requires Grows(g, m, a.m) && AllMarked(a.m, w.arr) && Scanned(g, a, t, es) && !a.ww
    requires if a.marked then |Whites(a.m)| < |Whites(m)| else a.m == m
    requires forall e :: e in w.entries <==> e in es
    ensures TableScanned(g, m, t, w)
  {
    GrowsTrans(g, m, a.m, t.m);
    MarkedStays(g, a.m, t.m);
    WhitesLe(g, a.m, t.m);
  }

  /** A traversal of a table settles its array part and every entry that is not white on both sides. */
  lemma ScanTableGrows(g: Graph, m: Marks, w: Weak, inv: bool)
    requires Ready(g, m) && (forall x :: x in w.arr ==> x in g) && forall e :: e in w.entries ==> EntryIn(g, e)
    ensures Ready(g, ScanTable(g, m, w, inv).m) && TableScanned(g, m, ScanTable(g, m, w, inv), w)
  {
    hide MarkAll, Grows, Typed, GrayOk;
    ArrayGrows(g, m, w.arr);
    var a := Scan(MarkAll(g, m, w.arr), exists x :: x in w.arr && IsWhite(m, x), false, false);
    var es := if inv then Reversed(w.entries) else w.entries;
    ScanAllGrows(g, a, es);
    JoinScans(g, m, a, ScanAll(g, a, es), es, w);
  }

  lemma {:induction false} MarkNothing(g: Graph, m: Marks, xs: seq<Id>)
    requires Typed(g) && (forall x :: x in xs ==> x in g && !IsWhite(m, x))
    ensures MarkAll(g, m, xs) == m
    decreases |xs|
  {
    if xs != [] { MarkNothing(g, m, xs[1..]); }
  }

  // ------------------------------------------------------------------------------------------
  // Propagation with tables
  // ------------------------------------------------------------------------------------------

  /** A marked table is queued, listed, or needs nothing any more. */
  predicate TableInv(ts: Tables, m: Marks, lists: seq<Id>) {
    forall h :: h in ts && Marked(m, h) ==> h in m.gray || h in lists || AllValues(m, ts[h])
  }

  lemma GrowsKeepsTables(g: Graph, ts: Tables, m: Marks, n: Marks, lists: seq<Id>)
    requires TablesOk(g, ts) && m.color.Keys == g.Keys && Grows(g, m, n) && TableInv(ts, m, lists)
    ensures TableInv(ts, n, lists)
  {
    MarkedStays(g, m, n);
    forall h | h in ts && Marked(n, h) ensures h in n.gray || h in lists || AllValues(n, ts[h]) {
      assert WeakOk(g, h, ts[h]);
      assert Kept(m, n, h) || Settled(g, n, h);
    }
  }

  predicate Start(g: Graph, ts: Tables, l: Lists) { Ready(g, l.m) && TablesOk(g, ts) }

  /** `traverseephemeron` for table `h`. */
  function TraverseTable(g: Graph, ts: Tables, l: Lists, h: Id, inv: bool): (r: (Lists, bool))
    requires Start(g, ts, l) && h in ts
  {
    assert WeakOk(g, h, ts[h]);
    var s := ScanTable(g, l.m, ts[h], inv);
    (Link(s, l, h), s.marked)
  }

  /** Progress between two points of the atomic phase. */
  ghost predicate Moves(m: Marks, n: Marks) {
    && n.color.Keys == m.color.Keys && (forall x :: Marked(m, x) ==> Marked(n, x))
    && |Whites(n)| <= |Whites(m)|
  }

  lemma RepaintSame(m: Marks, h: Id)
    requires Marked(m, h)
    ensures var n := Paint(m, h, Gray);
      && Whites(n) == Whites(m) && n.gray == m.gray
      && (forall x :: Marked(n, x) <==> Marked(m, x)) && (forall x :: IsWhite(n, x) <==> IsWhite(m, x))
  {
  }

  lemma RepaintMarked(g: Graph, ts: Tables, m: Marks, h: Id, lists: seq<Id>)
    requires Ready(g, m) && Marked(m, h) && TableInv(ts, m, lists)
    ensures var n := Paint(m, h, Gray);
      && Ready(g, n) && TableInv(ts, n, lists) && Whites(n) == Whites(m)
      && (forall x :: Marked(n, x) <==> Marked(m, x)) && (forall x :: IsWhite(n, x) <==> IsWhite(m, x))
  {
    var n := Paint(m, h, Gray);
    forall k | k in ts && Marked(n, k) ensures k in n.gray || k in lists || AllValues(n, ts[k]) {
      assert Marked(m, k);
      if AllValues(m, ts[k]) {
        forall x | x in ts[k].arr ensures Marked(n, x) { assert Marked(m, x); }
        forall e | e in ts[k].entries ensures ValueMarked(n, e) { assert ValueMarked(m, e); }
      }
    }
  }

  lemma TableOkSame(g: Graph, m: Marks, n: Marks, w: Weak)
    requires TableOk(g, m, w) && forall x :: Marked(n, x) <==> Marked(m, x)
    ensures TableOk(g, n, w)
  {
    forall x | x in w.arr ensures Marked(n, x) { assert Marked(m, x); }
    forall e | e in w.entries ensures EntryOk(g, n, e) { assert EntryOk(g, m, e); }
  }

  /** The table list invariant after the scan of `h`, before `h` is linked. */
  lemma ScanKeepsTables(g: Graph, ts: Tables, l: Lists, h: Id, s: Scan, pending: seq<Id>)
    requires Start(g, ts, l) && h in ts && TableInv(ts, l.m, [h] + pending + l.ephemeron)
    requires TableScanned(g, l.m, s, ts[h])
    ensures TableInv(ts, s.m, [h] + pending + l.ephemeron)
    ensures !s.ww ==> TableInv(ts, s.m, pending + l.ephemeron)
    ensures TableInv(ts, s.m, pending + ([h] + l.ephemeron))
  {
    GrowsKeepsTables(g, ts, l.m, s.m, [h] + pending + l.ephemeron);
  }

  ghost predicate Traversed(g: Graph, ts: Tables, l: Lists, h: Id, k: Lists, marked: bool) {
    && Moves(l.m, k.m) && Work(k.m) <= Work(l.m)
    && (k.ephemeron == l.ephemeron || k.ephemeron == [h] + l.ephemeron)
    && (!marked ==>
         OnlyStrings(g, l.m, k.m) && h in ts && TableOk(g, k.m, ts[h]) && (l.m.gray == [] ==> k.m.gray == []))
    && (marked ==> |Whites(k.m)| < |Whites(l.m)|)
  }

  lemma TraverseTableMoves(g: Graph, ts: Tables, l: Lists, h: Id, inv: bool)
    requires Start(g, ts, l) && h in ts && Marked(l.m, h)
    ensures var r := TraverseTable(g, ts, l, h, inv); Traversed(g, ts, l, h, r.0, r.1)
  {
    hide ScanTable, TablesOk, Typed, TableOk, AllValues, GrayOk;
    assert WeakOk(g, h, ts[h]) by { TableAt(g, ts, h); }
    ScanTableGrows(g, l.m, ts[h], inv);
    var s := ScanTable(g, l.m, ts[h], inv);
    MarkedStays(g, l.m, s.m);
    WhitesLe(g, l.m, s.m);
    NoQueue(g, l.m, s.m);
    RepaintSame(s.m, h);
    if !s.marked { TableOkSame(g, s.m, Paint(s.m, h, Gray), ts[h]); }
  }

  lemma TraverseTableInv(g: Graph, ts: Tables, l: Lists, h: Id, inv: bool, pending: seq<Id>)
    requires Start(g, ts, l) && h in ts && Marked(l.m, h)
    requires TableInv(ts, l.m, [h] + pending + l.ephemeron)
    ensures var r := TraverseTable(g, ts, l, h, inv);
      && Start(g, ts, r.0) && TableInv(ts, r.0.m, pending + r.0.ephemeron)
      && Traversed(g, ts, l, h, r.0, r.1)
  {
    hide ScanTable, TablesOk, Typed, Traversed;
    assert WeakOk(g, h, ts[h]) by { TableAt(g, ts, h); }
    ScanTableGrows(g, l.m, ts[h], inv);
    var s := ScanTable(g, l.m, ts[h], inv);
    ScanKeepsTables(g, ts, l, h, s, pending);
    MarkedStays(g, l.m, s.m);
    var lists := if s.ww then pending + ([h] + l.ephemeron) else pending + l.ephemeron;
    RepaintMarked(g, ts, s.m, h, lists);
    TraverseTableMoves(g, ts, l, h, inv);
  }

  lemma TableAt(g: Graph, ts: Tables, h: Id)
    requires TablesOk(g, ts) && h in ts
    ensures WeakOk(g, h, ts[h])
  {}

  lemma NoQueue(g: Graph, m: Marks, n: Marks)
    requires Grows(g, m, n)
    ensures OnlyStrings(g, m, n) && m.gray == [] && GrayOk(n) ==> n.gray == []
  {
    forall x | x in n.gray ensures x in m.gray || (IsWhite(m, x) && x in g && g[x].kind.Queued?()) {}
    Bags.FirstIn(n.gray);
  }

  /** `propagatemark` in the atomic phase, where a weak table is traversed like one. */
  function PropagateOne(g: Graph, ts: Tables, l: Lists): Lists
    requires Start(g, ts, l) && l.m.gray != []
  {
    var x := l.m.gray[0];
    var k := l.(m := Traverse(g, l.m, Black));
    if x in ts then TraverseTable(g, ts, k, x, false).0 else k
  }

  /** Taking `x` off the gray list and marking what it refers to. */
  lemma TraverseTables(g: Graph, ts: Tables, m: Marks, lists: seq<Id>)
    requires Ready(g, m) && TablesOk(g, ts) && m.gray != [] && TableInv(ts, m, lists)
    ensures var n := Traverse(g, m, Black);
      && Ready(g, n) && TableInv(ts, n, [m.gray[0]] + lists) && Moves(m, n) && Work(n) < Work(m)
      && Marked(n, m.gray[0])
  {
    var x, p := m.gray[0], Unlink(m, Black);
    UnlinkReady(g, m, Black);
    var n := Traverse(g, m, Black);
    MarkAllGrows(g, p, g[x].Succ());
    UnlinkTables(ts, m, lists);
    GrowsKeepsTables(g, ts, p, n, [x] + lists);
    MarkedStays(g, p, n);
    WhitesLe(g, p, n);
    forall y | Marked(m, y) ensures Marked(n, y) { assert Marked(p, y); }
  }

  lemma UnlinkTables(ts: Tables, m: Marks, lists: seq<Id>)
    requires GrayOk(m) && m.gray != [] && TableInv(ts, m, lists)
    ensures TableInv(ts, Unlink(m, Black), [m.gray[0]] + lists) && Whites(Unlink(m, Black)) == Whites(m)
    ensures Marked(Unlink(m, Black), m.gray[0])
  {
    var x, p := m.gray[0], Unlink(m, Black);
    assert x in m.gray;
    forall h | h in ts && Marked(p, h) ensures h in p.gray || h in [x] + lists || AllValues(p, ts[h]) {
      assert Marked(m, h);
      if h in m.gray {
        assert h == x || h in m.gray[1..];
      } else if h !in lists {
        assert AllValues(m, ts[h]);
        forall y | y in ts[h].arr ensures Marked(p, y) { assert Marked(m, y); }
        forall e | e in ts[h].entries ensures ValueMarked(p, e) { assert ValueMarked(m, e); }
      }
    }
  }

  lemma PropagateOneInv(g: Graph, ts: Tables, l: Lists, pending: seq<Id>)
    requires Start(g, ts, l) && l.m.gray != [] && TableInv(ts, l.m, pending + l.ephemeron)
    ensures var k := PropagateOne(g, ts, l);
      && Start(g, ts, k) && TableInv(ts, k.m, pending + k.ephemeron) && Moves(l.m, k.m) && Work(k.m) < Work(l.m)
      && (forall h :: h in k.ephemeron ==> h in l.ephemeron || (h in ts && Marked(k.m, h)))
  {
    hide Traverse, Typed, TraverseTable, GrayOk;
    var x := l.m.gray[0];
    TraverseTables(g, ts, l.m, pending + l.ephemeron);
    var k := l.(m := Traverse(g, l.m, Black));
    assert [x] + (pending + l.ephemeron) == [x] + pending + l.ephemeron;
    if x in ts {
      TraverseTableInv(g, ts, k, x, false, pending);
    } else {
      assert TableInv(ts, k.m, pending + l.ephemeron) by {
        forall h | h in ts && Marked(k.m, h)
          ensures h in k.m.gray || h in pending + l.ephemeron || AllValues(k.m, ts[h]) { assert h != x; }
      }
    }
  }

  lemma TraverseTableReady(g: Graph, ts: Tables, l: Lists, h: Id, inv: bool)
    requires Start(g, ts, l) && h in ts && Marked(l.m, h)
    ensures var r := TraverseTable(g, ts, l, h, inv);
      && Start(g, ts, r.0) && Work(r.0.m) <= Work(l.m) && (!r.1 && l.m.gray == [] ==> r.0.m.gray == [])
  {
    hide Typed, ScanTable, AllValues, TableOk;
    assert WeakOk(g, h, ts[h]);
    ScanTableGrows(g, l.m, ts[h], inv);
    var s := ScanTable(g, l.m, ts[h], inv);
    MarkedStays(g, l.m, s.m);
    NoQueue(g, l.m, s.m);
    assert Whites(Paint(s.m, h, Gray)) == Whites(s.m);
  }

  lemma PropagateOneWork(g: Graph, ts: Tables, l: Lists)
    requires Start(g, ts, l) && l.m.gray != []
    ensures var k := PropagateOne(g, ts, l); Start(g, ts, k) && Work(k.m) < Work(l.m)
  {
    var x, p := l.m.gray[0], Unlink(l.m, Black);
    UnlinkReady(g, l.m, Black);
    MarkAllGrows(g, p, g[x].Succ());
    var n := Traverse(g, l.m, Black);
    MarkedStays(g, p, n);
    assert Marked(p, x);
    if x in ts { TraverseTableReady(g, ts, l.(m := n), x, false); }
  }

  /** `propagateall` in the atomic phase. */
  function PropagateTables(g: Graph, ts: Tables, l: Lists): (k: Lists)
    requires Start(g, ts, l)
    ensures Start(g, ts, k) && k.m.gray == []
    decreases Work(l.m)
  {
    if l.m.gray == [] then l else
      PropagateOneWork(g, ts, l);
      PropagateTables(g, ts, PropagateOne(g, ts, l))
  }

  lemma {:induction false} PropagateTablesInv(g: Graph, ts: Tables, l: Lists, pending: seq<Id>)
    requires Start(g, ts, l) && TableInv(ts, l.m, pending + l.ephemeron)
    ensures var k := PropagateTables(g, ts, l);
      && TableInv(ts, k.m, pending + k.ephemeron) && Moves(l.m, k.m)
      && (forall h :: h in k.ephemeron ==> h in l.ephemeron || (h in ts && Marked(k.m, h)))
    decreases Work(l.m)
  {
    if l.m.gray != [] {
      PropagateOneInv(g, ts, l, pending);
      PropagateOneWork(g, ts, l);
      PropagateTablesInv(g, ts, PropagateOne(g, ts, l), pending);
    }
  }

  // ------------------------------------------------------------------------------------------
  // Convergence
  // ------------------------------------------------------------------------------------------

  predicate Listed(ts: Tables, m: Marks, xs: seq<Id>) {
    forall h :: h in xs ==> h in ts && Marked(m, h)
  }

  /** Between two tables of a round: nothing is queued and the tables still to visit are marked. */
  predicate Quiet(g: Graph, ts: Tables, l: Lists, todo: seq<Id>) {
    Start(g, ts, l) && l.m.gray == [] && Listed(ts, l.m, todo)
  }

  /** One turn of the inner loop of `convergeephemerons`. */
  function VisitTable(g: Graph, ts: Tables, l: Lists, h: Id, dir: bool): (r: (Lists, bool))
    requires Start(g, ts, l) && l.m.gray == [] && h in ts && Marked(l.m, h)
    ensures Start(g, ts, r.0) && r.0.m.gray == []
  {
    var l0 := l.(m := Paint(l.m, h, Black));
    VisitWork(g, ts, l, h, dir);
    var (k, marked) := TraverseTable(g, ts, l0, h, dir);
    (if marked then PropagateTables(g, ts, k) else k, marked)
  }

  lemma VisitWork(g: Graph, ts: Tables, l: Lists, h: Id, dir: bool)
    requires Start(g, ts, l) && l.m.gray == [] && h in ts && Marked(l.m, h)
    ensures var l0 := l.(m := Paint(l.m, h, Black));
      && Start(g, ts, l0)
      && var r := TraverseTable(g, ts, l0, h, dir);
         Start(g, ts, r.0) && (!r.1 ==> r.0.m.gray == [])
  {
    TraverseTableReady(g, ts, l.(m := Paint(l.m, h, Black)), h, dir);
  }

  /** What a turn has done: some white object is gone, or nothing but strings was marked. */
  ghost predicate Visited(g: Graph, ts: Tables, l: Lists, h: Id, k: Lists, marked: bool) {
    && Moves(l.m, k.m)
    && (forall x :: x in k.ephemeron ==> x in l.ephemeron || (x in ts && Marked(k.m, x)))
    && (marked ==> |Whites(k.m)| < |Whites(l.m)|)
    && (!marked ==> OnlyStrings(g, l.m, k.m) && h in ts && TableOk(g, k.m, ts[h])
                    && forall x :: x in k.ephemeron ==> x in l.ephemeron || x == h)
  }

  lemma VisitTableInv(g: Graph, ts: Tables, l: Lists, h: Id, dir: bool, pending: seq<Id>)
    requires Start(g, ts, l) && l.m.gray == [] && h in ts && Marked(l.m, h)
    requires TableInv(ts, l.m, [h] + pending + l.ephemeron)
    ensures var r := VisitTable(g, ts, l, h, dir);
      TableInv(ts, r.0.m, pending + r.0.ephemeron) && Visited(g, ts, l, h, r.0, r.1)
  {
    hide Typed, TraverseTable, PropagateTables;
    var l0 := l.(m := Paint(l.m, h, Black));
    BlackenTable(g, ts, l.m, h, [h] + pending + l.ephemeron);
    VisitWork(g, ts, l, h, dir);
    TraverseTableInv(g, ts, l0, h, dir, pending);
    var (k, marked) := TraverseTable(g, ts, l0, h, dir);
    if marked { PropagateTablesInv(g, ts, k, pending); }
  }

  lemma BlackenTable(g: Graph, ts: Tables, m: Marks, h: Id, lists: seq<Id>)
    requires Ready(g, m) && m.gray == [] && Marked(m, h) && TableInv(ts, m, lists)
    ensures var n := Paint(m, h, Black);
      && Ready(g, n) && TableInv(ts, n, lists) && Whites(n) == Whites(m) && n.color.Keys == m.color.Keys
      && (forall x :: Marked(n, x) <==> Marked(m, x)) && (forall x :: IsWhite(n, x) <==> IsWhite(m, x))
  {
    var n := Paint(m, h, Black);
    forall k | k in ts && Marked(n, k) ensures k in lists || AllValues(n, ts[k]) {
      assert Marked(m, k);
      if AllValues(m, ts[k]) {
        forall x | x in ts[k].arr ensures Marked(n, x) { assert Marked(m, x); }
        forall e | e in ts[k].entries ensures ValueMarked(n, e) { assert ValueMarked(m, e); }
      }
    }
  }

  /** A round over the tables `todo`: every table is visited, in order. */
  function Round(g: Graph, ts: Tables, l: Lists, todo: seq<Id>, dir: bool): (r: (Lists, bool))
    requires Quiet(g, ts, l, todo) && TableInv(ts, l.m, todo + l.ephemeron) && Listed(ts, l.m, l.ephemeron)
    ensures Quiet(g, ts, r.0, []) && TableInv(ts, r.0.m, r.0.ephemeron)
    decreases |todo|
  {
    if todo == [] then
      assert [] + l.ephemeron == l.ephemeron;
      (l, false)
    else
      var h, rest := todo[0], todo[1..];
      assert h in todo && todo + l.ephemeron == [h] + rest + l.ephemeron;
      VisitTableInv(g, ts, l, h, dir, rest);
      var (k, marked) := VisitTable(g, ts, l, h, dir);
      ListedStays(g, ts, l, h, k, marked, rest);
      var (e, changed) := Round(g, ts, k, rest, dir);
      (e, marked || changed)
  }

  lemma ListedStays(g: Graph, ts: Tables, l: Lists, h: Id, k: Lists, marked: bool, rest: seq<Id>)
    requires Visited(g, ts, l, h, k, marked) && Listed(ts, l.m, l.ephemeron)
    requires forall x :: x in rest ==> x in ts && Marked(l.m, x)
    ensures Listed(ts, k.m, rest) && Listed(ts, k.m, k.ephemeron)
  {
  }

  /** A round that reports no change has left every relisted table in order; one that reports a change
      has marked a white object. */
  ghost predicate RoundOk(g: Graph, ts: Tables, l: Lists, k: Lists, changed: bool) {
    && Listed(ts, k.m, k.ephemeron) && Moves(l.m, k.m)
    && (changed ==> |Whites(k.m)| < |Whites(l.m)|)
    && (!changed ==> OnlyStrings(g, l.m, k.m)
                     && forall h :: h in k.ephemeron ==> h in l.ephemeron || (h in ts && TableOk(g, k.m, ts[h])))
  }

  lemma {:induction false} RoundInv(g: Graph, ts: Tables, l: Lists, todo: seq<Id>, dir: bool)
    requires Quiet(g, ts, l, todo) && TableInv(ts, l.m, todo + l.ephemeron) && Listed(ts, l.m, l.ephemeron)
    ensures var r := Round(g, ts, l, todo, dir); RoundOk(g, ts, l, r.0, r.1)
    decreases |todo|
  {
    hide VisitTable, Typed, TableInv, GrayOk;
    if todo != [] {
      var h, rest := todo[0], todo[1..];
      assert h in todo && todo + l.ephemeron == [h] + rest + l.ephemeron;
      VisitTableInv(g, ts, l, h, dir, rest);
      var (k, marked) := VisitTable(g, ts, l, h, dir);
      ListedStays(g, ts, l, h, k, marked, rest);
      RoundInv(g, ts, k, rest, dir);
      var (e, changed) := Round(g, ts, k, rest, dir);
      RoundJoin(g, ts, l, h, k, marked, e, changed);
    }
  }

  lemma RoundJoin(g: Graph, ts: Tables, l: Lists, h: Id, k: Lists, marked: bool, e: Lists, changed: bool)
    requires Visited(g, ts, l, h, k, marked) && RoundOk(g, ts, k, e, changed) && TablesOk(g, ts)
    requires k.m.color.Keys == g.Keys
    ensures RoundOk(g, ts, l, e, marked || changed)
  {
    if !marked && !changed {
      forall x | x in e.ephemeron ensures x in l.ephemeron || (x in ts && TableOk(g, e.m, ts[x])) {
        if x in k.ephemeron && x == h { TableOkStays(g, ts, k.m, e.m, h); }
      }
    }
  }

  lemma TableOkStays(g: Graph, ts: Tables, m: Marks, n: Marks, h: Id)
    requires TablesOk(g, ts) && h in ts && TableOk(g, m, ts[h]) && OnlyStrings(g, m, n) && m.color.Keys == g.Keys
    requires forall x :: Marked(m, x) ==> Marked(n, x)
    ensures TableOk(g, n, ts[h])
  {
    assert WeakOk(g, h, ts[h]);
    forall e | e in ts[h].entries ensures EntryOk(g, n, e) { EntryOkStays(g, m, n, e); }
  }

  /** `convergeephemerons`: rounds in alternating direction until one marks nothing.  Every further
      round has fewer white objects than the one before, so the loop ends. */
  function Converge(g: Graph, ts: Tables, l: Lists, dir: bool): (k: Lists)
    requires Quiet(g, ts, l, l.ephemeron) && TableInv(ts, l.m, l.ephemeron)
    ensures Quiet(g, ts, k, k.ephemeron) && TableInv(ts, k.m, k.ephemeron)
    decreases |Whites(l.m)|
  {
    var l0 := l.(ephemeron := []);
    assert l.ephemeron + [] == l.ephemeron;
    RoundInv(g, ts, l0, l.ephemeron, dir);
    var (k, changed) := Round(g, ts, l0, l.ephemeron, dir);
    if changed then Converge(g, ts, k, !dir) else k
  }

  /** When convergence ends, every marked ephemeron table satisfies the ephemeron rule: an entry whose
      key is marked (or is a string, or is not collectable) has a marked value. */
  lemma {:induction false} ConvergeSettles(g: Graph, ts: Tables, l: Lists, dir: bool, h: Id)
    requires Quiet(g, ts, l, l.ephemeron) && TableInv(ts, l.m, l.ephemeron)
    requires h in ts && Marked(Converge(g, ts, l, dir).m, h)
    ensures TableOk(g, Converge(g, ts, l, dir).m, ts[h])
    decreases |Whites(l.m)|
  {
    hide Round, Typed, GrayOk;
    var l0 := l.(ephemeron := []);
    assert l.ephemeron + [] == l.ephemeron;
    RoundInv(g, ts, l0, l.ephemeron, dir);
    var (k, changed) := Round(g, ts, l0, l.ephemeron, dir);
    if changed {
      ConvergeSettles(g, ts, k, !dir, h);
    } else if h !in k.ephemeron {
      assert AllValues(k.m, ts[h]);
    }
  }

  // ------------------------------------------------------------------------------------------
  // The atomic phase up to convergence
  // ------------------------------------------------------------------------------------------

  lemma {:induction false} RemarkReady(g: Graph, m: Marks, threads: seq<Id>)
    requires Ready(g, m) && forall t :: t in threads ==> t in g
    ensures var n := Remark(g, m, threads); Grows(g, m, n) && Ready(g, n)
    decreases |threads|
  {
    if threads != [] {
      var t := threads[0];
      assert TypedNode(g, g[t]);
      var p := if IsWhite(m, t) then RemarkList(g, m, g[t].open) else m;
      if IsWhite(m, t) { RemarkListGrows(g, m, g[t].open); }
      RemarkReady(g, p, threads[1..]);
      GrowsTrans(g, m, p, Remark(g, m, threads));
    }
  }

  /** What waits to be visited again is left alone by propagation. */
  lemma PropagateOneAgain(g: Graph, ts: Tables, l: Lists, again: seq<Id>)
    requires Start(g, ts, l) && l.m.gray != [] && AgainOk(l.m, again)
    ensures AgainOk(PropagateOne(g, ts, l).m, again)
  {
    hide ScanTable;
    var x, p, n := l.m.gray[0], Unlink(l.m, Black), Traverse(g, l.m, Black);
    UnlinkReady(g, l.m, Black);
    assert x in l.m.gray && x !in again;
    assert AgainOk(p, again);
    MarkAllGrows(g, p, g[x].Succ());
    GrowsKeepsAgain(g, p, n, again);
    if x in ts {
      assert WeakOk(g, x, ts[x]);
      ScanTableGrows(g, n, ts[x], false);
      GrowsKeepsAgain(g, n, ScanTable(g, n, ts[x], false).m, again);
    }
  }

  lemma {:induction false} PropagateTablesAgain(g: Graph, ts: Tables, l: Lists, again: seq<Id>)
    requires Start(g, ts, l) && AgainOk(l.m, again)
    ensures AgainOk(PropagateTables(g, ts, l).m, again)
    decreases Work(l.m)
  {
    hide PropagateOne, AgainOk;
    if l.m.gray != [] {
      PropagateOneAgain(g, ts, l, again);
      PropagateOneWork(g, ts, l);
      PropagateTablesAgain(g, ts, PropagateOne(g, ts, l), again);
    }
  }

  /** The state on entry to `atomic`: a marked table is gray in one of the two lists, or needs nothing. */
  predicate Entered(g: Graph, ts: Tables, m: Marks, again: seq<Id>) {
    Ready(g, m) && TablesOk(g, ts) && AgainOk(m, again) && TableInv(ts, m, again)
  }

  /** In between, with the tables met so far. */
  predicate Under(g: Graph, ts: Tables, l: Lists, again: seq<Id>) {
    && Start(g, ts, l) && AgainOk(l.m, again) && TableInv(ts, l.m, again + l.ephemeron)
    && Listed(ts, l.m, l.ephemeron)
  }

  lemma MarksUnder(g: Graph, ts: Tables, l: Lists, n: Marks, again: seq<Id>)
    requires Under(g, ts, l, again) && Grows(g, l.m, n) && Ready(g, n)
    ensures Under(g, ts, l.(m := n), again)
  {
    GrowsKeepsAgain(g, l.m, n, again);
    GrowsKeepsTables(g, ts, l.m, n, again + l.ephemeron);
    MarkedStays(g, l.m, n);
  }

  lemma PropagatesUnder(g: Graph, ts: Tables, l: Lists, again: seq<Id>)
    requires Under(g, ts, l, again)
    ensures Under(g, ts, PropagateTables(g, ts, l), again)
  {
    PropagateTablesAgain(g, ts, l, again);
    PropagateTablesInv(g, ts, l, again);
  }

  /** `atomic` from the roots to the second propagation. */
  function Reached(g: Graph, ts: Tables, m: Marks, roots: seq<Id>, threads: seq<Id>): (k: Lists)
    requires Ready(g, m) && TablesOk(g, ts) && (forall x :: x in roots ==> x in g) && forall t :: t in threads ==>
      t in g
    ensures Start(g, ts, k) && k.m.gray == []
  {
    MarkAllGrows(g, m, roots);
    var b := PropagateTables(g, ts, Lists(MarkAll(g, m, roots), [], []));
    RemarkReady(g, b.m, threads);
    PropagateTables(g, ts, b.(m := Remark(g, b.m, threads)))
  }

  lemma ReachedUnder(g: Graph, ts: Tables, m: Marks, again: seq<Id>, roots: seq<Id>, threads: seq<Id>)
    requires Entered(g, ts, m, again) && (forall x :: x in roots ==> x in g) && forall t :: t in threads ==> t in g
    ensures Under(g, ts, Reached(g, ts, m, roots, threads), again)
  {
    hide Under, Grows, Typed, GrayOk, AgainOk, TableInv;
    var l := Lists(m, [], []);
    EnteredUnder(g, ts, m, again);
    MarkAllGrows(g, m, roots);
    var a := l.(m := MarkAll(g, m, roots));
    MarksUnder(g, ts, l, a.m, again);
    PropagatesUnder(g, ts, a, again);
    var b := PropagateTables(g, ts, a);
    RemarkReady(g, b.m, threads);
    var c := b.(m := Remark(g, b.m, threads));
    MarksUnder(g, ts, b, c.m, again);
    PropagatesUnder(g, ts, c, again);
  }

  lemma EnteredUnder(g: Graph, ts: Tables, m: Marks, again: seq<Id>)
    requires Entered(g, ts, m, again)
    ensures Under(g, ts, Lists(m, [], []), again)
  {
    assert again + [] == again;
  }

  /** And the visit of what was kept for the atomic phase. */
  function Revisited(g: Graph, ts: Tables, m: Marks, again: seq<Id>, roots: seq<Id>, threads: seq<Id>): (k: Lists)
    requires Entered(g, ts, m, again) && (forall x :: x in roots ==> x in g) && forall t :: t in threads ==> t in g
    ensures Start(g, ts, k) && k.m.gray == []
  {
    var d := Reached(g, ts, m, roots, threads);
    ReachedUnder(g, ts, m, again, roots, threads);
    PropagateTables(g, ts, d.(m := Marks(d.m.color, again)))
  }

  /** So convergence starts with every unsettled table on its list. */
  lemma RevisitedQuiet(g: Graph, ts: Tables, m: Marks, again: seq<Id>, roots: seq<Id>, threads: seq<Id>)
    requires Entered(g, ts, m, again) && (forall x :: x in roots ==> x in g) && forall t :: t in threads ==> t in g
    ensures var k := Revisited(g, ts, m, again, roots, threads);
      Quiet(g, ts, k, k.ephemeron) && TableInv(ts, k.m, k.ephemeron)
  {
    var d := Reached(g, ts, m, roots, threads);
    ReachedUnder(g, ts, m, again, roots, threads);
    SwapUnder(g, ts, d, again);
    var e := d.(m := Marks(d.m.color, again));
    PropagatesUnder(g, ts, e, []);
    var k := PropagateTables(g, ts, e);
    assert [] + k.ephemeron == k.ephemeron;
  }

  lemma SwapUnder(g: Graph, ts: Tables, l: Lists, again: seq<Id>)
    requires Under(g, ts, l, again) && l.m.gray == []
    ensures Under(g, ts, l.(m := Marks(l.m.color, again)), [])
  {
    var n := Marks(l.m.color, again);
    forall x ensures Marked(n, x) <==> Marked(l.m, x) {}
    forall h | h in ts && Marked(n, h) ensures h in again || h in [] + l.ephemeron || AllValues(n, ts[h]) {
      assert Marked(l.m, h);
      if AllValues(l.m, ts[h]) {
        forall x | x in ts[h].arr ensures Marked(n, x) { assert Marked(l.m, x); }
        forall e | e in ts[h].entries ensures ValueMarked(n, e) { assert ValueMarked(l.m, e); }
      }
    }
  }

  /** When the atomic phase has converged, every marked ephemeron table satisfies the ephemeron rule. */
  lemma AtomicSettles(g: Graph, ts: Tables, m: Marks, again: seq<Id>, roots: seq<Id>, threads: seq<Id>, h: Id)
    requires Entered(g, ts, m, again) && (forall x :: x in roots ==> x in g) && (forall t :: t in threads ==> t in g)
    ensures var l := Revisited(g, ts, m, again, roots, threads);
      && Quiet(g, ts, l, l.ephemeron) && TableInv(ts, l.m, l.ephemeron)
      && (h in ts && Marked(Converge(g, ts, l, false).m, h) ==> TableOk(g, Converge(g, ts, l, false).m, ts[h]))
  {
    hide Revisited, Quiet, TableInv, TableOk, Converge, Entered;
    RevisitedQuiet(g, ts, m, again, roots, threads);
    var l := Revisited(g, ts, m, again, roots, threads);
    if h in ts && Marked(Converge(g, ts, l, false).m, h) { ConvergeSettles(g, ts, l, false, h); }
  }

  // ------------------------------------------------------------------------------------------
  // Ordinary references
  // ------------------------------------------------------------------------------------------

  /** The tri-colour invariant with weak tables: one that is gray and in none of the gray lists has been
      traversed and waits on a list of weak tables. */
  predicate WeakTriAt(g: Graph, ts: Tables, m: Marks, again: seq<Id>, x: Id)
    requires x in g && x in m.color
  {
    && (m.color[x].Black? ==> !g[x].kind.OpenUpval? && AllMarked(m, g[x].Succ()))
    && (m.color[x].Gray? ==>
         g[x].kind.OpenUpval? || x in m.gray || x in again || (x in ts && AllMarked(m, g[x].Succ())))
  }

  /** The invariant everywhere; the upvalues in `us` are covered and the objects in `xs` marked. */
  ghost predicate Firm(g: Graph, ts: Tables, m: Marks, again: seq<Id>, us: set<Id>, xs: set<Id>) {
    && m.color.Keys == g.Keys && (forall x :: x in g ==> WeakTriAt(g, ts, m, again, x))
    && (forall u :: u in us ==> u in g && UpvalAt(g, m, u)) && (forall x :: x in xs ==> Marked(m, x))
  }

  lemma GrowsFirm(g: Graph, ts: Tables, m: Marks, n: Marks, again: seq<Id>, us: set<Id>, xs: set<Id>)
    requires Typed(g) && Firm(g, ts, m, again, us, xs) && Grows(g, m, n)
    ensures Firm(g, ts, n, again, us, xs)
  {
    MarkedStays(g, m, n);
    forall x | x in g ensures WeakTriAt(g, ts, n, again, x) {
      assert TypedNode(g, g[x]) && WeakTriAt(g, ts, m, again, x);
      assert Kept(m, n, x) || Settled(g, n, x);
    }
    forall u | u in us ensures UpvalAt(g, n, u) { GrowsKeepsUpval(g, m, n, u); }
  }

  lemma UpvalSame(g: Graph, m: Marks, n: Marks, u: Id)
    requires u in g && UpvalAt(g, m, u) && (forall x :: Marked(m, x) <==> Marked(n, x))
    requires g[u].kind.OpenUpval? && g[u].kind.thread in m.color && m.color[g[u].kind.thread].Gray? ==>
      g[u].kind.thread in n.color && n.color[g[u].kind.thread].Gray?
    ensures UpvalAt(g, n, u)
  {
    if g[u].kind.OpenUpval? && AllMarked(m, g[u].refs) {
      forall v | v in g[u].refs ensures Marked(n, v) { assert Marked(m, v); }
    }
  }

  /** The first gray object traversed, weak tables as ordinary objects at first. */
  lemma TraverseFirm(g: Graph, ts: Tables, m: Marks, again: seq<Id>, us: set<Id>, xs: set<Id>)
    requires Ready(g, m) && GraphOk(g) && m.gray != [] && Firm(g, ts, m, again, us, xs) && !g[m.gray[0]].kind.OpenUpval?
    ensures var n := Traverse(g, m, Black); Firm(g, ts, n, again, us, xs) && AllMarked(n, g[m.gray[0]].Succ())
  {
    hide GraphOk, Grows, UpvalAt, WeakTriAt, Typed;
    var x, p, n := m.gray[0], Unlink(m, Black), Traverse(g, m, Black);
    UnlinkReady(g, m, Black);
    MarkAllGrows(g, p, g[x].Succ());
    MarkedStays(g, p, n);
    assert x in m.gray;
    assert forall y :: Marked(m, y) <==> Marked(p, y);
    forall y | y in g ensures WeakTriAt(g, ts, n, again, y) {
      if y == x {
        BlackTri(g, ts, n, again, x);
      } else {
        UnlinkTri(g, ts, m, again, y);
        GrowsTri(g, ts, p, n, again, y);
      }
    }
    forall u | u in us ensures UpvalAt(g, n, u) { TraverseUpval(g, m, u); }
  }

  lemma BlackTri(g: Graph, ts: Tables, m: Marks, again: seq<Id>, x: Id)
    requires x in g && x in m.color && m.color[x].Black? && !g[x].kind.OpenUpval? && AllMarked(m, g[x].Succ())
    ensures WeakTriAt(g, ts, m, again, x)
  {}

  lemma UnlinkTri(g: Graph, ts: Tables, m: Marks, again: seq<Id>, y: Id)
    requires Ready(g, m) && m.gray != [] && y in g && y != m.gray[0] && WeakTriAt(g, ts, m, again, y)
    ensures WeakTriAt(g, ts, Unlink(m, Black), again, y)
  {
    var p := Unlink(m, Black);
    assert m.gray[0] in m.gray;
    if AllMarked(m, g[y].Succ()) { forall z | z in g[y].Succ() ensures Marked(p, z) { assert Marked(m, z); } }
  }

  lemma GrowsTri(g: Graph, ts: Tables, m: Marks, n: Marks, again: seq<Id>, y: Id)
    requires Typed(g) && y in g && y in m.color && WeakTriAt(g, ts, m, again, y) && Grows(g, m, n)
    ensures y in n.color && WeakTriAt(g, ts, n, again, y)
  {
    MarkedStays(g, m, n);
    assert TypedNode(g, g[y]);
    assert Kept(m, n, y) || Settled(g, n, y);
  }

  lemma TraverseUpval(g: Graph, m: Marks, u: Id)
    requires Ready(g, m) && GraphOk(g) && m.gray != [] && u in g && UpvalAt(g, m, u)
    ensures UpvalAt(g, Traverse(g, m, Black), u)
  {
    var x, p, n := m.gray[0], Unlink(m, Black), Traverse(g, m, Black);
    UnlinkReady(g, m, Black);
    MarkAllGrows(g, p, g[x].Succ());
    if g[u].kind.OpenUpval? && g[u].kind.thread == x {
      assert OpenAt(g, u);
      forall v | v in g[u].refs ensures Marked(n, v) { assert v in g[x].Succ(); }
    } else {
      UnlinkKeepsUpval(g, m, u);
      GrowsKeepsUpval(g, p, n, u);
    }
  }

  /** A weak table whose ordinary references are marked may be painted gray or black. */
  lemma PaintFirm(g: Graph, ts: Tables, m: Marks, again: seq<Id>, us: set<Id>, xs: set<Id>, h: Id, k: Color)
    requires GraphOk(g) && Firm(g, ts, m, again, us, xs) && TablesOk(g, ts) && h in ts && Marked(m, h)
    requires AllMarked(m, g[h].Succ()) && !k.White?()
    ensures Firm(g, ts, Paint(m, h, k), again, us, xs)
  {
    var n := Paint(m, h, k);
    assert WeakOk(g, h, ts[h]);
    assert forall x :: Marked(m, x) <==> Marked(n, x);
    forall x | x in g ensures WeakTriAt(g, ts, n, again, x) {
      assert WeakTriAt(g, ts, m, again, x);
      if AllMarked(m, g[x].Succ()) { forall y | y in g[x].Succ() ensures Marked(n, y) { assert Marked(m, y); } }
    }
    forall u | u in us ensures UpvalAt(g, n, u) {
      if g[u].kind.OpenUpval? { assert OpenAt(g, u); }
      UpvalSame(g, m, n, u);
    }
  }

  lemma TraverseTableFirm(g: Graph, ts: Tables, l: Lists, h: Id, inv: bool, again: seq<Id>, us: set<Id>, xs: set<Id>)
    requires Start(g, ts, l) && GraphOk(g) && h in ts && Marked(l.m, h) && AllMarked(l.m, g[h].Succ())
    requires Firm(g, ts, l.m, again, us, xs)
    ensures Firm(g, ts, TraverseTable(g, ts, l, h, inv).0.m, again, us, xs)
  {
    hide ScanTable, GraphOk, Firm, TableOk, AllValues;
    assert WeakOk(g, h, ts[h]) by { TableAt(g, ts, h); }
    ScanTableGrows(g, l.m, ts[h], inv);
    var s := ScanTable(g, l.m, ts[h], inv);
    GrowsFirm(g, ts, l.m, s.m, again, us, xs);
    MarkedStays(g, l.m, s.m);
    PaintFirm(g, ts, s.m, again, us, xs, h, Gray);
  }

  lemma PropagateOneFirm(g: Graph, ts: Tables, l: Lists, again: seq<Id>, us: set<Id>, xs: set<Id>)
    requires Start(g, ts, l) && GraphOk(g) && l.m.gray != [] && Queues(g, l.m.gray)
    requires Firm(g, ts, l.m, again, us, xs)
    ensures Firm(g, ts, PropagateOne(g, ts, l).m, again, us, xs) && Queues(g, PropagateOne(g, ts, l).m.gray)
  {
    hide GraphOk, Firm, TraverseTable, Grows;
    var x, p, n := l.m.gray[0], Unlink(l.m, Black), Traverse(g, l.m, Black);
    assert x in l.m.gray;
    UnlinkReady(g, l.m, Black);
    TraverseFirm(g, ts, l.m, again, us, xs);
    MarkAllGrows(g, p, g[x].Succ());
    GrowsKeepsQueues(g, p, n);
    MarkedStays(g, p, n);
    if x in ts {
      TraverseTableFirm(g, ts, l.(m := n), x, false, again, us, xs);
      TraverseTableQueues(g, ts, l.(m := n), x, false);
    }
  }

  lemma TraverseTableQueues(g: Graph, ts: Tables, l: Lists, h: Id, inv: bool)
    requires Start(g, ts, l) && h in ts && Queues(g, l.m.gray)
    ensures Queues(g, TraverseTable(g, ts, l, h, inv).0.m.gray)
  {
    hide ScanTable, Typed, TableOk, AllValues;
    assert WeakOk(g, h, ts[h]);
    ScanTableGrows(g, l.m, ts[h], inv);
    GrowsKeepsQueues(g, l.m, ScanTable(g, l.m, ts[h], inv).m);
  }

  lemma {:induction false} PropagateTablesFirm(g: Graph, ts: Tables, l: Lists, again: seq<Id>, us: set<Id>, xs: set<Id>)
    requires Start(g, ts, l) && GraphOk(g) && Queues(g, l.m.gray) && Firm(g, ts, l.m, again, us, xs)
    ensures Firm(g, ts, PropagateTables(g, ts, l).m, again, us, xs)
    decreases Work(l.m)
  {
    hide PropagateOne, Firm, GraphOk, Queues;
    if l.m.gray != [] {
      PropagateOneFirm(g, ts, l, again, us, xs);
      PropagateOneWork(g, ts, l);
      PropagateTablesFirm(g, ts, PropagateOne(g, ts, l), again, us, xs);
    }
  }

  /** A marked thread covers its open upvalues. */
  lemma ThreadCovers(g: Graph, ts: Tables, m: Marks, again: seq<Id>, us: set<Id>, xs: set<Id>, t: Id, u: Id)
    requires Firm(g, ts, m, again, us, xs) && GraphOk(g) && t in g && u in g[t].open && Marked(m, t)
    ensures u in g && UpvalAt(g, m, u)
  {
    assert ListAt(g, t) && OpenAt(g, u);
    assert WeakTriAt(g, ts, m, again, t);
    if m.color[t].Black? {
      forall v | v in g[u].refs ensures Marked(m, v) { assert v in g[t].Succ(); }
    }
  }

  lemma {:induction false} RemarkCovers(g: Graph, ts: Tables, m: Marks, again: seq<Id>, us: set<Id>, xs: set<Id>,
                                        threads: seq<Id>, t: Id, u: Id)
    requires Ready(g, m) && GraphOk(g) && Firm(g, ts, m, again, us, xs) && (forall s :: s in threads ==> s in g)
    requires t in threads && u in g[t].open
    ensures u in g && UpvalAt(g, Remark(g, m, threads), u)
    decreases |threads|
  {
    hide Firm, Grows;
    var s := threads[0];
    assert TypedNode(g, g[s]) && ListAt(g, t);
    var p := if IsWhite(m, s) then RemarkList(g, m, g[s].open) else m;
    if IsWhite(m, s) { RemarkListGrows(g, m, g[s].open); } else { GrowsSelf(g, m); }
    GrowsFirm(g, ts, m, p, again, us, xs);
    RemarkReady(g, p, threads[1..]);
    if s == t {
      if !IsWhite(m, t) {
        FirmKeys(g, ts, m, again, us, xs);
        ThreadCovers(g, ts, m, again, us, xs, t, u);
      }
      GrowsKeepsUpval(g, p, Remark(g, p, threads[1..]), u);
    } else {
      RemarkCovers(g, ts, p, again, us, xs, threads[1..], t, u);
    }
  }

  lemma FirmKeys(g: Graph, ts: Tables, m: Marks, again: seq<Id>, us: set<Id>, xs: set<Id>)
    requires Firm(g, ts, m, again, us, xs)
    ensures m.color.Keys == g.Keys
  {}

  lemma RemarkFirm(g: Graph, ts: Tables, m: Marks, again: seq<Id>, xs: set<Id>, threads: seq<Id>)
    requires Ready(g, m) && GraphOk(g) && Firm(g, ts, m, again, {}, xs) && (forall s :: s in threads ==> s in g)
    requires AllListed(g, threads)
    ensures Firm(g, ts, Remark(g, m, threads), again, g.Keys, xs)
  {
    hide Grows, Remark;
    var n := Remark(g, m, threads);
    RemarkReady(g, m, threads);
    GrowsFirm(g, ts, m, n, again, {}, xs);
    forall u | u in g ensures UpvalAt(g, n, u) {
      if g[u].kind.OpenUpval? {
        assert OpenAt(g, u);
        RemarkCovers(g, ts, m, again, {}, xs, threads, g[u].kind.thread, u);
      }
    }
  }

  lemma ReachedFirm(g: Graph, ts: Tables, m: Marks, again: seq<Id>, xs: set<Id>, roots: seq<Id>, threads: seq<Id>)
    requires Ready(g, m) && TablesOk(g, ts) && GraphOk(g) && Queues(g, m.gray) && Firm(g, ts, m, again, {}, xs)
    requires (forall x :: x in roots ==> x in g) && (forall t :: t in threads ==> t in g) && AllListed(g, threads)
    ensures Firm(g, ts, Reached(g, ts, m, roots, threads).m, again, g.Keys, xs + set x | x in roots)
  {
    hide Grows, GraphOk, PropagateTables, Remark, MarkAll;
    var ys := xs + set x | x in roots;
    var a := Lists(MarkAll(g, m, roots), [], []);
    MarkAllGrows(g, m, roots);
    GrowsFirm(g, ts, m, a.m, again, {}, xs);
    GrowsKeepsQueues(g, m, a.m);
    PropagateTablesFirm(g, ts, a, again, {}, ys);
    var b := PropagateTables(g, ts, a);
    RemarkReady(g, b.m, threads);
    RemarkFirm(g, ts, b.m, again, ys, threads);
    var c := b.(m := Remark(g, b.m, threads));
    GrowsKeepsQueues(g, b.m, c.m);
    PropagateTablesFirm(g, ts, c, again, g.Keys, ys);
  }

  lemma SwapFirm(g: Graph, ts: Tables, m: Marks, again: seq<Id>, us: set<Id>, xs: set<Id>)
    requires Firm(g, ts, m, again, us, xs) && m.gray == []
    ensures Firm(g, ts, Marks(m.color, again), [], us, xs)
  {
    var n := Marks(m.color, again);
    assert forall x :: Marked(m, x) <==> Marked(n, x);
    forall x | x in g ensures WeakTriAt(g, ts, n, [], x) {
      assert WeakTriAt(g, ts, m, again, x);
      if AllMarked(m, g[x].Succ()) { forall y | y in g[x].Succ() ensures Marked(n, y) { assert Marked(m, y); } }
    }
    forall u | u in us ensures UpvalAt(g, n, u) { UpvalSame(g, m, n, u); }
  }

  lemma RevisitedFirm(g: Graph, ts: Tables, m: Marks, again: seq<Id>, xs: set<Id>, roots: seq<Id>, threads: seq<Id>)
    requires Entered(g, ts, m, again) && GraphOk(g) && Queues(g, m.gray) && Queues(g, again)
    requires Firm(g, ts, m, again, {}, xs)
    requires (forall x :: x in roots ==> x in g) && (forall t :: t in threads ==> t in g) && AllListed(g, threads)
    ensures Firm(g, ts, Revisited(g, ts, m, again, roots, threads).m, [], g.Keys, xs + set x | x in roots)
  {
    hide Firm, GraphOk, PropagateTables, Reached;
    var ys := xs + set x | x in roots;
    ReachedFirm(g, ts, m, again, xs, roots, threads);
    ReachedUnder(g, ts, m, again, roots, threads);
    var d := Reached(g, ts, m, roots, threads);
    SwapFirm(g, ts, d.m, again, g.Keys, ys);
    PropagateTablesFirm(g, ts, d.(m := Marks(d.m.color, again)), [], g.Keys, ys);
  }

  lemma VisitTableFirm(g: Graph, ts: Tables, l: Lists, h: Id, dir: bool, us: set<Id>, xs: set<Id>)
    requires Start(g, ts, l) && GraphOk(g) && l.m.gray == [] && h in ts && Marked(l.m, h)
    requires Firm(g, ts, l.m, [], us, xs)
    ensures Firm(g, ts, VisitTable(g, ts, l, h, dir).0.m, [], us, xs)
  {
    hide GraphOk, TraverseTable, PropagateTables;
    assert WeakOk(g, h, ts[h]) && WeakTriAt(g, ts, l.m, [], h);
    var l0 := l.(m := Paint(l.m, h, Black));
    PaintFirm(g, ts, l.m, [], us, xs, h, Black);
    VisitWork(g, ts, l, h, dir);
    forall y | y in g[h].Succ() ensures Marked(l0.m, y) { assert Marked(l.m, y); }
    TraverseTableFirm(g, ts, l0, h, dir, [], us, xs);
    TraverseTableQueues(g, ts, l0, h, dir);
    var (k, marked) := TraverseTable(g, ts, l0, h, dir);
    if marked { PropagateTablesFirm(g, ts, k, [], us, xs); }
  }

  lemma {:induction false} RoundFirm(g: Graph, ts: Tables, l: Lists, todo: seq<Id>, dir: bool, us: set<Id>, xs: set<Id>)
    requires Quiet(g, ts, l, todo) && TableInv(ts, l.m, todo + l.ephemeron) && Listed(ts, l.m, l.ephemeron)
    requires GraphOk(g) && Firm(g, ts, l.m, [], us, xs)
    ensures Firm(g, ts, Round(g, ts, l, todo, dir).0.m, [], us, xs)
    decreases |todo|
  {
    hide VisitTable, Typed, TableInv, GrayOk, Firm, GraphOk;
    if todo != [] {
      var h, rest := todo[0], todo[1..];
      assert h in todo && todo + l.ephemeron == [h] + rest + l.ephemeron;
      VisitTableInv(g, ts, l, h, dir, rest);
      VisitTableFirm(g, ts, l, h, dir, us, xs);
      var (k, marked) := VisitTable(g, ts, l, h, dir);
      ListedStays(g, ts, l, h, k, marked, rest);
      RoundFirm(g, ts, k, rest, dir, us, xs);
    }
  }

  lemma {:induction false} ConvergeFirm(g: Graph, ts: Tables, l: Lists, dir: bool, us: set<Id>, xs: set<Id>)
    requires Quiet(g, ts, l, l.ephemeron) && TableInv(ts, l.m, l.ephemeron)
    requires GraphOk(g) && Firm(g, ts, l.m, [], us, xs)
    ensures Firm(g, ts, Converge(g, ts, l, dir).m, [], us, xs)
    decreases |Whites(l.m)|
  {
    hide Round, Typed, GrayOk, Firm, GraphOk;
    var l0 := l.(ephemeron := []);
    assert l.ephemeron + [] == l.ephemeron;
    RoundInv(g, ts, l0, l.ephemeron, dir);
    RoundFirm(g, ts, l0, l.ephemeron, dir, us, xs);
    var (k, changed) := Round(g, ts, l0, l.ephemeron, dir);
    if changed { ConvergeFirm(g, ts, k, !dir, us, xs); }
  }

  /** With nothing gray in a list, the invariant means that marked objects refer to marked objects. */
  lemma FirmCloses(g: Graph, ts: Tables, m: Marks, xs: set<Id>)
    requires Ready(g, m) && m.gray == [] && GraphOk(g) && TablesOk(g, ts) && Firm(g, ts, m, [], g.Keys, xs)
    ensures Closed(g, m)
  {
    forall x | x in g && Marked(m, x) ensures AllMarked(m, g[x].Succ()) {
      assert WeakTriAt(g, ts, m, [], x) && UpvalAt(g, m, x);
      if g[x].kind.OpenUpval? {
        assert OpenAt(g, x) && TypedNode(g, g[x]);
        var t := g[x].kind.thread;
        assert WeakTriAt(g, ts, m, [], t) && (t in ts ==> WeakOk(g, t, ts[t]));
      }
    }
  }

  lemma TriFirm(g: Graph, ts: Tables, m: Marks, again: seq<Id>)
    requires Marking(g, m, again)
    ensures Firm(g, ts, m, again, {}, set x | x in m.color && Marked(m, x))
  {
    forall x | x in g ensures WeakTriAt(g, ts, m, again, x) { assert TriAt(g, m, again, x); }
  }

  /** The flip is safe with ephemeron tables present: when the atomic phase has converged, what was marked
      is still marked, the roots are, and every ordinary reference of a marked object, weak tables
      included, leads to a marked one. */
  lemma AtomicClosesTables(g: Graph, ts: Tables, m: Marks, again: seq<Id>, roots: seq<Id>, threads: seq<Id>)
    requires Entered(g, ts, m, again) && Marking(g, m, again) && GraphOk(g) && Queues(g, again)
    requires (forall x :: x in roots ==> x in g) && (forall t :: t in threads ==> t in g) && AllListed(g, threads)
    ensures var l := Revisited(g, ts, m, again, roots, threads);
      && Quiet(g, ts, l, l.ephemeron) && TableInv(ts, l.m, l.ephemeron)
      && var n := Converge(g, ts, l, false).m;
         Closed(g, n) && AllMarked(n, roots) && forall x :: Marked(m, x) ==> Marked(n, x)
  {
    hide Revisited, TableInv, Converge, GraphOk, Tri, AgainOk, Typed, GrayOk, Closed;
    var xs := set x | x in m.color && Marked(m, x);
    TriFirm(g, ts, m, again);
    RevisitedQuiet(g, ts, m, again, roots, threads);
    RevisitedFirm(g, ts, m, again, xs, roots, threads);
    var l := Revisited(g, ts, m, again, roots, threads);
    var ys := xs + set x | x in roots;
    ConvergeFirm(g, ts, l, false, g.Keys, ys);
    FirmCloses(g, ts, Converge(g, ts, l, false).m, ys);
  }

  // ------------------------------------------------------------------------------------------
  // The code
  // ------------------------------------------------------------------------------------------

  /** The loops of `convergeephemerons`: the list is taken over, rebuilt during the round, and the
      direction of the traversals alternates. */
  method ConvergeEphemerons(g: Graph, ts: Tables, start: Lists) returns (l: Lists)
    requires Quiet(g, ts, start, start.ephemeron) && TableInv(ts, start.m, start.ephemeron)
    ensures l == Converge(g, ts, start, false)
    ensures forall h :: h in ts && Marked(l.m, h) ==> TableOk(g, l.m, ts[h])
  {
    l := start;
    var dir, changed := false, true;
    while changed
      invariant Quiet(g, ts, l, l.ephemeron) && TableInv(ts, l.m, l.ephemeron)
      invariant Converge(g, ts, start, false) == if changed then Converge(g, ts, l, dir) else l
      decreases |Whites(l.m)|, changed
    {
      ghost var before := l;
      assert l.ephemeron + [] == l.ephemeron;
      RoundInv(g, ts, l.(ephemeron := []), l.ephemeron, dir);
      l, changed := OneRound(g, ts, l.(ephemeron := []), l.ephemeron, dir);
      dir := !dir;
    }
    forall h | h in ts && Marked(l.m, h) ensures TableOk(g, l.m, ts[h]) {
      ConvergeSettles(g, ts, start, false, h);
    }
  }

  method OneRound(g: Graph, ts: Tables, start: Lists, tables: seq<Id>, dir: bool) returns (l: Lists, changed: bool)
    requires Quiet(g, ts, start, tables) && TableInv(ts, start.m, tables + start.ephemeron)
    requires Listed(ts, start.m, start.ephemeron)
    ensures (l, changed) == Round(g, ts, start, tables, dir)
  {
    hide VisitTable, Typed, GrayOk, TableInv;
    l, changed := start, false;
    var todo := tables;
    while todo != []
      invariant Quiet(g, ts, l, todo) && TableInv(ts, l.m, todo + l.ephemeron) && Listed(ts, l.m, l.ephemeron)
      invariant Round(g, ts, start, tables, dir)
             == (Round(g, ts, l, todo, dir).0, changed || Round(g, ts, l, todo, dir).1)
      decreases |todo|
    {
      var h, rest := todo[0], todo[1..];
      assert h in todo && todo + l.ephemeron == [h] + rest + l.ephemeron;
      VisitTableInv(g, ts, l, h, dir, rest);
      var (k, marked) := VisitTable(g, ts, l, h, dir);
      ListedStays(g, ts, l, h, k, marked, rest);
      l, todo, changed := k, rest, changed || marked;
    }
  }
}
