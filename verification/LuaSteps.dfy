/** Allocation, closing of upvalues and the collector's own steps keep the invariant; together with
    the writes this covers every action of a run. */
module LuaSteps {
  import opened LuaMarking
  import opened LuaAtomic
  import opened LuaCollector
  import opened LuaRuns

  // ------------------------------------------------------------------------------------------
  // Allocation
  // ------------------------------------------------------------------------------------------

  function DoNew(c: Collector, x: Id, k: Kind, refs: seq<Id>, t: Id): Collector
    requires t in c.g
  {
    AddNode(c, x, Node(k, refs, []), t, c.g[t].(refs := c.g[t].refs + [x]))
  }

  /** A new object that is not an open upvalue leaves the lists of open upvalues alone. */
  lemma NewOpenOk(g: Graph, x: Id, n: Node, t: Id, nt: Node)
    requires GraphOk(g) && x !in g && t in g && !n.kind.OpenUpval? && n.open == [] && (n.kind.String? ==> n.refs == [])
    requires nt == g[t].(refs := nt.refs) && nt.kind.Thread? && forall v :: v in g[t].refs ==> v in nt.refs
    ensures GraphOk(g[x := n][t := nt])
  {
    var h := g[x := n][t := nt];
    forall u | u in h && h[u].kind.OpenUpval? ensures OpenAt(h, u) { assert OpenAt(g, u); }
    forall s | s in h ensures ListAt(h, s) { if s != x { assert ListAt(g, s); } }
  }

  lemma NewAddable(c: Collector, x: Id, k: Kind, refs: seq<Id>, t: Id)
    requires GraphOk(c.g) && c.m.color.Keys == c.g.Keys && NodeLive(c.g, c.m.color, c.white, t) && Live(c, t)
    requires Guard(c, New(x, k, refs, t)) && forall y :: y in refs ==> Live(c, y)
    ensures Addable(c, x, Node(k, refs, []), t, c.g[t].(refs := c.g[t].refs + [x]))
  {
    hide GraphOk;
    var n, nt := Node(k, refs, []), c.g[t].(refs := c.g[t].refs + [x]);
    var h := c.g[x := n][t := nt];
    NewOpenOk(c.g, x, n, t, nt);
    forall y | y in nt.Succ() ensures y in h && (y == x || y in c.g[t].Succ()) {}
    forall y | y in n.Succ() ensures y in h { assert Live(c, y); }
  }

  lemma NewInv(c: Collector, x: Id, k: Kind, refs: seq<Id>, t: Id)
    requires Inv(c) && Guard(c, New(x, k, refs, t)) && Live(c, t) && forall y :: y in refs ==> Live(c, y)
    ensures Inv(DoNew(c, x, k, refs, t))
  {
    NewAddable(c, x, k, refs, t);
    AddNodeInv(c, x, Node(k, refs, []), t, c.g[t].(refs := c.g[t].refs + [x]));
  }

  function DoNewOpen(c: Collector, x: Id, t: Id, value: seq<Id>): Collector
    requires t in c.g
  {
    AddNode(c, x, Node(OpenUpval(t), value, []), t, c.g[t].(open := [x] + c.g[t].open))
  }

  /** A new open upvalue is entered in its thread's list. */
  lemma NewOpenListed(g: Graph, x: Id, n: Node, t: Id, nt: Node)
    requires GraphOk(g) && x !in g && t in g && n.kind == OpenUpval(t) && n.open == [] && g[t].kind.Thread?
    requires nt == g[t].(open := [x] + g[t].open) && forall v :: v in n.refs ==> v in g[t].refs
    ensures GraphOk(g[x := n][t := nt])
  {
    var h := g[x := n][t := nt];
    forall u | u in h && h[u].kind.OpenUpval? ensures OpenAt(h, u) { if u != x { assert OpenAt(g, u); } }
    forall s | s in h ensures ListAt(h, s) { if s != x { assert ListAt(g, s); } }
  }

  lemma NewOpenAddable(c: Collector, x: Id, t: Id, value: seq<Id>)
    requires GraphOk(c.g) && c.m.color.Keys == c.g.Keys && NodeLive(c.g, c.m.color, c.white, t) && Live(c, t)
    requires Guard(c, NewOpen(x, t, value))
    ensures Addable(c, x, Node(OpenUpval(t), value, []), t, c.g[t].(open := [x] + c.g[t].open))
  {
    hide GraphOk;
    var n, nt := Node(OpenUpval(t), value, []), c.g[t].(open := [x] + c.g[t].open);
    var h := c.g[x := n][t := nt];
    NewOpenListed(c.g, x, n, t, nt);
    forall y | y in nt.Succ() ensures y in h && (y == x || y in c.g[t].Succ()) {}
    forall y | y in n.Succ() ensures y in h && Live(c, y) { assert y in c.g[t].Succ(); }
  }

  lemma NewOpenInv(c: Collector, x: Id, t: Id, value: seq<Id>)
    requires Inv(c) && Guard(c, NewOpen(x, t, value)) && Live(c, t)
    ensures Inv(DoNewOpen(c, x, t, value))
  {
    NewOpenAddable(c, x, t, value);
    AddNodeInv(c, x, Node(OpenUpval(t), value, []), t, c.g[t].(open := [x] + c.g[t].open));
  }

  // ------------------------------------------------------------------------------------------
  // Interning
  // ------------------------------------------------------------------------------------------

  /** The repainting in `internshrstr` of a string that is dead but not collected yet. */
  function Revive(c: Collector, x: Id): Collector {
    if Dead(c, x) then c.(m := Paint(c.m, x, c.white)) else c
  }

  function DoIntern(c: Collector, x: Id, t: Id): Collector
    requires t in c.g
  {
    var d := Revive(c, x);
    d.(g := SetStack(d.g, t, d.g[t].refs + [x], t, []))
  }

  lemma OnlyThreadsList(g: Graph, t: Id)
    requires GraphOk(g) && t in g
    ensures g[t].open == [] || g[t].kind.Thread?
  {
    if g[t].open != [] {
      var u := g[t].open[0];
      assert u in g[t].open;
      assert ListAt(g, t) && OpenAt(g, u);
    }
  }

  lemma StringAlone(g: Graph, x: Id)
    requires GraphOk(g) && x in g && g[x].kind.String?
    ensures g[x].Succ() == []
  {
    OnlyThreadsList(g, x);
  }

  /** A string refers to nothing, so it comes back alone. */
  lemma ReviveInv(c: Collector, x: Id)
    requires Inv(c) && x in c.g && c.g[x].kind.String?
    ensures Inv(Revive(c, x)) && Live(Revive(c, x), x)
  {
    var d := Revive(c, x);
    if Dead(c, x) {
      StringAlone(c.g, x);
      forall y | LiveIn(d.m.color, d.white, y) ensures NodeLive(d.g, d.m.color, d.white, y) {
        if y != x {
          assert NodeLive(c.g, c.m.color, c.white, y);
          forall z | z in d.g[y].Succ() ensures LiveIn(d.m.color, d.white, z) { assert LiveIn(c.m.color, c.white, z); }
        }
      }
      forall y | y in Roots(d) ensures LiveIn(d.m.color, d.white, y) { assert LiveIn(c.m.color, c.white, y); }
    }
  }

  lemma InternInv(c: Collector, x: Id, t: Id)
    requires Inv(c) && Guard(c, Intern(x, t)) && Live(c, t)
    ensures Inv(DoIntern(c, x, t)) && Live(DoIntern(c, x, t), x)
  {
    var d := Revive(c, x);
    ReviveInv(c, x);
    assert NodeLive(d.g, d.m.color, d.white, t);
    var stack := d.g[t].refs + [x];
    forall y | y in stack ensures Live(d, y) { assert y == x || y in d.g[t].Succ(); }
    forall w | w in d.g && w != t && d.g[w].kind == OpenUpval(t) ensures Within(d.g[w].refs, stack) {
      assert OpenAt(d.g, w);
    }
    SetStackInv(d, t, stack, t, []);
  }

  // ------------------------------------------------------------------------------------------
  // Closing an upvalue
  // ------------------------------------------------------------------------------------------

  lemma DetachedOpen(g: Graph, u: Id)
    requires GraphOk(g) && u in g && g[u].kind.OpenUpval?
    ensures g[u].kind.thread in g && GraphOk(Detached(g, u))
  {
    assert OpenAt(g, u);
    var h := Detached(g, u);
    forall w | w in h && h[w].kind.OpenUpval? ensures OpenAt(h, w) { assert OpenAt(g, w); }
    forall t | t in h ensures ListAt(h, t) { assert ListAt(g, t); }
  }

  lemma DetachedNode(g: Graph, u: Id, x: Id)
    requires u in g && g[u].kind.OpenUpval? && g[u].kind.thread in g && g[g[u].kind.thread].kind.Thread?
    requires x in g && TypedNode(g, g[x])
    ensures var h := Detached(g, u);
      && TypedNode(h, h[x]) && h[x].refs == g[x].refs && (forall y :: y in h[x].Succ() ==> y in g[x].Succ())
      && (x != u && x != g[u].kind.thread ==> h[x] == g[x])
  {
    var h := Detached(g, u);
    forall y | y in h[x].Succ() ensures y in g[x].Succ() {}
    forall y | y in g[x].refs ensures y in h { assert y in g[x].Succ(); }
  }

  lemma DetachedShape(c: Collector, u: Id)
    requires Shape(c) && u in c.g && c.g[u].kind.OpenUpval?
    ensures c.g[u].kind.thread in c.g && Shape(c.(g := Detached(c.g, u)))
  {
    DetachedOpen(c.g, u);
    assert OpenAt(c.g, u);
    var d := c.(g := Detached(c.g, u));
    forall x | LiveIn(d.m.color, d.white, x) ensures NodeLive(d.g, d.m.color, d.white, x) {
      assert NodeLive(c.g, c.m.color, c.white, x);
      DetachedNode(c.g, u, x);
    }
  }

  /** Without its former upvalue the graph satisfies the tri-colour invariant everywhere else. */
  lemma DetachedTri(g: Graph, m: Marks, again: seq<Id>, u: Id, k: Color)
    requires Marking(g, m, again) && GraphOk(g) && u in g && g[u].kind.OpenUpval? && Typed(g)
    requires k.White?() <==> m.color[u].White?()
    ensures g[u].kind.thread in g
    ensures TriExcept(Detached(g, u), Paint(m, u, k), again, {u})
  {
    assert OpenAt(g, u);
    var h, n := Detached(g, u), Paint(m, u, k);
    forall x | x in h && x !in {u} ensures TriAt(h, n, again, x) {
      assert TriAt(g, m, again, x) && TypedNode(g, g[x]);
      DetachedNode(g, u, x);
      if m.color[x].Black? {
        forall y | y in h[x].Succ() ensures Marked(n, y) { assert Marked(m, y); }
      }
    }
  }

  lemma DetachedRest(g: Graph, m: Marks, again: seq<Id>, u: Id, k: Color)
    requires Marking(g, m, again) && GraphOk(g) && u in g && g[u].kind.OpenUpval? && Queues(g, again)
    ensures g[u].kind.thread in g
    ensures var h, n := Detached(g, u), Paint(m, u, k);
      && AgainOk(n, again) && GrayOk(n) && Queues(h, n.gray) && Queues(h, again)
  {
    assert OpenAt(g, u);
    assert u !in m.gray && u !in again;
  }

  /** A white upvalue, or one that is painted black with a value that is already marked. */
  lemma CloseQuiet(g: Graph, m: Marks, again: seq<Id>, u: Id, k: Color)
    requires Marking(g, m, again) && GraphOk(g) && u in g && g[u].kind.OpenUpval? && Queues(g, again)
    requires if IsWhite(m, u) then k == m.color[u] else k == Black && AllMarked(m, g[u].refs)
    ensures g[u].kind.thread in g
    requires Typed(Detached(g, u))
    ensures Marking(Detached(g, u), Paint(m, u, k), again)
  {
    var h, n := Detached(g, u), Paint(m, u, k);
    DetachedTri(g, m, again, u, k);
    DetachedRest(g, m, again, u, k);
    assert TriAt(h, n, again, u) by {
      assert TypedNode(h, h[u]);
      if k == Black { forall y | y in h[u].Succ() ensures Marked(n, y) { assert Marked(m, y); } }
    }
  }

  /** A marked upvalue whose value is still white: the barrier marks the value. */
  lemma CloseMarks(g: Graph, m: Marks, again: seq<Id>, u: Id, v: Id)
    requires Marking(g, m, again) && GraphOk(g) && u in g && g[u].kind.OpenUpval? && Queues(g, again)
    requires Marked(m, u) && g[u].refs == [v] && IsWhite(m, v)
    ensures g[u].kind.thread in g
    requires Typed(Detached(g, u))
    ensures var h := Detached(g, u); Marking(h, Mark(h, Paint(m, u, Black), v), again)
  {
    var h, n := Detached(g, u), Paint(m, u, Black);
    DetachedTri(g, m, again, u, Black);
    DetachedRest(g, m, again, u, Black);
    MarkGrows(h, n, v);
    var r := Mark(h, n, v);
    GrowsKeepsTri(h, n, r, again, {u});
    GrowsKeepsAgain(h, n, r, again);
    GrowsKeepsQueues(h, n, r);
    MarkedStays(h, n, r);
    assert TriAt(h, r, again, u) by {
      assert TypedNode(h, h[u]);
      assert h[u].Succ() == [v];
    }
  }

  lemma CloseSide(g: Graph, m: Marks, again: seq<Id>, white: Color, main: Id, u: Id, k: Color)
    requires MarkSide(g, m, again, white, main) && GraphOk(g) && u in g && u in m.color
    requires g[u].kind.OpenUpval? && white.White?()
    requires if m.color[u].White?() then k == m.color[u] else k == Black
    ensures g[u].kind.thread in g
    ensures MarkSide(Detached(g, u), Paint(m, u, k), again, white, main)
  {
    assert OpenAt(g, u);
  }

  /** What closing needs to know about the graph around the upvalue. */
  ghost predicate Closable(c: Collector, u: Id) {
    && u in c.g && u in c.m.color && c.g[u].kind.OpenUpval? && c.g[u].kind.thread in c.g && GraphOk(c.g)
    && c.white.White?() && |c.g[u].refs| <= 1 && (forall y :: y in c.g[u].refs ==> y in c.g)
    && Typed(Detached(c.g, u))
  }

  lemma DetachedTyped(c: Collector, u: Id)
    requires Shape(c) && (forall x :: x in c.m.color ==> !Dead(c, x)) && u in c.g && c.g[u].kind.OpenUpval?
    ensures Closable(c, u)
  {
    var h := Detached(c.g, u);
    DetachedShape(c, u);
    LiveTyped(c.(g := h));
    assert TypedNode(h, h[u]);
    forall y | y in c.g[u].refs ensures y in c.g { assert y in h[u].Succ(); }
  }

  lemma CloseQuietInv(c: Collector, u: Id)
    requires MarkInv(c) && Closable(c, u) && (IsWhite(c.m, u) || AllMarked(c.m, c.g[u].refs))
    ensures MarkInv(CloseUpval(c, u))
  {
    hide Mark, GraphOk, Detached, Tri, AgainOk, Queues;
    var k := if IsWhite(c.m, u) then c.m.color[u] else Black;
    CloseSide(c.g, c.m, c.again, c.white, c.main, u, k);
    CloseQuiet(c.g, c.m, c.again, u, k);
    assert CloseUpval(c, u) == c.(g := Detached(c.g, u), m := Paint(c.m, u, k)) by {
      if IsWhite(c.m, u) {
        assert Paint(c.m, u, k) == c.m;
      } else if c.g[u].refs != [] {
        assert Marked(c.m, c.g[u].refs[0]);
      }
    }
  }

  lemma CloseMarksInv(c: Collector, u: Id, v: Id)
    requires MarkInv(c) && Closable(c, u) && c.phase != Pause
    requires Marked(c.m, u) && c.g[u].refs == [v] && IsWhite(c.m, v) && Marks?(c.phase)
    ensures MarkInv(CloseUpval(c, u))
  {
    hide Mark, GraphOk, Grows, Tri, AgainOk, Queues;
    var h, n := Detached(c.g, u), Paint(c.m, u, Black);
    CloseSide(c.g, c.m, c.again, c.white, c.main, u, Black);
    CloseMarks(c.g, c.m, c.again, u, v);
    DetachedRest(c.g, c.m, c.again, u, Black);
    MarkGrows(h, n, v);
    GrowsSide(h, n, Mark(h, n, v), c.again, c.white, c.main);
    assert u != v by { assert TypedNode(h, h[u]); }
    assert CloseUpval(c, u) == c.(g := h, m := Mark(h, n, v));
  }

  lemma CloseMarkInv(c: Collector, u: Id)
    requires MarkInv(c) && Closable(c, u) && Marks?(c.phase)
    ensures MarkInv(CloseUpval(c, u))
  {
    if IsWhite(c.m, u) || AllMarked(c.m, c.g[u].refs) {
      CloseQuietInv(c, u);
    } else {
      assert c.g[u].refs == [c.g[u].refs[0]];
      CloseMarksInv(c, u, c.g[u].refs[0]);
    }
  }

  lemma CloseShape(c: Collector, u: Id)
    requires Shape(c) && MarkInv(c) && Marks?(c.phase) && Closable(c, u)
    ensures Shape(CloseUpval(c, u))
  {
    hide Mark, GraphOk, Marking, Typed, TwupsOk, NodeLive;
    var d := c.(g := Detached(c.g, u));
    DetachedShape(c, u);
    if Marked(c.m, u) {
      var e := d.(m := Paint(c.m, u, Black));
      assert Live(d, u);
      RepaintShape(d, u, Black);
      if c.g[u].refs != [] && IsWhite(c.m, c.g[u].refs[0]) && c.g[u].refs[0] != u {
        var v := c.g[u].refs[0];
        DetachedRest(c.g, c.m, c.again, u, Black);
        CloseSide(c.g, c.m, c.again, c.white, c.main, u, Black);
        BarrierMarkShape(e, v);
      }
    }
  }

  ghost predicate CanClose(c: Collector, u: Id) {
    Inv(c) && Live(c, u) && u in c.g && c.g[u].kind.OpenUpval?
  }

  lemma CloseReady(c: Collector, u: Id)
    requires CanClose(c, u)
    ensures c.g[u].kind.thread in c.g && (forall v :: v in c.g[u].refs ==> v in c.g)
    ensures Marks?(c.phase) ==> Closable(c, u)
  {
    assert OpenAt(c.g, u) && NodeLive(c.g, c.m.color, c.white, u);
    forall v | v in c.g[u].refs ensures v in c.g { assert v in c.g[u].Succ(); }
    if Marks?(c.phase) { DetachedTyped(c, u); }
  }

  lemma CloseSweepInv(c: Collector, u: Id)
    requires CanClose(c, u) && !Marks?(c.phase)
    requires c.g[u].kind.thread in c.g && forall v :: v in c.g[u].refs ==> v in c.g
    ensures Inv(CloseUpval(c, u))
  {
    hide Shape, GraphOk;
    var d := c.(g := Detached(c.g, u));
    DetachedShape(c, u);
    if Marked(c.m, u) {
      var e := d.(m := Paint(c.m, u, Black));
      RepaintShape(d, u, Black);
      if c.g[u].refs != [] { BarrierSweepInv(e, u, c.g[u].refs[0]); }
    }
  }

  lemma CloseInv(c: Collector, u: Id)
    requires CanClose(c, u)
    ensures c.g[u].kind.thread in c.g && (forall v :: v in c.g[u].refs ==> v in c.g)
    ensures Marks?(c.phase) ==> Typed(Detached(c.g, u))
    ensures Inv(CloseUpval(c, u))
  {
    hide Shape, GraphOk, CloseUpval, Detached;
    CloseReady(c, u);
    if Marks?(c.phase) {
      CloseMarkInv(c, u);
      CloseShape(c, u);
    } else {
      CloseSweepInv(c, u);
    }
  }

  // ------------------------------------------------------------------------------------------
  // The collector's own steps
  // ------------------------------------------------------------------------------------------

  /** At the start of a cycle every object has the current white. */
  lemma RestartInv(c: Collector)
    requires Shape(c) && AllCurrent(c) && c.sweep.NoSweep?
    ensures Typed(c.g) && c.main in c.g && (forall x :: x in c.globals ==> x in c.g)
    ensures Inv(Restart(c))
  {
    hide GraphOk, Grows, MarkAll, NodeLive, TwupsOk;
    assert forall x :: x in c.m.color ==> !Dead(c, x);
    LiveTyped(c);
    assert c.main in Roots(c) && forall x :: x in c.globals ==> x in Roots(c);
    var m0 := Marks(c.m.color, []);
    var xs := [c.main] + c.globals;
    MarkAllGrows(c.g, m0, xs);
    RestartMarking(c.g, m0, MarkAll(c.g, m0, xs), c.white, c.main, xs);
    ShapeOnly(c, c.(m := m0, again := [], phase := Propagate));
    GrowsShape(c.(m := m0, again := [], phase := Propagate), MarkAll(c.g, m0, xs));
  }

  lemma RestartMarking(g: Graph, m: Marks, n: Marks, white: Color, main: Id, xs: seq<Id>)
    requires Typed(g) && m.color.Keys == g.Keys && m.gray == [] && white.White?()
    requires forall x :: x in m.color ==> m.color[x] == white
    requires Grows(g, m, n) && GrayOk(n) && AllMarked(n, xs) && main in xs
    ensures Marking(g, n, []) && MarkSide(g, n, [], white, main)
  {
    forall x | x in g ensures TriAt(g, m, [], x) {}
    GrowsKeepsMarking(g, m, n, []);
    forall x | x in g && x in n.color && n.color[x].Black? ensures !g[x].kind.Thread? {
      assert Kept(m, n, x) || Settled(g, n, x);
    }
    forall x | x in n.color ensures n.color[x] != OtherWhite(white) {
      assert Kept(m, n, x) || Marked(n, x);
    }
  }

  lemma PropagateThread(g: Graph, m: Marks, again: seq<Id>)
    requires Marking(g, m, again) && m.gray != []
    ensures var x := m.gray[0]; var n := Traverse(g, m, Gray);
      x in g && Marking(g, n, [x] + again) && Grows(g, Unlink(m, Gray), n)
  {
    var x, p := m.gray[0], Unlink(m, Gray);
    assert x in m.gray;
    assert p.color == m.color;
    UnlinkReady(g, m, Gray);
    assert Marking(g, p, [x] + again) by {
      forall y | y in g ensures TriAt(g, p, [x] + again, y) {
        assert TriAt(g, m, again, y);
        if m.color[y].Black? { forall z | z in g[y].Succ() ensures Marked(p, z) { assert Marked(m, z); } }
      }
    }
    MarkAllGrows(g, p, g[x].Succ());
    GrowsKeepsMarking(g, p, Traverse(g, m, Gray), [x] + again);
  }

  lemma PropagateSide(g: Graph, m: Marks, again: seq<Id>, white: Color, main: Id, k: Color)
    requires Marking(g, m, again) && MarkSide(g, m, again, white, main) && m.gray != [] && white.White?()
    requires m.gray[0] in g && k == if g[m.gray[0]].kind.Thread? then Gray else Black
    requires Grows(g, Unlink(m, k), Traverse(g, m, k))
    ensures MarkSide(g, Traverse(g, m, k), again, white, main)
    ensures Queues(g, [m.gray[0]] + again)
  {
    var x, p := m.gray[0], Unlink(m, k);
    assert x in m.gray;
    assert MarkSide(g, p, again, white, main);
    GrowsSide(g, p, Traverse(g, m, k), again, white, main);
  }

  lemma PropagateMarkInv(c: Collector)
    requires MarkInv(c) && c.m.gray != [] && c.white.White?()
    ensures MarkInv(PropagateStep(c))
  {
    hide Traverse, Grows, Tri, AgainOk, Typed;
    var x := c.m.gray[0];
    assert x in c.m.gray;
    if c.g[x].kind.Thread? {
      PropagateThread(c.g, c.m, c.again);
      PropagateSide(c.g, c.m, c.again, c.white, c.main, Gray);
    } else {
      TraverseTri(c.g, c.m, c.again);
      PropagateSide(c.g, c.m, c.again, c.white, c.main, Black);
    }
  }

  /** Colours other than the two whites are never dead, so marking and unlinking keep the shape. */
  lemma MarkedShape(c: Collector, d: Collector)
    requires Shape(c) && d == c.(m := d.m, again := d.again) && d.m.color.Keys == c.m.color.Keys
    requires forall x :: x in c.m.color ==> !Dead(c, x)
    requires forall x :: x in d.m.color ==> !Dead(d, x)
    ensures Shape(d)
  {
    SameLive(c, d);
  }

  lemma PropagateInv(c: Collector)
    requires Inv(c) && c.phase.Propagate? && c.m.gray != []
    ensures Inv(PropagateStep(c))
  {
    hide Traverse, GraphOk;
    PropagateMarkInv(c);
    MarkedShape(c, PropagateStep(c));
  }

  /** While marking, nothing is dead, so every thread with open upvalues is in the list. */
  lemma MarkingListed(c: Collector)
    requires Shape(c) && MarkSide(c.g, c.m, c.again, c.white, c.main)
    ensures AllListed(c.g, c.twups) && NoDup(c.twups) && forall t :: t in c.twups ==> t in c.g
  {
    hide GraphOk, NodeLive;
    forall t | t in c.g && c.g[t].open != [] ensures t in c.twups { assert LiveIn(c.m.color, c.white, t); }
  }

  lemma FlipLive(c: Collector)
    requires MarkInv(c) && GraphOk(c.g) && c.white.White?() && AllListed(c.g, c.twups) && NoDup(c.twups)
    requires (forall x :: x in Roots(c) ==> x in c.g) && (forall t :: t in c.twups ==> t in c.g)
    ensures var d := AtomicStep(c);
      && (forall x :: x in c.g ==> (LiveIn(d.m.color, d.white, x) <==> Marked(d.m, x)))
      && Closed(c.g, d.m) && AllMarked(d.m, [c.running] + c.globals) && Marked(d.m, c.main)
      && TwupsOk(d.g, d.m.color, d.white, d.twups) && d.m.color.Keys == c.g.Keys
  {
    hide GraphOk, AtomicMarks, AtomicTwups, Tri, AgainOk, Closed;
    var roots := [c.running] + c.globals;
    var d := AtomicStep(c);
    AtomicCloses(c.g, c.m, c.again, roots, c.twups);
    AtomicLists(c.g, c.m, c.again, roots, c.twups);
    forall x | x in c.g ensures LiveIn(d.m.color, d.white, x) <==> Marked(d.m, x) {
      assert IsWhite(d.m, x) ==> c.m.color[x] == d.m.color[x];
    }
  }

  /** After the flip exactly the marked objects are not dead. */
  lemma AtomicShape(c: Collector)
    requires Shape(c) && MarkInv(c)
    requires (forall x :: x in Roots(c) ==> x in c.g) && (forall t :: t in c.twups ==> t in c.g)
    ensures Shape(AtomicStep(c))
    ensures forall x :: x in c.g ==> (Live(AtomicStep(c), x) <==> Marked(AtomicStep(c).m, x))
  {
    hide GraphOk, AtomicMarks, AtomicTwups, Tri, AgainOk, TwupsOk;
    var roots := [c.running] + c.globals;
    var d := AtomicStep(c);
    MarkingListed(c);
    FlipLive(c);
    forall x | LiveIn(d.m.color, d.white, x) ensures NodeLive(d.g, d.m.color, d.white, x) {
      assert Marked(d.m, x) && TypedNode(c.g, c.g[x]);
      forall y | y in d.g[x].Succ() ensures LiveIn(d.m.color, d.white, y) { assert Marked(d.m, y); }
    }
    forall x | x in Roots(d) ensures LiveIn(d.m.color, d.white, x) {
      assert x == c.main || x in roots;
      assert Marked(d.m, x);
    }
  }
}
