/** Every interleaving of mutator actions and collector steps keeps the collector's invariants. */
module LuaRuns {
  import opened LuaMarking
  import opened LuaAtomic
  import opened LuaCollector

  /** What a program or the collector can do next.  `New` links the object into the stack of a
      thread; `Intern` pushes an existing string there, which the program names by its contents and
      need not be able to reach; `Write` stores `v` (with the forward or the backward barrier); `Drop`
      erases; `Stack` and `SetOpen` write the stack of a thread, which has no barrier of its own. */
  datatype Action =
    | New(x: Id, kind: Kind, refs: seq<Id>, t: Id)
    | Intern(x: Id, t: Id)
    | Write(o: Id, refs: seq<Id>, v: Id, back: bool)
    | Drop(o: Id, refs: seq<Id>)
    | Stack(t: Id, refs: seq<Id>)
    | SetOpen(u: Id, value: seq<Id>, stack: seq<Id>)
    | NewOpen(x: Id, t: Id, value: seq<Id>)
    | Close(u: Id)
    | SetGlobals(globals: seq<Id>)
    | SetRunning(t: Id)
    | Collect(fast: bool)
    | Abandon

  /** The existing objects an action has to reach. */
  function Touched(a: Action): seq<Id> {
    match a
    case New(_, _, refs, t) => refs + [t]
    case Intern(_, t) => [t]
    case Write(o, _, v, _) => [o, v]
    case Drop(o, _) => [o]
    case Stack(t, refs) => [t] + refs
    case SetOpen(u, value, _) => [u] + value
    case NewOpen(_, t, _) => [t]
    case Close(u) => [u]
    case SetGlobals(gs) => gs
    case SetRunning(t) => [t]
    case Collect(_) => []
    case Abandon => []
  }

  predicate Within(xs: seq<Id>, ys: seq<Id>) { forall x :: x in xs ==> x in ys }

  /** The open upvalues of `t` other than `u` keep their values on the new stack. */
  predicate Covers(g: Graph, t: Id, u: Id, stack: seq<Id>) {
    forall w :: w in g && w != u && g[w].kind == OpenUpval(t) ==> Within(g[w].refs, stack)
  }

  predicate Plain?(k: Kind) { k.Container? || k.ClosedUpval? || k.BareUdata? }

  predicate WellTyped(g: Graph, k: Kind, refs: seq<Id>) {
    && (k.String? ==> refs == [])
    && (k.Upval?() ==> |refs| <= 1 && forall y :: y in refs ==> y in g && !g[y].kind.Upval?())
    && (k.BareUdata? ==> |refs| <= 1 && forall y :: y in refs ==> y in g && g[y].kind.Container?)
  }

  /** The shape of a legal action, leaving aside which objects the program can get hold of. */
  predicate Guard(c: Collector, a: Action) {
    match a
    case New(x, k, refs, t) =>
      x !in c.g && !k.OpenUpval? && WellTyped(c.g, k, refs) && t in c.g && c.g[t].kind.Thread?
    case Intern(x, t) => x in c.g && c.g[x].kind.String? && t in c.g && c.g[t].kind.Thread?
    case Write(o, refs, v, back) =>
      o in c.g && Plain?(c.g[o].kind) && WellTyped(c.g, c.g[o].kind, refs)
      && Within(refs, c.g[o].refs + [v]) && v in refs && (back ==> c.g[o].kind.Container?)
    case Drop(o, refs) =>
      o in c.g && Plain?(c.g[o].kind) && |refs| <= |c.g[o].refs| && Within(refs, c.g[o].refs)
    case Stack(t, refs) => t in c.g && c.g[t].kind.Thread? && Covers(c.g, t, t, refs)
    case SetOpen(u, value, stack) =>
      u in c.g && c.g[u].kind.OpenUpval? && WellTyped(c.g, c.g[u].kind, value)
      && var t := c.g[u].kind.thread;
         t in c.g && Within(stack, c.g[t].refs + value) && Within(value, stack) && Covers(c.g, t, u, stack)
    case NewOpen(x, t, value) =>
      x !in c.g && t in c.g && c.g[t].kind.Thread? && Within(value, c.g[t].refs)
      && WellTyped(c.g, OpenUpval(t), value)
    case Close(u) => u in c.g && c.g[u].kind.OpenUpval?
    case SetGlobals(_) => true
    case SetRunning(t) => t in c.g && c.g[t].kind.Thread?
    case Collect(_) => true
    case Abandon => c.phase.Propagate? || c.phase.EnterAtomic?
  }

  /** `luaC_newobjdt`: a new object is white and goes to the head of the object list. */
  function NewObject(c: Collector, x: Id, n: Node): Collector {
    c.(g := c.g[x := n], m := c.m.(color := c.m.color[x := c.white]), allgc := [x] + c.allgc,
       sweep := if c.sweep.At? then At(c.sweep.pos + 1) else c.sweep)
  }

  function SetRefs(g: Graph, o: Id, refs: seq<Id>): Graph
    requires o in g
  {
    g[o := g[o].(refs := refs)]
  }

  // ------------------------------------------------------------------------------------------
  // Changing the graph
  // ------------------------------------------------------------------------------------------

  lemma LiveTyped(c: Collector)
    requires Shape(c) && forall x :: x in c.m.color ==> !Dead(c, x)
    ensures Typed(c.g)
  {
    forall x | x in c.g ensures TypedNode(c.g, c.g[x]) { assert NodeLive(c.g, c.m.color, c.white, x); }
  }

  predicate SameKinds(g: Graph, h: Graph) {
    h.Keys == g.Keys && forall x :: x in g ==> h[x].kind == g[x].kind && h[x].open == g[x].open
  }

  /** References may lead from `x` in `h` to objects that are not dead. */
  predicate LeadsToLive(c: Collector, h: Graph, x: Id) {
    NodeLive(h, c.m.color, c.white, x)
  }

  lemma RewireShape(c: Collector, h: Graph)
    requires Shape(c) && SameKinds(c.g, h) && GraphOk(h)
    requires forall x :: Live(c, x) ==> LeadsToLive(c, h, x)
    ensures Shape(c.(g := h))
  {
    var d := c.(g := h);
    forall x | Live(d, x) ensures NodeLive(d.g, d.m.color, d.white, x) { assert Live(c, x); }
  }

  lemma RewireTri(g: Graph, h: Graph, m: Marks, again: seq<Id>)
    requires Marking(g, m, again) && SameKinds(g, h) && Typed(h)
    requires forall x :: x in h && m.color[x].Black? ==> AllMarked(m, h[x].Succ())
    ensures Marking(h, m, again)
  {
    forall x | x in h ensures TriAt(h, m, again, x) { assert TriAt(g, m, again, x); }
  }

  lemma RewireMarking(c: Collector, h: Graph)
    requires MarkInv(c) && SameKinds(c.g, h)
    requires forall x :: Live(c, x) ==> LeadsToLive(c, h, x)
    requires forall x :: x in h && c.m.color[x].Black? ==> AllMarked(c.m, h[x].Succ())
    ensures MarkInv(c.(g := h))
  {
    forall x | x in h ensures TypedNode(h, h[x]) { assert Live(c, x); }
    RewireTri(c.g, h, c.m, c.again);
  }

  /** Any change of references that leads from objects that are not dead to objects that are not
      dead, and never from a black object to a white one while marking, keeps the invariant. */
  lemma Rewire(c: Collector, h: Graph)
    requires Inv(c) && SameKinds(c.g, h) && GraphOk(h)
    requires forall x :: Live(c, x) ==> LeadsToLive(c, h, x)
    requires Marks?(c.phase) ==>
      forall x :: x in h && c.m.color[x].Black? ==> AllMarked(c.m, h[x].Succ())
    ensures Inv(c.(g := h))
  {
    RewireShape(c, h);
    if Marks?(c.phase) { RewireMarking(c, h); }
  }

  /** Marking more objects keeps the shape: nothing becomes dead by being marked. */
  lemma GrowsShape(c: Collector, n: Marks)
    requires Shape(c) && Grows(c.g, c.m, n) && forall x :: x in c.m.color ==> !Dead(c, x)
    ensures Shape(c.(m := n)) && forall x :: x in n.color ==> !Dead(c.(m := n), x)
  {
    var d := c.(m := n);
    MarkedStays(c.g, c.m, n);
    forall x | x in n.color ensures !Dead(d, x) { assert !Dead(c, x); }
    SameLive(c, d);
  }

  lemma GrowsSide(g: Graph, m: Marks, n: Marks, again: seq<Id>, white: Color, main: Id)
    requires m.color.Keys == g.Keys && Grows(g, m, n) && white.White?() && MarkSide(g, m, again, white, main)
    ensures MarkSide(g, n, again, white, main)
  {
    MarkedStays(g, m, n);
    forall x | x in g && x in n.color && n.color[x].Black? ensures !g[x].kind.Thread? {
      assert Kept(m, n, x) || Settled(g, n, x);
    }
    forall x | x in n.color ensures n.color[x] != OtherWhite(white) {
      assert Kept(m, n, x) || Marked(n, x);
    }
  }

  /** Painting an object that is not dead with another live colour keeps the shape. */
  lemma RepaintShape(c: Collector, o: Id, k: Color)
    requires Shape(c) && Live(c, o) && k != OtherWhite(c.white)
    ensures Shape(c.(m := Paint(c.m, o, k)))
  {
    SameLive(c, c.(m := Paint(c.m, o, k)));
  }

  // ------------------------------------------------------------------------------------------
  // Writes and barriers
  // ------------------------------------------------------------------------------------------

  lemma SetRefsOpen(g: Graph, o: Id, refs: seq<Id>)
    requires GraphOk(g) && o in g && Plain?(g[o].kind)
    ensures GraphOk(SetRefs(g, o, refs)) && SameKinds(g, SetRefs(g, o, refs))
  {
    var h := SetRefs(g, o, refs);
    forall w | w in h && h[w].kind.OpenUpval? ensures OpenAt(h, w) { assert OpenAt(g, w); }
    forall x | x in h ensures ListAt(h, x) { assert ListAt(g, x); }
  }

  /** Storing references in a plain object. */
  lemma SetRefsLive(c: Collector, o: Id, refs: seq<Id>, v: Id, x: Id)
    requires c.m.color.Keys == c.g.Keys && NodeLive(c.g, c.m.color, c.white, o) && Live(c, v) && Plain?(c.g[o].kind)
    requires WellTyped(c.g, c.g[o].kind, refs) && Within(refs, c.g[o].refs + [v])
    requires x in c.g && NodeLive(c.g, c.m.color, c.white, x)
    ensures LeadsToLive(c, SetRefs(c.g, o, refs), x)
  {
    var h := SetRefs(c.g, o, refs);
    if x == o {
      forall y | y in h[o].Succ() ensures Live(c, y) { assert y == v || y in c.g[o].Succ(); }
      forall y | y in refs ensures y in h { assert y in h[o].Succ(); }
    }
  }

  lemma BackMarking(g: Graph, m: Marks, again: seq<Id>, o: Id)
    requires Marking(g, m, again) && o in g && m.color[o].Black?
    ensures Marking(g, Paint(m, o, Gray), [o] + again)
  {
    var n, ag := Paint(m, o, Gray), [o] + again;
    forall x | x in g ensures TriAt(g, n, ag, x) {
      assert TriAt(g, m, again, x);
      if n.color[x].Black? {
        forall y | y in g[x].Succ() ensures Marked(n, y) { assert Marked(m, y); }
      }
    }
  }

  lemma BarrierBackMark(c: Collector, o: Id, v: Id)
    requires MarkInv(c) && o in c.g && c.g[o].kind.Container?
    ensures MarkInv(BarrierBack(c, o, v))
  {
    if c.m.color[o].Black? { BackMarking(c.g, c.m, c.again, o); }
  }

  lemma BarrierBackShape(c: Collector, o: Id, v: Id)
    requires Shape(c) && Live(c, o)
    ensures Shape(BarrierBack(c, o, v))
  {
    if BarrierBack(c, o, v) != c {
      RepaintShape(c, o, Gray);
      ShapeOnly(c.(m := Paint(c.m, o, Gray)), BarrierBack(c, o, v));
    }
  }

  /** A backward barrier alone keeps the invariant. */
  lemma BarrierBackInv(c: Collector, o: Id, v: Id)
    requires Inv(c) && Live(c, o) && c.g[o].kind.Container?
    ensures Inv(BarrierBack(c, o, v))
  {
    BarrierBackShape(c, o, v);
    if Marks?(c.phase) { BarrierBackMark(c, o, v); }
  }

  /** The forward barrier marks the stored value, which restores the tri-colour invariant. */
  lemma ForwardMarking(g: Graph, h: Graph, m: Marks, again: seq<Id>, o: Id, v: Id)
    requires Marking(g, m, again) && SameKinds(g, h) && Typed(h)
    requires o in g && v in g && IsWhite(m, v) && m.color[o].Black?
    requires forall x :: x in g && x != o ==> h[x] == g[x]
    requires forall y :: y in h[o].Succ() ==> y == v || y in g[o].Succ()
    ensures Marking(h, Mark(h, m, v), again)
  {
    var n := Mark(h, m, v);
    MarkGrows(h, m, v);
    forall x | x in h && x !in {o} ensures TriAt(h, m, again, x) { assert TriAt(g, m, again, x); }
    GrowsKeepsTri(h, m, n, again, {o});
    GrowsKeepsAgain(h, m, n, again);
    GrowsKeepsQueues(h, m, n);
    MarkedStays(h, m, n);
    assert TriAt(h, n, again, o) by {
      assert TriAt(g, m, again, o);
      forall y | y in h[o].Succ() ensures Marked(n, y) { assert y == v || Marked(m, y); }
    }
  }

  lemma BarrierMarkInv(c: Collector, h: Graph, o: Id, v: Id)
    requires MarkInv(c) && SameKinds(c.g, h) && Typed(h) && c.white.White?()
    requires o in c.g && v in c.g && IsWhite(c.m, v) && c.m.color[o].Black?
    requires forall x :: x in c.g && x != o ==> h[x] == c.g[x]
    requires forall y :: y in h[o].Succ() ==> y == v || y in c.g[o].Succ()
    ensures MarkInv(c.(g := h, m := Mark(h, c.m, v)))
  {
    ForwardMarking(c.g, h, c.m, c.again, o, v);
    MarkGrows(h, c.m, v);
    assert MarkSide(h, c.m, c.again, c.white, c.main);
    GrowsSide(h, c.m, Mark(h, c.m, v), c.again, c.white, c.main);
  }

  lemma BarrierMarkShape(c: Collector, v: Id)
    requires Shape(c) && MarkSide(c.g, c.m, c.again, c.white, c.main) && GrayOk(c.m) && IsWhite(c.m, v)
    ensures Typed(c.g) && Shape(c.(m := Mark(c.g, c.m, v)))
  {
    LiveTyped(c);
    MarkGrows(c.g, c.m, v);
    GrowsShape(c, Mark(c.g, c.m, v));
  }

  /** In the sweep phase the barrier only whitens the written object. */
  lemma BarrierSweepInv(c: Collector, o: Id, v: Id)
    requires Inv(c) && !Marks?(c.phase) && Live(c, o) && v in c.g
    ensures Inv(Barrier(c, o, v))
  {
    if Barrier(c, o, v) != c { RepaintShape(c, o, c.white); }
  }

  // ------------------------------------------------------------------------------------------
  // Writing into a plain object
  // ------------------------------------------------------------------------------------------

  ghost predicate CanWrite(c: Collector, o: Id, refs: seq<Id>, v: Id) {
    Inv(c) && Live(c, o) && Live(c, v) && Guard(c, Write(o, refs, v, false))
  }

  lemma WriteShape(c: Collector, o: Id, refs: seq<Id>, v: Id)
    requires CanWrite(c, o, refs, v)
    ensures var h := SetRefs(c.g, o, refs);
      && SameKinds(c.g, h) && GraphOk(h) && Shape(c.(g := h))
      && (forall x :: Live(c, x) ==> LeadsToLive(c, h, x))
      && (Marks?(c.phase) ==> Typed(h))
  {
    var h := SetRefs(c.g, o, refs);
    SetRefsOpen(c.g, o, refs);
    forall x | Live(c, x) ensures LeadsToLive(c, h, x) { SetRefsLive(c, o, refs, v, x); }
    RewireShape(c, h);
    if Marks?(c.phase) { LiveTyped(c.(g := h)); }
  }

  /** A store followed by one of the two barriers. */
  function DoWrite(c: Collector, o: Id, refs: seq<Id>, v: Id, back: bool): Collector
    requires CanWrite(c, o, refs, v)
  {
    WriteShape(c, o, refs, v);
    var d := c.(g := SetRefs(c.g, o, refs));
    if back then BarrierBack(d, o, v) else Barrier(d, o, v)
  }

  /** When the written object is not black or the value is not white, no barrier is needed. */
  lemma PlainWriteInv(c: Collector, o: Id, refs: seq<Id>, v: Id)
    requires CanWrite(c, o, refs, v) && (Marks?(c.phase) && c.m.color[o].Black? ==> Marked(c.m, v))
    ensures Inv(c.(g := SetRefs(c.g, o, refs)))
  {
    var h := SetRefs(c.g, o, refs);
    WriteShape(c, o, refs, v);
    if Marks?(c.phase) {
      forall x | x in h && c.m.color[x].Black? ensures AllMarked(c.m, h[x].Succ()) {
        assert TriAt(c.g, c.m, c.again, x);
        if x == o {
          forall y | y in h[o].Succ() ensures Marked(c.m, y) { assert y == v || y in c.g[o].Succ(); }
        }
      }
    }
    Rewire(c, h);
  }

  lemma BackWriteInv(c: Collector, o: Id, refs: seq<Id>, v: Id)
    requires CanWrite(c, o, refs, v) && c.g[o].kind.Container? && c.m.color[o].Black? && IsWhite(c.m, v)
    ensures Inv(DoWrite(c, o, refs, v, true))
  {
    var b := BarrierBack(c, o, v);
    BarrierBackInv(c, o, v);
    assert CanWrite(b, o, refs, v);
    PlainWriteInv(b, o, refs, v);
  }

  lemma ForwardWriteInv(c: Collector, o: Id, refs: seq<Id>, v: Id)
    requires CanWrite(c, o, refs, v) && c.m.color[o].Black? && IsWhite(c.m, v)
    ensures Inv(DoWrite(c, o, refs, v, false))
  {
    hide Tri, AgainOk, Queues, Mark, Typed, GraphOk;
    var h := SetRefs(c.g, o, refs);
    WriteShape(c, o, refs, v);
    if Marks?(c.phase) {
      forall y | y in h[o].Succ() ensures y == v || y in c.g[o].Succ() {}
      BarrierMarkInv(c, h, o, v);
      BarrierMarkShape(c.(g := h), v);
    } else {
      PlainWriteInv(c, o, refs, v);
      BarrierSweepInv(c.(g := h), o, v);
    }
  }

  lemma WriteInv(c: Collector, o: Id, refs: seq<Id>, v: Id, back: bool)
    requires CanWrite(c, o, refs, v) && (back ==> c.g[o].kind.Container?)
    ensures Inv(DoWrite(c, o, refs, v, back))
  {
    if !(c.m.color[o].Black? && IsWhite(c.m, v)) {
      PlainWriteInv(c, o, refs, v);
    } else if back {
      BackWriteInv(c, o, refs, v);
    } else {
      ForwardWriteInv(c, o, refs, v);
    }
  }

  /** Erasing references needs no barrier. */
  lemma DropInv(c: Collector, o: Id, refs: seq<Id>)
    requires Inv(c) && Live(c, o) && Guard(c, Drop(o, refs))
    ensures Inv(c.(g := SetRefs(c.g, o, refs)))
  {
    var h := SetRefs(c.g, o, refs);
    SetRefsOpen(c.g, o, refs);
    assert NodeLive(c.g, c.m.color, c.white, o);
    forall x | Live(c, x) ensures LeadsToLive(c, h, x) { SetRefsLive(c, o, refs, o, x); }
    if Marks?(c.phase) {
      forall x | x in h && c.m.color[x].Black? ensures AllMarked(c.m, h[x].Succ()) {
        assert TriAt(c.g, c.m, c.again, x);
        forall y | y in h[x].Succ() ensures Marked(c.m, y) { assert y in c.g[x].Succ(); }
      }
    }
    Rewire(c, h);
  }

  // ------------------------------------------------------------------------------------------
  // Stacks and open upvalues
  // ------------------------------------------------------------------------------------------

  /** The graph after the stack of `t` and the value of its open upvalue `u` have been written; with
      `u == t` only the stack changes. */
  function SetStack(g: Graph, t: Id, stack: seq<Id>, u: Id, value: seq<Id>): Graph
    requires t in g && u in g
  {
    if u == t then SetRefs(g, t, stack) else SetRefs(SetRefs(g, t, stack), u, value)
  }

  predicate StackOk(g: Graph, t: Id, stack: seq<Id>, u: Id, value: seq<Id>) {
    && t in g && g[t].kind.Thread? && u in g && Covers(g, t, u, stack)
    && (u != t ==> g[u].kind == OpenUpval(t) && Within(value, stack) && WellTyped(g, g[u].kind, value))
  }

  lemma SetStackKinds(g: Graph, t: Id, stack: seq<Id>, u: Id, value: seq<Id>)
    requires t in g && u in g
    ensures SameKinds(g, SetStack(g, t, stack, u, value))
  {
  }

  lemma SetStackOpen(g: Graph, t: Id, stack: seq<Id>, u: Id, value: seq<Id>)
    requires GraphOk(g) && StackOk(g, t, stack, u, value)
    ensures GraphOk(SetStack(g, t, stack, u, value)) && SameKinds(g, SetStack(g, t, stack, u, value))
  {
    hide SameKinds;
    SetStackKinds(g, t, stack, u, value);
    var h := SetStack(g, t, stack, u, value);
    forall w | w in h && h[w].kind.OpenUpval? ensures OpenAt(h, w) {
      assert OpenAt(g, w);
      if h[w].kind.thread == t && w != u { assert Within(g[w].refs, stack); }
    }
    forall x | x in h ensures ListAt(h, x) { assert ListAt(g, x); }
  }

  lemma SetStackLive(c: Collector, t: Id, stack: seq<Id>, u: Id, value: seq<Id>, x: Id)
    requires c.m.color.Keys == c.g.Keys && StackOk(c.g, t, stack, u, value)
    requires NodeLive(c.g, c.m.color, c.white, x)
    requires x == t ==> forall y :: y in stack ==> Live(c, y)
    requires u != t && x == u ==> forall y :: y in value ==> Live(c, y)
    ensures LeadsToLive(c, SetStack(c.g, t, stack, u, value), x)
  {
    var h := SetStack(c.g, t, stack, u, value);
    forall y | y in h[x].Succ() ensures Live(c, y) { assert y in h[x].refs || y in c.g[x].Succ(); }
    forall y | y in h[x].refs ensures y in h { assert y in h[x].Succ(); }
  }

  /** Neither threads nor open upvalues are black while marking, so their writes need no barrier. */
  lemma SetStackInv(c: Collector, t: Id, stack: seq<Id>, u: Id, value: seq<Id>)
    requires Inv(c) && StackOk(c.g, t, stack, u, value)
    requires Live(c, t) ==> forall y :: y in stack ==> Live(c, y)
    requires u != t ==> forall y :: y in value ==> Live(c, y)
    ensures Inv(c.(g := SetStack(c.g, t, stack, u, value)))
  {
    var h := SetStack(c.g, t, stack, u, value);
    SetStackOpen(c.g, t, stack, u, value);
    forall x | Live(c, x) ensures LeadsToLive(c, h, x) { SetStackLive(c, t, stack, u, value, x); }
    if Marks?(c.phase) {
      forall x | x in h && c.m.color[x].Black? ensures AllMarked(c.m, h[x].Succ()) {
        assert TriAt(c.g, c.m, c.again, x);
      }
    }
    Rewire(c, h);
  }

  /** Writing through an open upvalue; its thread may be unreachable by now. */
  function DoSetOpen(c: Collector, u: Id, value: seq<Id>, stack: seq<Id>): Collector
    requires Inv(c) && Guard(c, SetOpen(u, value, stack)) && forall y :: y in value ==> Live(c, y)
    requires Live(c, u)
  {
    var t := c.g[u].kind.thread;
    SetOpenInv(c, u, value, stack);
    var d := c.(g := SetStack(c.g, t, stack, u, value));
    if value == [] then d else
      if Marks?(c.phase) then LiveTyped(d); Barrier(d, u, value[0]) else Barrier(d, u, value[0])
  }

  lemma SetOpenInv(c: Collector, u: Id, value: seq<Id>, stack: seq<Id>)
    requires Inv(c) && Guard(c, SetOpen(u, value, stack)) && forall y :: y in value ==> Live(c, y)
    ensures c.g[u].kind.thread in c.g && Inv(c.(g := SetStack(c.g, c.g[u].kind.thread, stack, u, value)))
  {
    var t := c.g[u].kind.thread;
    if Live(c, t) {
      assert NodeLive(c.g, c.m.color, c.white, t);
      forall y | y in stack ensures Live(c, y) { assert y in value || y in c.g[t].Succ(); }
    }
    SetStackInv(c, t, stack, u, value);
  }

  lemma DoSetOpenInv(c: Collector, u: Id, value: seq<Id>, stack: seq<Id>)
    requires Inv(c) && Guard(c, SetOpen(u, value, stack)) && forall y :: y in value ==> Live(c, y)
    requires Live(c, u)
    ensures Inv(DoSetOpen(c, u, value, stack))
  {
    hide GraphOk, Shape, Covers;
    SetOpenInv(c, u, value, stack);
    var d := c.(g := SetStack(c.g, c.g[u].kind.thread, stack, u, value));
    if Marks?(c.phase) {
      assert TriAt(d.g, d.m, d.again, u);
    } else if value != [] {
      BarrierSweepInv(d, u, value[0]);
    }
  }

  // ------------------------------------------------------------------------------------------
  // New objects
  // ------------------------------------------------------------------------------------------

  /** A new object `x`, reachable from thread `t`, whose node becomes `nt`. A thread that has got an open
      upvalue is linked into the list of such threads. */
  function AddNode(c: Collector, x: Id, n: Node, t: Id, nt: Node): Collector {
    var h := c.g[x := n][t := nt];
    NewObject(c, x, n).(g := h, twups := LinkThread(h, c.twups, t))
  }

  ghost predicate Addable(c: Collector, x: Id, n: Node, t: Id, nt: Node) {
    && x !in c.g && t in c.g && x != t && c.g[t].kind.Thread? && nt.kind.Thread?
    && GraphOk(c.g[x := n][t := nt])
    && TypedNode(c.g[x := n][t := nt], n) && TypedNode(c.g[x := n][t := nt], nt) && n.open == [] && Live(c, t)
    && (forall y :: y in n.Succ() ==> Live(c, y))
    && (forall y :: y in nt.Succ() ==> y == x || y in c.g[t].Succ())
  }

  lemma AddNodeTwups(c: Collector, x: Id, n: Node, t: Id, nt: Node)
    requires x !in c.m.color && t in c.g && x != t && n.open == [] && Live(c, t) && c.white.White?()
    requires TwupsOk(c.g, c.m.color, c.white, c.twups)
    ensures var d := AddNode(c, x, n, t, nt); TwupsOk(d.g, d.m.color, d.white, d.twups)
  {
  }

  lemma AddNodeLive(c: Collector, x: Id, n: Node, t: Id, nt: Node, y: Id)
    requires Addable(c, x, n, t, nt) && c.m.color.Keys == c.g.Keys && c.white.White?()
    requires y == x || NodeLive(c.g, c.m.color, c.white, y)
    ensures var d := AddNode(c, x, n, t, nt); NodeLive(d.g, d.m.color, d.white, y)
  {
    hide TwupsOk, LinkThread, GraphOk;
    var d := AddNode(c, x, n, t, nt);
    if y != x {
      forall z | z in d.g[y].Succ() ensures LiveIn(d.m.color, d.white, z) {
        assert z == x || LiveIn(c.m.color, c.white, z);
      }
      assert TypedNode(d.g, d.g[y]);
    } else {
      forall z | z in n.Succ() ensures LiveIn(d.m.color, d.white, z) { assert Live(c, z); }
    }
  }

  lemma AddNodeShape(c: Collector, x: Id, n: Node, t: Id, nt: Node)
    requires Shape(c) && Addable(c, x, n, t, nt)
    ensures Shape(AddNode(c, x, n, t, nt))
  {
    hide TwupsOk, LinkThread, NodeLive, GraphOk;
    var d := AddNode(c, x, n, t, nt);
    AddNodeTwups(c, x, n, t, nt);
    forall y | LiveIn(d.m.color, d.white, y) ensures NodeLive(d.g, d.m.color, d.white, y) {
      assert y == x || LiveIn(c.m.color, c.white, y);
      AddNodeLive(c, x, n, t, nt, y);
    }
    forall y | y in Roots(d) ensures LiveIn(d.m.color, d.white, y) { assert LiveIn(c.m.color, c.white, y); }
  }

  lemma AddNodeMarking(g: Graph, m: Marks, again: seq<Id>, x: Id, h: Graph, k: Color, t: Id)
    requires Marking(g, m, again) && x !in g && h.Keys == g.Keys + {x} && k.White?() && Typed(h)
    requires forall y :: y in g && y != t ==> h[y] == g[y]
    requires t in g && h[t].kind == g[t].kind && !m.color[t].Black?
    ensures Marking(h, m.(color := m.color[x := k]), again)
  {
    var n := m.(color := m.color[x := k]);
    forall y | y in h ensures TriAt(h, n, again, y) {
      if y != x {
        assert TriAt(g, m, again, y);
        if m.color[y].Black? { forall z | z in h[y].Succ() ensures Marked(n, z) { assert Marked(m, z); } }
      }
    }
  }

  lemma AddNodeSide(c: Collector, x: Id, n: Node, t: Id, nt: Node)
    requires MarkInv(c) && x !in c.g && t in c.g && x != t && nt.kind.Thread? && c.g[t].kind.Thread? && c.white.White?()
    ensures var d := AddNode(c, x, n, t, nt); MarkSide(d.g, d.m, d.again, d.white, d.main)
  {
    var d := AddNode(c, x, n, t, nt);
    assert x !in c.again by { assert x !in c.g; }
    assert Marked(c.m, c.main);
  }

  lemma AddNodeMark(c: Collector, x: Id, n: Node, t: Id, nt: Node)
    requires MarkInv(c) && x !in c.g && t in c.g && x != t && c.g[t].kind.Thread? && nt.kind.Thread?
    requires Typed(AddNode(c, x, n, t, nt).g) && c.white.White?()
    ensures MarkInv(AddNode(c, x, n, t, nt))
  {
    hide Tri, AgainOk, Queues, Typed, GraphOk;
    var d := AddNode(c, x, n, t, nt);
    AddNodeSide(c, x, n, t, nt);
    AddNodeMarking(c.g, c.m, c.again, x, d.g, c.white, t);
  }

  lemma AddNodeInv(c: Collector, x: Id, n: Node, t: Id, nt: Node)
    requires Inv(c) && Addable(c, x, n, t, nt)
    ensures Inv(AddNode(c, x, n, t, nt))
  {
    hide TwupsOk, LinkThread, GraphOk, NodeLive;
    AddNodeShape(c, x, n, t, nt);
    if Marks?(c.phase) {
      AddNodeSide(c, x, n, t, nt);
      LiveTyped(AddNode(c, x, n, t, nt));
      AddNodeMark(c, x, n, t, nt);
    } else {
      assert PhaseInv(AddNode(c, x, n, t, nt));
    }
  }
}
