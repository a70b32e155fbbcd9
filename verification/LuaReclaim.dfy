/** The other half of the collector's contract: everything unreachable when a cycle starts is freed
    before the next one can start, except for strings that the program interns again meanwhile. */
module LuaReclaim {
  import opened LuaMarking
  import opened LuaAtomic
  import opened LuaCollector
  import opened LuaRuns
  import opened LuaSteps
  import opened LuaSafety

  /** No reference leads into `U` from outside. */
  predicate Isolated(g: Graph, U: set<Id>) {
    forall x :: x in g && x !in U ==> forall y :: y in g[x].Succ() ==> y !in U
  }

  predicate Outside(xs: seq<Id>, U: set<Id>) { forall x :: x in xs ==> x !in U }

  /** `n` agrees with `m` on the colours of `U`. */
  predicate Untouched(m: Marks, n: Marks, U: set<Id>) {
    forall u :: u in U ==> u in m.color && u in n.color && n.color[u] == m.color[u]
  }

  lemma {:induction false} MarkAvoids(g: Graph, m: Marks, x: Id, U: set<Id>)
    requires Typed(g) && x in g && Isolated(g, U) && x !in U && Untouched(m, m, U)
    ensures Untouched(m, Mark(g, m, x), U)
    decreases Rank(g[x].kind), 1
  {
    var n := g[x];
    assert TypedNode(g, n);
    if n.refs != [] {
      var y := n.refs[0];
      assert y in n.Succ();
      if n.kind.Upval?() {
        var k := if n.kind.OpenUpval? then Gray else Black;
        MarkValueAvoids(g, Paint(m, x, k), y, U);
      } else if n.kind.BareUdata? {
        assert y in n.refs;
        MarkValueAvoids(g, m, y, U);
      }
    }
  }

  lemma {:induction false} MarkValueAvoids(g: Graph, m: Marks, x: Id, U: set<Id>)
    requires Typed(g) && x in g && Isolated(g, U) && x !in U && Untouched(m, m, U)
    ensures Untouched(m, MarkValue(g, m, x), U)
    decreases Rank(g[x].kind), 2
  {
    if IsWhite(m, x) { MarkAvoids(g, m, x, U); }
  }

  lemma {:induction false} MarkAllAvoids(g: Graph, m: Marks, xs: seq<Id>, U: set<Id>)
    requires Typed(g) && (forall x :: x in xs ==> x in g) && Isolated(g, U) && Outside(xs, U) && Untouched(m, m, U)
    ensures Untouched(m, MarkAll(g, m, xs), U)
    decreases |xs|
  {
    if xs != [] {
      MarkValueAvoids(g, m, xs[0], U);
      MarkAllAvoids(g, MarkValue(g, m, xs[0]), xs[1..], U);
    }
  }

  /** While marking, the objects of `U` are white, so none of them is in the gray list. */
  predicate AllWhite(m: Marks, U: set<Id>) { forall u :: u in U ==> IsWhite(m, u) }

  lemma TraverseAvoids(g: Graph, m: Marks, k: Color, U: set<Id>)
    requires Ready(g, m) && m.gray != [] && !k.White?() && Isolated(g, U) && AllWhite(m, U)
    ensures Untouched(m, Traverse(g, m, k), U)
  {
    var x, p := m.gray[0], Unlink(m, k);
    assert x in m.gray && x !in U;
    UnlinkReady(g, m, k);
    MarkAllAvoids(g, p, g[x].Succ(), U);
  }

  lemma {:induction false} PropagateAllAvoids(g: Graph, m: Marks, U: set<Id>)
    requires Ready(g, m) && Isolated(g, U) && AllWhite(m, U)
    ensures Untouched(m, PropagateAll(g, m), U)
    decreases Work(m)
  {
    if m.gray != [] {
      TraverseAvoids(g, m, Black, U);
      PropagateAllAvoids(g, Traverse(g, m, Black), U);
    }
  }

  lemma {:induction false} RemarkListAvoids(g: Graph, m: Marks, us: seq<Id>, U: set<Id>)
    requires Typed(g) && (forall u :: u in us ==> u in g) && Isolated(g, U) && AllWhite(m, U)
    ensures Untouched(m, RemarkList(g, m, us), U)
    decreases |us|
  {
    if us != [] {
      assert TypedNode(g, g[us[0]]);
      var p := if Marked(m, us[0]) then MarkAll(g, m, g[us[0]].refs) else m;
      if Marked(m, us[0]) {
        assert us[0] !in U;
        assert forall y :: y in g[us[0]].refs ==> y in g[us[0]].Succ();
        MarkAllAvoids(g, m, g[us[0]].refs, U);
      }
      RemarkListAvoids(g, p, us[1..], U);
    }
  }

  lemma {:induction false} RemarkAvoids(g: Graph, m: Marks, ts: seq<Id>, U: set<Id>)
    requires Typed(g) && (forall t :: t in ts ==> t in g) && Isolated(g, U) && AllWhite(m, U)
    ensures Untouched(m, Remark(g, m, ts), U)
    decreases |ts|
  {
    if ts != [] {
      assert TypedNode(g, g[ts[0]]);
      var p := if IsWhite(m, ts[0]) then RemarkList(g, m, g[ts[0]].open) else m;
      if IsWhite(m, ts[0]) { RemarkListAvoids(g, m, g[ts[0]].open, U); }
      RemarkAvoids(g, p, ts[1..], U);
    }
  }

  /** The atomic phase marks nothing that is isolated. */
  lemma AtomicAvoids(g: Graph, m: Marks, again: seq<Id>, roots: seq<Id>, ts: seq<Id>, U: set<Id>)
    requires Marking(g, m, again) && GraphOk(g) && Queues(g, again)
    requires (forall x :: x in roots ==> x in g) && (forall t :: t in ts ==> t in g)
    requires Isolated(g, U) && AllWhite(m, U) && Outside(roots, U)
    ensures Untouched(m, AtomicMarks(g, m, again, roots, ts), U)
  {
    hide Grows, GraphOk, Isolated;
    RemarkedAvoids(g, m, again, roots, ts, U);
    RemarkedMarking(g, m, again, roots, ts);
    FinishedAvoids(g, Remarked(g, m, again, roots, ts), again, U);
  }

  lemma RemarkedAvoids(g: Graph, m: Marks, again: seq<Id>, roots: seq<Id>, ts: seq<Id>, U: set<Id>)
    requires Marking(g, m, again)
    requires (forall x :: x in roots ==> x in g) && (forall t :: t in ts ==> t in g)
    requires Isolated(g, U) && AllWhite(m, U) && Outside(roots, U)
    ensures Untouched(m, Remarked(g, m, again, roots, ts), U)
  {
    hide Grows, Isolated;
    var a := MarkAll(g, m, roots);
    MarkAllAvoids(g, m, roots, U);
    MarkAllGrows(g, m, roots);
    GrowsKeepsMarking(g, m, a, again);
    PropagateAllAvoids(g, a, U);
    RemarkAvoids(g, PropagateAll(g, a), ts, U);
  }

  lemma FinishedAvoids(g: Graph, m: Marks, again: seq<Id>, U: set<Id>)
    requires Marking(g, m, again) && Queues(g, again) && Isolated(g, U) && AllWhite(m, U)
    ensures Untouched(m, Finished(g, m, again), U)
  {
    var a := PropagateAll(g, m);
    PropagateAllAvoids(g, m, U);
    PropagateAllMarking(g, m, again);
    SwapReady(g, a, again);
    PropagateAllAvoids(g, Marks(a.color, again), U);
  }

  // ------------------------------------------------------------------------------------------
  // Garbage stays garbage
  // ------------------------------------------------------------------------------------------

  predicate CutOff(c: Collector, U: set<Id>) {
    U <= c.g.Keys && Isolated(c.g, U) && Outside(Roots(c), U)
  }

  predicate AllDead(c: Collector, U: set<Id>) { forall u :: u in U ==> Dead(c, u) }

  /** `U` cannot be reached; it is white until the flip and dead from then on. */
  predicate Garbage(c: Collector, U: set<Id>) {
    && CutOff(c, U)
    && if c.phase.Pause? || Marks?(c.phase) then AllWhite(c.m, U) else AllDead(c, U)
  }

  lemma {:induction false} PathOutside(c: Collector, p: seq<Id>, U: set<Id>)
    requires CutOff(c, U) && IsPath(c, p)
    ensures p[|p| - 1] !in U
    decreases |p|
  {
    if |p| > 1 {
      PathPrefix(c, p);
      PathOutside(c, p[..|p| - 1], U);
    }
  }

  lemma TouchedOutside(c: Collector, a: Action, U: set<Id>)
    requires CutOff(c, U) && Enabled(c, a)
    ensures Outside(Touched(a), U)
  {
    forall x | x in Touched(a) ensures x !in U {
      var p :| IsPath(c, p) && p[|p| - 1] == x;
      PathOutside(c, p, U);
    }
  }

  /** New references of objects outside `U` lead outside `U`. */
  lemma StaysCutOff(c: Collector, d: Collector, U: set<Id>)
    requires CutOff(c, U) && c.g.Keys <= d.g.Keys && Outside(Roots(d), U)
    requires forall x :: x in d.g && x !in U ==>
      forall y :: y in d.g[x].Succ() ==> y !in U || (x in c.g && y in c.g[x].Succ())
    ensures CutOff(d, U)
  {
  }

  lemma BarrierUntouched(c: Collector, o: Id, v: Id, U: set<Id>)
    requires o in c.m.color && v in c.g && (Marks?(c.phase) ==> Typed(c.g))
    requires Isolated(c.g, U) && o !in U && v !in U && Untouched(c.m, c.m, U)
    ensures Untouched(c.m, Barrier(c, o, v).m, U) && Barrier(c, o, v).g == c.g
    ensures Barrier(c, o, v) == c.(m := Barrier(c, o, v).m)
  {
    if Marks?(c.phase) { MarkAvoids(c.g, c.m, v, U); }
  }

  lemma UntouchedGarbage(c: Collector, d: Collector, U: set<Id>)
    requires Garbage(c, U) && CutOff(d, U) && d.phase == c.phase && d.white == c.white
    requires Untouched(c.m, d.m, U)
    ensures Garbage(d, U)
  {
  }

  lemma InColors(c: Collector, U: set<Id>)
    requires Inv(c) && CutOff(c, U)
    ensures Untouched(c.m, c.m, U)
  {}

  lemma WriteGarbage(c: Collector, o: Id, refs: seq<Id>, v: Id, back: bool, U: set<Id>)
    requires CanWrite(c, o, refs, v) && Garbage(c, U) && o !in U && v !in U
    ensures Garbage(DoWrite(c, o, refs, v, back), U)
  {
    hide Shape, PhaseInv;
    InColors(c, U);
    WriteShape(c, o, refs, v);
    var d := c.(g := SetRefs(c.g, o, refs));
    StaysCutOff(c, d, U);
    if !back { BarrierUntouched(d, o, v, U); }
    var e := DoWrite(c, o, refs, v, back);
    StaysCutOff(d, e, U);
    UntouchedGarbage(c, e, U);
  }

  lemma SetOpenGarbage(c: Collector, u: Id, value: seq<Id>, stack: seq<Id>, U: set<Id>)
    requires Sane(c, SetOpen(u, value, stack)) && Garbage(c, U) && u !in U && Outside(value, U)
    requires Live(c, u) && forall y :: y in value ==> Live(c, y)
    ensures Garbage(DoSetOpen(c, u, value, stack), U)
  {
    hide Shape, PhaseInv, GraphOk;
    InColors(c, U);
    SetOpenInv(c, u, value, stack);
    var t := c.g[u].kind.thread;
    var d := c.(g := SetStack(c.g, t, stack, u, value));
    StaysCutOff(c, d, U);
    SetOpenTyped(d);
    if value != [] { BarrierUntouched(d, u, value[0], U); }
    var e := DoSetOpen(c, u, value, stack);
    StaysCutOff(d, e, U);
    UntouchedGarbage(c, e, U);
  }

  lemma SetOpenTyped(c: Collector)
    requires Inv(c)
    ensures Marks?(c.phase) ==> Typed(c.g)
  {}

  lemma CloseGarbage(c: Collector, u: Id, U: set<Id>)
    requires CanClose(c, u) && Garbage(c, U) && u !in U
    ensures c.g[u].kind.thread in c.g && (forall v :: v in c.g[u].refs ==> v in c.g)
    ensures Marks?(c.phase) ==> Typed(Detached(c.g, u))
    ensures Garbage(CloseUpval(c, u), U)
  {
    hide Shape, PhaseInv, GraphOk;
    InColors(c, U);
    CloseReady(c, u);
    var d := c.(g := Detached(c.g, u));
    StaysCutOff(c, d, U);
    if !IsWhite(c.m, u) && c.g[u].refs != [] {
      var v := c.g[u].refs[0];
      assert v in c.g[u].Succ();
      BarrierUntouched(d.(m := Paint(c.m, u, Black)), u, v, U);
    }
    var e := CloseUpval(c, u);
    StaysCutOff(d, e, U);
    UntouchedGarbage(c, e, U);
  }

  lemma AddGarbage(c: Collector, x: Id, n: Node, t: Id, nt: Node, U: set<Id>)
    requires Inv(c) && Addable(c, x, n, t, nt) && Garbage(c, U) && t !in U && Outside(n.refs, U) && n.open == []
    ensures Garbage(AddNode(c, x, n, t, nt), U)
  {
    hide Shape, PhaseInv, GraphOk;
    InColors(c, U);
    var d := AddNode(c, x, n, t, nt);
    StaysCutOff(c, d, U);
    UntouchedGarbage(c, d, U);
  }

  // ------------------------------------------------------------------------------------------
  // Sweeping and collecting
  // ------------------------------------------------------------------------------------------

  predicate Doomed(c: Collector, U: set<Id>) { CutOff(c, U) && AllDead(c, U) && c.white.White?() }

  lemma SweepOneDoomed(c: Collector, p: nat, U: set<Id>)
    requires Doomed(c, U) && p < |c.allgc|
    ensures Doomed(SweepOne(c, p), U * SweepOne(c, p).g.Keys)
  {
    var x, d := c.allgc[p], SweepOne(c, p);
    var V := U * d.g.Keys;
    forall y | y in d.g && y !in V ensures forall z :: z in d.g[y].Succ() ==> z !in V {
      forall z | z in d.g[y].Succ() ensures z !in V { assert y !in U && z in c.g[y].Succ(); }
    }
  }

  lemma {:induction false} SweepListDoomed(c: Collector, p: nat, n: nat, U: set<Id>)
    requires Doomed(c, U) && p <= |c.allgc|
    ensures var d := SweepList(c, p, n); Doomed(d, U * d.g.Keys) && d.phase == c.phase
    ensures SweepList(c, p, n).g.Keys <= c.g.Keys
    decreases |c.allgc| - p
  {
    var d := SweepList(c, p, n);
    if p == |c.allgc| || n == 0 {
      assert U * d.g.Keys == U;
    } else {
      var b := SweepOne(c, p);
      SweepOneDoomed(c, p, U);
      SweepListDoomed(b, NextPos(c, p), n - 1, U * b.g.Keys);
      assert U * b.g.Keys * d.g.Keys == U * d.g.Keys;
    }
  }

  lemma {:induction false} SweepToLiveDoomed(c: Collector, U: set<Id>)
    requires Doomed(c, U)
    ensures var d := SweepToLive(c); Doomed(d, U * d.g.Keys) && d.phase == c.phase
    ensures SweepToLive(c).g.Keys <= c.g.Keys
    decreases |c.allgc|
  {
    SweepOneAtHead(c);
    SweepListDoomed(c, 0, 1, U);
    var d := SweepList(c, 0, 1);
    if d.sweep == At(0) {
      SweepToLiveDoomed(d, U * d.g.Keys);
      var e := SweepToLive(d);
      assert U * d.g.Keys * e.g.Keys == U * e.g.Keys;
    }
  }

  lemma RestartGarbage(c: Collector, U: set<Id>)
    requires Inv(c) && c.phase.Pause? && Garbage(c, U)
    ensures Typed(c.g) && c.main in c.g && (forall x :: x in c.globals ==> x in c.g)
    ensures Garbage(Restart(c), U)
  {
    InColors(c, U);
    ShapeFacts(c);
    MarkAllAvoids(c.g, Marks(c.m.color, []), [c.main] + c.globals, U);
  }

  lemma PropagateGarbage(c: Collector, U: set<Id>)
    requires Inv(c) && c.phase.Propagate? && c.m.gray != [] && Garbage(c, U)
    ensures Garbage(PropagateStep(c), U)
  {
    hide GraphOk;
    UnlinkReady(c.g, c.m, Black);
    TraverseAvoids(c.g, c.m, if c.g[c.m.gray[0]].kind.Thread? then Gray else Black, U);
  }

  lemma FlipGarbage(c: Collector, U: set<Id>)
    requires Inv(c) && c.phase.EnterAtomic? && Garbage(c, U)
    requires (forall x :: x in Roots(c) ==> x in c.g) && (forall t :: t in c.twups ==> t in c.g)
    ensures Doomed(AtomicStep(c), U)
  {
    hide GraphOk, Marking, AtomicMarks, AtomicTwups, Isolated, Queues, TwupsOk, NodeLive;
    assert forall x :: x in [c.running] + c.globals ==> x in Roots(c);
    AtomicAvoids(c.g, c.m, c.again, [c.running] + c.globals, c.twups, U);
    forall u | u in U ensures Dead(AtomicStep(c), u) { assert IsWhite(c.m, u) && !Dead(c, u); }
  }

  lemma EnterSweepGarbage(c: Collector, U: set<Id>)
    requires Inv(c) && c.phase.EnterAtomic? && Garbage(c, U)
    requires (forall x :: x in Roots(c) ==> x in c.g) && (forall t :: t in c.twups ==> t in c.g)
    ensures var d := EnterSweep(AtomicStep(c)); Garbage(d, U * d.g.Keys)
  {
    hide Isolated, AtomicMarks, AtomicTwups, Marking, TwupsOk, NodeLive, GraphOk;
    FlipGarbage(c, U);
    var b := AtomicStep(c).(phase := SweepAllGc);
    assert Doomed(b, U);
    SweepToLiveDoomed(b, U);
  }

  lemma SingleStepGarbage(c: Collector, fast: bool, U: set<Id>)
    requires Inv(c) && Garbage(c, U)
    ensures var d := SingleStep(c, fast); Garbage(d, U * d.g.Keys)
  {
    hide GraphOk, Marking, NodeLive, Isolated, SweepList, SweepToLive, PropagateStep, Restart;
    ShapeFacts(c);
    var d := SingleStep(c, fast);
    match c.phase {
      case Pause => RestartGarbage(c, U); assert U * d.g.Keys == U;
      case Propagate =>
        if !(fast || c.m.gray == []) { PropagateGarbage(c, U); }
        assert U * d.g.Keys == U;
      case EnterAtomic => EnterSweepGarbage(c, U);
      case SweepAllGc =>
        if c.sweep.At? {
          SweepListDoomed(c, c.sweep.pos, if fast then |c.allgc| else GCSWEEPMAX, U);
        } else {
          assert U * d.g.Keys == U;
        }
      case SweepFinObj => assert U * d.g.Keys == U;
      case SweepToBeFnz => assert U * d.g.Keys == U;
      case SweepEnd => assert U * d.g.Keys == U;
      case CallFin => EndGarbage(c, U); assert U * d.g.Keys == U;
      case Atomic =>
    }
  }

  lemma NewGarbage(c: Collector, x: Id, k: Kind, refs: seq<Id>, t: Id, U: set<Id>)
    requires Sane(c, New(x, k, refs, t)) && Garbage(c, U) && Outside(refs, U) && t !in U
    ensures Garbage(DoNew(c, x, k, refs, t), U)
  {
    TouchedLive(c, New(x, k, refs, t));
    NewAddable(c, x, k, refs, t);
    AddGarbage(c, x, Node(k, refs, []), t, c.g[t].(refs := c.g[t].refs + [x]), U);
  }

  /** An interned string is garbage no longer; it leads to no other garbage. */
  lemma InternGarbage(c: Collector, x: Id, t: Id, U: set<Id>)
    requires Sane(c, Intern(x, t)) && Garbage(c, U) && t !in U
    ensures Garbage(DoIntern(c, x, t), U - {x})
  {
    hide Shape, PhaseInv;
    InColors(c, U);
    InvGraph(c);
    StringAlone(c.g, x);
    var V := U - {x};
    var d := DoIntern(c, x, t);
    assert CutOff(c, V) && Garbage(c, V);
    StaysCutOff(c, d, V);
    UntouchedGarbage(c, d, V);
  }

  lemma InvGraph(c: Collector)
    requires Inv(c)
    ensures GraphOk(c.g)
  {}

  lemma NewOpenGarbage(c: Collector, x: Id, t: Id, value: seq<Id>, U: set<Id>)
    requires Sane(c, NewOpen(x, t, value)) && Garbage(c, U) && t !in U
    ensures Garbage(DoNewOpen(c, x, t, value), U)
  {
    TouchedLive(c, NewOpen(x, t, value));
    NewOpenAddable(c, x, t, value);
    assert forall y :: y in value ==> y in c.g[t].Succ();
    AddGarbage(c, x, Node(OpenUpval(t), value, []), t, c.g[t].(open := [x] + c.g[t].open), U);
  }

  /** Replacing references of an object outside `U` by references to objects outside `U`. */
  lemma RefsGarbage(c: Collector, d: Collector, U: set<Id>)
    requires Inv(c) && Garbage(c, U) && d == c.(g := d.g, globals := d.globals, running := d.running)
    requires d.g.Keys == c.g.Keys && Outside(Roots(d), U)
    requires forall x :: x in d.g && x !in U ==>
      forall y :: y in d.g[x].Succ() ==> y !in U || (x in c.g && y in c.g[x].Succ())
    ensures Garbage(d, U)
  {
    StaysCutOff(c, d, U);
  }

  /** The string an action brings back. */
  function Interned(a: Action): set<Id> { if a.Intern? then {a.x} else {} }

  lemma ApplyGarbage(c: Collector, a: Action, U: set<Id>)
    requires Sane(c, a) && Enabled(c, a) && Garbage(c, U) && !a.Abandon?
    ensures var d := Apply(c, a); Garbage(d, U * d.g.Keys - Interned(a))
  {
    hide Shape, PhaseInv, GraphOk, Isolated, Garbage, Enabled;
    assert CutOff(c, U) by { GarbageCut(c, U); }
    TouchedOutside(c, a, U);
    TouchedLive(c, a);
    var d := Apply(c, a);
    match a {
      case Collect(fast) => SingleStepGarbage(c, fast, U);
      case New(x, k, refs, t) => NewGarbage(c, x, k, refs, t, U);
      case Intern(x, t) => InternGarbage(c, x, t, U);
      case Write(o, refs, v, back) =>
        assert o in Touched(a) && v in Touched(a);
        WriteGarbage(c, o, refs, v, back, U);
      case Drop(o, refs) => RefsGarbage(c, d, U);
      case Stack(t, refs) => RefsGarbage(c, d, U);
      case SetOpen(u, value, stack) => SetOpenGarbage(c, u, value, stack, U);
      case NewOpen(x, t, value) => NewOpenGarbage(c, x, t, value, U);
      case Close(u) => CloseGarbage(c, u, U);
      case SetGlobals(gs) => RefsGarbage(c, d, U);
      case SetRunning(t) => assert t in Touched(a); RefsGarbage(c, d, U);
    }
    if a.Collect? {
      assert U * d.g.Keys - Interned(a) == U * d.g.Keys;
    } else {
      if !a.Intern? { assert U - Interned(a) == U; }
      GarbageCut(d, U - Interned(a));
      assert U - Interned(a) == U * d.g.Keys - Interned(a);
    }
  }

  lemma GarbageCut(c: Collector, U: set<Id>)
    requires Garbage(c, U)
    ensures CutOff(c, U)
  {}

  // ------------------------------------------------------------------------------------------
  // The theorem
  // ------------------------------------------------------------------------------------------

  ghost function Unreachable(c: Collector): set<Id> {
    set x | x in c.g && !Reachable(c, x)
  }

  /** The members of `U` that have existed in all of the states up to `i` and were not interned. */
  function Left(cs: seq<Collector>, acts: seq<Action>, U: set<Id>, i: nat): set<Id>
    requires i < |cs| == |acts| + 1
  {
    if i == 0 then U else Left(cs, acts, U, i - 1) * cs[i].g.Keys - Interned(acts[i - 1])
  }

  lemma {:induction false} IsLeft(cs: seq<Collector>, acts: seq<Action>, U: set<Id>, i: nat, u: Id)
    requires i < |cs| == |acts| + 1 && u in U
    requires (forall j :: 0 <= j <= i ==> u in cs[j].g) && (forall j :: 0 <= j < i ==> u !in Interned(acts[j]))
    ensures u in Left(cs, acts, U, i)
  {
    if i > 0 { IsLeft(cs, acts, U, i - 1, u); }
  }

  lemma ReachOn(c: Collector, x: Id, y: Id)
    requires Reachable(c, x) && x in c.g && y in c.g[x].Succ()
    ensures Reachable(c, y)
  {
    var p :| IsPath(c, p) && p[|p| - 1] == x;
    PathOn(c, p, y);
    assert (p + [y])[|p + [y]| - 1] == y;
  }

  lemma UnreachableCutOff(c: Collector)
    ensures CutOff(c, Unreachable(c))
  {
    hide IsPath;
    var U := Unreachable(c);
    forall x | x in Roots(c) ensures x !in U { RootReachable(c, x); }
    forall x | x in c.g && x !in U ensures forall y :: y in c.g[x].Succ() ==> y !in U {
      forall y | y in c.g[x].Succ() ensures y !in U { ReachOn(c, x, y); }
    }
  }

  lemma RootReachable(c: Collector, x: Id)
    requires x in Roots(c)
    ensures Reachable(c, x)
  {
    assert IsPath(c, [x]) && [x][0] == x;
  }

  lemma {:induction false} LeftGarbage(cs: seq<Collector>, acts: seq<Action>, U: set<Id>, i: nat)
    requires Run(cs, acts) && Inv(cs[0]) && Garbage(cs[0], U) && i < |cs|
    requires forall j :: 0 <= j < |acts| ==> !acts[j].Abandon?
    ensures Garbage(cs[i], Left(cs, acts, U, i))
    decreases i
  {
    hide Shape, PhaseInv, Garbage, Apply;
    if i > 0 {
      LeftGarbage(cs, acts, U, i - 1);
      RunInv(cs, acts, i - 1);
      assert Step(cs[i - 1], acts[i - 1], cs[i]);
      EnabledSane(cs[i - 1], acts[i - 1]);
      ApplyGarbage(cs[i - 1], acts[i - 1], Left(cs, acts, U, i - 1));
    }
  }

  /** Whatever cannot be reached when a cycle starts and still exists when its sweep has ended is a
      string that was interned meanwhile (unless the cycle was abandoned for a full collection). */
  lemma CycleReclaims(cs: seq<Collector>, acts: seq<Action>, i: nat, u: Id)
    requires Run(cs, acts) && Inv(cs[0]) && cs[0].phase.Pause? && i < |cs| && cs[i].phase.CallFin?
    requires forall j :: 0 <= j < |acts| ==> !acts[j].Abandon?
    requires !Reachable(cs[0], u) && forall j :: 0 <= j <= i ==> u in cs[j].g
    ensures exists j :: 0 <= j < i && acts[j].Intern? && acts[j].x == u
  {
    hide Shape, Step;
    var c, U := cs[0], Unreachable(cs[0]);
    UnreachableCutOff(c);
    StartGarbage(c, U);
    LeftGarbage(cs, acts, U, i);
    RunInv(cs, acts, i);
    EndGarbage(cs[i], Left(cs, acts, U, i));
    if forall j :: 0 <= j < i ==> u !in Interned(acts[j]) {
      IsLeft(cs, acts, U, i, u);
    } else {
      var j :| 0 <= j < i && u in Interned(acts[j]);
      assert acts[j].Intern? && acts[j].x == u;
    }
  }

  lemma StartGarbage(c: Collector, U: set<Id>)
    requires Inv(c) && c.phase.Pause? && CutOff(c, U)
    ensures Garbage(c, U)
  {}

  lemma EndGarbage(c: Collector, U: set<Id>)
    requires Inv(c) && c.phase.CallFin? && Garbage(c, U)
    ensures U == {}
  {
    forall u ensures u !in U {}
  }

  // ------------------------------------------------------------------------------------------
  // Revival
  // ------------------------------------------------------------------------------------------

  lemma InternReachable(c: Collector, x: Id, t: Id)
    requires Sane(c, Intern(x, t)) && Enabled(c, Intern(x, t))
    ensures Reachable(Apply(c, Intern(x, t)), x)
  {
    hide Shape, PhaseInv;
    var d := DoIntern(c, x, t);
    assert t in Touched(Intern(x, t));
    var p :| IsPath(c, p) && p[|p| - 1] == t;
    forall i | 0 <= i < |p| - 1 ensures p[i] in d.g && p[i + 1] in d.g[p[i]].Succ() {
      assert p[i] in c.g && p[i + 1] in c.g[p[i]].Succ();
    }
    assert IsPath(d, p);
    ReachOn(d, t, x);
  }

  /** A string that has been interned, reachable before or not, survives any number of collector steps. */
  lemma {:induction false} InternedSurvives(cs: seq<Collector>, acts: seq<Action>, k: nat, i: nat)
    requires Run(cs, acts) && Inv(cs[0]) && k < i < |cs| && acts[k].Intern?
    requires forall j :: k < j < |acts| ==> acts[j].Collect?
    ensures acts[k].x in cs[i].g && Reachable(cs[i], acts[k].x)
  {
    hide Shape, PhaseInv, Apply, Guard;
    RunInv(cs, acts, i - 1);
    assert Step(cs[i - 1], acts[i - 1], cs[i]);
    EnabledSane(cs[i - 1], acts[i - 1]);
    if i == k + 1 {
      InternReachable(cs[k], acts[k].x, acts[k].t);
    } else {
      InternedSurvives(cs, acts, k, i - 1);
      CollectReaches(cs[i - 1], acts[i - 1], acts[k].x);
    }
    RunInv(cs, acts, i);
    ReachableLive(cs[i], acts[k].x);
  }

  lemma CollectReaches(c: Collector, a: Action, x: Id)
    requires Sane(c, a) && a.Collect? && Reachable(c, x)
    ensures Reachable(Apply(c, a), x)
  {
    CollectKeepsReachable(c, a.fast, x);
  }

  /** How many objects a sweep still has to visit. */
  function Unswept(c: Collector): nat {
    if c.sweep.At? && c.sweep.pos <= |c.allgc| then |c.allgc| - c.sweep.pos else 0
  }

  /** A sweep of `n` objects visits exactly `n` more of them, or all that are left. */
  lemma {:induction false} SweepVisits(c: Collector, p: nat, n: nat)
    requires p <= |c.allgc|
    ensures var d := SweepList(c, p, n);
      && d.phase == c.phase && |d.allgc| <= |c.allgc|
      && (d.sweep.NoSweep? <==> |c.allgc| - p <= n) && (d.sweep.At? <==> n < |c.allgc| - p)
      && Unswept(d) == if n < |c.allgc| - p then |c.allgc| - p - n else 0
    decreases |c.allgc| - p
  {
    if p < |c.allgc| && n > 0 { SweepVisits(SweepOne(c, p), NextPos(c, p), n - 1); }
  }

  lemma {:induction false} SweepToLiveVisits(c: Collector)
    ensures |SweepToLive(c).allgc| <= |c.allgc|
    decreases |c.allgc|
  {
    SweepOneAtHead(c);
    SweepVisits(c, 0, 1);
    var d := SweepList(c, 0, 1);
    if d.sweep == At(0) { SweepToLiveVisits(d); }
  }

  /** A sweep step visits twenty objects, or all of them when it is not to be interrupted. */
  lemma SweepTwenty(c: Collector, fast: bool)
    requires Inv(c) && c.phase.SweepAllGc? && c.sweep.At?
    ensures var n := if fast || Unswept(c) <= 20 then 0 else Unswept(c) - 20;
      && Unswept(SingleStep(c, fast)) == n && SingleStep(c, fast).phase == c.phase
      && (SingleStep(c, fast).sweep.NoSweep? <==> n == 0)
  {
    hide GraphOk, Shape;
    SweepVisits(c, c.sweep.pos, if fast then |c.allgc| else GCSWEEPMAX);
  }

  /** Steps left at most until the end of the cycle, if none of them is fast. */
  function Budget(c: Collector): nat {
    match c.phase
    case Pause => 2 * |c.allgc| + 10
    case Propagate => Work(c.m) + |c.allgc| + 9
    case EnterAtomic => |c.allgc| + 8
    case SweepAllGc => if c.sweep.NoSweep? then 6 else Unswept(c) + 7
    case SweepFinObj => if c.sweep.NoSweep? then 4 else 5
    case SweepToBeFnz => if c.sweep.NoSweep? then 2 else 3
    case SweepEnd => 1
    case _ => 0
  }

  lemma {:induction false} FewElements(xs: seq<Id>, s: set<Id>)
    requires forall x :: x in s ==> x in xs
    ensures |s| <= |xs|
    decreases |xs|
  {
    if xs == [] {
      assert s == {};
    } else {
      FewElements(xs[1..], s - {xs[0]});
      if xs[0] in s { assert s == s - {xs[0]} + {xs[0]}; } else { assert s == s - {xs[0]}; }
    }
  }

  lemma RestartBudget(c: Collector)
    requires Inv(c) && c.phase.Pause?
    ensures Typed(c.g) && c.main in c.g && (forall x :: x in c.globals ==> x in c.g)
    ensures Work(Restart(c).m) <= |c.allgc| && Restart(c).phase.Propagate? && Restart(c).allgc == c.allgc
  {
    hide Grows;
    ShapeFacts(c);
    var m := Marks(c.m.color, []);
    MarkAllGrows(c.g, m, [c.main] + c.globals);
    GrowsWork(c.g, m, Restart(c).m);
    FewElements(c.allgc, Whites(m));
  }

  lemma GrowsWork(g: Graph, m: Marks, n: Marks)
    requires Grows(g, m, n)
    ensures Work(n) <= Work(m)
  {}

  lemma FlipBudget(c: Collector)
    requires Inv(c) && c.phase.EnterAtomic?
    ensures Budget(SingleStep(c, true)) < Budget(c) && SingleStep(c, true) == SingleStep(c, false)
  {
    hide GraphOk, NodeLive, Marking, AtomicMarks, AtomicTwups, Swept, AllCurrent, TwupsOk;
    ShapeFacts(c);
    AtomicShape(c);
    EnterSweepInv(AtomicStep(c));
    SweepToLiveVisits(AtomicStep(c).(phase := SweepAllGc));
  }

  /** Every step of the collector, fast or not, brings the end of the cycle closer. */
  lemma StepCloser(c: Collector, fast: bool)
    requires Inv(c) && !c.phase.CallFin?
    ensures Budget(SingleStep(c, fast)) < Budget(c)
  {
    hide GraphOk, Shape, Marking, Restart, AtomicStep, SweepToLive;
    match c.phase {
      case Pause => RestartBudget(c);
      case Propagate => if !fast && c.m.gray != [] { PropagateBudget(c); }
      case EnterAtomic => FlipBudget(c);
      case SweepAllGc => if c.sweep.At? { SweepTwenty(c, fast); }
      case _ =>
    }
  }

  lemma PropagateBudget(c: Collector)
    requires Inv(c) && c.phase.Propagate? && c.m.gray != []
    ensures Work(PropagateStep(c).m) < Work(c.m) && PropagateStep(c).phase == c.phase
    ensures PropagateStep(c).allgc == c.allgc
  {
    hide GraphOk, NodeLive;
  }

  /** From every state the collector alone comes to the end of the cycle within its budget, whichever of
      its steps are fast. */
  lemma {:induction false} CycleEnds(c: Collector, fast: seq<bool>) returns (cs: seq<Collector>, acts: seq<Action>)
    requires Inv(c) && |fast| >= Budget(c)
    ensures Run(cs, acts) && cs[0] == c && |acts| <= Budget(c) && cs[|acts|].phase.CallFin?
    ensures forall j :: 0 <= j < |acts| ==> acts[j] == Collect(fast[j])
    decreases Budget(c)
  {
    hide Shape, PhaseInv, Apply, Budget;
    if c.phase.CallFin? {
      cs, acts := [c], [];
    } else {
      StepCloser(c, true);
      StepCloser(c, fast[0]);
      SingleStepInv(c, fast[0]);
      var ds, bs := CycleEnds(SingleStep(c, fast[0]), fast[1..]);
      cs, acts := [c] + ds, [Collect(fast[0])] + bs;
      CollectStep(c, fast[0]);
      RunCons(c, Collect(fast[0]), ds, bs);
    }
  }

  /** A cycle left to itself frees everything unreachable within twice as many steps as there are
      objects and ten more. */
  lemma GarbageFreed(c: Collector, fast: seq<bool>) returns (cs: seq<Collector>, acts: seq<Action>)
    requires Inv(c) && c.phase.Pause? && |fast| >= 2 * |c.allgc| + 10
    ensures Run(cs, acts) && cs[0] == c && |acts| <= 2 * |c.allgc| + 10 && cs[|acts|].phase.CallFin?
    ensures forall j :: 0 <= j < |acts| ==> acts[j] == Collect(fast[j])
    ensures forall u :: u in cs[|acts|].g ==> Reachable(c, u)
  {
    hide Shape, PhaseInv, Apply, Reachable;
    cs, acts := CycleEnds(c, fast);
    forall u | u in cs[|acts|].g ensures Reachable(c, u) {
      if !Reachable(c, u) {
        forall j | 0 <= j <= |acts| ensures u in cs[j].g { KeysShrink(cs, acts, j, |acts|); }
        CycleReclaims(cs, acts, |acts|, u);
      }
    }
  }

  /** The collector makes no objects. */
  lemma {:induction false} KeysShrink(cs: seq<Collector>, acts: seq<Action>, i: nat, k: nat)
    requires Run(cs, acts) && Inv(cs[0]) && i <= k < |cs| && forall j :: 0 <= j < |acts| ==> acts[j].Collect?
    ensures cs[k].g.Keys <= cs[i].g.Keys
    decreases k
  {
    hide Shape, PhaseInv, Apply, Guard;
    if i < k {
      KeysShrink(cs, acts, i, k - 1);
      RunInv(cs, acts, k - 1);
      assert Step(cs[k - 1], acts[k - 1], cs[k]);
      EnabledSane(cs[k - 1], acts[k - 1]);
      CollectShrinks(cs[k - 1], acts[k - 1]);
    }
  }

  lemma CollectShrinks(c: Collector, a: Action)
    requires Sane(c, a) && a.Collect?
    ensures Apply(c, a).g.Keys <= c.g.Keys
  {
    hide GraphOk, NodeLive, Marking, AtomicStep;
    ShapeFacts(c);
    if c.phase.EnterAtomic? {
      AtomicSame(c);
      SweepToLiveTrims(AtomicStep(c).(phase := SweepAllGc));
    } else if c.sweep.At? {
      SweepTrims(c, c.sweep.pos, if a.fast then |c.allgc| else GCSWEEPMAX);
    }
  }

  lemma CollectStep(c: Collector, fast: bool)
    requires Inv(c)
    ensures Step(c, Collect(fast), SingleStep(c, fast))
  {
    hide Shape, PhaseInv, SingleStep;
  }

  lemma RunCons(c: Collector, a: Action, ds: seq<Collector>, bs: seq<Action>)
    requires Run(ds, bs) && Step(c, a, ds[0])
    ensures Run([c] + ds, [a] + bs)
  {
    hide Step;
    var cs, acts := [c] + ds, [a] + bs;
    forall i | 0 <= i < |acts| ensures Step(cs[i], acts[i], cs[i + 1]) {
      if i > 0 { assert Step(ds[i - 1], bs[i - 1], ds[i]); }
    }
  }

  /** So collecting all of the garbage fails for every unreachable string there is: one intern during
      the cycle keeps it to the end, and `CycleReclaims` says that nothing else can. */
  lemma RevivedSurvives(c: Collector, x: Id, t: Id) returns (cs: seq<Collector>, acts: seq<Action>)
    requires Inv(c) && c.phase.Pause? && x in c.g && c.g[x].kind.String? && !Reachable(c, x)
    requires t in c.g && c.g[t].kind.Thread? && Reachable(c, t)
    ensures Run(cs, acts) && cs[0] == c && |acts| > 1 && acts[0].Collect? && acts[1] == Intern(x, t)
    ensures forall j :: 1 < j < |acts| ==> acts[j].Collect?
    ensures cs[|acts|].phase.CallFin? && x in cs[|acts|].g
  {
    hide Shape, PhaseInv, Apply, Reachable;
    var a := Intern(x, t);
    var b := SingleStep(c, true);
    CollectStep(c, true);
    SingleStepInv(c, true);
    CollectKeepsReachable(c, true, t);
    assert Enabled(b, a);
    EnabledSane(b, a);
    ApplyInv(b, a);
    var d := Apply(b, a);
    var ds, bs := CycleEnds(d, seq(Budget(d), _ => true));
    RunCons(b, a, ds, bs);
    RunCons(c, Collect(true), [b] + ds, [a] + bs);
    cs, acts := [c] + ([b] + ds), [Collect(true)] + ([a] + bs);
    InternedSurvives(cs, acts, 1, |acts|);
  }

  /** A program can come to that: it makes a string, drops it, and interns it again during the cycle
      that follows. */
  lemma DroppedSurvives(main: Id, x: Id) returns (cs: seq<Collector>, acts: seq<Action>)
    requires x != main
    ensures Run(cs, acts) && cs[0] == Init(main) && |acts| > 2
    ensures cs[2].phase.Pause? && x in cs[2].g && !Reachable(cs[2], x)
    ensures cs[|acts|].phase.CallFin? && x in cs[|acts|].g
  {
    hide Shape, PhaseInv, Reachable, SingleStep;
    var a0, a1 := New(x, String, [], main), Stack(main, []);
    var c0 := Init(main);
    InitInv(main);
    RootReachable(c0, main);
    EnabledSane(c0, a0);
    ApplyInv(c0, a0);
    var c1 := Apply(c0, a0);
    RootReachable(c1, main);
    EnabledSane(c1, a1);
    ApplyInv(c1, a1);
    var c2 := Apply(c1, a1);
    RootReachable(c2, main);
    CutUnreachable(c2, {x}, x);
    var ds, bs := RevivedSurvives(c2, x, main);
    RunCons(c1, a1, ds, bs);
    RunCons(c0, a0, [c1] + ds, [a1] + bs);
    cs, acts := [c0] + ([c1] + ds), [a0] + ([a1] + bs);
    assert cs[2] == ds[0] && cs[|acts|] == ds[|bs|];
  }

  lemma CutUnreachable(c: Collector, U: set<Id>, x: Id)
    requires CutOff(c, U) && x in U
    ensures !Reachable(c, x)
  {
    if Reachable(c, x) {
      var p :| IsPath(c, p) && p[|p| - 1] == x;
      PathOutside(c, p, U);
    }
  }
}
