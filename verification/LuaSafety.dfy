/** The theorems about whole runs of the Lua collector: black never refers to white while marking,
    a collector step changes nothing about what can be reached, and nothing reachable is ever freed. */
module LuaSafety {
  import opened LuaMarking
  import opened LuaAtomic
  import opened LuaCollector
  import opened LuaRuns
  import opened LuaSteps

  // ------------------------------------------------------------------------------------------
  // One step
  // ------------------------------------------------------------------------------------------

  lemma ShapeFacts(c: Collector)
    requires Inv(c)
    ensures (forall x :: x in Roots(c) ==> x in c.g) && (forall t :: t in c.twups ==> t in c.g)
    ensures (forall x :: x in c.allgc ==> x in c.g)
    ensures GraphOk(c.g) && c.main in c.g && (forall x :: x in c.globals ==> x in c.g)
    ensures c.phase.Pause? ==> Typed(c.g)
  {
    assert c.main in Roots(c) && forall x :: x in c.globals ==> x in Roots(c);
    if c.phase.Pause? { LiveTyped(c); }
  }

  /** `singlestep` in incremental mode, with no finalizers to call. */
  function SingleStep(c: Collector, fast: bool): Collector
    requires Inv(c)
  {
    ShapeFacts(c);
    match c.phase
    case Pause => Restart(c)
    case Propagate => if fast || c.m.gray == [] then c.(phase := EnterAtomic) else PropagateStep(c)
    case EnterAtomic => EnterSweep(AtomicStep(c))
    case SweepAllGc => SweepStep(c, SweepFinObj, EmptyList, fast)
    case SweepFinObj => SweepStep(c, SweepToBeFnz, EmptyList, fast)
    case SweepToBeFnz => SweepStep(c, SweepEnd, NoSweep, fast)
    case SweepEnd => c.(phase := CallFin)
    case _ => c.(phase := LuaCollector.Pause)
  }

  lemma EnterSweepInv(c: Collector)
    requires Shape(c)
    ensures Inv(EnterSweep(c)) && EnterSweep(c).phase.SweepAllGc?
  {
    ShapeOnly(c, c.(phase := SweepAllGc));
    SweepToLiveInv(c.(phase := SweepAllGc));
  }

  lemma SingleStepInv(c: Collector, fast: bool)
    requires Inv(c)
    ensures Inv(SingleStep(c, fast))
  {
    hide GraphOk, NodeLive, Marking;
    ShapeFacts(c);
    match c.phase {
      case Pause => RestartInv(c);
      case Propagate =>
        if fast || c.m.gray == [] {
          ShapeOnly(c, c.(phase := EnterAtomic));
        } else {
          PropagateInv(c);
        }
      case EnterAtomic =>
        AtomicShape(c);
        EnterSweepInv(AtomicStep(c));
      case SweepAllGc => SweepStepInv(c, SweepFinObj, EmptyList, fast);
      case SweepFinObj => SweepStepInv(c, SweepToBeFnz, EmptyList, fast);
      case SweepToBeFnz => SweepStepInv(c, SweepEnd, NoSweep, fast);
      case SweepEnd => ShapeOnly(c, c.(phase := CallFin));
      case CallFin => ShapeOnly(c, c.(phase := LuaCollector.Pause));
    }
  }

  /** The objects an action gets hold of exist and are not dead. */
  ghost predicate Sane(c: Collector, a: Action) {
    Inv(c) && Guard(c, a) && forall x :: x in Touched(a) ==> Live(c, x)
  }

  function Apply(c: Collector, a: Action): Collector
    requires Sane(c, a)
  {
    TouchedLive(c, a);
    match a
    case New(x, k, refs, t) => DoNew(c, x, k, refs, t)
    case Intern(x, t) => DoIntern(c, x, t)
    case Write(o, refs, v, back) => DoWrite(c, o, refs, v, back)
    case Drop(o, refs) => c.(g := SetRefs(c.g, o, refs))
    case Stack(t, refs) => c.(g := SetStack(c.g, t, refs, t, []))
    case SetOpen(u, value, stack) => DoSetOpen(c, u, value, stack)
    case NewOpen(x, t, value) => DoNewOpen(c, x, t, value)
    case Close(u) => CloseInv(c, u); CloseUpval(c, u)
    case SetGlobals(gs) => c.(globals := gs)
    case SetRunning(t) => c.(running := t)
    case Collect(fast) => SingleStep(c, fast)
    case Abandon => EnterSweep(c)
  }

  lemma TouchedLive(c: Collector, a: Action)
    requires Sane(c, a)
    ensures match a
      case New(_, _, refs, t) => Live(c, t) && forall y :: y in refs ==> Live(c, y)
      case Intern(_, t) => Live(c, t)
      case Write(o, refs, v, _) => Live(c, o) && Live(c, v) && Guard(c, Write(o, refs, v, false))
      case Drop(o, _) => Live(c, o)
      case Stack(t, refs) => Live(c, t) && forall y :: y in refs ==> Live(c, y)
      case SetOpen(u, value, _) => Live(c, u) && forall y :: y in value ==> Live(c, y)
      case NewOpen(_, t, _) => Live(c, t)
      case Close(u) => Live(c, u)
      case SetGlobals(gs) => forall y :: y in gs ==> Live(c, y)
      case SetRunning(t) => Live(c, t)
      case _ => true
  {
    assert a.Write? ==> a.o in Touched(a) && a.v in Touched(a);
    assert a.SetRunning? ==> a.t in Touched(a);
  }

  lemma RootsInv(c: Collector, d: Collector)
    requires Inv(c) && d == c.(globals := d.globals, running := d.running)
    requires Live(c, d.running) && forall y :: y in d.globals ==> Live(c, y)
    ensures Inv(d)
  {
  }

  lemma ApplyInv(c: Collector, a: Action)
    requires Sane(c, a)
    ensures Inv(Apply(c, a))
  {
    hide GraphOk, Shape, PhaseInv, NodeLive;
    TouchedLive(c, a);
    match a {
      case New(x, k, refs, t) => NewInv(c, x, k, refs, t);
      case Intern(x, t) => InternInv(c, x, t);
      case Write(o, refs, v, back) => WriteInv(c, o, refs, v, back);
      case Drop(o, refs) => DropInv(c, o, refs);
      case Stack(t, refs) => SetStackInv(c, t, refs, t, []);
      case SetOpen(u, value, stack) => DoSetOpenInv(c, u, value, stack);
      case NewOpen(x, t, value) => NewOpenInv(c, x, t, value);
      case Close(u) => CloseInv(c, u);
      case SetGlobals(gs) => OldRootsLive(c); RootsInv(c, c.(globals := gs));
      case SetRunning(t) => OldRootsLive(c); RootsInv(c, c.(running := t));
      case Collect(fast) => SingleStepInv(c, fast);
      case Abandon => InvShape(c); EnterSweepInv(c);
    }
  }

  lemma InvShape(c: Collector)
    requires Inv(c)
    ensures Shape(c)
  {}

  lemma OldRootsLive(c: Collector)
    requires Inv(c)
    ensures Live(c, c.running) && forall y :: y in c.globals ==> Live(c, y)
  {
    assert c.running in Roots(c) && forall y :: y in c.globals ==> y in Roots(c);
  }

  // ------------------------------------------------------------------------------------------
  // Reachability and runs
  // ------------------------------------------------------------------------------------------

  /** A chain of references from a root. */
  ghost predicate IsPath(c: Collector, p: seq<Id>) {
    && p != [] && p[0] in Roots(c)
    && forall i :: 0 <= i < |p| - 1 ==> p[i] in c.g && p[i + 1] in c.g[p[i]].Succ()
  }

  ghost predicate Reachable(c: Collector, x: Id) {
    exists p :: IsPath(c, p) && p[|p| - 1] == x
  }

  /** A program only gets hold of objects it can reach, and of strings. */
  ghost predicate Enabled(c: Collector, a: Action) {
    Guard(c, a) && forall x :: x in Touched(a) ==> Reachable(c, x)
  }

  ghost predicate Step(c: Collector, a: Action, d: Collector) {
    Enabled(c, a) && (Sane(c, a) ==> d == Apply(c, a))
  }

  /** The states of a run and the actions between them. */
  ghost predicate Run(cs: seq<Collector>, acts: seq<Action>) {
    |cs| == |acts| + 1 && forall i :: 0 <= i < |acts| ==> Step(cs[i], acts[i], cs[i + 1])
  }

  /** A fresh state: one thread, nothing else. */
  function Init(main: Id): Collector {
    Collector(map[main := Node(Thread, [], [])], Marks(map[main := White0], []), [], [main],
              LuaCollector.Pause, White0, NoSweep, main, main, [], [])
  }

  lemma InitInv(main: Id)
    ensures Inv(Init(main))
  {
    var c := Init(main);
    assert NodeLive(c.g, c.m.color, c.white, main);
  }

  lemma {:induction false} PathShape(c: Collector, p: seq<Id>)
    requires Shape(c) && IsPath(c, p)
    ensures Live(c, p[|p| - 1])
    decreases |p|
  {
    if |p| > 1 {
      var q := p[..|p| - 1];
      PathPrefix(c, p);
      PathShape(c, q);
      assert NodeLive(c.g, c.m.color, c.white, q[|q| - 1]);
    }
  }

  /** Whatever a program can reach exists and is not dead, in every state of every run. */
  lemma ReachableLive(c: Collector, x: Id)
    requires Inv(c) && Reachable(c, x)
    ensures Live(c, x) && x in c.g
  {
    var p :| IsPath(c, p) && p[|p| - 1] == x;
    PathShape(c, p);
  }

  lemma EnabledSane(c: Collector, a: Action)
    requires Inv(c) && Enabled(c, a)
    ensures Sane(c, a)
  {
    forall x | x in Touched(a) ensures Live(c, x) { ReachableLive(c, x); }
  }

  /** Every state of every run satisfies the invariant. */
  lemma {:induction false} RunInv(cs: seq<Collector>, acts: seq<Action>, i: nat)
    requires Run(cs, acts) && Inv(cs[0]) && i < |cs|
    ensures Inv(cs[i])
    decreases i
  {
    hide Shape, PhaseInv, Apply, Guard;
    if i > 0 {
      RunInv(cs, acts, i - 1);
      assert Step(cs[i - 1], acts[i - 1], cs[i]);
      EnabledSane(cs[i - 1], acts[i - 1]);
      ApplyInv(cs[i - 1], acts[i - 1]);
    }
  }

  /** Tri-colour safety: as long as the collector has to keep its invariant, no black object refers
      to a white one, under every interleaving. */
  lemma BlackNeverToWhite(main: Id, cs: seq<Collector>, acts: seq<Action>, i: nat, x: Id, y: Id)
    requires Run(cs, acts) && cs[0] == Init(main) && i < |cs| && Marks?(cs[i].phase)
    requires x in cs[i].g && x in cs[i].m.color && cs[i].m.color[x].Black? && y in cs[i].g[x].Succ()
    ensures Marked(cs[i].m, y)
  {
    InitInv(main);
    RunInv(cs, acts, i);
    assert TriAt(cs[i].g, cs[i].m, cs[i].again, x);
  }

  // ------------------------------------------------------------------------------------------
  // Nothing reachable is freed
  // ------------------------------------------------------------------------------------------

  /** `d` comes from `c` by removing dead objects and references to them only. */
  ghost predicate Trims(c: Collector, d: Collector) {
    && d.white == c.white && Roots(d) == Roots(c) && d.g.Keys <= c.g.Keys
    && (forall x, y :: x in d.g && y in d.g[x].Succ() ==> y in c.g[x].Succ())
    && (forall x :: Live(c, x) ==> Live(d, x)) && (forall x :: x in c.g && Live(c, x) ==> x in d.g)
    && (forall x, y :: x in d.g && y in c.g[x].Succ() && Live(c, x) && Live(c, y) ==> y in d.g[x].Succ())
  }

  lemma TrimsTrans(b: Collector, c: Collector, d: Collector)
    requires Trims(b, c) && Trims(c, d)
    ensures Trims(b, d)
  {
  }

  lemma SweepOneTrims(c: Collector, p: nat)
    requires c.white.White?() && p < |c.allgc|
    ensures Trims(c, SweepOne(c, p))
  {
    var d := SweepOne(c, p);
    if Dead(c, c.allgc[p]) {
      forall x | Live(c, x) ensures Live(d, x) { FreeLive(c, p, x); }
    }
  }

  lemma {:induction false} SweepTrims(c: Collector, p: nat, n: nat)
    requires c.white.White?() && p <= |c.allgc|
    ensures Trims(c, SweepList(c, p, n))
    decreases |c.allgc| - p
  {
    hide Trims;
    if p < |c.allgc| && n > 0 {
      var b := SweepOne(c, p);
      SweepOneTrims(c, p);
      SweepTrims(b, NextPos(c, p), n - 1);
      TrimsTrans(c, b, SweepList(c, p, n));
    } else {
      TrimsSelf(c, SweepList(c, p, n));
    }
  }

  lemma TrimsSelf(c: Collector, d: Collector)
    requires d == c.(phase := d.phase, sweep := d.sweep)
    ensures Trims(c, d)
  {
  }

  lemma {:induction false} SweepToLiveTrims(c: Collector)
    requires c.white.White?()
    ensures Trims(c, SweepToLive(c))
    decreases |c.allgc|
  {
    SweepOneAtHead(c);
    SweepTrims(c, 0, 1);
    var d := SweepList(c, 0, 1);
    if d.sweep == At(0) {
      SweepToLiveTrims(d);
      TrimsTrans(c, d, SweepToLive(d));
    }
  }

  lemma {:induction false} PathTrims(c: Collector, d: Collector, p: seq<Id>)
    requires Shape(c) && Trims(c, d)
    ensures IsPath(c, p) <==> IsPath(d, p)
    decreases |p|
  {
    hide Shape;
    if |p| > 1 {
      var q, y := p[..|p| - 1], p[|p| - 1];
      PathTrims(c, d, q);
      if IsPath(c, p) || IsPath(d, p) {
        PathPrefix(if IsPath(c, p) then c else d, p);
        PathShape(c, q);
        EdgeTrims(c, d, q[|q| - 1], y);
        PathOn(c, q, y);
        PathOn(d, q, y);
        assert p == q + [y];
      }
    }
  }

  lemma EdgeTrims(c: Collector, d: Collector, x: Id, y: Id)
    requires Shape(c) && Trims(c, d) && Live(c, x)
    ensures x in c.g && x in d.g && (y in c.g[x].Succ() <==> y in d.g[x].Succ())
  {
    assert NodeLive(c.g, c.m.color, c.white, x);
  }

  lemma PathPrefix(c: Collector, p: seq<Id>)
    requires IsPath(c, p) && |p| > 1
    ensures IsPath(c, p[..|p| - 1]) && p[|p| - 2] in c.g && p[|p| - 1] in c.g[p[|p| - 2]].Succ()
  {
    var q := p[..|p| - 1];
    forall i | 0 <= i < |q| - 1 ensures q[i] in c.g && q[i + 1] in c.g[q[i]].Succ() { assert p[i] in c.g; }
    assert p[|p| - 2] in c.g && p[(|p| - 2) + 1] in c.g[p[|p| - 2]].Succ();
  }

  lemma PathOn(c: Collector, p: seq<Id>, y: Id)
    requires IsPath(c, p) && p[|p| - 1] in c.g && y in c.g[p[|p| - 1]].Succ()
    ensures IsPath(c, p + [y])
  {
    var q := p + [y];
    forall i | 0 <= i < |q| - 1 ensures q[i] in c.g && q[i + 1] in c.g[q[i]].Succ() {
      if i < |p| - 1 { assert p[i] in c.g && p[i + 1] in c.g[p[i]].Succ(); }
    }
  }

  lemma PathStays(c: Collector, d: Collector, x: Id)
    requires Reachable(c, x) && d.g == c.g && Roots(d) == Roots(c)
    ensures Reachable(d, x)
  {
    var p :| IsPath(c, p) && p[|p| - 1] == x;
    assert IsPath(d, p);
  }

  /** The atomic phase marks everything reachable: what can be reached at the flip is not dead. */
  lemma FlipMarksReachable(c: Collector, x: Id)
    requires Inv(c) && c.phase.EnterAtomic? && Reachable(c, x)
    ensures (forall y :: y in Roots(c) ==> y in c.g) && (forall t :: t in c.twups ==> t in c.g)
    ensures x in c.g && Marked(AtomicStep(c).m, x) && Live(AtomicStep(c), x)
  {
    hide AtomicStep, GraphOk;
    ShapeFacts(c);
    ReachableLive(c, x);
    AtomicShape(c);
    AtomicSame(c);
    var d := AtomicStep(c);
    PathStays(c, d, x);
    var p :| IsPath(d, p) && p[|p| - 1] == x;
    PathShape(d, p);
  }

  lemma AtomicSame(c: Collector)
    requires Inv(c) && c.phase.EnterAtomic?
    requires (forall x :: x in Roots(c) ==> x in c.g) && (forall t :: t in c.twups ==> t in c.g)
    ensures AtomicStep(c).g == c.g && Roots(AtomicStep(c)) == Roots(c)
    ensures AtomicStep(c).white.White?()
  {}

  /** What the program can reach in `c` is what it can reach in `d`. */
  ghost predicate SameReach(c: Collector, d: Collector) {
    forall x :: Reachable(c, x) <==> Reachable(d, x)
  }

  lemma TrimsReach(c: Collector, d: Collector)
    requires Shape(c) && Trims(c, d)
    ensures SameReach(c, d)
  {
    forall x ensures Reachable(c, x) <==> Reachable(d, x) {
      if Reachable(c, x) {
        var p :| IsPath(c, p) && p[|p| - 1] == x;
        PathTrims(c, d, p);
      } else if Reachable(d, x) {
        var p :| IsPath(d, p) && p[|p| - 1] == x;
        PathTrims(c, d, p);
      }
    }
  }

  lemma SameGraphReach(c: Collector, d: Collector)
    requires d.g == c.g && Roots(d) == Roots(c)
    ensures SameReach(c, d)
  {
    forall x ensures Reachable(c, x) <==> Reachable(d, x) {
      if Reachable(c, x) { PathStays(c, d, x); } else if Reachable(d, x) { PathStays(d, c, x); }
    }
  }

  lemma EnterSweepReach(c: Collector)
    requires Shape(c)
    ensures SameReach(c, EnterSweep(c))
  {
    hide Reachable;
    var b := c.(phase := SweepAllGc);
    SameGraphReach(c, b);
    ShapeOnly(c, b);
    SweepToLiveTrims(b);
    TrimsReach(b, SweepToLive(b));
  }

  /** A step of the collector changes nothing about what the program can reach. */
  lemma CollectSameReach(c: Collector, fast: bool)
    requires Inv(c)
    ensures SameReach(c, SingleStep(c, fast))
  {
    hide GraphOk, NodeLive, Marking, Reachable, Trims, AtomicStep;
    ShapeFacts(c);
    var d := SingleStep(c, fast);
    if c.phase.EnterAtomic? {
      AtomicSame(c);
      AtomicShape(c);
      SameGraphReach(c, AtomicStep(c));
      EnterSweepReach(AtomicStep(c));
    } else if c.sweep.At? {
      SweepTrims(c, c.sweep.pos, if fast then |c.allgc| else GCSWEEPMAX);
      TrimsReach(c, d);
    } else {
      SameGraphReach(c, d);
    }
  }

  /** No step of the collector frees an object the program can reach. */
  lemma CollectKeepsReachable(c: Collector, fast: bool, x: Id)
    requires Inv(c) && Reachable(c, x)
    ensures x in SingleStep(c, fast).g && Reachable(SingleStep(c, fast), x)
  {
    hide SingleStep, Shape, PhaseInv;
    CollectSameReach(c, fast);
    SingleStepInv(c, fast);
    ReachableLive(SingleStep(c, fast), x);
  }

  /** Nor does any other action. */
  lemma ActionKeepsReachable(c: Collector, a: Action, x: Id)
    requires Sane(c, a) && Reachable(c, x)
    ensures x in Apply(c, a).g
  {
    hide GraphOk, NodeLive, Marking, Mark, Reachable;
    ReachableLive(c, x);
    TouchedLive(c, a);
    match a {
      case Collect(fast) => CollectKeepsReachable(c, fast, x);
      case Abandon =>
        EnterSweepReach(c);
        EnterSweepInv(c);
        ReachableLive(EnterSweep(c), x);
      case Close(u) => CloseInv(c, u);
      case _ =>
    }
  }

  // ------------------------------------------------------------------------------------------
  // What is stored can be reached
  // ------------------------------------------------------------------------------------------

  /** Objects outside `C` refer to everything they referred to. */
  ghost predicate OthersKept(c: Collector, d: Collector, C: set<Id>) {
    && Roots(d) == Roots(c)
    && forall x, y :: x in c.g && x !in C && y in c.g[x].Succ() ==> x in d.g && y in d.g[x].Succ()
  }

  /** A path that ends in `C` leads to `C` also when only the references of `C` have changed. */
  lemma {:induction false} StillLeads(c: Collector, d: Collector, p: seq<Id>, C: set<Id>)
    requires OthersKept(c, d, C) && IsPath(c, p) && p[|p| - 1] in C
    ensures exists x :: x in C && Reachable(d, x)
    decreases |p|
  {
    if k :| 0 <= k < |p| - 1 && p[k] in C {
      var q := p[..k + 1];
      forall i | 0 <= i < |q| - 1 ensures q[i] in c.g && q[i + 1] in c.g[q[i]].Succ() { assert p[i] in c.g; }
      StillLeads(c, d, q, C);
    } else {
      forall i | 0 <= i < |p| - 1 ensures p[i] in d.g && p[i + 1] in d.g[p[i]].Succ() {
        assert p[i] in c.g && p[i + 1] in c.g[p[i]].Succ();
      }
      assert IsPath(d, p) && p[|p| - 1] in C;
    }
  }

  lemma StillReached(c: Collector, d: Collector, o: Id)
    requires OthersKept(c, d, {o}) && Reachable(c, o)
    ensures Reachable(d, o)
  {
    var p :| IsPath(c, p) && p[|p| - 1] == o;
    StillLeads(c, d, p, {o});
  }

  lemma StepReached(c: Collector, x: Id, y: Id)
    requires Reachable(c, x) && x in c.g && y in c.g[x].Succ()
    ensures Reachable(c, y)
  {
    var p :| IsPath(c, p) && p[|p| - 1] == x;
    PathOn(c, p, y);
    assert (p + [y])[|p + [y]| - 1] == y;
  }

  /** The object holds exactly the given references, no other object has changed, and no black object with
      a white value is left behind. */
  ghost predicate StoredIn(c: Collector, d: Collector, o: Id, refs: seq<Id>, v: Id) {
    && o in c.g && o in d.m.color && d.g == c.g[o := Node(c.g[o].kind, refs, c.g[o].open)]
    && Roots(d) == Roots(c) && d.allgc == c.allgc && d.twups == c.twups && d.phase == c.phase
    && !(d.m.color[o].Black? && IsWhite(d.m, v))
  }

  /** A store does that in every phase, with either barrier. */
  lemma WriteEffect(c: Collector, o: Id, refs: seq<Id>, v: Id, back: bool)
    requires CanWrite(c, o, refs, v) && (back ==> c.g[o].kind.Container?)
    ensures StoredIn(c, DoWrite(c, o, refs, v, back), o, refs, v)
  {
    hide Shape, PhaseInv, GraphOk, Barrier, BarrierBack, Within, WellTyped;
    WriteShape(c, o, refs, v);
    WriteReady(c, o, refs, v);
    var b := c.(g := SetRefs(c.g, o, refs));
    if back { BarrierBackQuiet(b, o, v); } else { BarrierQuiet(b, o, v); }
  }

  lemma WriteReady(c: Collector, o: Id, refs: seq<Id>, v: Id)
    requires CanWrite(c, o, refs, v)
    ensures c.m.color.Keys == c.g.Keys && o in c.g && v in c.g && c.white.White?()
    ensures Marks?(c.phase) ==> GrayOk(c.m)
  {
    hide GraphOk, NodeLive, TwupsOk;
  }

  /** After a barrier the object is not black, or the value is marked. */
  lemma BarrierQuiet(c: Collector, o: Id, v: Id)
    requires o in c.m.color && v in c.g && c.m.color.Keys == c.g.Keys && c.white.White?()
    requires Marks?(c.phase) ==> Typed(c.g) && GrayOk(c.m)
    ensures var d := Barrier(c, o, v);
      d == c.(m := d.m) && o in d.m.color && !(d.m.color[o].Black? && IsWhite(d.m, v))
  {
    hide Typed, GrayOk;
    if c.m.color[o].Black? && IsWhite(c.m, v) && Marks?(c.phase) {
      MarkGrows(c.g, c.m, v);
      MarkedStays(c.g, c.m, Mark(c.g, c.m, v));
    }
  }

  lemma BarrierBackQuiet(c: Collector, o: Id, v: Id)
    requires o in c.m.color
    ensures var d := BarrierBack(c, o, v);
      d == c.(m := d.m, again := d.again) && o in d.m.color && !(d.m.color[o].Black? && IsWhite(d.m, v))
  {
  }

  /** Whatever a program stores, it can reach afterwards. */
  lemma StoredReachable(c: Collector, a: Action, x: Id)
    requires Sane(c, a) && Enabled(c, a)
    requires match a
      case New(y, _, _, _) => x == y
      case Intern(y, _) => x == y
      case Write(_, _, v, _) => x == v
      case Stack(_, refs) => x in refs
      case SetOpen(_, value, _) => x in value
      case NewOpen(y, _, _) => x == y
      case SetGlobals(gs) => x in gs
      case SetRunning(t) => x == t
      case _ => false
    ensures Reachable(Apply(c, a), x)
  {
    hide Shape, PhaseInv, Reachable, GraphOk, Covers;
    TouchedLive(c, a);
    var d := Apply(c, a);
    match a {
      case New(y, k, refs, t) => assert t in Touched(a); StillReached(c, d, t); StepReached(d, t, y);
      case Intern(y, t) => assert t in Touched(a); StillReached(c, d, t); StepReached(d, t, y);
      case Write(o, refs, v, back) =>
        assert o in Touched(a);
        WriteEffect(c, o, refs, v, back);
        StillReached(c, d, o);
        StepReached(d, o, v);
      case Stack(t, refs) => assert t in Touched(a); StillReached(c, d, t); StepReached(d, t, x);
      case SetOpen(u, value, stack) => SetOpenReached(c, u, value, stack, x);
      case NewOpen(y, t, value) => assert t in Touched(a); StillReached(c, d, t); StepReached(d, t, y);
      case SetGlobals(gs) => RootReached(d, x);
      case SetRunning(t) => RootReached(d, x);
    }
  }

  lemma RootReached(c: Collector, x: Id)
    requires x in Roots(c)
    ensures Reachable(c, x)
  {
    assert IsPath(c, [x]) && [x][0] == x;
  }

  lemma PathTo(c: Collector, x: Id) returns (p: seq<Id>)
    requires Reachable(c, x)
    ensures IsPath(c, p) && p[|p| - 1] == x
  {
    p :| IsPath(c, p) && p[|p| - 1] == x;
  }

  lemma SetOpenGraph(c: Collector, u: Id, value: seq<Id>, stack: seq<Id>)
    requires Sane(c, SetOpen(u, value, stack))
    ensures u in c.g && c.g[u].kind.OpenUpval?
    ensures var d, t := Apply(c, SetOpen(u, value, stack)), c.g[u].kind.thread;
      && t in c.g && t != u && d.g == SetStack(c.g, t, stack, u, value) && Roots(d) == Roots(c)
      && u in d.g[t].Succ() && d.g[u].refs == value
  {
    hide PhaseInv, NodeLive, TwupsOk;
    TouchedLive(c, SetOpen(u, value, stack));
    assert OpenAt(c.g, u);
  }

  lemma SetOpenReached(c: Collector, u: Id, value: seq<Id>, stack: seq<Id>, x: Id)
    requires Sane(c, SetOpen(u, value, stack)) && Enabled(c, SetOpen(u, value, stack)) && x in value
    ensures Reachable(Apply(c, SetOpen(u, value, stack)), x)
  {
    hide PhaseInv, Shape, GraphOk, Apply, Reachable, Covers, Within, WellTyped;
    var a := SetOpen(u, value, stack);
    var d, t := Apply(c, a), c.g[u].kind.thread;
    assert u in Touched(a);
    SetOpenGraph(c, u, value, stack);
    assert Reachable(c, u);
    var p := PathTo(c, u);
    StillLeads(c, d, p, {t, u});
    if !Reachable(d, u) { StepReached(d, t, u); }
    StepReached(d, u, x);
  }

  /** In every run from a fresh state, an object that is reachable before a step still exists after it. */
  lemma ReachableNeverFreed(main: Id, cs: seq<Collector>, acts: seq<Action>, i: nat, x: Id)
    requires Run(cs, acts) && cs[0] == Init(main) && i < |acts| && Reachable(cs[i], x)
    ensures x in cs[i].g && x in cs[i + 1].g
  {
    InitInv(main);
    RunInv(cs, acts, i);
    ReachableLive(cs[i], x);
    assert Step(cs[i], acts[i], cs[i + 1]);
    EnabledSane(cs[i], acts[i]);
    ActionKeepsReachable(cs[i], acts[i], x);
  }

  /** In every run the list of threads with open upvalues holds each of its threads once, all of them
      existing and not dead, and misses none that is reachable and has open upvalues. */
  lemma TwupsExact(main: Id, cs: seq<Collector>, acts: seq<Action>, i: nat, t: Id)
    requires Run(cs, acts) && cs[0] == Init(main) && i < |cs|
    ensures NoDup(cs[i].twups) && (t in cs[i].twups ==> t in cs[i].g && Live(cs[i], t))
    ensures Reachable(cs[i], t) ==> t in cs[i].g && (cs[i].g[t].open != [] ==> t in cs[i].twups)
  {
    hide GraphOk, NodeLive, PhaseInv;
    InitInv(main);
    RunInv(cs, acts, i);
    if Reachable(cs[i], t) { ReachableLive(cs[i], t); }
  }
}
