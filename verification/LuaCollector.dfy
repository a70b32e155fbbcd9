/** The incremental Lua collector and its mutator as one state machine: allocation, writes guarded by
    barriers, stack changes without barriers, and the collector's own small steps. */
module LuaCollector {
  import opened LuaMarking
  import opened LuaAtomic

  const GCSWEEPMAX: nat := 20

  datatype Phase = Propagate | EnterAtomic | Atomic | SweepAllGc | SweepFinObj | SweepToBeFnz
                 | SweepEnd | CallFin | Pause

  /** Where the sweep goes on: nowhere, before position `pos` of the list of all objects, or at the
      head of one of the lists of finalizable objects, which are empty here. */
  datatype SweepPtr = NoSweep | At(pos: nat) | EmptyList

  /** `twups` is the list of threads with open upvalues. */
  datatype Collector = Collector(
    g: Graph, m: Marks, again: seq<Id>, allgc: seq<Id>,
    phase: Phase, white: Color, sweep: SweepPtr,
    main: Id, running: Id, globals: seq<Id>, twups: seq<Id>)

  function OtherWhite(c: Color): Color { if c == White0 then White1 else White0 }

  /** Dead objects carry the white of the previous cycle. */
  predicate Dead(c: Collector, x: Id) { x in c.m.color && c.m.color[x] == OtherWhite(c.white) }
  predicate LiveIn(color: map<Id, Color>, white: Color, x: Id) { x in color && color[x] != OtherWhite(white) }
  predicate Live(c: Collector, x: Id) { LiveIn(c.m.color, c.white, x) }

  function Roots(c: Collector): seq<Id> { [c.main, c.running] + c.globals }

  predicate Marks?(p: Phase) { p.Propagate? || p.EnterAtomic? || p.Atomic? }

  // ------------------------------------------------------------------------------------------
  // Barriers
  // ------------------------------------------------------------------------------------------

  /** `luaC_barrier`: while marking it marks `v`; while sweeping it whitens `o`. */
  function Barrier(c: Collector, o: Id, v: Id): Collector
    requires o in c.m.color && v in c.g && (Marks?(c.phase) ==> Typed(c.g))
  {
    if !(c.m.color[o].Black? && IsWhite(c.m, v)) then c
    else if Marks?(c.phase) then c.(m := Mark(c.g, c.m, v))
    else c.(m := Paint(c.m, o, c.white))
  }

  /** `luaC_barrierback`: paints `o` gray again and keeps it for the atomic phase. */
  function BarrierBack(c: Collector, o: Id, v: Id): Collector
    requires o in c.m.color
  {
    if !(c.m.color[o].Black? && IsWhite(c.m, v)) then c
    else c.(m := Paint(c.m, o, Gray), again := [o] + c.again)
  }

  // ------------------------------------------------------------------------------------------
  // Upvalues
  // ------------------------------------------------------------------------------------------

  function Without(xs: seq<Id>, x: Id): (r: seq<Id>)
    ensures forall y :: y in r <==> y in xs && y != x
  {
    if xs == [] then [] else (if xs[0] == x then [] else [xs[0]]) + Without(xs[1..], x)
  }

  /** The graph after `u` has left the open list of its thread and holds its own value. */
  function Detached(g: Graph, u: Id): Graph
    requires u in g && g[u].kind.OpenUpval? && g[u].kind.thread in g
  {
    var t := g[u].kind.thread;
    g[t := g[t].(open := Without(g[t].open, u))][u := g[u].(kind := ClosedUpval)]
  }

  /** `luaF_closeupval` for one upvalue: a closed upvalue cannot stay gray. */
  function CloseUpval(c: Collector, u: Id): (r: Collector)
    requires u in c.g && u in c.m.color && c.g[u].kind.OpenUpval? && c.g[u].kind.thread in c.g
    requires !IsWhite(c.m, u) ==> forall v :: v in c.g[u].refs ==> v in c.g
    requires Marks?(c.phase) ==> Typed(Detached(c.g, u))
    ensures r == c.(g := Detached(c.g, u), m := r.m)
  {
    var d := c.(g := Detached(c.g, u));
    if IsWhite(c.m, u) then d
    else
      var e := d.(m := Paint(c.m, u, Black));
      if c.g[u].refs == [] then e else Barrier(e, u, c.g[u].refs[0])
  }

  // ------------------------------------------------------------------------------------------
  // Marking steps
  // ------------------------------------------------------------------------------------------

  /** `restartcollection`: clears the gray lists and marks the roots known at the start. */
  function Restart(c: Collector): Collector
    requires Typed(c.g) && c.main in c.g && forall x :: x in c.globals ==> x in c.g
  {
    c.(m := MarkAll(c.g, Marks(c.m.color, []), [c.main] + c.globals), again := [], phase := Propagate)
  }

  /** `propagatemark` in the propagate phase: a thread goes to the second gray list instead of
      turning black, because its stack is written without barriers. */
  function PropagateStep(c: Collector): Collector
    requires Ready(c.g, c.m) && c.m.gray != []
  {
    UnlinkReady(c.g, c.m, Black);
    var x := c.m.gray[0];
    if c.g[x].kind.Thread?
    then c.(m := Traverse(c.g, c.m, Gray), again := [x] + c.again)
    else c.(m := Traverse(c.g, c.m, Black))
  }

  /** `atomic`: finishes marking in one go and flips the current white. */
  function AtomicStep(c: Collector): Collector
    requires Marking(c.g, c.m, c.again) && GraphOk(c.g) && Queues(c.g, c.again)
    requires (forall x :: x in Roots(c) ==> x in c.g) && (forall t :: t in c.twups ==> t in c.g)
  {
    var roots := [c.running] + c.globals;
    c.(m := AtomicMarks(c.g, c.m, c.again, roots, c.twups), twups := AtomicTwups(c.g, c.m, c.again, roots, c.twups),
       again := [], phase := Atomic, white := OtherWhite(c.white))
  }

  // ------------------------------------------------------------------------------------------
  // Sweeping
  // ------------------------------------------------------------------------------------------

  /** What is left of another object once `x` is gone: `x` is unlinked from the open list that
      contains it, and the open upvalues of a freed thread are closed. */
  function Cut(n: Node, x: Id): Node {
    Node(if n.kind == OpenUpval(x) then ClosedUpval else n.kind, n.refs, Without(n.open, x))
  }

  /** Closing a marked upvalue blackens it; the sweep-phase barrier then whitens it when needed. */
  function CutColor(c: Collector, y: Id, x: Id): Color
    requires y in c.m.color
  {
    if y in c.g && c.g[y].kind == OpenUpval(x) && !c.m.color[y].White?()
    then if c.g[y].refs != [] && IsWhite(c.m, c.g[y].refs[0]) then c.white else Black
    else c.m.color[y]
  }

  /** `freeobj` for the object at position `p`. */
  function Free(c: Collector, p: nat): Collector
    requires p < |c.allgc|
  {
    var x := c.allgc[p];
    c.(g := map y | y in c.g && y != x :: Cut(c.g[y], x),
       m := c.m.(color := map y | y in c.m.color && y != x :: CutColor(c, y, x)),
       allgc := c.allgc[..p] + c.allgc[p + 1..])
  }

  /** One turn of the loop of `sweeplist`: a dead object is freed, any other one goes back to the
      current white and is passed. */
  function SweepOne(c: Collector, p: nat): Collector
    requires p < |c.allgc|
  {
    if Dead(c, c.allgc[p]) then Free(c, p) else c.(m := Paint(c.m, c.allgc[p], c.white))
  }

  function NextPos(c: Collector, p: nat): (q: nat)
    requires p < |c.allgc|
    ensures q <= |SweepOne(c, p).allgc| && |SweepOne(c, p).allgc| - q < |c.allgc| - p
  {
    if Dead(c, c.allgc[p]) then p else p + 1
  }

  /** `sweeplist`: visits at most `n` objects from position `p` on. */
  function SweepList(c: Collector, p: nat, n: nat): (d: Collector)
    requires p <= |c.allgc|
    ensures d.sweep.At? ==> d.sweep.pos < |d.allgc|
    decreases |c.allgc| - p
  {
    if p == |c.allgc| then c.(sweep := NoSweep)
    else if n == 0 then c.(sweep := At(p))
    else SweepList(SweepOne(c, p), NextPos(c, p), n - 1)
  }

  /** `sweeptolive`: sweeps from the head until one object has survived. */
  function SweepToLive(c: Collector): Collector
    decreases |c.allgc|
  {
    var d := SweepList(c, 0, 1);
    SweepOneAtHead(c);
    if d.sweep == At(0) then SweepToLive(d) else d
  }

  /** One sweep at the head leaves the pointer there only by freeing the first object. */
  lemma SweepOneAtHead(c: Collector)
    ensures SweepList(c, 0, 1).sweep == At(0) ==> |SweepList(c, 0, 1).allgc| < |c.allgc|
  {
    if c.allgc != [] {
      assert SweepList(c, 0, 1) == SweepList(SweepOne(c, 0), NextPos(c, 0), 0);
    }
  }

  /** `entersweep`: leaves the sweep pointer inside the list, behind objects created later. */
  function EnterSweep(c: Collector): Collector {
    SweepToLive(c.(phase := SweepAllGc))
  }

  /** `sweepstep` */
  function SweepStep(c: Collector, next: Phase, list: SweepPtr, fast: bool): Collector
    requires c.sweep.At? ==> c.sweep.pos <= |c.allgc|
  {
    match c.sweep
    case NoSweep => c.(phase := next, sweep := list)
    case EmptyList => c.(sweep := NoSweep)
    case At(p) => SweepList(c, p, if fast then |c.allgc| else GCSWEEPMAX)
  }

  // ------------------------------------------------------------------------------------------
  // Invariants
  // ------------------------------------------------------------------------------------------

  /** Object `x` refers to objects that are not dead only. */
  predicate NodeLive(g: Graph, color: map<Id, Color>, white: Color, x: Id) {
    x in g && TypedNode(g, g[x]) && forall y :: y in g[x].Succ() ==> LiveIn(color, white, y)
  }

  /** The list of threads holds each once, no dead one, and every thread with open upvalues that is not dead. */
  predicate TwupsOk(g: Graph, color: map<Id, Color>, white: Color, tw: seq<Id>) {
    && NoDup(tw) && (forall t :: t in tw ==> LiveIn(color, white, t))
    && (forall t :: t in g && LiveIn(color, white, t) && g[t].open != [] ==> t in tw)
  }

  /** In every phase: the object list and the list of threads are exact, and the objects that are not
      dead include the roots and are closed under references. */
  ghost predicate Shape(c: Collector) {
    && c.m.color.Keys == c.g.Keys && NoDup(c.allgc) && (forall x :: x in c.allgc <==> x in c.g)
    && GraphOk(c.g) && c.white.White?() && TwupsOk(c.g, c.m.color, c.white, c.twups)
    && (forall x :: x in Roots(c) ==> LiveIn(c.m.color, c.white, x))
    && (forall x :: LiveIn(c.m.color, c.white, x) ==> NodeLive(c.g, c.m.color, c.white, x))
  }

  predicate AllCurrent(c: Collector) {
    forall x :: x in c.m.color ==> c.m.color[x] == c.white
  }

  predicate Swept(c: Collector, p: nat)
    requires p <= |c.allgc|
  {
    forall i :: 0 <= i < p ==> c.allgc[i] in c.m.color && c.m.color[c.allgc[i]] == c.white
  }

  /** While marking: nothing carries the other white, threads are not black, the main thread is
      marked and the second gray list holds objects of queued kinds. */
  predicate MarkSide(g: Graph, m: Marks, again: seq<Id>, white: Color, main: Id) {
    && (forall x :: x in m.color ==> m.color[x] != OtherWhite(white))
    && (forall x :: x in g && x in m.color && m.color[x].Black? ==> !g[x].kind.Thread?)
    && Queues(g, again) && Marked(m, main)
  }

  predicate MarkInv(c: Collector) {
    && c.sweep.NoSweep?
    && MarkSide(c.g, c.m, c.again, c.white, c.main)
    && Marking(c.g, c.m, c.again)
  }

  predicate PhaseInv(c: Collector) {
    match c.phase
    case Propagate => MarkInv(c)
    case EnterAtomic => MarkInv(c)
    case Atomic => false
    case SweepAllGc =>
      (match c.sweep
       case At(p) => 1 <= p <= |c.allgc| && Swept(c, p)
       case NoSweep => AllCurrent(c)
       case EmptyList => false)
    case SweepFinObj => AllCurrent(c) && !c.sweep.At?
    case SweepToBeFnz => AllCurrent(c) && !c.sweep.At?
    case _ => AllCurrent(c) && c.sweep.NoSweep?
  }

  ghost predicate Inv(c: Collector) { Shape(c) && PhaseInv(c) }

  // ------------------------------------------------------------------------------------------
  // Sweeping keeps the shape
  // ------------------------------------------------------------------------------------------

  /** The shape depends on the colours only through the set of dead objects. */
  lemma SameLive(c: Collector, d: Collector)
    requires Shape(c) && d.g == c.g && d.allgc == c.allgc && d.white == c.white && Roots(d) == Roots(c)
    requires d.twups == c.twups
    requires d.m.color.Keys == c.m.color.Keys
    requires forall x :: x in c.m.color ==> (LiveIn(d.m.color, c.white, x) <==> LiveIn(c.m.color, c.white, x))
    ensures Shape(d)
  {
    forall x | LiveIn(d.m.color, d.white, x) ensures NodeLive(d.g, d.m.color, d.white, x) {
      assert NodeLive(c.g, c.m.color, c.white, x);
    }
    forall x | x in Roots(d) ensures LiveIn(d.m.color, d.white, x) { assert LiveIn(c.m.color, c.white, x); }
  }

  lemma FreeList(c: Collector, p: nat)
    requires NoDup(c.allgc) && p < |c.allgc|
    ensures forall y :: y in Free(c, p).allgc <==> y in c.allgc && y != c.allgc[p]
    ensures NoDup(Free(c, p).allgc)
  {
    assert c.allgc == c.allgc[..p] + [c.allgc[p]] + c.allgc[p + 1..];
  }

  lemma FreeLive(c: Collector, p: nat, y: Id)
    requires p < |c.allgc| && c.white.White?() && y != c.allgc[p]
    ensures LiveIn(Free(c, p).m.color, c.white, y) <==> LiveIn(c.m.color, c.white, y)
  {
  }

  lemma FreeNode(c: Collector, p: nat, y: Id)
    requires p < |c.allgc| && c.white.White?() && y != c.allgc[p] && NodeLive(c.g, c.m.color, c.white, y)
    requires Dead(c, c.allgc[p]) && c.m.color.Keys == c.g.Keys
    ensures NodeLive(Free(c, p).g, Free(c, p).m.color, c.white, y)
  {
    var d := Free(c, p);
    forall z | z in d.g[y].Succ() ensures LiveIn(d.m.color, c.white, z) {
      assert z in c.g[y].Succ();
      FreeLive(c, p, z);
    }
    forall z | z in c.g[y].refs ensures z in d.g { assert z in d.g[y].Succ(); }
  }

  lemma FreeShape(c: Collector, p: nat)
    requires Shape(c) && p < |c.allgc| && Swept(c, p) && Dead(c, c.allgc[p])
    ensures Shape(Free(c, p)) && Swept(Free(c, p), p)
  {
    var x, d := c.allgc[p], Free(c, p);
    FreeList(c, p);
    FreeGraphOk(c, p);
    forall y | LiveIn(d.m.color, d.white, y) ensures NodeLive(d.g, d.m.color, d.white, y) {
      FreeLive(c, p, y);
      FreeNode(c, p, y);
    }
    forall y | y in Roots(d) ensures LiveIn(d.m.color, d.white, y) {
      assert y in Roots(c) && LiveIn(c.m.color, c.white, y);
      FreeLive(c, p, y);
    }
    FreeTwups(c, p);
  }

  /** A freed thread is not in the list, so no other one has to be unlinked. */
  lemma FreeTwups(c: Collector, p: nat)
    requires p < |c.allgc| && Dead(c, c.allgc[p]) && c.white.White?() && TwupsOk(c.g, c.m.color, c.white, c.twups)
    ensures var d := Free(c, p); TwupsOk(d.g, d.m.color, d.white, d.twups)
  {
    var d := Free(c, p);
    assert Without([], c.allgc[p]) == [];
    forall t | t in c.twups ensures LiveIn(d.m.color, d.white, t) {
      assert LiveIn(c.m.color, c.white, t);
      FreeLive(c, p, t);
    }
    forall t | t in d.g && LiveIn(d.m.color, d.white, t) && d.g[t].open != [] ensures t in c.twups {
      FreeLive(c, p, t);
    }
  }

  lemma FreeGraphOk(c: Collector, p: nat)
    requires GraphOk(c.g) && p < |c.allgc|
    ensures GraphOk(Free(c, p).g)
  {
    var h := Free(c, p).g;
    forall u | u in h && h[u].kind.OpenUpval? ensures OpenAt(h, u) { assert OpenAt(c.g, u); }
    forall t | t in h ensures ListAt(h, t) { assert ListAt(c.g, t); }
  }

  lemma WhitenShape(c: Collector, p: nat)
    requires Shape(c) && p < |c.allgc| && Swept(c, p) && !Dead(c, c.allgc[p])
    ensures var d := c.(m := Paint(c.m, c.allgc[p], c.white)); Shape(d) && Swept(d, p + 1)
  {
    assert c.allgc[p] in c.allgc;
    SameLive(c, c.(m := Paint(c.m, c.allgc[p], c.white)));
  }

  ghost predicate SweptFrom(c: Collector, p: nat, d: Collector) {
    && d == c.(g := d.g, m := d.m, allgc := d.allgc, sweep := d.sweep)
    && Shape(d)
    && match d.sweep
       case At(q) => p <= q <= |d.allgc| && Swept(d, q)
       case NoSweep => Swept(d, |d.allgc|)
       case EmptyList => false
  }

  lemma SweptFromTrans(c: Collector, p: nat, b: Collector, q: nat, d: Collector)
    requires b == c.(g := b.g, m := b.m, allgc := b.allgc) && p <= q && SweptFrom(b, q, d)
    ensures SweptFrom(c, p, d)
  {
  }

  lemma SweptStop(c: Collector, p: nat, ptr: SweepPtr)
    requires Shape(c) && p <= |c.allgc| && Swept(c, p)
    requires ptr == if p == |c.allgc| then NoSweep else At(p)
    ensures SweptFrom(c, p, c.(sweep := ptr))
  {
    ShapeOnly(c, c.(sweep := ptr));
  }

  lemma SweepOneShape(c: Collector, p: nat)
    requires Shape(c) && p < |c.allgc| && Swept(c, p)
    ensures Shape(SweepOne(c, p)) && Swept(SweepOne(c, p), NextPos(c, p))
    ensures SweepOne(c, p) == c.(g := SweepOne(c, p).g, m := SweepOne(c, p).m, allgc := SweepOne(c, p).allgc)
  {
    if Dead(c, c.allgc[p]) { FreeShape(c, p); } else { WhitenShape(c, p); }
  }

  lemma {:induction false} SweepListShape(c: Collector, p: nat, n: nat)
    requires Shape(c) && p <= |c.allgc| && Swept(c, p)
    ensures SweptFrom(c, p, SweepList(c, p, n))
    decreases |c.allgc| - p
  {
    hide SweepOne;
    if p == |c.allgc| || n == 0 {
      SweptStop(c, p, SweepList(c, p, n).sweep);
    } else {
      var b, q := SweepOne(c, p), NextPos(c, p);
      SweepOneShape(c, p);
      SweepListShape(b, q, n - 1);
      SweptFromTrans(c, p, b, q, SweepList(b, q, n - 1));
    }
  }

  lemma AllSwept(c: Collector)
    requires Shape(c) && Swept(c, |c.allgc|)
    ensures AllCurrent(c)
  {
    forall x | x in c.m.color ensures c.m.color[x] == c.white { assert x in c.allgc; }
  }

  lemma {:induction false} SweepToLiveInv(c: Collector)
    requires Shape(c) && c.phase.SweepAllGc?
    ensures Inv(SweepToLive(c)) && SweepToLive(c).phase.SweepAllGc?
    decreases |c.allgc|
  {
    var d := SweepList(c, 0, 1);
    SweepListShape(c, 0, 1);
    SweepOneAtHead(c);
    if d.sweep == At(0) {
      SweepToLiveInv(d);
    } else if d.sweep.NoSweep? {
      AllSwept(d);
    }
  }

  lemma SweepStepInv(c: Collector, next: Phase, list: SweepPtr, fast: bool)
    requires Inv(c) && (c.sweep.At? ==> c.phase.SweepAllGc?)
    requires c.sweep.NoSweep? ==> PhaseInv(c.(phase := next, sweep := list))
    requires c.sweep.EmptyList? ==> PhaseInv(c.(sweep := NoSweep))
    ensures Inv(SweepStep(c, next, list, fast))
  {
    match c.sweep {
      case NoSweep => ShapeOnly(c, SweepStep(c, next, list, fast));
      case EmptyList => ShapeOnly(c, SweepStep(c, next, list, fast));
      case At(p) =>
        var n := if fast then |c.allgc| else GCSWEEPMAX;
        SweepListShape(c, p, n);
        var d := SweepList(c, p, n);
        if d.sweep.NoSweep? { AllSwept(d); }
    }
  }

  /** The shape does not depend on the phase, the sweep pointer or the gray lists. */
  lemma ShapeOnly(c: Collector, d: Collector)
    requires Shape(c) && d.m.color == c.m.color
    requires d == c.(phase := d.phase, sweep := d.sweep, m := d.m, again := d.again)
    ensures Shape(d)
  {
    SameLive(c, d);
  }
}
