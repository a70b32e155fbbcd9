/** The collector as the code has it: one object whose colours, lists and phase are updated in place
    by loops.  Every method is proved to compute the function of the same name. */
module LuaGlobalState {
  import opened LuaMarking
  import opened LuaAtomic
  import opened LuaCollector
  import opened LuaRuns
  import opened LuaSteps
  import Safety = LuaSafety

  class GlobalState {
    var g: Graph
    var color: map<Id, Color>
    var gray: seq<Id>
    var grayagain: seq<Id>
    var allgc: seq<Id>
    var gcstate: Phase
    var currentwhite: Color
    var sweepgc: SweepPtr
    var mainthread: Id
    var running: Id
    var globals: seq<Id>
    var twups: seq<Id>

    function M(): Marks
      reads this
    {
      Marks(color, gray)
    }

    function View(): Collector
      reads this
    {
      Collector(g, M(), grayagain, allgc, gcstate, currentwhite, sweepgc, mainthread, running, globals, twups)
    }

    constructor (main: Id)
      ensures View() == Safety.Init(main)
    {
      g := map[main := Node(Thread, [], [])];
      color := map[main := White0];
      gray, grayagain, allgc := [], [], [main];
      gcstate, currentwhite, sweepgc := LuaCollector.Pause, White0, NoSweep;
      mainthread, running, globals, twups := main, main, [], [];
    }

    /** `reallymarkobject` */
    method ReallyMark(x: Id)
      requires Typed(g) && x in g
      modifies this`color, this`gray
      ensures M() == Mark(g, old(M()), x)
      decreases Rank(g[x].kind), 1
    {
      assert TypedNode(g, g[x]);
      var n := g[x];
      assert n.refs != [] ==> n.refs[0] in n.Succ();
      match n.kind {
        case String =>
          color := color[x := Black];
        case ClosedUpval =>
          color := color[x := Black];
          if n.refs != [] { MarkIfWhite(n.refs[0]); }
        case OpenUpval(_) =>
          color := color[x := Gray];
          if n.refs != [] { MarkIfWhite(n.refs[0]); }
        case BareUdata =>
          if n.refs != [] { MarkIfWhite(n.refs[0]); }
          color := color[x := Black];
        case Container =>
          color, gray := color[x := Gray], [x] + gray;
        case Thread =>
          color, gray := color[x := Gray], [x] + gray;
      }
    }

    /** `markvalue` and `markobject` */
    method MarkIfWhite(x: Id)
      requires Typed(g) && x in g
      modifies this`color, this`gray
      ensures M() == MarkValue(g, old(M()), x)
      decreases Rank(g[x].kind), 2
    {
      if x in color && color[x].White?() { ReallyMark(x); }
    }

    /** The loop of the `traverse` functions. */
    method MarkList(xs: seq<Id>)
      requires Typed(g) && forall x :: x in xs ==> x in g
      modifies this`color, this`gray
      ensures M() == MarkAll(g, old(M()), xs)
    {
      var i := 0;
      while i < |xs|
        invariant 0 <= i <= |xs|
        invariant MarkAll(g, M(), xs[i..]) == MarkAll(g, old(M()), xs)
      {
        assert xs[i..][1..] == xs[i + 1..];
        MarkIfWhite(xs[i]);
        i := i + 1;
      }
    }

    /** `propagatemark`; a thread is linked into `grayagain` in the propagate phase and, if it has open
        upvalues, back into `twups` in the atomic phase. */
    method PropagateMark()
      requires Ready(g, M()) && gray != []
      modifies this`color, this`gray, this`grayagain, this`twups
      ensures gcstate.Propagate? ==> View() == PropagateStep(old(View()))
      ensures !gcstate.Propagate? ==>
        View() == old(View()).(m := Traverse(g, old(M()), Black), twups := LinkThread(g, old(twups), old(gray)[0]))
    {
      hide Typed, GrayOk, MarkAll, Grows;
      UnlinkReady(g, M(), Black);
      UnlinkReady(g, M(), Gray);
      var x := gray[0];
      NodeTyped(g, x);
      color, gray := color[x := Black], gray[1..];
      if g[x].kind.Thread? && gcstate.Propagate? {
        grayagain, color := [x] + grayagain, color[x := Gray];
        assert color == old(color)[x := Gray];
      }
      MarkList(g[x].Succ());
      if g[x].kind.Thread? && !gcstate.Propagate? { LinkBack(x); }
    }

    method LinkBack(x: Id)
      requires x in g
      modifies this`twups
      ensures twups == LinkThread(g, old(twups), x)
    {
      if x !in twups && g[x].open != [] { twups := [x] + twups; }
    }

    /** `propagateall` in the atomic phase. */
    method DrainGray()
      requires Ready(g, M()) && !gcstate.Propagate?
      modifies this`color, this`gray, this`grayagain, this`twups
      ensures M() == PropagateAll(g, old(M())) && grayagain == old(grayagain)
      ensures twups == Relinked(g, old(M()), old(twups))
    {
      while gray != []
        invariant Ready(g, M()) && grayagain == old(grayagain)
        invariant PropagateAll(g, M()) == PropagateAll(g, old(M()))
        invariant Relinked(g, M(), twups) == Relinked(g, old(M()), old(twups))
        decreases Work(M())
      {
        PropagateMark();
      }
    }

    /** `remarkupvals`: a thread that is unmarked or has no open upvalues leaves the list. */
    method RemarkUpvals()
      requires Typed(g) && forall t :: t in twups ==> t in g
      modifies this`color, this`gray, this`twups
      ensures M() == Remark(g, old(M()), old(twups)) && twups == StillListed(g, old(M()), old(twups))
    {
      hide Remark, StillListed, RemarkList, Typed;
      var p := 0;
      assert twups[0..] == twups && twups[..0] == [];
      while p < |twups|
        invariant 0 <= p <= |twups| && forall t :: t in twups ==> t in g
        invariant Remark(g, M(), twups[p..]) == Remark(g, old(M()), old(twups))
        invariant twups[..p] + StillListed(g, M(), twups[p..]) == StillListed(g, old(M()), old(twups))
        decreases |twups| - p
      {
        var t := twups[p];
        RemarkStep(g, M(), twups, p);
        if !(t in color && color[t].White?()) && g[t].open != [] {
          p := p + 1;
        } else {
          RemarkOpen(g[t].open);
          twups := Dropped(twups, p);
        }
      }
      RemarkEnd(g, M(), twups);
    }

    method RemarkOpen(us: seq<Id>)
      requires Typed(g) && forall u :: u in us ==> u in g
      modifies this`color, this`gray
      ensures M() == RemarkList(g, old(M()), us)
    {
      var j := 0;
      while j < |us|
        invariant 0 <= j <= |us|
        invariant RemarkList(g, M(), us[j..]) == RemarkList(g, old(M()), us)
      {
        assert us[j..][1..] == us[j + 1..];
        assert TypedNode(g, g[us[j]]);
        if us[j] in color && !color[us[j]].White?() { MarkList(g[us[j]].refs); }
        j := j + 1;
      }
    }

    /** The first half of `atomic`. */
    method MarkRootsAgain(ghost again: seq<Id>)
      requires Marking(g, M(), again) && !gcstate.Propagate? && AllListed(g, twups)
      requires (forall x :: x in [running] + globals ==> x in g) && (forall t :: t in twups ==> t in g)
      modifies this`color, this`gray, this`grayagain, this`twups
      ensures M() == Remarked(g, old(M()), again, [running] + globals, old(twups)) && grayagain == old(grayagain)
      ensures twups == Unlisted(g, old(M()), again, [running] + globals, old(twups))
    {
      hide Grows, Tri, AgainOk;
      MarkAllGrows(g, M(), [running] + globals);
      GrowsKeepsMarking(g, M(), MarkAll(g, M(), [running] + globals), again);
      MarkList([running] + globals);
      RelinkedSame(g, M(), twups);
      DrainGray();
      RemarkUpvals();
    }

    /** The second half of `atomic`. */
    method VisitAgain(again: seq<Id>)
      requires Marking(g, M(), again) && Queues(g, again) && !gcstate.Propagate?
      modifies this`color, this`gray, this`grayagain, this`twups
      ensures M() == Finished(g, old(M()), again) && grayagain == old(grayagain)
      ensures twups == Relisted(g, old(M()), again, old(twups))
    {
      hide Tri, AgainOk;
      PropagateAllMarking(g, M(), again);
      SwapReady(g, PropagateAll(g, M()), again);
      DrainGray();
      gray := again;
      DrainGray();
    }

    /** `atomic`: the loops above in their order, then the flip of the current white. */
    method AtomicPhase()
      requires Marking(g, M(), grayagain) && GraphOk(g) && Queues(g, grayagain) && gcstate.EnterAtomic?
      requires (forall x :: x in Roots(View()) ==> x in g) && (forall t :: t in twups ==> t in g) && AllListed(g, twups)
      modifies this
      ensures View() == AtomicStep(old(View()))
    {
      hide Tri, AgainOk, Remarked, Finished, GraphOk, Unlisted, Relisted;
      ghost var m := M();
      assert forall x :: x in [running] + globals ==> x in Roots(View());
      var again := grayagain;
      RemarkedMarking(g, m, again, [running] + globals, twups);
      grayagain := [];
      gcstate := Atomic;
      MarkRootsAgain(again);
      VisitAgain(again);
      currentwhite := OtherWhite(currentwhite);
    }

    /** `sweeplist` from position `p`, at most `n` objects. */
    method SweepSome(p: nat, n: nat)
      requires p <= |allgc|
      modifies this
      ensures View() == SweepList(old(View()), p, n)
    {
      hide SweepOne;
      var i: nat, count: nat := p, n;
      while i < |allgc| && count > 0
        invariant i <= |allgc|
        invariant SweepList(View(), i, count) == SweepList(old(View()), p, n)
        decreases |allgc| - i
      {
        i := SweepAt(i);
        count := count - 1;
      }
      sweepgc := if i == |allgc| then NoSweep else At(i);
    }

    method SweepAt(i: nat) returns (next: nat)
      requires i < |allgc|
      modifies this
      ensures View() == SweepOne(old(View()), i) && next == NextPos(old(View()), i)
    {
      var x := allgc[i];
      if x in color && color[x] == OtherWhite(currentwhite) {
        FreeObject(i);
        next := i;
      } else {
        color := color[x := currentwhite];
        next := i + 1;
      }
    }

    /** `freeobj` */
    method FreeObject(p: nat)
      requires p < |allgc|
      modifies this
      ensures View() == Free(old(View()), p) && |allgc| == old(|allgc|) - 1
    {
      var c := View();
      var x := allgc[p];
      g := map y | y in g && y != x :: Cut(c.g[y], x);
      color := map y | y in color && y != x :: CutColor(c, y, x);
      allgc := allgc[..p] + allgc[p + 1..];
    }

    /** `sweeptolive` and `entersweep` */
    method StartSweep()
      modifies this
      ensures View() == EnterSweep(old(View()))
    {
      gcstate := SweepAllGc;
      ghost var c := View();
      SweepOneAtHead(View());
      SweepSome(0, 1);
      while sweepgc == At(0)
        invariant SweepToLive(c) == if sweepgc == At(0) then SweepToLive(View()) else View()
        decreases |allgc|, sweepgc == At(0)
      {
        SweepOneAtHead(View());
        SweepSome(0, 1);
      }
    }

    /** `luaC_barrier_` behind the test of its macro. */
    method WriteBarrier(o: Id, v: Id)
      requires o in color && v in g && (Marks?(gcstate) ==> Typed(g))
      modifies this`color, this`gray
      ensures View() == Barrier(old(View()), o, v)
    {
      if color[o].Black? && v in color && color[v].White?() {
        if Marks?(gcstate) { ReallyMark(v); } else { color := color[o := currentwhite]; }
      }
    }

    /** `luaC_barrierback_` behind the test of its macro. */
    method WriteBarrierBack(o: Id, v: Id)
      requires o in color
      modifies this`color, this`grayagain
      ensures View() == BarrierBack(old(View()), o, v)
    {
      if color[o].Black? && v in color && color[v].White?() {
        grayagain, color := [o] + grayagain, color[o := Gray];
      }
    }

    /** `luaC_newobjdt` */
    method NewObj(x: Id, n: Node)
      modifies this
      ensures View() == NewObject(old(View()), x, n)
    {
      g, color, allgc := g[x := n], color[x := currentwhite], [x] + allgc;
      if sweepgc.At? { sweepgc := At(sweepgc.pos + 1); }
    }

    /** A store into an object together with the barrier behind it. */
    method Store(o: Id, refs: seq<Id>, v: Id, back: bool)
      requires CanWrite(View(), o, refs, v) && (back ==> g[o].kind.Container?)
      modifies this
      ensures View() == DoWrite(old(View()), o, refs, v, back) && Inv(View())
    {
      WriteShape(View(), o, refs, v);
      WriteInv(View(), o, refs, v, back);
      g := SetRefs(g, o, refs);
      if back { WriteBarrierBack(o, v); } else { WriteBarrier(o, v); }
    }

    /** A new object on the stack of `t`. */
    method Allocate(x: Id, kind: Kind, refs: seq<Id>, t: Id)
      requires Inv(View()) && Guard(View(), New(x, kind, refs, t))
      requires Live(View(), t) && forall y :: y in refs ==> Live(View(), y)
      modifies this
      ensures View() == DoNew(old(View()), x, kind, refs, t) && Inv(View())
    {
      hide Shape, PhaseInv;
      NewInv(View(), x, kind, refs, t);
      ListedLive(View(), t);
      NewObj(x, Node(kind, refs, []));
      g := SetRefs(g, t, g[t].refs + [x]);
    }

    /** `newupval`: an open upvalue of thread `t`, which is linked into `twups` unless it is there. */
    method NewUpval(x: Id, t: Id, value: seq<Id>)
      requires Inv(View()) && Guard(View(), NewOpen(x, t, value)) && Live(View(), t)
      modifies this
      ensures View() == DoNewOpen(old(View()), x, t, value) && Inv(View())
    {
      hide Shape, PhaseInv;
      NewOpenInv(View(), x, t, value);
      NewObj(x, Node(OpenUpval(t), value, []));
      g := g[t := g[t].(open := [x] + g[t].open)];
      if t !in twups { twups := [t] + twups; }
    }

    /** The end of `internshrstr` for a string it has found, and the push of the result on the stack
        of `t`. */
    method ReuseString(x: Id, t: Id)
      requires Inv(View()) && Guard(View(), Intern(x, t)) && Live(View(), t)
      modifies this
      ensures View() == DoIntern(old(View()), x, t) && Inv(View()) && Live(View(), x)
    {
      hide Shape, PhaseInv;
      InternInv(View(), x, t);
      if x in color && color[x] == OtherWhite(currentwhite) { color := color[x := currentwhite]; }
      g := SetRefs(g, t, g[t].refs + [x]);
    }

    /** `restartcollection` */
    method RestartCollection()
      requires Typed(g) && mainthread in g && forall x :: x in globals ==> x in g
      modifies this
      ensures View() == Restart(old(View()))
    {
      gray, grayagain := [], [];
      MarkList([mainthread] + globals);
      gcstate := Propagate;
    }

    method SweepOn(next: Phase, list: SweepPtr, fast: bool)
      requires sweepgc.At? ==> sweepgc.pos <= |allgc|
      modifies this
      ensures View() == SweepStep(old(View()), next, list, fast)
    {
      match sweepgc {
        case NoSweep => gcstate, sweepgc := next, list;
        case EmptyList => sweepgc := NoSweep;
        case At(p) => SweepSome(p, if fast then |allgc| else GCSWEEPMAX);
      }
    }

    /** `singlestep`: whatever the run so far, the invariant holds again afterwards. */
    method SingleStep(fast: bool)
      requires Inv(View())
      modifies this
      ensures View() == Safety.SingleStep(old(View()), fast) && Inv(View())
    {
      Safety.ShapeFacts(View());
      Safety.SingleStepInv(View(), fast);
      match gcstate {
        case Pause => RestartCollection();
        case Propagate =>
          if fast || gray == [] { gcstate := EnterAtomic; } else { PropagateMark(); }
        case EnterAtomic =>
          MarkingListed(View());
          AtomicPhase();
          StartSweep();
        case SweepAllGc => SweepOn(SweepFinObj, EmptyList, fast);
        case SweepFinObj => SweepOn(SweepToBeFnz, EmptyList, fast);
        case SweepToBeFnz => SweepOn(SweepEnd, NoSweep, fast);
        case SweepEnd => gcstate := CallFin;
        case CallFin => gcstate := LuaCollector.Pause;
        case Atomic =>
      }
    }
  }

  lemma ListedLive(c: Collector, t: Id)
    requires Inv(c) && Live(c, t)
    ensures t in c.g && (c.g[t].open != [] ==> t in c.twups)
  {}

  lemma NodeTyped(g: Graph, x: Id)
    requires Typed(g) && x in g
    ensures TypedNode(g, g[x])
  {}

  function Dropped(tw: seq<Id>, p: nat): (r: seq<Id>)
    requires p < |tw|
    ensures |r| == |tw| - 1 && r[..p] == tw[..p] && r[p..] == tw[p + 1..] && forall t :: t in r ==> t in tw
  {
    tw[..p] + tw[p + 1..]
  }

  /** One turn of `remarkupvals`. */
  lemma RemarkStep(g: Graph, m: Marks, tw: seq<Id>, p: nat)
    requires Typed(g) && p < |tw| && forall t :: t in tw ==> t in g
    ensures forall u :: u in g[tw[p]].open ==> u in g
    ensures !IsWhite(m, tw[p]) && g[tw[p]].open != [] ==>
      && Remark(g, m, tw[p..]) == Remark(g, m, tw[p + 1..])
      && tw[..p] + StillListed(g, m, tw[p..]) == tw[..p + 1] + StillListed(g, m, tw[p + 1..])
    ensures IsWhite(m, tw[p]) || g[tw[p]].open == [] ==>
      var n := RemarkList(g, m, g[tw[p]].open);
      && Remark(g, m, tw[p..]) == Remark(g, n, tw[p + 1..])
      && StillListed(g, m, tw[p..]) == StillListed(g, n, tw[p + 1..])
  {
    var t := tw[p];
    NodeTyped(g, t);
    assert tw[p..][0] == t && tw[p..][1..] == tw[p + 1..];
    if !IsWhite(m, t) && g[t].open != [] {
      assert tw[..p] + ([t] + StillListed(g, m, tw[p + 1..])) == tw[..p + 1] + StillListed(g, m, tw[p + 1..]);
    }
  }

  lemma RemarkEnd(g: Graph, m: Marks, tw: seq<Id>)
    requires Typed(g) && forall t :: t in tw ==> t in g
    ensures Remark(g, m, tw[|tw|..]) == m && tw[..|tw|] + StillListed(g, m, tw[|tw|..]) == tw
  {}
}
