/** Propagation and the atomic phase of the Lua collector: from the tri-colour invariant to a set of
    marked objects that is closed under references. */
module LuaAtomic {
  import opened LuaMarking

  // ------------------------------------------------------------------------------------------
  // The tri-colour invariant
  // ------------------------------------------------------------------------------------------

  /** Black objects refer to marked objects only; gray objects wait in a list, except open upvalues,
      which are never black. */
  predicate TriAt(g: Graph, m: Marks, again: seq<Id>, x: Id)
    requires x in g && x in m.color
  {
    && (m.color[x].Black? ==> !g[x].kind.OpenUpval? && AllMarked(m, g[x].Succ()))
    && (m.color[x].Gray? ==> g[x].kind.OpenUpval? || x in m.gray || x in again)
  }

  predicate TriExcept(g: Graph, m: Marks, again: seq<Id>, e: set<Id>) {
    && m.color.Keys == g.Keys
    && forall x :: x in g && x !in e ==> TriAt(g, m, again, x)
  }

  predicate Tri(g: Graph, m: Marks, again: seq<Id>) { TriExcept(g, m, again, {}) }

  /** The second gray list: gray objects, each once, none of them also queued. */
  predicate AgainOk(m: Marks, again: seq<Id>) {
    NoDup(again) && forall x :: x in again ==> x in m.color && m.color[x].Gray? && x !in m.gray
  }

  lemma GrowsKeepsTri(g: Graph, m: Marks, n: Marks, again: seq<Id>, e: set<Id>)
    requires Typed(g) && TriExcept(g, m, again, e) && Grows(g, m, n)
    ensures TriExcept(g, n, again, e)
  {
    MarkedStays(g, m, n);
    forall x | x in g && x !in e ensures TriAt(g, n, again, x) {
      assert TypedNode(g, g[x]);
      assert TriAt(g, m, again, x);
      assert Kept(m, n, x) || Settled(g, n, x);
    }
  }

  lemma GrowsKeepsAgain(g: Graph, m: Marks, n: Marks, again: seq<Id>)
    requires AgainOk(m, again) && Grows(g, m, n)
    ensures AgainOk(n, again)
  {
    MarkedStays(g, m, n);
    forall x | x in again ensures x in n.color && n.color[x].Gray? && x !in n.gray {
      assert Marked(m, x) && !IsWhite(m, x);
    }
  }

  /** Only objects of queued kinds are in the gray list. */
  predicate Queues(g: Graph, xs: seq<Id>) {
    forall x :: x in xs ==> x in g && g[x].kind.Queued?()
  }

  lemma GrowsKeepsQueues(g: Graph, m: Marks, n: Marks)
    requires Queues(g, m.gray) && Grows(g, m, n) && m.color.Keys == g.Keys
    ensures Queues(g, n.gray)
  {
  }

  // ------------------------------------------------------------------------------------------
  // Traversal
  // ------------------------------------------------------------------------------------------

  /** Takes the first object off the gray list, painting it `c`. */
  function Unlink(m: Marks, c: Color): Marks
    requires m.gray != []
  {
    Marks(m.color[m.gray[0] := c], m.gray[1..])
  }

  predicate Ready(g: Graph, m: Marks) {
    Typed(g) && m.color.Keys == g.Keys && GrayOk(m)
  }

  lemma UnlinkReady(g: Graph, m: Marks, c: Color)
    requires Ready(g, m) && m.gray != [] && !c.White?()
    ensures Ready(g, Unlink(m, c)) && Work(Unlink(m, c)) == Work(m) - 1
    ensures m.gray[0] in g && forall y :: y in g[m.gray[0]].Succ() ==> y in g
    ensures m.gray[0] !in Unlink(m, c).gray
  {
    var x := m.gray[0];
    assert x in m.gray && Marked(m, x);
    assert TypedNode(g, g[x]);
    assert Whites(Unlink(m, c)) == Whites(m);
    assert forall y :: y in m.gray[1..] ==> y in m.gray;
  }

  /** `propagatemark`: blackens the first gray object (a thread met while propagating is painted gray
      again by its traversal, so `c` is its final colour) and marks all it refers to. */
  function Traverse(g: Graph, m: Marks, c: Color): (n: Marks)
    requires Ready(g, m) && m.gray != [] && !c.White?()
    ensures Ready(g, n) && Work(n) < Work(m)
  {
    UnlinkReady(g, m, c);
    MarkAllGrows(g, Unlink(m, c), g[m.gray[0]].Succ());
    MarkAll(g, Unlink(m, c), g[m.gray[0]].Succ())
  }

  /** `propagateall`: empties the gray list.  Every traversal lowers the remaining work. */
  function PropagateAll(g: Graph, m: Marks): (n: Marks)
    requires Ready(g, m)
    ensures Ready(g, n) && n.gray == []
    decreases Work(m)
  {
    if m.gray == [] then m else PropagateAll(g, Traverse(g, m, Black))
  }

  /** Marks only ever appear, and what is still white is as white as it was. */
  ghost predicate KeepsMarks(m: Marks, n: Marks) {
    && (forall x :: Marked(m, x) ==> Marked(n, x))
    && (forall x :: IsWhite(n, x) ==> x in m.color && n.color[x] == m.color[x])
  }

  lemma TraverseTri(g: Graph, m: Marks, again: seq<Id>)
    requires Ready(g, m) && m.gray != [] && Tri(g, m, again) && AgainOk(m, again)
    requires Queues(g, m.gray)
    ensures var n := Traverse(g, m, Black);
      && Tri(g, n, again) && AgainOk(n, again) && KeepsMarks(m, n)
      && n.color[m.gray[0]] == Black && Grows(g, Unlink(m, Black), n)
      && AllMarked(n, g[m.gray[0]].Succ()) && Queues(g, n.gray)
  {
    var x, p := m.gray[0], Unlink(m, Black);
    UnlinkReady(g, m, Black);
    assert TriExcept(g, p, again, {x}) by {
      forall y | y in g && y !in {x} ensures TriAt(g, p, again, y) {
        assert TriAt(g, m, again, y);
        if m.color[y].Black? { forall z | z in g[y].Succ() ensures Marked(p, z) { assert Marked(m, z); } }
      }
    }
    assert AgainOk(p, again) by { assert x !in again; }
    var n := Traverse(g, m, Black);
    MarkAllGrows(g, p, g[x].Succ());
    GrowsKeepsTri(g, p, n, again, {x});
    GrowsKeepsQueues(g, p, n);
    GrowsKeepsAgain(g, p, n, again);
    MarkedStays(g, p, n);
    assert TriAt(g, n, again, x);
    forall y | y in g ensures TriAt(g, n, again, y) {}
  }

  // ------------------------------------------------------------------------------------------
  // Open upvalues
  // ------------------------------------------------------------------------------------------

  /** The value of an open upvalue is one of the stack values of its thread, which lists it. */
  predicate OpenAt(g: Graph, u: Id)
    requires u in g && g[u].kind.OpenUpval?
  {
    var t := g[u].kind.thread;
    t in g && g[t].kind.Thread? && u in g[t].open && forall v :: v in g[u].refs ==> v in g[t].refs
  }

  predicate ListAt(g: Graph, t: Id)
    requires t in g
  {
    forall u :: u in g[t].open ==> u in g && g[u].kind == OpenUpval(t)
  }

  /** An open upvalue and its thread know each other, and strings refer to nothing, dead ones included. */
  predicate GraphOk(g: Graph) {
    && (forall u :: u in g && g[u].kind.OpenUpval? ==> OpenAt(g, u))
    && (forall t :: t in g ==> ListAt(g, t))
    && (forall x :: x in g && g[x].kind.String? ==> g[x].refs == [])
  }

  /** The value of a marked open upvalue is marked, or its thread is still to be traversed. */
  predicate UpvalAt(g: Graph, m: Marks, u: Id)
    requires u in g
  {
    g[u].kind.OpenUpval? && Marked(m, u) ==>
      AllMarked(m, g[u].refs) || (g[u].kind.thread in m.color && m.color[g[u].kind.thread].Gray?)
  }

  lemma GrowsKeepsUpval(g: Graph, m: Marks, n: Marks, u: Id)
    requires u in g && m.color.Keys == g.Keys && UpvalAt(g, m, u) && Grows(g, m, n)
    ensures UpvalAt(g, n, u)
  {
    MarkedStays(g, m, n);
    assert Kept(m, n, u) || Settled(g, n, u);
  }

  lemma TraverseKeepsUpval(g: Graph, m: Marks, again: seq<Id>, u: Id)
    requires Ready(g, m) && m.gray != [] && Tri(g, m, again) && AgainOk(m, again) && Queues(g, m.gray)
    requires GraphOk(g) && u in g && UpvalAt(g, m, u)
    ensures UpvalAt(g, Traverse(g, m, Black), u)
  {
    hide Tri, AgainOk, Queues, Grows;
    var x, p, n := m.gray[0], Unlink(m, Black), Traverse(g, m, Black);
    TraverseTri(g, m, again);
    UnlinkReady(g, m, Black);
    if g[u].kind.OpenUpval? && g[u].kind.thread == x {
      forall v | v in g[u].refs ensures Marked(n, v) { assert v in g[x].Succ(); }
    } else {
      UnlinkKeepsUpval(g, m, u);
      GrowsKeepsUpval(g, p, n, u);
    }
  }

  lemma UnlinkKeepsUpval(g: Graph, m: Marks, u: Id)
    requires Ready(g, m) && m.gray != [] && u in g && UpvalAt(g, m, u)
    requires !(g[u].kind.OpenUpval? && g[u].kind.thread == m.gray[0])
    ensures UpvalAt(g, Unlink(m, Black), u)
  {
    var p := Unlink(m, Black);
    UnlinkReady(g, m, Black);
    if Marked(p, u) && g[u].kind.OpenUpval? && AllMarked(m, g[u].refs) {
      forall v | v in g[u].refs ensures Marked(p, v) { assert Marked(m, v); }
    }
  }

  /** Everything propagation keeps, together. */
  predicate Marking(g: Graph, m: Marks, again: seq<Id>) {
    Ready(g, m) && Tri(g, m, again) && AgainOk(m, again) && Queues(g, m.gray)
  }

  lemma GrowsKeepsMarking(g: Graph, m: Marks, n: Marks, again: seq<Id>)
    requires Marking(g, m, again) && Grows(g, m, n) && GrayOk(n)
    ensures Marking(g, n, again)
  {
    GrowsKeepsTri(g, m, n, again, {});
    GrowsKeepsAgain(g, m, n, again);
    GrowsKeepsQueues(g, m, n);
  }

  lemma {:induction false} PropagateAllMarking(g: Graph, m: Marks, again: seq<Id>)
    requires Marking(g, m, again)
    ensures Marking(g, PropagateAll(g, m), again) && KeepsMarks(m, PropagateAll(g, m))
    decreases Work(m)
  {
    if m.gray != [] {
      TraverseTri(g, m, again);
      PropagateAllMarking(g, Traverse(g, m, Black), again);
    }
  }

  lemma {:induction false} PropagateAllUpval(g: Graph, m: Marks, again: seq<Id>, u: Id)
    requires Marking(g, m, again) && GraphOk(g) && u in g && UpvalAt(g, m, u)
    ensures UpvalAt(g, PropagateAll(g, m), u)
    decreases Work(m)
  {
    if m.gray != [] {
      TraverseTri(g, m, again);
      TraverseKeepsUpval(g, m, again, u);
      PropagateAllUpval(g, Traverse(g, m, Black), again, u);
    }
  }

  // ------------------------------------------------------------------------------------------
  // Upvalues of unmarked threads
  // ------------------------------------------------------------------------------------------

  /** Marks the values of those upvalues in `us` that are already marked. */
  function RemarkList(g: Graph, m: Marks, us: seq<Id>): Marks
    requires Typed(g) && forall u :: u in us ==> u in g
    decreases |us|
  {
    if us == [] then m else
      assert TypedNode(g, g[us[0]]);
      RemarkList(g, if Marked(m, us[0]) then MarkAll(g, m, g[us[0]].refs) else m, us[1..])
  }

  /** `remarkupvals`: for every unmarked thread, simulates a barrier between each of its marked open
      upvalues and the value it holds. */
  function Remark(g: Graph, m: Marks, ts: seq<Id>): Marks
    requires Typed(g) && forall t :: t in ts ==> t in g
    decreases |ts|
  {
    if ts == [] then m else
      assert TypedNode(g, g[ts[0]]);
      Remark(g, if IsWhite(m, ts[0]) then RemarkList(g, m, g[ts[0]].open) else m, ts[1..])
  }

  lemma {:induction false} RemarkListGrows(g: Graph, m: Marks, us: seq<Id>)
    requires Ready(g, m) && forall u :: u in us ==> u in g
    ensures var n := RemarkList(g, m, us); Grows(g, m, n) && GrayOk(n)
    ensures var n := RemarkList(g, m, us); forall u :: u in us ==> UpvalAt(g, n, u)
    decreases |us|
  {
    if us != [] {
      assert TypedNode(g, g[us[0]]);
      var p := if Marked(m, us[0]) then MarkAll(g, m, g[us[0]].refs) else m;
      if Marked(m, us[0]) { MarkAllGrows(g, m, g[us[0]].refs); }
      assert UpvalAt(g, p, us[0]);
      RemarkListGrows(g, p, us[1..]);
      var n := RemarkList(g, m, us);
      GrowsTrans(g, m, p, n);
      GrowsKeepsUpval(g, p, n, us[0]);
      forall u | u in us ensures UpvalAt(g, n, u) {}
    }
  }

  /** A marked thread that is not waiting for its traversal covers all its open upvalues. */
  lemma MarkedThreadUpval(g: Graph, m: Marks, again: seq<Id>, t: Id, u: Id)
    requires Marking(g, m, again) && GraphOk(g) && t in g && u in g[t].open && Marked(m, t)
    ensures u in g && UpvalAt(g, m, u)
  {
    assert ListAt(g, t) && OpenAt(g, u);
    assert TriAt(g, m, again, t);
    if m.color[t].Black? {
      forall v | v in g[u].refs ensures Marked(m, v) { assert v in g[t].Succ(); }
    }
  }

  lemma {:induction false} RemarkGrows(g: Graph, m: Marks, again: seq<Id>, ts: seq<Id>)
    requires Marking(g, m, again) && GraphOk(g) && forall t :: t in ts ==> t in g
    ensures var n := Remark(g, m, ts); Grows(g, m, n) && GrayOk(n)
    ensures var n := Remark(g, m, ts);
      forall t, u :: t in ts && u in g[t].open ==> u in g && UpvalAt(g, n, u)
    decreases |ts|
  {
    if ts != [] {
      var t := ts[0];
      assert TypedNode(g, g[t]);
      var p := if IsWhite(m, t) then RemarkList(g, m, g[t].open) else m;
      if IsWhite(m, t) { RemarkListGrows(g, m, g[t].open); }
      GrowsKeepsMarking(g, m, p, again);
      RemarkGrows(g, p, again, ts[1..]);
      var n := Remark(g, m, ts);
      GrowsTrans(g, m, p, n);
      forall s, u | s in ts && u in g[s].open ensures u in g && UpvalAt(g, n, u) {
        if s == t {
          if !IsWhite(m, t) { MarkedThreadUpval(g, m, again, t, u); }
          GrowsKeepsUpval(g, p, n, u);
        }
      }
    }
  }

  // ------------------------------------------------------------------------------------------
  // The atomic phase
  // ------------------------------------------------------------------------------------------

  /** The marking done by `atomic`: the running thread and the global roots, everything gray, the
      upvalues of unmarked threads, and finally the objects kept for a second visit. */
  function AtomicMarks(g: Graph, m: Marks, again: seq<Id>, roots: seq<Id>, ts: seq<Id>): (n: Marks)
    requires Marking(g, m, again) && GraphOk(g)
    requires (forall x :: x in roots ==> x in g) && (forall t :: t in ts ==> t in g)
    requires Queues(g, again)
    ensures Ready(g, n) && n.gray == []
  {
    RemarkedMarking(g, m, again, roots, ts);
    Finished(g, Remarked(g, m, again, roots, ts), again)
  }

  /** The first half of the atomic phase, up to the visit of the upvalues of unmarked threads. */
  function Remarked(g: Graph, m: Marks, again: seq<Id>, roots: seq<Id>, ts: seq<Id>): Marks
    requires Marking(g, m, again)
    requires (forall x :: x in roots ==> x in g) && (forall t :: t in ts ==> t in g)
  {
    MarkAllGrows(g, m, roots);
    GrowsKeepsMarking(g, m, MarkAll(g, m, roots), again);
    Remark(g, PropagateAll(g, MarkAll(g, m, roots)), ts)
  }

  lemma RemarkedMarking(g: Graph, m: Marks, again: seq<Id>, roots: seq<Id>, ts: seq<Id>)
    requires Marking(g, m, again) && GraphOk(g)
    requires (forall x :: x in roots ==> x in g) && (forall t :: t in ts ==> t in g)
    ensures var n := Remarked(g, m, again, roots, ts);
      && Marking(g, n, again) && KeepsMarks(m, n) && AllMarked(n, roots)
      && forall t, u :: t in ts && u in g[t].open ==> u in g && UpvalAt(g, n, u)
  {
    var a := MarkAll(g, m, roots);
    MarkAllGrows(g, m, roots);
    GrowsKeepsMarking(g, m, a, again);
    MarkedStays(g, m, a);
    var b := PropagateAll(g, a);
    PropagateAllMarking(g, a, again);
    RemarkGrows(g, b, again, ts);
    GrowsKeepsMarking(g, b, Remark(g, b, ts), again);
    MarkedStays(g, b, Remark(g, b, ts));
  }

  lemma SwapReady(g: Graph, m: Marks, again: seq<Id>)
    requires Marking(g, m, again) && m.gray == [] && Queues(g, again)
    ensures Marking(g, Marks(m.color, again), [])
  {
    var n := Marks(m.color, again);
    forall x | x in again ensures Marked(n, x) {}
    forall x | x in g ensures TriAt(g, n, [], x) {
      assert TriAt(g, m, again, x);
      if m.color[x].Black? { forall y | y in g[x].Succ() ensures Marked(n, y) { assert Marked(m, y); } }
    }
  }

  /** The set of marked objects is closed under references. */
  ghost predicate Closed(g: Graph, m: Marks) {
    forall x :: x in g && Marked(m, x) ==> AllMarked(m, g[x].Succ())
  }

  /** The second half of the atomic phase: what is gray, then what was kept for a second visit. */
  function Finished(g: Graph, m: Marks, again: seq<Id>): (n: Marks)
    requires Marking(g, m, again) && Queues(g, again)
    ensures Ready(g, n) && n.gray == []
  {
    PropagateAllMarking(g, m, again);
    SwapReady(g, PropagateAll(g, m), again);
    PropagateAll(g, Marks(PropagateAll(g, m).color, again))
  }

  lemma FinishedMarking(g: Graph, m: Marks, again: seq<Id>)
    requires Marking(g, m, again) && Queues(g, again)
    ensures Marking(g, Finished(g, m, again), []) && KeepsMarks(m, Finished(g, m, again))
  {
    var a := PropagateAll(g, m);
    PropagateAllMarking(g, m, again);
    SwapReady(g, a, again);
    var b := Marks(a.color, again);
    PropagateAllMarking(g, b, []);
    forall x | Marked(m, x) ensures Marked(Finished(g, m, again), x) { assert Marked(a, x) && Marked(b, x); }
  }

  lemma FinishedUpval(g: Graph, m: Marks, again: seq<Id>, u: Id)
    requires Marking(g, m, again) && GraphOk(g) && Queues(g, again) && u in g && UpvalAt(g, m, u)
    ensures UpvalAt(g, Finished(g, m, again), u)
  {
    var a := PropagateAll(g, m);
    PropagateAllMarking(g, m, again);
    PropagateAllUpval(g, m, again, u);
    SwapReady(g, a, again);
    var b := Marks(a.color, again);
    assert UpvalAt(g, b, u) by {
      if AllMarked(a, g[u].refs) { forall v | v in g[u].refs ensures Marked(b, v) { assert Marked(a, v); } }
    }
    PropagateAllUpval(g, b, [], u);
  }

  /** Every thread that has open upvalues is among `ts`. */
  predicate AllListed(g: Graph, ts: seq<Id>) { forall t :: t in g && g[t].open != [] ==> t in ts }

  /** After the atomic phase no marked object, of any kind, refers to an unmarked one. */
  lemma AtomicCloses(g: Graph, m: Marks, again: seq<Id>, roots: seq<Id>, ts: seq<Id>)
    requires Marking(g, m, again) && GraphOk(g) && Queues(g, again)
    requires (forall x :: x in roots ==> x in g) && (forall t :: t in ts ==> t in g) && AllListed(g, ts)
    ensures var n := AtomicMarks(g, m, again, roots, ts);
      Closed(g, n) && KeepsMarks(m, n) && AllMarked(n, roots)
  {
    hide Grows, Remarked, Finished;
    RemarkedMarking(g, m, again, roots, ts);
    var r := Remarked(g, m, again, roots, ts);
    FinishedMarking(g, r, again);
    forall x | x in g && Marked(Finished(g, r, again), x)
      ensures AllMarked(Finished(g, r, again), g[x].Succ())
    {
      if g[x].kind.OpenUpval? {
        assert OpenAt(g, x) && UpvalAt(g, r, x);
        FinishedUpval(g, r, again, x);
      }
      QuietCloses(g, Finished(g, r, again), x);
    }
  }

  /** With empty gray lists, an object that satisfies its invariant refers to marked objects only. */
  lemma QuietCloses(g: Graph, m: Marks, x: Id)
    requires Marking(g, m, []) && m.gray == [] && GraphOk(g) && x in g && Marked(m, x) && UpvalAt(g, m, x)
    ensures AllMarked(m, g[x].Succ())
  {
    assert TriAt(g, m, [], x);
    if g[x].kind.OpenUpval? {
      assert OpenAt(g, x);
      assert TriAt(g, m, [], g[x].kind.thread);
      assert TypedNode(g, g[x]);
    }
  }

  // ------------------------------------------------------------------------------------------
  // The list of threads with open upvalues
  // ------------------------------------------------------------------------------------------

  /** What `remarkupvals` leaves in the list: a thread that is marked when its turn comes and has open
      upvalues. */
  function StillListed(g: Graph, m: Marks, ts: seq<Id>): seq<Id>
    requires Typed(g) && forall t :: t in ts ==> t in g
    decreases |ts|
  {
    if ts == [] then [] else
      assert TypedNode(g, g[ts[0]]);
      var p := if IsWhite(m, ts[0]) then RemarkList(g, m, g[ts[0]].open) else m;
      (if !IsWhite(m, ts[0]) && g[ts[0]].open != [] then [ts[0]] else []) + StillListed(g, p, ts[1..])
  }

  /** The end of `traversethread` in the atomic phase: a thread with open upvalues goes back into the list. */
  function LinkThread(g: Graph, tw: seq<Id>, x: Id): seq<Id> {
    if x in g && g[x].open != [] && x !in tw then [x] + tw else tw
  }

  /** The list after `propagateall` in the atomic phase. */
  function Relinked(g: Graph, m: Marks, tw: seq<Id>): seq<Id>
    requires Ready(g, m)
    decreases Work(m)
  {
    if m.gray == [] then tw else Relinked(g, Traverse(g, m, Black), LinkThread(g, tw, m.gray[0]))
  }

  /** The list after the visit of the upvalues of unmarked threads. */
  function Unlisted(g: Graph, m: Marks, again: seq<Id>, roots: seq<Id>, tw: seq<Id>): seq<Id>
    requires Marking(g, m, again) && (forall x :: x in roots ==> x in g) && (forall t :: t in tw ==> t in g)
  {
    MarkAllGrows(g, m, roots);
    StillListed(g, PropagateAll(g, MarkAll(g, m, roots)), tw)
  }

  /** The list after the rest of the atomic phase. */
  function Relisted(g: Graph, m: Marks, again: seq<Id>, tw: seq<Id>): seq<Id>
    requires Marking(g, m, again) && Queues(g, again)
  {
    PropagateAllMarking(g, m, again);
    SwapReady(g, PropagateAll(g, m), again);
    Relinked(g, Marks(PropagateAll(g, m).color, again), Relinked(g, m, tw))
  }

  function AtomicTwups(g: Graph, m: Marks, again: seq<Id>, roots: seq<Id>, tw: seq<Id>): seq<Id>
    requires Marking(g, m, again) && GraphOk(g) && Queues(g, again)
    requires (forall x :: x in roots ==> x in g) && (forall t :: t in tw ==> t in g)
  {
    RemarkedMarking(g, m, again, roots, tw);
    Relisted(g, Remarked(g, m, again, roots, tw), again, Unlisted(g, m, again, roots, tw))
  }

  /** When every thread with open upvalues is in the list, propagation links none. */
  lemma {:induction false} RelinkedSame(g: Graph, m: Marks, tw: seq<Id>)
    requires Ready(g, m) && AllListed(g, tw)
    ensures Relinked(g, m, tw) == tw
    decreases Work(m)
  {
    if m.gray != [] { RelinkedSame(g, Traverse(g, m, Black), tw); }
  }

  /** A marked thread with open upvalues is in the list or waits for its traversal; only marked ones are
      in the list. */
  predicate Tracked(g: Graph, m: Marks, again: seq<Id>, tw: seq<Id>) {
    && NoDup(tw) && (forall t :: t in tw ==> Marked(m, t))
    && (forall t :: t in g && Marked(m, t) && g[t].open != [] ==> t in tw || t in m.gray || t in again)
  }

  lemma ThreadQueued(g: Graph, m: Marks, n: Marks, t: Id)
    requires Typed(g) && Grows(g, m, n) && t in g && g[t].open != [] && IsWhite(m, t) && Marked(n, t)
    ensures t in n.gray
  {
    assert TypedNode(g, g[t]);
    assert Kept(m, n, t) || Settled(g, n, t);
  }

  lemma GrowsTracked(g: Graph, m: Marks, n: Marks, again: seq<Id>, tw: seq<Id>)
    requires Typed(g) && m.color.Keys == g.Keys && Grows(g, m, n) && Tracked(g, m, again, tw)
    ensures Tracked(g, n, again, tw)
  {
    MarkedStays(g, m, n);
    forall t | t in g && Marked(n, t) && g[t].open != [] ensures t in tw || t in n.gray || t in again {
      if IsWhite(m, t) { ThreadQueued(g, m, n, t); }
    }
  }

  lemma TraverseTracked(g: Graph, m: Marks, again: seq<Id>, tw: seq<Id>)
    requires Ready(g, m) && m.gray != [] && Tracked(g, m, again, tw)
    ensures Tracked(g, Traverse(g, m, Black), again, LinkThread(g, tw, m.gray[0]))
  {
    var x, p := m.gray[0], Unlink(m, Black);
    UnlinkReady(g, m, Black);
    assert x in m.gray;
    var tw' := LinkThread(g, tw, x);
    assert forall y :: Marked(m, y) <==> Marked(p, y);
    assert Tracked(g, p, again, tw');
    MarkAllGrows(g, p, g[x].Succ());
    GrowsTracked(g, p, Traverse(g, m, Black), again, tw');
  }

  lemma {:induction false} RelinkedTracked(g: Graph, m: Marks, again: seq<Id>, tw: seq<Id>)
    requires Ready(g, m) && Tracked(g, m, again, tw)
    ensures Tracked(g, PropagateAll(g, m), again, Relinked(g, m, tw))
    decreases Work(m)
  {
    hide Tracked;
    if m.gray != [] {
      TraverseTracked(g, m, again, tw);
      RelinkedTracked(g, Traverse(g, m, Black), again, LinkThread(g, tw, m.gray[0]));
    }
  }

  /** Of the threads visited, those that end up marked are kept or have just been queued. */
  lemma {:induction false} StillTracked(g: Graph, m: Marks, ts: seq<Id>)
    requires Ready(g, m) && NoDup(ts) && forall t :: t in ts ==> t in g
    ensures var n, kept := Remark(g, m, ts), StillListed(g, m, ts);
      && Grows(g, m, n) && GrayOk(n) && NoDup(kept) && (forall t :: t in kept ==> t in ts && Marked(n, t))
      && (forall t :: t in ts && Marked(n, t) && g[t].open != [] ==> t in kept || t in n.gray)
    decreases |ts|
  {
    hide Grows;
    GrowsSelf(g, m);
    if ts != [] {
      var t, n := ts[0], Remark(g, m, ts);
      assert TypedNode(g, g[t]);
      var p := if IsWhite(m, t) then RemarkList(g, m, g[t].open) else m;
      if IsWhite(m, t) { RemarkListGrows(g, m, g[t].open); }
      StillTracked(g, p, ts[1..]);
      GrowsTrans(g, m, p, n);
      MarkedStays(g, m, n);
      if IsWhite(m, t) && Marked(n, t) && g[t].open != [] { ThreadQueued(g, m, n, t); }
      assert forall s :: s in ts ==> s == t || s in ts[1..];
    }
  }

  lemma UnlistedTracked(g: Graph, m: Marks, again: seq<Id>, roots: seq<Id>, tw: seq<Id>)
    requires Marking(g, m, again) && GraphOk(g)
    requires (forall x :: x in roots ==> x in g) && (forall t :: t in tw ==> t in g) && AllListed(g, tw) && NoDup(tw)
    ensures Tracked(g, Remarked(g, m, again, roots, tw), again, Unlisted(g, m, again, roots, tw))
  {
    hide GraphOk, Grows;
    MarkAllGrows(g, m, roots);
    StillTracked(g, PropagateAll(g, MarkAll(g, m, roots)), tw);
  }

  lemma RelistedTracked(g: Graph, m: Marks, again: seq<Id>, tw: seq<Id>)
    requires Marking(g, m, again) && Queues(g, again) && Tracked(g, m, again, tw)
    ensures Tracked(g, Finished(g, m, again), [], Relisted(g, m, again, tw))
  {
    var a := PropagateAll(g, m);
    PropagateAllMarking(g, m, again);
    SwapReady(g, a, again);
    RelinkedTracked(g, m, again, tw);
    var b := Marks(a.color, again);
    assert Tracked(g, b, [], Relinked(g, m, tw));
    RelinkedTracked(g, b, [], Relinked(g, m, tw));
  }

  /** After the atomic phase the list holds the marked threads with open upvalues, and only marked ones:
      no thread that is going to be freed is left in it. */
  lemma AtomicLists(g: Graph, m: Marks, again: seq<Id>, roots: seq<Id>, tw: seq<Id>)
    requires Marking(g, m, again) && GraphOk(g) && Queues(g, again)
    requires (forall x :: x in roots ==> x in g) && (forall t :: t in tw ==> t in g) && AllListed(g, tw) && NoDup(tw)
    ensures Tracked(g, AtomicMarks(g, m, again, roots, tw), [], AtomicTwups(g, m, again, roots, tw))
  {
    hide GraphOk, Tracked, Remarked, Unlisted, Relisted, Finished;
    RemarkedMarking(g, m, again, roots, tw);
    UnlistedTracked(g, m, again, roots, tw);
    RelistedTracked(g, Remarked(g, m, again, roots, tw), again, Unlisted(g, m, again, roots, tw));
  }
}
