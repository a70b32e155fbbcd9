/** The object graph of the Lua collector and its marking functions: colours, the gray list and the
    depth-bounded recursion that paints one white object. */
module LuaMarking {

  type Id = nat

  /** Two whites alternate between cycles; an object that still carries the other white is dead. */
  datatype Color = White0 | White1 | Gray | Black {
    predicate White?() { White0? || White1? }
  }

  /** `BareUdata` is a userdata without user values; `Container` stands for every kind that is
      queued when marked and guarded by barriers (tables, closures, prototypes, full userdata). */
  datatype Kind = String | ClosedUpval | OpenUpval(thread: Id) | BareUdata | Container | Thread {
    predicate Upval?() { ClosedUpval? || OpenUpval? }
    predicate Queued?() { Container? || Thread? }
  }

  /** `refs` are the collectable values stored in the object (for a thread: its live stack);
      `open` is the list of open upvalues of a thread. */
  datatype Node = Node(kind: Kind, refs: seq<Id>, open: seq<Id>) {
    /** Everything a traversal of the object visits. */
    function Succ(): seq<Id> { refs + open }
  }

  type Graph = map<Id, Node>

  /** The part of the collector's state that marking changes. */
  datatype Marks = Marks(color: map<Id, Color>, gray: seq<Id>)

  predicate NoDup<T(==)>(s: seq<T>) {
    forall i, j :: 0 <= i < j < |s| ==> s[i] != s[j]
  }

  predicate IsWhite(m: Marks, x: Id) { x in m.color && m.color[x].White?() }
  predicate Marked(m: Marks, x: Id) { x in m.color && !m.color[x].White?() }
  predicate AllMarked(m: Marks, xs: seq<Id>) { forall x :: x in xs ==> Marked(m, x) }

  /** Typing facts the recursion of marking relies on: an upvalue holds at most one value and never
      another upvalue, the only reference of a bare userdata is a metatable, strings refer to nothing. */
  predicate TypedNode(g: Graph, n: Node) {
    && (forall y :: y in n.Succ() ==> y in g)
    && (n.kind.String? ==> n.refs == [])
    && (n.kind.Upval?() ==> |n.refs| <= 1 && forall y :: y in n.refs ==> !g[y].kind.Upval?())
    && (n.kind.BareUdata? ==> |n.refs| <= 1 && forall y :: y in n.refs ==> g[y].kind.Container?)
    && (!n.kind.Thread? ==> n.open == [])
  }

  predicate Typed(g: Graph) {
    forall x :: x in g ==> TypedNode(g, g[x])
  }

  function Rank(k: Kind): nat {
    if k.Upval?() then 2 else if k.BareUdata? then 1 else 0
  }

  function Paint(m: Marks, x: Id, c: Color): Marks { m.(color := m.color[x := c]) }

  /** Links `x` at the front of the gray list and paints it gray. */
  function LinkGray(m: Marks, x: Id): Marks { Marks(m.color[x := Gray], [x] + m.gray) }

  /** The value held by an upvalue, or the metatable of a bare userdata. */
  function MarkContent(g: Graph, m: Marks, n: Node): Marks
    requires Typed(g) && TypedNode(g, n) && (n.kind.Upval?() || n.kind.BareUdata?)
    decreases Rank(n.kind), 0
  {
    if n.refs == [] then m else assert n.refs[0] in n.Succ(); MarkValue(g, m, n.refs[0])
  }

  /** `reallymarkobject`: strings, closed upvalues and bare userdata turn black at once, open
      upvalues stay gray outside every list, all other objects are queued. */
  function Mark(g: Graph, m: Marks, x: Id): Marks
    requires Typed(g) && x in g
    decreases Rank(g[x].kind), 1
  {
    assert TypedNode(g, g[x]);
    match g[x].kind
    case String => Paint(m, x, Black)
    case ClosedUpval => MarkContent(g, Paint(m, x, Black), g[x])
    case OpenUpval(_) => MarkContent(g, Paint(m, x, Gray), g[x])
    case BareUdata => Paint(MarkContent(g, m, g[x]), x, Black)
    case _ => LinkGray(m, x)
  }

  function MarkValue(g: Graph, m: Marks, x: Id): Marks
    requires Typed(g) && x in g
    decreases Rank(g[x].kind), 2
  {
    if IsWhite(m, x) then Mark(g, m, x) else m
  }

  /** Marks a list of values in order: the loop shared by all the `traverse` functions. */
  function MarkAll(g: Graph, m: Marks, xs: seq<Id>): Marks
    requires Typed(g) && forall x :: x in xs ==> x in g
    decreases |xs|
  {
    if xs == [] then m else MarkAll(g, MarkValue(g, m, xs[0]), xs[1..])
  }

  // ------------------------------------------------------------------------------------------
  // What marking may change
  // ------------------------------------------------------------------------------------------

  function Whites(m: Marks): set<Id> {
    set x | x in m.color && m.color[x].White?()
  }

  /** Objects still to be painted plus objects still to be traversed. */
  function Work(m: Marks): nat { |Whites(m)| + |m.gray| }

  predicate GrayOk(m: Marks) {
    NoDup(m.gray) && forall x :: x in m.gray ==> x in m.color && m.color[x].Gray?
  }

  /** A freshly marked object is queued, or all it refers to has been marked with it. */
  predicate Settled(g: Graph, m: Marks, x: Id) {
    x in g && x in m.color &&
    match m.color[x]
    case Gray => if g[x].kind.OpenUpval? then AllMarked(m, g[x].refs) else g[x].kind.Queued?() && x in m.gray
    case Black => !g[x].kind.OpenUpval? && !g[x].kind.Queued?() && AllMarked(m, g[x].refs)
    case _ => true
  }

  predicate Kept(m: Marks, n: Marks, x: Id) {
    x in m.color && x in n.color && n.color[x] == m.color[x]
  }

  /** `n` comes from `m` by marking: only white objects change colour, each becomes settled, and
      the gray list gains exactly objects that were white. */
  predicate Grows(g: Graph, m: Marks, n: Marks) {
    && n.color.Keys == m.color.Keys
    && (forall x :: x in m.color ==> Kept(m, n, x) || (IsWhite(m, x) && Marked(n, x) && Settled(g, n, x)))
    && (forall x :: x in m.gray ==> x in n.gray)
    && (forall x :: x in n.gray ==> x in m.gray || (IsWhite(m, x) && x in g && g[x].kind.Queued?()))
    && Work(n) <= Work(m)
  }

  lemma MarkedStays(g: Graph, m: Marks, n: Marks)
    requires Grows(g, m, n)
    ensures forall x :: Marked(m, x) ==> Marked(n, x) && n.color[x] == m.color[x]
    ensures forall x :: IsWhite(n, x) ==> IsWhite(m, x) && n.color[x] == m.color[x]
  {
    forall x | x in m.color ensures Kept(m, n, x) || (IsWhite(m, x) && Marked(n, x)) {}
  }

  lemma GrowsSelf(g: Graph, m: Marks)
    ensures Grows(g, m, m)
  {}

  lemma GrowsTrans(g: Graph, l: Marks, m: Marks, n: Marks)
    requires Grows(g, l, m) && Grows(g, m, n)
    ensures Grows(g, l, n)
  {
    MarkedStays(g, l, m);
    MarkedStays(g, m, n);
    forall x | x in l.color
      ensures Kept(l, n, x) || (IsWhite(l, x) && Marked(n, x) && Settled(g, n, x))
    {
      assert Kept(l, m, x) || Settled(g, m, x);
      assert Kept(m, n, x) || Settled(g, n, x);
    }
  }

  lemma PaintWork(m: Marks, x: Id, c: Color)
    requires IsWhite(m, x) && !c.White?()
    ensures |Whites(Paint(m, x, c))| == |Whites(m)| - 1
  {
    assert Whites(Paint(m, x, c)) == Whites(m) - {x};
  }

  lemma PaintGrows(g: Graph, m: Marks, x: Id, c: Color)
    requires GrayOk(m) && IsWhite(m, x) && !c.White?() && Settled(g, Paint(m, x, c), x)
    ensures Grows(g, m, Paint(m, x, c)) && GrayOk(Paint(m, x, c))
  {
    PaintWork(m, x, c);
  }

  lemma QueueGrows(g: Graph, m: Marks, x: Id)
    requires x in g && GrayOk(m) && IsWhite(m, x) && g[x].kind.Queued?()
    ensures Grows(g, m, LinkGray(m, x)) && GrayOk(LinkGray(m, x))
  {
    PaintWork(m, x, Gray);
    assert Whites(LinkGray(m, x)) == Whites(Paint(m, x, Gray));
    assert x !in m.gray;
  }

  /** An object may be painted first and settled by the marking that follows. */
  lemma PaintThenGrow(g: Graph, m: Marks, x: Id, c: Color, n: Marks)
    requires IsWhite(m, x) && !c.White?()
    requires Grows(g, Paint(m, x, c), n) && Settled(g, n, x)
    ensures Grows(g, m, n)
  {
    PaintWork(m, x, c);
    var p := Paint(m, x, c);
    forall z | z in m.color
      ensures Kept(m, n, z) || (IsWhite(m, z) && Marked(n, z) && Settled(g, n, z)) {
      assert Kept(p, n, z) || (IsWhite(p, z) && Settled(g, n, z));
    }
  }

  lemma {:induction false} MarkGrows(g: Graph, m: Marks, x: Id)
    requires Typed(g) && m.color.Keys == g.Keys && GrayOk(m) && IsWhite(m, x)
    ensures Grows(g, m, Mark(g, m, x)) && GrayOk(Mark(g, m, x)) && Marked(Mark(g, m, x), x)
    decreases Rank(g[x].kind), 1
  {
    var k := g[x].kind;
    assert TypedNode(g, g[x]);
    if k.Queued?() {
      QueueGrows(g, m, x);
    } else if k.String? {
      PaintGrows(g, m, x, Black);
    } else if k.BareUdata? {
      UdataGrows(g, m, x);
    } else {
      UpvalGrows(g, m, x, if k.OpenUpval? then Gray else Black);
    }
  }

  /** The value of an upvalue is marked after the upvalue itself has been painted. */
  lemma {:induction false} UpvalGrows(g: Graph, m: Marks, x: Id, c: Color)
    requires Typed(g) && m.color.Keys == g.Keys && GrayOk(m) && IsWhite(m, x)
    requires g[x].kind.Upval?() && c == if g[x].kind.OpenUpval? then Gray else Black
    ensures TypedNode(g, g[x])
    ensures var n := MarkContent(g, Paint(m, x, c), g[x]);
      Grows(g, m, n) && GrayOk(n) && Marked(n, x)
    decreases Rank(g[x].kind), 0
  {
    assert TypedNode(g, g[x]);
    var p := Paint(m, x, c);
    if g[x].refs == [] {
      PaintGrows(g, m, x, c);
    } else {
      var y := g[x].refs[0];
      assert y in g[x].Succ();
      assert g[x].refs == [y];
      MarkValueGrows(g, p, y);
      var n := MarkValue(g, p, y);
      MarkedStays(g, p, n);
      PaintThenGrow(g, m, x, c, n);
    }
  }

  /** The metatable of a bare userdata is marked before the userdata is painted. */
  lemma UdataGrows(g: Graph, m: Marks, x: Id)
    requires Typed(g) && m.color.Keys == g.Keys && GrayOk(m) && IsWhite(m, x)
    requires g[x].kind.BareUdata?
    ensures TypedNode(g, g[x])
    ensures var n := Paint(MarkContent(g, m, g[x]), x, Black);
      Grows(g, m, n) && GrayOk(n) && Marked(n, x)
  {
    assert TypedNode(g, g[x]);
    if g[x].refs == [] {
      PaintGrows(g, m, x, Black);
    } else {
      var y := g[x].refs[0];
      assert y in g[x].Succ() && y in g[x].refs;
      assert g[x].refs == [y];
      var n := MarkContent(g, m, g[x]);
      assert n == MarkValue(g, m, y);
      if IsWhite(m, y) {
        assert Mark(g, m, y) == LinkGray(m, y);
        QueueGrows(g, m, y);
      }
      assert n == if IsWhite(m, y) then LinkGray(m, y) else m;
      PaintGrows(g, n, x, Black);
      GrowsTrans(g, m, n, Paint(n, x, Black));
    }
  }

  lemma {:induction false} MarkValueGrows(g: Graph, m: Marks, x: Id)
    requires Typed(g) && m.color.Keys == g.Keys && GrayOk(m) && x in g
    ensures var n := MarkValue(g, m, x); Grows(g, m, n) && GrayOk(n) && Marked(n, x)
    decreases Rank(g[x].kind), 2
  {
    if IsWhite(m, x) { MarkGrows(g, m, x); }
  }

  lemma {:induction false} MarkAllGrows(g: Graph, m: Marks, xs: seq<Id>)
    requires Typed(g) && m.color.Keys == g.Keys && GrayOk(m) && forall x :: x in xs ==> x in g
    ensures var n := MarkAll(g, m, xs); Grows(g, m, n) && GrayOk(n) && AllMarked(n, xs)
    decreases |xs|
  {
    if xs != [] {
      var p := MarkValue(g, m, xs[0]);
      MarkValueGrows(g, m, xs[0]);
      MarkAllGrows(g, p, xs[1..]);
      GrowsTrans(g, m, p, MarkAll(g, m, xs));
      MarkedStays(g, p, MarkAll(g, m, xs));
      forall y | y in xs ensures Marked(MarkAll(g, m, xs), y) {}
    }
  }
}
