/** The last pass over a Lua function's code, `luaK_finish` in user/lua/lcode.c: jumps to jumps are
    replaced by jumps to where they end up, in place and in one sweep. */
module LuaJumps {
  const MAXARG_SJ := 0x1FF_FFFF
  const OFFSET_SJ := 0xFF_FFFF
  const MAX_HOPS := 100

  datatype Opcode = RETURN0 | RETURN1 | RETURN | TAILCALL | GETVARG | GETTABLE | VARARG | OTHER(code: nat)

  /** An instruction: a jump with its signed offset, or anything else. */
  datatype Instr = Jmp(sJ: int) | Plain(op: Opcode, a: nat, b: nat, c: nat, k: bool)

  type Code = seq<Instr>

  predicate IsJump(code: Code, i: int) { 0 <= i < |code| && code[i].Jmp? }

  /** Where a jump leads. */
  function Target(code: Code, i: nat): int
    requires IsJump(code, i)
  {
    i + code[i].sJ + 1
  }

  /** Every jump stays inside the code. */
  predicate Sound(code: Code) {
    forall i :: 0 <= i < |code| && IsJump(code, i) ==> 0 <= Target(code, i) < |code|
  }

  /** From `i`, at most `n` jumps lead to the instruction at `t`, which is not a jump. */
  predicate Reaches(code: Code, i: nat, t: nat, n: nat)
    requires Sound(code) && i < |code|
    decreases n
  {
    if IsJump(code, i) then n > 0 && Reaches(code, Target(code, i), t, n - 1) else i == t
  }

  /** Position after `n` jumps, while there are jumps to follow. */
  function Hops(code: Code, i: nat, n: nat): (r: nat)
    requires Sound(code) && i < |code|
    ensures r < |code|
    decreases n
  {
    if n == 0 || !IsJump(code, i) then i else Hops(code, Target(code, i), n - 1)
  }

  // ------------------------------------------------------------------------------------------
  // Following jumps
  // ------------------------------------------------------------------------------------------

  lemma {:induction false} ReachesMore(code: Code, i: nat, t: nat, n: nat, m: nat)
    requires Sound(code) && i < |code| && Reaches(code, i, t, n) && n <= m
    ensures Reaches(code, i, t, m)
    decreases n
  {
    if IsJump(code, i) { ReachesMore(code, Target(code, i), t, n - 1, m - 1); }
  }

  /** Following the jumps for a while does not change where they end. */
  lemma {:induction false} HopsReach(code: Code, i: nat, k: nat, t: nat, n: nat)
    requires Sound(code) && i < |code|
    ensures Reaches(code, i, t, n) ==> Reaches(code, Hops(code, i, k), t, n)
    ensures Reaches(code, Hops(code, i, k), t, n) ==> Reaches(code, i, t, n + k)
    decreases k
  {
    if k == 0 || !IsJump(code, i) {
      if Reaches(code, i, t, n) { ReachesMore(code, i, t, n, n + k); }
    } else {
      var j := Target(code, i);
      HopsReach(code, j, k - 1, t, n);
      if n > 0 { HopsReach(code, j, k - 1, t, n - 1); }
      if Reaches(code, i, t, n) {
        ReachesMore(code, Hops(code, j, k - 1), t, n - 1, n);
      }
    }
  }

  lemma {:induction false} HopsStep(code: Code, i: nat, k: nat)
    requires Sound(code) && i < |code|
    ensures Hops(code, i, k + 1) == if IsJump(code, Hops(code, i, k)) then Target(code, Hops(code, i, k))
      else Hops(code, i, k)
    decreases k
  {
    if k > 0 && IsJump(code, i) { HopsStep(code, Target(code, i), k - 1); }
  }

  /** After at least one jump the rest of the way is shorter. */
  lemma HopsCloser(code: Code, i: nat, k: nat, t: nat, n: nat)
    requires Sound(code) && IsJump(code, i) && k > 0 && Reaches(code, i, t, n)
    ensures n > 0 && Reaches(code, Hops(code, i, k), t, n - 1)
  {
    HopsReach(code, Target(code, i), k - 1, t, n - 1);
  }

  // ------------------------------------------------------------------------------------------
  // Redirecting one jump
  // ------------------------------------------------------------------------------------------

  /** `fixjump`, for a destination whose offset fits. */
  function Redirected(code: Code, i: nat, dest: int): Code
    requires i < |code|
  {
    code[i := Jmp(dest - (i + 1))]
  }

  lemma RedirectedSound(code: Code, i: nat, k: nat)
    requires Sound(code) && IsJump(code, i)
    ensures Sound(Redirected(code, i, Hops(code, i, k)))
    ensures Target(Redirected(code, i, Hops(code, i, k)), i) == Hops(code, i, k)
  {
    var d := Redirected(code, i, Hops(code, i, k));
    forall j: nat | IsJump(d, j) ensures 0 <= Target(d, j) < |d| {
      if j != i { assert IsJump(code, j); }
    }
  }

  /** Ways get no longer. */
  lemma {:induction false} RedirectedReaches(code: Code, i: nat, k: nat, p: nat, t: nat, n: nat)
    requires Sound(code) && IsJump(code, i) && k > 0 && p < |code| && Reaches(code, p, t, n)
    requires Sound(Redirected(code, i, Hops(code, i, k)))
    ensures Reaches(Redirected(code, i, Hops(code, i, k)), p, t, n)
    decreases n
  {
    var d := Redirected(code, i, Hops(code, i, k));
    if IsJump(code, p) {
      if p == i {
        HopsCloser(code, i, k, t, n);
        RedirectedReaches(code, i, k, Hops(code, i, k), t, n - 1);
      } else {
        RedirectedReaches(code, i, k, Target(code, p), t, n - 1);
        assert IsJump(d, p) && Target(d, p) == Target(code, p);
      }
    }
  }

  /** And they lead nowhere else. */
  lemma {:induction false} RedirectedReached(code: Code, i: nat, k: nat, p: nat, t: nat, n: nat)
    requires Sound(code) && IsJump(code, i) && k > 0 && p < |code|
    requires Sound(Redirected(code, i, Hops(code, i, k))) && Reaches(Redirected(code, i, Hops(code, i, k)), p, t, n)
    ensures exists m: nat :: Reaches(code, p, t, m)
    decreases n
  {
    var h := Hops(code, i, k);
    var d := Redirected(code, i, h);
    if !IsJump(code, p) {
      assert Reaches(code, p, t, 0);
    } else if p == i {
      RedirectedReached(code, i, k, h, t, n - 1);
      var m: nat :| Reaches(code, h, t, m);
      HopsReach(code, i, k, t, m);
      assert Reaches(code, i, t, m + k);
    } else {
      assert IsJump(d, p) && Target(d, p) == Target(code, p);
      RedirectedReached(code, i, k, Target(code, p), t, n - 1);
      var m: nat :| Reaches(code, Target(code, p), t, m);
      assert Reaches(code, p, t, m + 1);
    }
  }

  // ------------------------------------------------------------------------------------------
  // The other instructions
  // ------------------------------------------------------------------------------------------

  /** What the pass needs to know about the function; a vararg table rules out hidden arguments. */
  datatype Flags = Flags(needclose: bool, hidden: bool, vatab: bool, numparams: nat)

  function Adjusted(f: Flags, x: Instr): (r: Instr)
    ensures r.Jmp? == x.Jmp? && (x.Jmp? ==> r == x)
  {
    if x.Jmp? then x
    else match x.op
      case RETURN0 => if f.needclose || f.hidden then Finished(f, x.(op := RETURN)) else x
      case RETURN1 => if f.needclose || f.hidden then Finished(f, x.(op := RETURN)) else x
      case RETURN => Finished(f, x)
      case TAILCALL => Finished(f, x)
      case GETVARG => if f.vatab then x.(op := GETTABLE) else x
      case VARARG => if f.vatab then x.(k := true) else x
      case GETTABLE => x
      case OTHER(_) => x
  }

  function Finished(f: Flags, x: Instr): Instr
    requires x.Plain?
  {
    var y := if f.needclose then x.(k := true) else x;
    if f.hidden then y.(c := f.numparams + 1) else y
  }

  /** After the pass no short return is left where a return has more to do, every return and tail call
      carries what the virtual machine needs to know, and with a vararg table no instruction reads
      hidden arguments. */
  lemma AdjustedReturns(f: Flags, x: Instr)
    requires x.Plain?
    ensures var r := Adjusted(f, x);
      && (f.needclose || f.hidden ==> r.op != RETURN0 && r.op != RETURN1)
      && (r.op == RETURN || r.op == TAILCALL ==> (f.needclose ==> r.k) && (f.hidden ==> r.c == f.numparams + 1))
      && (f.vatab ==> r.op != GETVARG && (r.op == VARARG ==> r.k))
      && (!f.needclose && !f.hidden && !f.vatab ==> r == x)
      && r.a == x.a && r.b == x.b
  {
  }

  predicate Returns(x: Instr) { x.Plain? && (x.op == RETURN || x.op == TAILCALL) }

  /** Field by field: the only operations that change are short returns that have more to do, which become
      full ones, and vararg accesses, which become table accesses; the flag and the count of parameters go
      into returns and tail calls only. */
  lemma AdjustedFields(f: Flags, x: Instr)
    requires x.Plain?
    ensures var r := Adjusted(f, x);
      && r.op == (if x.op in {RETURN0, RETURN1} && (f.needclose || f.hidden) then RETURN
                  else if x.op == GETVARG && f.vatab then GETTABLE else x.op)
      && r.k == (x.k || (Returns(r) && f.needclose) || (x.op == VARARG && f.vatab))
      && r.c == (if Returns(r) && f.hidden then f.numparams + 1 else x.c)
  {
  }

  /** Code with the same jumps reaches the same places. */
  lemma {:induction false} SameJumpsReach(a: Code, b: Code, p: nat, t: nat, n: nat)
    requires Sound(a) && Sound(b) && |a| == |b| && p < |a|
    requires forall j: nat :: j < |a| ==> a[j].Jmp? == b[j].Jmp? && (a[j].Jmp? ==> a[j] == b[j])
    ensures Reaches(a, p, t, n) <==> Reaches(b, p, t, n)
    decreases n
  {
    if IsJump(a, p) && n > 0 { SameJumpsReach(a, b, Target(a, p), t, n - 1); }
  }

  // ------------------------------------------------------------------------------------------
  // The pass
  // ------------------------------------------------------------------------------------------

  /** Execution that starts at `p` comes to the instruction at `t`, and it is not a jump. */
  ghost predicate Ends(code: Code, p: nat, t: nat)
    requires Sound(code) && p < |code|
  {
    exists n: nat :: Reaches(code, p, t, n)
  }

  /** From every position both codes come to the same instruction, or to none. */
  ghost predicate SameEnds(a: Code, b: Code)
    requires Sound(a) && Sound(b) && |a| == |b|
  {
    forall p: nat, t: nat :: p < |a| ==> (Ends(a, p, t) <==> Ends(b, p, t))
  }

  /** And no way has become longer. */
  ghost predicate NoLonger(a: Code, b: Code)
    requires Sound(a) && Sound(b) && |a| == |b|
  {
    forall p: nat, t: nat, n: nat :: p < |a| && Reaches(a, p, t, n) ==> Reaches(b, p, t, n)
  }

  /** The first `i` instructions have been dealt with. */
  ghost predicate PassedTo(f: Flags, a: Code, b: Code, i: nat) {
    && Sound(a) && Sound(b) && |a| == |b| && SameEnds(a, b) && NoLonger(a, b)
    && (forall j :: 0 <= j < |a| ==> a[j].Jmp? == b[j].Jmp?)
    && (forall j :: i <= j < |a| ==> b[j] == a[j])
    && (forall j :: 0 <= j < i && j < |a| && !a[j].Jmp? ==> b[j] == Adjusted(f, a[j]))
    && (forall j, t: nat :: 0 <= j < i && j < |a| && IsJump(a, j) && Reaches(a, j, t, MAX_HOPS) ==>
         b[j] == Jmp(t - (j + 1)))
  }

  lemma RedirectedKeeps(a: Code, i: nat, k: nat)
    requires Sound(a) && IsJump(a, i) && k > 0
    ensures var b := Redirected(a, i, Hops(a, i, k)); Sound(b) && SameEnds(a, b) && NoLonger(a, b)
  {
    RedirectedSound(a, i, k);
    var b := Redirected(a, i, Hops(a, i, k));
    forall p: nat, t: nat, n: nat | p < |a| && Reaches(a, p, t, n) ensures Reaches(b, p, t, n) {
      RedirectedReaches(a, i, k, p, t, n);
    }
    forall p: nat, t: nat | p < |a| ensures Ends(a, p, t) <==> Ends(b, p, t) {
      if Ends(a, p, t) { var n: nat :| Reaches(a, p, t, n); assert Reaches(b, p, t, n); }
      if Ends(b, p, t) { var n: nat :| Reaches(b, p, t, n); RedirectedReached(a, i, k, p, t, n); }
    }
  }

  lemma EndsTrans(a: Code, b: Code, c: Code)
    requires Sound(a) && Sound(b) && Sound(c) && |a| == |b| == |c|
    requires SameEnds(a, b) && SameEnds(b, c) && NoLonger(a, b) && NoLonger(b, c)
    ensures SameEnds(a, c) && NoLonger(a, c)
  {
  }

  /** A way of at most a hundred jumps ends where as many hops lead. */
  lemma {:induction false} HopsEnd(code: Code, i: nat, t: nat, n: nat, k: nat)
    requires Sound(code) && i < |code| && Reaches(code, i, t, n) && n <= k
    ensures Hops(code, i, k) == t
    decreases n
  {
    if IsJump(code, i) { HopsEnd(code, Target(code, i), t, n - 1, k - 1); }
  }

  lemma JumpPassed(f: Flags, a: Code, b: Code, i: nat, c: Code)
    requires PassedTo(f, a, b, i) && i < |a| && IsJump(b, i) && c == Redirected(b, i, Hops(b, i, MAX_HOPS))
    ensures PassedTo(f, a, c, i + 1)
  {
    RedirectedKeeps(b, i, MAX_HOPS);
    EndsTrans(a, b, c);
    forall j, t: nat | 0 <= j < i + 1 && IsJump(a, j) && Reaches(a, j, t, MAX_HOPS) ensures c[j] == Jmp(t - (j + 1)) {
      if j == i {
        assert Reaches(b, i, t, MAX_HOPS);
        HopsEnd(b, i, t, MAX_HOPS, MAX_HOPS);
      }
    }
  }

  lemma PlainPassed(f: Flags, a: Code, b: Code, i: nat, c: Code)
    requires PassedTo(f, a, b, i) && i < |a| && !b[i].Jmp? && c == b[i := Adjusted(f, b[i])]
    ensures PassedTo(f, a, c, i + 1)
  {
    assert Sound(c) by {
      forall j | 0 <= j < |c| && IsJump(c, j) ensures 0 <= Target(c, j) < |c| { assert IsJump(b, j); }
    }
    forall p: nat, t: nat, n: nat | p < |b| ensures Reaches(b, p, t, n) <==> Reaches(c, p, t, n) {
      SameJumpsReach(b, c, p, t, n);
    }
    forall p: nat, t: nat | p < |b| ensures Ends(b, p, t) <==> Ends(c, p, t) {
      if Ends(b, p, t) { var n: nat :| Reaches(b, p, t, n); assert Reaches(c, p, t, n); }
      if Ends(c, p, t) { var n: nat :| Reaches(c, p, t, n); assert Reaches(b, p, t, n); }
    }
    EndsTrans(a, b, c);
  }

  /** `finaltarget`: at most a hundred jumps are followed, so that cycles stop. */
  method FinalTarget(code: array<Instr>, i: nat) returns (t: nat)
    requires Sound(code[..]) && i < code.Length
    ensures t == Hops(code[..], i, 100)
  {
    ghost var c := code[..];
    t := i;
    var count := 0;
    while count < MAX_HOPS
      invariant 0 <= count <= MAX_HOPS && t < code.Length && t == Hops(c, i, count)
    {
      HopsStep(c, i, count);
      if !code[t].Jmp? {
        Stopped(c, i, count, MAX_HOPS);
        return;
      }
      assert IsJump(c, t) && Target(c, t) == t + code[t].sJ + 1;
      t := t + code[t].sJ + 1;
      count := count + 1;
    }
  }

  lemma {:induction false} Stopped(code: Code, i: nat, k: nat, m: nat)
    requires Sound(code) && i < |code| && k <= m && !IsJump(code, Hops(code, i, k))
    ensures Hops(code, i, m) == Hops(code, i, k)
    decreases k
  {
    if k > 0 && IsJump(code, i) { Stopped(code, Target(code, i), k - 1, m - 1); }
  }

  /** Whether `fixjump` accepts an offset; it raises a syntax error otherwise. */
  predicate Fits(offset: int) { -OFFSET_SJ <= offset <= MAXARG_SJ - OFFSET_SJ }

  /** The signed field of a jump instruction. */
  function EncodeOffset(offset: int): int { offset + OFFSET_SJ }

  function DecodeOffset(field: int): int { field - OFFSET_SJ }

  /** An offset is accepted if and only if it fits the 25 bits of the field, with as much room forwards as
      backwards but for one, and it is read back as it was written. */
  lemma OffsetField(offset: int)
    ensures Fits(offset) <==> 0 <= EncodeOffset(offset) < 0x200_0000
    ensures Fits(offset) <==> -16777215 <= offset <= 16777216
    ensures DecodeOffset(EncodeOffset(offset)) == offset
  {
  }

  /** `luaK_finish`. Unless it reports a jump that is too long, every position still comes to the
      same first instruction that is not a jump, or to none; a jump that needs at most a hundred hops
      goes there directly; and the other instructions are adjusted one by one. */
  method Finish(code: array<Instr>, needclose: bool, vahid: bool, vatab: bool, numparams: nat) returns (ok: bool)
    requires Sound(code[..])
    modifies code
    ensures ok ==> PassedTo(Flags(needclose, vahid && !vatab, vatab, numparams), old(code[..]), code[..], code.Length)
    ensures ok ==> forall j :: 0 <= j < code.Length && code[j].Jmp? ==> Fits(code[j].sJ)
    ensures code.Length <= 16777215 ==> ok
  {
    var f := Flags(needclose, vahid && !vatab, vatab, numparams);
    ghost var a := code[..];
    var i := 0;
    while i < code.Length
      invariant 0 <= i <= code.Length && PassedTo(f, a, code[..], i)
      invariant forall j :: 0 <= j < i && code[j].Jmp? ==> Fits(code[j].sJ)
    {
      ghost var b := code[..];
      if code[i].Jmp? {
        var target := FinalTarget(code, i);
        if !Fits(target - (i + 1)) { return false; }
        code[i] := Jmp(target - (i + 1));
        JumpPassed(f, a, b, i, code[..]);
      } else {
        code[i] := Adjusted(f, code[i]);
        PlainPassed(f, a, b, i, code[..]);
      }
      i := i + 1;
    }
    return true;
  }

  /** A jump in a cycle comes nowhere, before and after. */
  lemma CycleStays(f: Flags, a: Code, b: Code, i: nat, k: nat, t: nat)
    requires PassedTo(f, a, b, |a|) && IsJump(a, i) && k > 0 && Hops(a, i, k) == i
    ensures !Ends(b, i, t)
  {
    if Ends(a, i, t) {
      var n: nat :| Reaches(a, i, t, n);
      NoWayOut(a, i, k, t, n);
    }
  }

  lemma {:induction false} NoWayOut(a: Code, i: nat, k: nat, t: nat, n: nat)
    requires Sound(a) && IsJump(a, i) && k > 0 && Hops(a, i, k) == i
    ensures !Reaches(a, i, t, n)
    decreases n
  {
    if Reaches(a, i, t, n) {
      HopsCloser(a, i, k, t, n);
      NoWayOut(a, i, k, t, n - 1);
    }
  }
}
