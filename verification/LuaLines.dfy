/** The compressed line table of a Lua function: written by `savelineinfo` and `removelastlineinfo`
    in user/lua/lcode.c, read by `luaG_getfuncline` and `changedline` in user/lua/ldebug.c. It has to
    agree with a plain array that holds the line of every instruction. */
module LuaLines {
  const MAXIWTHABS := 128
  const LIMLINEDIFF := 0x80
  const ABSLINEINFO := -0x80

  /** An absolute entry: instruction and line. */
  datatype AbsLine = AbsLine(pc: nat, line: int)

  /** The table, with the counters that only the writer keeps. */
  datatype Table = Table(linedefined: int, info: seq<int>, abs: seq<AbsLine>, iwthabs: nat, previous: int)

  function Abs(x: int): nat { if x < 0 then -x else x }

  // ------------------------------------------------------------------------------------------
  // Writing
  // ------------------------------------------------------------------------------------------

  predicate SavesAbsolute(t: Table, line: int) {
    Abs(line - t.previous) >= LIMLINEDIFF || t.iwthabs >= MAXIWTHABS
  }

  function Save(t: Table, line: int): Table {
    if SavesAbsolute(t, line) then
      Table(t.linedefined, t.info + [ABSLINEINFO], t.abs + [AbsLine(|t.info|, line)], 1, line)
    else
      Table(t.linedefined, t.info + [line - t.previous], t.abs, t.iwthabs + 1, line)
  }

  /** `removelastlineinfo`; the code never removes from an empty table. */
  function Remove(t: Table): Table
    requires t.info != [] && (t.info[|t.info| - 1] == ABSLINEINFO ==> t.abs != [])
    requires t.info[|t.info| - 1] != ABSLINEINFO ==> t.iwthabs > 0
  {
    var n := |t.info| - 1;
    if t.info[n] != ABSLINEINFO then
      t.(info := t.info[..n], previous := t.previous - t.info[n], iwthabs := t.iwthabs - 1)
    else
      t.(info := t.info[..n], abs := t.abs[..|t.abs| - 1], iwthabs := MAXIWTHABS + 1)
  }

  function Start(linedefined: int): Table { Table(linedefined, [], [], 0, linedefined) }

  // ------------------------------------------------------------------------------------------
  // The table against a plain array
  // ------------------------------------------------------------------------------------------

  /** The line before instruction `pc`. */
  function LineBefore(linedefined: int, lines: seq<int>, pc: nat): int
    requires pc <= |lines|
  {
    if pc == 0 then linedefined else lines[pc - 1]
  }

  /** The last checkpoint, counting the start of the function as one. */
  function LastAbs(abs: seq<AbsLine>): nat { if abs == [] then 0 else abs[|abs| - 1].pc }

  /** Instruction `pc` has its line recorded, relative or absolute. */
  predicate Recorded(t: Table, lines: seq<int>, pc: nat)
    requires |lines| == |t.info| && pc < |lines|
  {
    if t.info[pc] == ABSLINEINFO then AbsLine(pc, lines[pc]) in t.abs
    else Abs(t.info[pc]) < LIMLINEDIFF && lines[pc] == LineBefore(t.linedefined, lines, pc) + t.info[pc]
  }

  /** Checkpoint `i` is a real one, and no more than 128 instructions after the one before it. */
  predicate Checkpoint(t: Table, lines: seq<int>, i: nat)
    requires |lines| == |t.info| && i < |t.abs|
  {
    var pc := t.abs[i].pc;
    && pc < |t.info| && t.info[pc] == ABSLINEINFO && t.abs[i].line == lines[pc]
    && (if i == 0 then pc <= MAXIWTHABS else t.abs[i - 1].pc < pc <= t.abs[i - 1].pc + MAXIWTHABS)
  }

  ghost predicate Represents(t: Table, lines: seq<int>) {
    && |lines| == |t.info| && |t.info| <= LastAbs(t.abs) + MAXIWTHABS
    && (forall pc :: 0 <= pc < |lines| ==> Recorded(t, lines, pc))
    && (forall i :: 0 <= i < |t.abs| ==> Checkpoint(t, lines, i))
  }

  /** The writer's counters describe the table. */
  predicate Settled(t: Table, lines: seq<int>)
    requires |lines| == |t.info|
  {
    t.iwthabs == |t.info| - LastAbs(t.abs) && t.previous == LineBefore(t.linedefined, lines, |lines|)
  }

  /** Or they force the next entry to be absolute. */
  predicate Forced(t: Table) { t.iwthabs >= MAXIWTHABS }

  ghost predicate Ok(t: Table, lines: seq<int>) { Represents(t, lines) && (Settled(t, lines) || Forced(t)) }

  lemma StartOk(linedefined: int)
    ensures Ok(Start(linedefined), [])
  {
  }

  /** Every entry of the table is a signed byte, and -128 stands for an absolute entry only. */
  lemma EntriesAreBytes(t: Table, lines: seq<int>, pc: nat)
    requires Represents(t, lines) && pc < |lines|
    ensures -128 <= t.info[pc] <= 127
    ensures t.info[pc] == -128 <==> AbsLine(pc, lines[pc]) in t.abs
  {
    assert Recorded(t, lines, pc);
    if AbsLine(pc, lines[pc]) in t.abs {
      var i :| 0 <= i < |t.abs| && t.abs[i] == AbsLine(pc, lines[pc]);
      assert Checkpoint(t, lines, i);
    }
  }

  /** Emitting an instruction records its line, whatever the distance. */
  lemma SaveOk(t: Table, lines: seq<int>, line: int)
    requires Ok(t, lines)
    ensures Ok(Save(t, line), lines + [line]) && Settled(Save(t, line), lines + [line])
  {
    var u, ls := Save(t, line), lines + [line];
    forall pc | 0 <= pc < |ls| ensures Recorded(u, ls, pc) {
      if pc < |lines| { assert Recorded(t, lines, pc); } else if SavesAbsolute(t, line) {
        assert u.abs[|t.abs|] == AbsLine(pc, line);
      }
    }
    if t.abs != [] { assert Checkpoint(t, lines, |t.abs| - 1); }
    forall i | 0 <= i < |u.abs| ensures Checkpoint(u, ls, i) {
      if i < |t.abs| { assert Checkpoint(t, lines, i); }
    }
  }

  /** The last instruction's line may be taken back while the counters are settled. */
  lemma RemoveOk(t: Table, lines: seq<int>)
    requires Ok(t, lines) && lines != [] && Settled(t, lines)
    ensures t.info[|t.info| - 1] == ABSLINEINFO ==> t.abs != []
    ensures t.iwthabs > 0 && Ok(Remove(t), lines[..|lines| - 1])
  {
    var n := |lines| - 1;
    assert Recorded(t, lines, n);
    if t.abs != [] { assert Checkpoint(t, lines, |t.abs| - 1); }
    LastIsLatest(t, lines);
    var u, ls := Remove(t), lines[..n];
    forall i | 0 <= i < |u.abs| ensures Checkpoint(u, ls, i) {
      assert Checkpoint(t, lines, i) && t.abs[i].pc < n by { LatestBefore(t, lines, i); }
    }
    forall pc | 0 <= pc < n ensures Recorded(u, ls, pc) {
      assert Recorded(t, lines, pc);
      if t.info[pc] == ABSLINEINFO {
        var i :| 0 <= i < |t.abs| && t.abs[i] == AbsLine(pc, lines[pc]);
        LatestBefore(t, lines, i);
        assert i < |u.abs| && u.abs[i] == t.abs[i];
      }
    }
  }

  /** Checkpoints are in increasing order. */
  lemma {:induction false} Increasing(t: Table, lines: seq<int>, i: nat, j: nat)
    requires Represents(t, lines) && i < j < |t.abs|
    ensures t.abs[i].pc < t.abs[j].pc
    decreases j
  {
    assert Checkpoint(t, lines, j);
    if i < j - 1 { Increasing(t, lines, i, j - 1); }
  }

  lemma LastIsLatest(t: Table, lines: seq<int>)
    requires Represents(t, lines) && lines != []
    ensures t.info[|t.info| - 1] == ABSLINEINFO ==> t.abs != [] && LastAbs(t.abs) == |t.info| - 1
    ensures t.info[|t.info| - 1] != ABSLINEINFO ==> t.abs == [] || LastAbs(t.abs) < |t.info| - 1
  {
    var n := |lines| - 1;
    assert Recorded(t, lines, n);
    if t.info[n] == ABSLINEINFO {
      var i :| 0 <= i < |t.abs| && t.abs[i] == AbsLine(n, lines[n]);
      assert Checkpoint(t, lines, |t.abs| - 1);
      if i < |t.abs| - 1 { Increasing(t, lines, i, |t.abs| - 1); }
    } else if t.abs != [] {
      assert Checkpoint(t, lines, |t.abs| - 1);
    }
  }

  lemma LatestBefore(t: Table, lines: seq<int>, i: nat)
    requires Represents(t, lines) && i < |t.abs|
    ensures t.abs[i].pc <= LastAbs(t.abs) < |t.info| && (t.abs[i].pc == LastAbs(t.abs) <==> i == |t.abs| - 1)
  {
    assert Checkpoint(t, lines, |t.abs| - 1);
    if i < |t.abs| - 1 { Increasing(t, lines, i, |t.abs| - 1); }
  }

  // ------------------------------------------------------------------------------------------
  // Reading
  // ------------------------------------------------------------------------------------------

  /** The first estimate of `getbaseline` is a valid lower bound. */
  lemma EstimateOk(t: Table, lines: seq<int>, pc: nat)
    requires Represents(t, lines) && pc < |lines|
    ensures var i := pc / MAXIWTHABS - 1; i < 0 || (i < |t.abs| && t.abs[i].pc <= pc)
  {
    var i := pc / MAXIWTHABS - 1;
    if i >= 0 {
      if |t.abs| > 0 { Spacing(t, lines, |t.abs| - 1); }
      assert i < |t.abs|;
      Spacing(t, lines, i);
    }
  }

  lemma {:induction false} Spacing(t: Table, lines: seq<int>, i: nat)
    requires Represents(t, lines) && i < |t.abs|
    ensures t.abs[i].pc <= MAXIWTHABS * (i + 1)
  {
    assert Checkpoint(t, lines, i);
    if i > 0 { Spacing(t, lines, i - 1); }
  }

  /** Between a checkpoint and the next one every entry is relative. */
  lemma NoAbsBetween(t: Table, lines: seq<int>, i: int, pc: nat)
    requires Represents(t, lines) && -1 <= i < |t.abs| && pc < |lines|
    requires (i >= 0 ==> t.abs[i].pc < pc) && (i + 1 < |t.abs| ==> pc < t.abs[i + 1].pc)
    ensures t.info[pc] != ABSLINEINFO
  {
    assert Recorded(t, lines, pc);
    if t.info[pc] == ABSLINEINFO {
      var k :| 0 <= k < |t.abs| && t.abs[k] == AbsLine(pc, lines[pc]);
      if k < i { Increasing(t, lines, k, i); } else if k > i + 1 { Increasing(t, lines, i + 1, k); }
    }
  }

  /** `getbaseline`: the checkpoint at or before `pc`, as its index, instruction and line. */
  method GetBaseLine(t: Table, pc: nat, ghost lines: seq<int>) returns (basepc: int, line: int, ghost i: int)
    requires Represents(t, lines) && pc < |lines|
    ensures -1 <= i < |t.abs| && -1 <= basepc <= pc && (i + 1 < |t.abs| ==> pc < t.abs[i + 1].pc)
    ensures if i < 0 then basepc == -1 && line == t.linedefined else basepc == t.abs[i].pc && line == lines[basepc]
  {
    if |t.abs| == 0 || pc < t.abs[0].pc {
      return -1, t.linedefined, -1;
    }
    var k := pc / MAXIWTHABS - 1;
    EstimateOk(t, lines, pc);
    while k + 1 < |t.abs| && pc >= t.abs[k + 1].pc
      invariant -1 <= k < |t.abs| && (k >= 0 ==> t.abs[k].pc <= pc)
      decreases |t.abs| - k
    {
      k := k + 1;
    }
    assert Checkpoint(t, lines, k);
    return t.abs[k].pc, t.abs[k].line, k;
  }

  /** The debug information of a function, which may have been stripped. */
  datatype Debug = Stripped | Lines(t: Table)

  /** `luaG_getfuncline` finds the line that was recorded for `pc`. */
  method GetFuncLine(d: Debug, pc: nat, ghost lines: seq<int>) returns (line: int)
    requires d.Lines? ==> Represents(d.t, lines) && pc < |lines|
    ensures line == if d.Lines? then lines[pc] else -1
  {
    if d.Stripped? { return -1; }
    var t := d.t;
    var basepc, baseline;
    ghost var i;
    basepc, baseline, i := GetBaseLine(t, pc, lines);
    while basepc < pc
      invariant -1 <= basepc <= pc && (i >= 0 ==> t.abs[i].pc <= basepc)
      invariant baseline == if basepc < 0 then t.linedefined else lines[basepc]
    {
      basepc := basepc + 1;
      NoAbsBetween(t, lines, i, basepc);
      assert Recorded(t, lines, basepc);
      baseline := baseline + t.info[basepc];
    }
    return baseline;
  }

  /** `changedline` compares the two decoded lines, also on its short way. */
  method ChangedLine(d: Debug, oldpc: nat, newpc: nat, ghost lines: seq<int>) returns (changed: bool)
    requires d.Lines? ==> Represents(d.t, lines) && oldpc < newpc < |lines|
    ensures changed == (d.Lines? && lines[oldpc] != lines[newpc])
  {
    if d.Stripped? { return false; }
    var t := d.t;
    if newpc - oldpc < MAXIWTHABS / 2 {
      var delta, pc := 0, oldpc;
      while pc < newpc && t.info[pc + 1] != ABSLINEINFO
        invariant oldpc <= pc <= newpc && delta == lines[pc] - lines[oldpc]
      {
        pc := pc + 1;
        assert Recorded(t, lines, pc);
        delta := delta + t.info[pc];
      }
      if pc == newpc { return delta != 0; }
    }
    var a := GetFuncLine(d, oldpc, lines);
    var b := GetFuncLine(d, newpc, lines);
    return a != b;
  }

  // ------------------------------------------------------------------------------------------
  // Runs
  // ------------------------------------------------------------------------------------------

  /** What the compiler does to the table: emit an instruction, or give the last one another line,
      either in place or by removing it and emitting another. */
  datatype Edit = Emit(line: int) | Amend(line: int)

  /** The same on the plain array. */
  function Edited(lines: seq<int>, e: Edit): seq<int>
    requires e.Amend? ==> lines != []
  {
    match e case Emit(line) => lines + [line] case Amend(line) => lines[..|lines| - 1] + [line]
  }

  predicate Legal(n: nat, es: seq<Edit>)
    decreases |es|
  {
    es == [] || ((es[0].Amend? ==> n > 0) && Legal(if es[0].Emit? then n + 1 else n, es[1..]))
  }

  function EditedAll(lines: seq<int>, es: seq<Edit>): seq<int>
    requires Legal(|lines|, es)
    decreases |es|
  {
    if es == [] then lines else EditedAll(Edited(lines, es[0]), es[1..])
  }

  ghost predicate Writable(t: Table, lines: seq<int>) { Ok(t, lines) && Settled(t, lines) }

  lemma AmendOk(t: Table, lines: seq<int>)
    requires Writable(t, lines) && lines != []
    ensures (t.info[|t.info| - 1] == ABSLINEINFO ==> t.abs != []) && t.iwthabs > 0
    ensures forall line :: Writable(Save(Remove(t), line), lines[..|lines| - 1] + [line])
  {
    RemoveOk(t, lines);
    forall line { SaveOk(Remove(t), lines[..|lines| - 1], line); }
  }

  function Applied(t: Table, e: Edit, ghost lines: seq<int>): Table
    requires Writable(t, lines) && (e.Amend? ==> lines != [])
  {
    match e case Emit(line) => Save(t, line) case Amend(line) => AmendOk(t, lines); Save(Remove(t), line)
  }

  lemma AppliedOk(t: Table, e: Edit, lines: seq<int>)
    requires Writable(t, lines) && (e.Amend? ==> lines != [])
    ensures Writable(Applied(t, e, lines), Edited(lines, e))
  {
    match e { case Emit(line) => SaveOk(t, lines, line); case Amend(_) => AmendOk(t, lines); }
  }

  function AppliedAll(t: Table, es: seq<Edit>, ghost lines: seq<int>): Table
    requires Writable(t, lines) && Legal(|lines|, es)
    decreases |es|
  {
    if es == [] then t
    else AppliedOk(t, es[0], lines); AppliedAll(Applied(t, es[0], lines), es[1..], Edited(lines, es[0]))
  }

  /** After any sequence of edits the table represents the plain array. */
  lemma {:induction false} RunOk(t: Table, es: seq<Edit>, lines: seq<int>)
    requires Writable(t, lines) && Legal(|lines|, es)
    ensures Writable(AppliedAll(t, es, lines), EditedAll(lines, es))
    decreases |es|
  {
    if es == [] {
    } else {
      AppliedOk(t, es[0], lines);
      RunOk(Applied(t, es[0], lines), es[1..], Edited(lines, es[0]));
    }
  }

  /** Removing entries always leaves a table that represents the shorter array. */
  lemma RemoveRepresents(t: Table, lines: seq<int>)
    requires Represents(t, lines) && lines != [] && t.iwthabs > 0
    ensures t.info[|t.info| - 1] == ABSLINEINFO ==> t.abs != []
    ensures Represents(Remove(t), lines[..|lines| - 1])
  {
    var n := |lines| - 1;
    LastIsLatest(t, lines);
    var u := t.(iwthabs := |t.info| - LastAbs(t.abs), previous := LineBefore(t.linedefined, lines, |lines|));
    assert Represents(u, lines) by {
      forall pc | 0 <= pc < |lines| ensures Recorded(u, lines, pc) { assert Recorded(t, lines, pc); }
      forall i | 0 <= i < |t.abs| ensures Checkpoint(u, lines, i) { assert Checkpoint(t, lines, i); }
    }
    RemoveOk(u, lines);
    var v, w, ls := Remove(u), Remove(t), lines[..n];
    forall pc | 0 <= pc < n ensures Recorded(w, ls, pc) { assert Recorded(v, ls, pc); }
    forall i | 0 <= i < |w.abs| ensures Checkpoint(w, ls, i) { assert Checkpoint(v, ls, i); }
  }

  /** An emission after removals records its line if and only if it is absolute or the writer's line
      is the line of the instruction before it. */
  lemma SaveExact(t: Table, lines: seq<int>, line: int)
    requires Represents(t, lines)
    ensures Recorded(Save(t, line), lines + [line], |lines|) <==>
      SavesAbsolute(t, line) || t.previous == LineBefore(t.linedefined, lines, |lines|)
  {
    if SavesAbsolute(t, line) { assert Save(t, line).abs[|t.abs|] == AbsLine(|lines|, line); }
  }

  /** Three removals in a row after lines 1, 2 and 200, which the compiler never makes, would leave a writer
      whose next emission is relative to a line that is no longer there. */
  lemma ThreeRemovalsBreak()
    ensures Remove(Table(0, [1, 1, ABSLINEINFO], [AbsLine(2, 200)], 1, 200)) == Table(0, [1, 1], [], 129, 200)
    ensures Remove(Table(0, [1, 1], [], 129, 200)) == Table(0, [1], [], 128, 199)
    ensures Remove(Table(0, [1], [], 128, 199)) == Table(0, [], [], 127, 198)
    ensures Represents(Table(0, [], [], 127, 198), []) && !Represents(Save(Table(0, [], [], 127, 198), 199), [199])
  {
    var u := Table(0, [], [], 127, 198);
    SaveExact(u, [], 199);
    assert [] + [199] == [199] && !Recorded(Save(u, 199), [199], 0);
  }

  // ------------------------------------------------------------------------------------------
  // The compiler's function state
  // ------------------------------------------------------------------------------------------

  /** The fields of `FuncState` and `Proto` that the line table lives in. The vectors may be longer
      than the parts in use. */
  class FuncState {
    const linedefined: int
    var pc: nat
    var lineinfo: seq<int>
    var abslineinfo: seq<AbsLine>
    var nabslineinfo: nat
    var iwthabs: nat
    var previousline: int
    ghost var lines: seq<int>

    /** The table of the first `n` instructions. */
    ghost function View(n: nat): Table
      requires n <= |lineinfo| && nabslineinfo <= |abslineinfo|
      reads this
    {
      Table(linedefined, lineinfo[..n], abslineinfo[..nabslineinfo], iwthabs, previousline)
    }

    ghost predicate Valid()
      reads this
    {
      pc <= |lineinfo| && nabslineinfo <= |abslineinfo| && |lines| == pc && Writable(View(pc), lines)
    }

    constructor (linedefined: int)
      ensures Valid() && lines == [] && pc == 0
    {
      this.linedefined, previousline := linedefined, linedefined;
      pc, nabslineinfo, iwthabs, lineinfo, abslineinfo, lines := 0, 0, 0, [], [], [];
      new;
      StartOk(linedefined);
    }

    /** `savelineinfo` for the instruction at `pc - 1`. */
    method SaveLineInfo(line: int)
      requires 0 < pc && pc - 1 <= |lineinfo| && nabslineinfo <= |abslineinfo|
      modifies this`lineinfo, this`abslineinfo, this`nabslineinfo, this`iwthabs, this`previousline
      ensures pc <= |lineinfo| && nabslineinfo <= |abslineinfo| && View(pc) == Save(old(View(pc - 1)), line)
    {
      var linedif, at := line - previousline, pc - 1;
      var absolute := Abs(linedif) >= LIMLINEDIFF;
      if !absolute {
        absolute := iwthabs >= MAXIWTHABS;
        iwthabs := iwthabs + 1;
      }
      if absolute {
        abslineinfo := abslineinfo[..nabslineinfo] + [AbsLine(at, line)];
        nabslineinfo := nabslineinfo + 1;
        linedif := ABSLINEINFO;
        iwthabs := 1;
      }
      lineinfo := lineinfo[..at] + [linedif];
      previousline := line;
    }

    /** `removelastlineinfo`. */
    method RemoveLastLineInfo()
      requires Valid() && pc > 0
      modifies this`nabslineinfo, this`iwthabs, this`previousline
      ensures nabslineinfo <= |abslineinfo| && Ok(View(pc - 1), lines[..pc - 1])
    {
      ghost var t := View(pc);
      AmendOk(t, lines);
      RemoveOk(t, lines);
      if lineinfo[pc - 1] != ABSLINEINFO {
        previousline := previousline - lineinfo[pc - 1];
        iwthabs := iwthabs - 1;
      } else {
        nabslineinfo := nabslineinfo - 1;
        iwthabs := MAXIWTHABS + 1;
      }
      assert View(pc - 1) == Remove(t);
    }

    /** `luaK_code`, as far as lines are concerned. */
    method Code(line: int)
      requires Valid()
      modifies this
      ensures Valid() && pc == old(pc) + 1 && lines == Edited(old(lines), Emit(line))
    {
      SaveOk(View(pc), lines, line);
      pc := pc + 1;
      SaveLineInfo(line);
      lines := lines + [line];
    }

    /** `luaK_fixline`. */
    method FixLine(line: int)
      requires Valid() && pc > 0
      modifies this
      ensures Valid() && pc == old(pc) && lines == Edited(old(lines), Amend(line))
    {
      RemoveLastLineInfo();
      SaveOk(View(pc - 1), lines[..pc - 1], line);
      SaveLineInfo(line);
      lines := lines[..pc - 1] + [line];
    }

    /** `removelastinstruction` and the emission that follows it when a condition is inverted. */
    method ReplaceLast(line: int)
      requires Valid() && pc > 0
      modifies this
      ensures Valid() && pc == old(pc) && lines == Edited(old(lines), Amend(line))
    {
      RemoveLastLineInfo();
      pc := pc - 1;
      SaveOk(View(pc), lines[..pc], line);
      pc := pc + 1;
      SaveLineInfo(line);
      lines := lines[..pc - 1] + [line];
    }
  }
}
