/** The sleeping lock around disk transfers in stage2/dev/disk.c, run by any number of tasks under the
    scheduler, with the timer interrupting wherever interrupts are enabled. */
module DiskLock {
  import opened RoundRobin
  import opened Sleepers

  /** The wait key of the lock: the address of `disk_mutex`. */
  const LOCK: nat := 0x1

  /** Where a task stands in `disk_lock` and `disk_unlock`. */
  datatype Pc =
    | Outside   // not using the disk
    | Testing   // interrupts off, about to test the mutex
    | Waiting   // back from scheduler_block, interrupts on, about to disable them again
    | Claimed   // mutex set, interrupts still off
    | Holding   // between lock and unlock
    | Clearing  // in unlock, interrupts off, mutex still set
    | Waking    // mutex cleared, waiters not yet woken
    | Leaving   // waiters woken, interrupts still off

  datatype World = World(s: Sched, mutex: bool, pc: map<Tid, Pc>, interrupts: bool)

  /** The lock belongs to a task at one of these points. */
  predicate Owns(p: Pc) { p.Claimed? || p.Holding? || p.Clearing? }

  /** Points that a task reaches only with interrupts off. */
  predicate Masked(p: Pc) { p.Testing? || p.Claimed? || p.Clearing? || p.Waking? || p.Leaving? }

  /** The mutex is set exactly when a task owns the lock, and there is only one owner. */
  ghost predicate OneOwner(pc: map<Tid, Pc>, mutex: bool) {
    && (forall t, u :: t in pc && u in pc && Owns(pc[t]) && Owns(pc[u]) ==> t == u)
    && (mutex <==> exists t :: t in pc && Owns(pc[t]))
  }

  /** Interrupts are off exactly while the current task stands at a masked point; no other does. */
  ghost predicate MaskOk(pc: map<Tid, Pc>, current: Tid, interrupts: bool) {
    && current in pc && (!interrupts ==> Masked(pc[current]))
    && forall t :: t in pc && Masked(pc[t]) ==> t == current && !interrupts
  }

  /** Who sleeps on the lock came from the loop in `disk_lock`, and the lock is held or about to be
      announced as free. */
  ghost predicate SleepOk(s: Sched, pc: map<Tid, Pc>, mutex: bool)
    requires s.current in pc
  {
    forall t :: Asleep(s, t, LOCK) ==> t in pc && pc[t].Waiting? && (mutex || pc[s.current].Waking?)
  }

  ghost predicate WInv(w: World) {
    && SchedOk(w.s, w.pc.Keys) && OneOwner(w.pc, w.mutex) && MaskOk(w.pc, w.s.current, w.interrupts)
    && SleepOk(w.s, w.pc, w.mutex)
  }

  datatype Move =
    | Enter            // CLI at the start of disk_lock
    | Test             // the loop test, and scheduler_block or the claim
    | Again            // CLI after scheduler_block
    | Enable           // STI at the end of disk_lock
    | Release          // CLI in disk_unlock
    | Clear            // disk_mutex = 0
    | WakeAll          // scheduler_wake
    | Leave            // STI at the end of disk_unlock
    | Timer
    | OtherBlock(key: nat)
    | OtherWake(key: nat)
    | Spawn(t: Tid)
    | Quit(pid: nat)
  {
    /** Is this a step of disk_lock or disk_unlock? */
    predicate OfLock() { !Timer? && !OtherBlock? && !OtherWake? && !Spawn? && !Quit? }
  }

  /** What the current task, or an interrupt, may do next. */
  ghost predicate Enabled(w: World, m: Move)
    requires WInv(w)
  {
    var p := w.pc[w.s.current];
    match m
    case Enter => p.Outside?
    case Test => p.Testing?
    case Again => p.Waiting?
    case Enable => p.Claimed?
    case Release => p.Holding?
    case Clear => p.Clearing?
    case WakeAll => p.Waking?
    case Leave => p.Leaving?
    case Timer => w.interrupts
    case OtherBlock(key) => key != LOCK && (p.Outside? || p.Holding?)
    case OtherWake(_) => w.interrupts
    case Spawn(t) => t !in w.s.ring && w.interrupts
    case Quit(_) => p.Outside?
  }

  /** The current task moves to `p`. */
  function At(w: World, p: Pc): World { w.(pc := w.pc[w.s.current := p]) }

  /** A switch ends with interrupts enabled, whichever task it resumes. */
  ghost function Moved(w: World, m: Move): World
    requires WInv(w) && Enabled(w, m)
  {
    match m
    case Enter => At(w, Testing).(interrupts := false)
    case Test =>
      if w.mutex then At(w, Waiting).(s := Block(w.s, LOCK), interrupts := true) else At(w, Claimed).(mutex := true)
    case Again => At(w, Testing).(interrupts := false)
    case Enable => At(w, Holding).(interrupts := true)
    case Release => At(w, Clearing).(interrupts := false)
    case Clear => At(w, Waking).(mutex := false)
    case WakeAll => At(w, Leaving).(s := Wake(w.s, LOCK))
    case Leave => At(w, Outside).(interrupts := true)
    case Timer => w.(s := Tick(w.s))
    case OtherBlock(key) => w.(s := Block(w.s, key))
    case OtherWake(key) => w.(s := Wake(w.s, key))
    case Spawn(t) => w.(s := Create(w.s, t), pc := w.pc[t := Outside])
    case Quit(pid) => w.(s := Exit(w.s, pid))
  }

  // ------------------------------------------------------------------------------------------
  // Invariance
  // ------------------------------------------------------------------------------------------

  /** The current task moves from one point to another. */
  lemma OwnerMoves(pc: map<Tid, Pc>, mutex: bool, c: Tid, p: Pc, mutex': bool)
    requires OneOwner(pc, mutex) && c in pc
    requires if Owns(p) then mutex' && (mutex ==> Owns(pc[c])) else mutex' == (mutex && !Owns(pc[c]))
    ensures OneOwner(pc[c := p], mutex')
  {
    var q := pc[c := p];
    if mutex' && !Owns(p) { var t :| t in pc && Owns(pc[t]); assert t in q && Owns(q[t]); }
    if Owns(p) { assert Owns(q[c]); }
  }

  lemma LocalInv(w: World, p: Pc, mutex: bool, interrupts: bool)
    requires WInv(w) && interrupts == !Masked(p) && !p.Waking? && !w.pc[w.s.current].Waking?
    requires mutex == w.mutex || (mutex && Owns(p))
    requires OneOwner(w.pc[w.s.current := p], mutex)
    ensures WInv(World(w.s, mutex, w.pc[w.s.current := p], interrupts))
  {
    var q := w.pc[w.s.current := p];
    assert q.Keys == w.pc.Keys;
    forall t | t in q && t != w.s.current ensures q[t] == w.pc[t] {}
    forall t | Asleep(w.s, t, LOCK) ensures t in q && q[t].Waiting? && mutex {}
  }

  lemma TestInv(w: World)
    requires WInv(w) && Enabled(w, Test)
    ensures WInv(Moved(w, Test))
  {
    hide Block;
    var c := w.s.current;
    if w.mutex {
      var q := w.pc[c := Waiting];
      assert q.Keys == w.pc.Keys;
      BlockSleepers(w.s, LOCK, w.pc.Keys);
      OwnerMoves(w.pc, w.mutex, c, Waiting, w.mutex);
      CurrentIn(Block(w.s, LOCK), q.Keys);
    } else {
      OwnerMoves(w.pc, w.mutex, c, Claimed, true);
      LocalInv(w, Claimed, true, false);
    }
  }

  lemma ClearInv(w: World)
    requires WInv(w) && Enabled(w, Clear)
    ensures WInv(Moved(w, Clear))
  {
    var c := w.s.current;
    var q := w.pc[c := Waking];
    assert q.Keys == w.pc.Keys;
    assert w.mutex && Owns(w.pc[c]);
    forall t | t in q ensures !Owns(q[t]) { if t != c { assert q[t] == w.pc[t]; } }
  }

  /** After unlock nobody sleeps on the lock. */
  lemma WakeAllInv(w: World)
    requires WInv(w) && Enabled(w, WakeAll)
    ensures WInv(Moved(w, WakeAll)) && forall t :: !Asleep(Moved(w, WakeAll).s, t, LOCK)
    ensures forall t :: Asleep(w.s, t, LOCK) && t != w.s.current ==> RoundRobin.Waiting(Moved(w, WakeAll).s, t)
  {
    var c := w.s.current;
    WakeSleepers(w.s, LOCK, w.pc.Keys);
    OwnerMoves(w.pc, w.mutex, c, Leaving, w.mutex);
    assert w.pc[c := Leaving].Keys == w.pc.Keys;
  }

  lemma SchedulerInv(w: World, m: Move)
    requires WInv(w) && Enabled(w, m) && (m.Timer? || m.OtherBlock? || m.OtherWake? || m.Quit?)
    ensures WInv(Moved(w, m))
  {
    hide Inv, Tick, Block, Wake, Exit;
    var v := Moved(w, m);
    match m {
      case Timer => TickSleepers(w.s, w.pc.Keys);
      case OtherBlock(key) => BlockSleepers(w.s, key, w.pc.Keys);
      case OtherWake(key) => WakeSleepers(w.s, key, w.pc.Keys);
      case Quit(pid) => ExitSleepers(w.s, pid, w.pc.Keys);
    }
    CurrentIn(v.s, w.pc.Keys);
  }

  lemma SpawnInv(w: World, t: Tid)
    requires WInv(w) && Enabled(w, Spawn(t))
    ensures WInv(Moved(w, Spawn(t)))
  {
    hide Inv, Create;
    CreateSleepers(w.s, t, w.pc.Keys);
    var q := w.pc[t := Outside];
    assert q.Keys == w.pc.Keys + {t} && t !in w.pc;
    assert OneOwner(q, w.mutex) by {
      if w.mutex { var u :| u in w.pc && Owns(w.pc[u]); assert u in q && Owns(q[u]); }
    }
  }

  /** Every move of every task and every interrupt keeps the invariant. */
  lemma MoveInv(w: World, m: Move)
    requires WInv(w) && Enabled(w, m)
    ensures WInv(Moved(w, m))
  {
    hide Inv, OneOwner, SleepOk;
    var c := w.s.current;
    match m {
      case Enter => OwnerMoves(w.pc, w.mutex, c, Testing, w.mutex); LocalInv(w, Testing, w.mutex, false);
      case Test => TestInv(w);
      case Again => OwnerMoves(w.pc, w.mutex, c, Testing, w.mutex); LocalInv(w, Testing, w.mutex, false);
      case Enable =>
        SetWhenOwned(w, c);
        OwnerMoves(w.pc, w.mutex, c, Holding, w.mutex);
        LocalInv(w, Holding, w.mutex, true);
      case Release =>
        SetWhenOwned(w, c);
        OwnerMoves(w.pc, w.mutex, c, Clearing, w.mutex);
        LocalInv(w, Clearing, w.mutex, false);
      case Clear => ClearInv(w);
      case WakeAll => WakeAllInv(w);
      case Leave => OwnerMoves(w.pc, w.mutex, c, Outside, w.mutex); LocalInv(w, Outside, w.mutex, true);
      case Timer => SchedulerInv(w, m);
      case OtherBlock(_) => SchedulerInv(w, m);
      case OtherWake(_) => SchedulerInv(w, m);
      case Spawn(t) => SpawnInv(w, t);
      case Quit(_) => SchedulerInv(w, m);
    }
  }

  lemma SetWhenOwned(w: World, t: Tid)
    requires WInv(w) && t in w.pc && Owns(w.pc[t])
    ensures w.mutex
  {
  }

  // ------------------------------------------------------------------------------------------
  // Runs
  // ------------------------------------------------------------------------------------------

  ghost predicate Legal(w: World, ms: seq<Move>)
    requires WInv(w)
    decreases |ms|
  {
    ms == [] || (Enabled(w, ms[0]) && (MoveInv(w, ms[0]); Legal(Moved(w, ms[0]), ms[1..])))
  }

  ghost function Final(w: World, ms: seq<Move>): World
    requires WInv(w) && Legal(w, ms)
    decreases |ms|
  {
    if ms == [] then w else MoveInv(w, ms[0]); Final(Moved(w, ms[0]), ms[1..])
  }

  lemma {:induction false} FinalInv(w: World, ms: seq<Move>)
    requires WInv(w) && Legal(w, ms)
    ensures WInv(Final(w, ms))
    decreases |ms|
  {
    if ms != [] {
      MoveInv(w, ms[0]);
      FinalInv(Moved(w, ms[0]), ms[1..]);
    }
  }

  /** The machine just booted: one task, the lock free. */
  ghost function Boot(t: Tid): (w: World)
    ensures WInv(w) && w.s.current == t && w.s.status[t] == Running && Enabled(w, Enter) && !w.mutex
  {
    World(Sched([t], map[t := Running], map[t := 0], t), false, map[t := Outside], true)
  }

  /** In every interleaving at most one task is between lock and unlock. */
  lemma MutualExclusion(boot: Tid, ms: seq<Move>, t: Tid, u: Tid)
    requires Legal(Boot(boot), ms)
    ensures var w := Final(Boot(boot), ms);
      t in w.pc && u in w.pc && w.pc[t].Holding? && w.pc[u].Holding? ==> t == u
  {
    FinalInv(Boot(boot), ms);
  }

  /** A task sleeps on the lock only while some task owns it, or has just given it up and, with
      interrupts off, is about to wake all sleepers. */
  lemma NoLostWakeup(boot: Tid, ms: seq<Move>, t: Tid)
    requires Legal(Boot(boot), ms)
    ensures var w := Final(Boot(boot), ms);
      Asleep(w.s, t, LOCK) ==>
        if w.interrupts then w.mutex && exists u :: u in w.pc && Owns(w.pc[u])
        else w.mutex || (w.s.current in w.pc && w.pc[w.s.current].Waking?)
  {
    FinalInv(Boot(boot), ms);
  }

  // ------------------------------------------------------------------------------------------
  // Taking and giving back
  // ------------------------------------------------------------------------------------------

  lemma LegalCons(w: World, m: Move, ms: seq<Move>)
    requires WInv(w) && Enabled(w, m) && WInv(Moved(w, m)) && Legal(Moved(w, m), ms)
    ensures Legal(w, [m] + ms) && Final(w, [m] + ms) == Final(Moved(w, m), ms)
  {
    assert ([m] + ms)[1..] == ms;
  }

  /** The task is between lock and unlock, with interrupts enabled, and the lock is taken. */
  predicate HasLock(w: World) {
    w.s.current in w.pc && w.pc[w.s.current].Holding? && w.mutex && w.interrupts
  }

  /** A task at the start of `disk_lock`, or woken from its loop, gets a free lock at once. */
  lemma FreeLockTaken(w: World, m: Move)
    requires WInv(w) && !w.mutex && m in {Enter, Again} && Enabled(w, m)
    ensures Legal(w, [m, Test, Enable]) && HasLock(Final(w, [m, Test, Enable]))
    ensures Final(w, [m, Test, Enable]) == w.(pc := w.pc[w.s.current := Holding], mutex := true, interrupts := true)
  {
    hide WInv;
    MoveInv(w, m);
    var w1 := Moved(w, m);
    assert w1.s == w.s && Enabled(w1, Test);
    MoveInv(w1, Test);
    var w2 := Moved(w1, Test);
    MoveInv(w2, Enable);
    var w3 := Moved(w2, Enable);
    assert w3.pc == w.pc[w.s.current := Holding];
    LegalCons(w2, Enable, []);
    LegalCons(w1, Test, [Enable]);
    LegalCons(w, m, [Test, Enable]);
    assert [m] + [Test, Enable] == [m, Test, Enable] && [Test] + [Enable] == [Test, Enable];
    assert [Enable] + [] == [Enable];
  }

  /** A taken lock makes it wait, with interrupts enabled and without the lock: it sleeps, and another
      task runs, if there is one that can. */
  lemma TakenLockWaits(w: World, m: Move)
    requires WInv(w) && w.mutex && m in {Enter, Again} && Enabled(w, m)
    ensures Legal(w, [m, Test])
    ensures var t := Final(w, [m, Test]); t.mutex && t.interrupts && t.pc == w.pc[w.s.current := Waiting]
    ensures var t := Final(w, [m, Test]);
      (exists u :: u in w.s.ring && u != w.s.current && Runnable(w.s.status, u)) ==>
        Asleep(t.s, w.s.current, LOCK) && t.s.current != w.s.current
  {
    hide WInv;
    MoveInv(w, m);
    var w1 := Moved(w, m);
    assert w1.s == w.s && Enabled(w1, Test);
    MoveInv(w1, Test);
    var w2 := Moved(w1, Test);
    assert w2.pc == w.pc[w.s.current := Waiting];
    LegalCons(w1, Test, []);
    LegalCons(w, m, [Test]);
    assert [m] + [Test] == [m, Test] && [Test] + [] == [Test];
    BlockedOn(w, LOCK);
  }

  lemma BlockedOn(w: World, key: nat)
    requires WInv(w)
    ensures var s := Block(w.s, key);
      (exists u :: u in w.s.ring && u != w.s.current && Runnable(w.s.status, u)) ==>
        Asleep(s, w.s.current, key) && s.current != w.s.current
  {
    BlockedAfter(w.s, key);
    BlockRuns(w.s, key);
  }

  lemma GivesBack(w: World) returns (w1: World, w2: World, w3: World)
    requires WInv(w) && Enabled(w, Release)
    ensures w1 == Moved(w, Release) && WInv(w1) && Enabled(w1, Clear)
    ensures w2 == Moved(w1, Clear) && WInv(w2) && Enabled(w2, WakeAll)
    ensures w3 == Moved(w2, WakeAll) && WInv(w3) && Enabled(w3, Leave)
    ensures WInv(Moved(w3, Leave))
    ensures Moved(w3, Leave) == World(Wake(w.s, LOCK), false, w.pc[w.s.current := Outside], true)
    ensures forall t :: !Asleep(Wake(w.s, LOCK), t, LOCK)
  {
    hide Wake, Inv;
    MoveInv(w, Release);
    w1 := Moved(w, Release);
    MoveInv(w1, Clear);
    w2 := Moved(w1, Clear);
    WakeAllInv(w2);
    w3 := Moved(w2, WakeAll);
    assert w3.s.current == w.s.current;
    MoveInv(w3, Leave);
    assert Moved(w3, Leave).pc == w.pc[w.s.current := Outside];
  }

  /** Whoever holds the lock gives it up: afterwards it is free and nobody sleeps on it. */
  lemma LockGivenBack(w: World)
    requires WInv(w) && Enabled(w, Release)
    ensures Legal(w, [Release, Clear, WakeAll, Leave])
    ensures Final(w, [Release, Clear, WakeAll, Leave])
      == World(Wake(w.s, LOCK), false, w.pc[w.s.current := Outside], true)
    ensures forall t :: !Asleep(Wake(w.s, LOCK), t, LOCK)
  {
    hide WInv;
    hide WInv, Moved, Enabled, Asleep, Wake;
    var w1, w2, w3 := GivesBack(w);
    LegalCons(w3, Leave, []);
    LegalCons(w2, WakeAll, [Leave]);
    LegalCons(w1, Clear, [WakeAll, Leave]);
    LegalCons(w, Release, [Clear, WakeAll, Leave]);
    assert [Release] + [Clear, WakeAll, Leave] == [Release, Clear, WakeAll, Leave];
    assert [Clear] + [WakeAll, Leave] == [Clear, WakeAll, Leave] && [WakeAll] + [Leave] == [WakeAll, Leave];
    assert [Leave] + [] == [Leave];
  }

  // ------------------------------------------------------------------------------------------
  // The scheduler underneath
  // ------------------------------------------------------------------------------------------

  /** What a move is to the scheduler. */
  ghost function StepOf(w: World, m: Move): seq<Step>
    requires WInv(w) && Enabled(w, m)
  {
    match m
    case Test => if w.mutex then [DoBlock(LOCK)] else []
    case WakeAll => [DoWake(LOCK)]
    case Timer => [DoTick]
    case OtherBlock(key) => [DoBlock(key)]
    case OtherWake(key) => [DoWake(key)]
    case Spawn(t) => [DoCreate(t)]
    case Quit(pid) => [DoExit(pid)]
    case _ => []
  }

  lemma MoveSteps(w: World, m: Move)
    requires WInv(w) && Enabled(w, m)
    ensures Run(w.s, StepOf(w, m)) && After(w.s, StepOf(w, m)) == Moved(w, m).s
  {
    hide Tick, Block, Wake, Exit, Create, Others, IndexOf, Skip;
    var steps := StepOf(w, m);
    if steps != [] {
      assert steps == [steps[0]] && steps[1..] == [] && Allowed(w.s, steps[0]);
      RunCons(w.s, steps[0], []);
      assert [steps[0]] + [] == steps;
    }
  }

  /** A move changes the point of the current task only; a new task begins outside. */
  lemma MovePoints(w: World, m: Move, t: Tid)
    requires WInv(w) && Enabled(w, m)
    ensures t in w.pc && (t != w.s.current || !m.OfLock()) ==> t in Moved(w, m).pc && Moved(w, m).pc[t] == w.pc[t]
    ensures t !in w.pc && t in Moved(w, m).pc ==> m == Spawn(t) && Moved(w, m).pc[t] == Outside
  {
  }

  ghost function StepsOf(w: World, ms: seq<Move>): seq<Step>
    requires WInv(w) && Legal(w, ms)
    decreases |ms|
  {
    if ms == [] then [] else MoveInv(w, ms[0]); StepOf(w, ms[0]) + StepsOf(Moved(w, ms[0]), ms[1..])
  }

  /** Every interleaving is a run of the scheduler, so that what is proved about its runs holds here. */
  lemma {:induction false} RunsProject(w: World, ms: seq<Move>)
    requires WInv(w) && Legal(w, ms)
    ensures Run(w.s, StepsOf(w, ms)) && After(w.s, StepsOf(w, ms)) == Final(w, ms).s
    decreases |ms|
  {
    hide WInv, Moved, Enabled, StepOf;
    if ms != [] {
      MoveInv(w, ms[0]);
      MoveSteps(w, ms[0]);
      RunsProject(Moved(w, ms[0]), ms[1..]);
      RunAppend(w.s, StepOf(w, ms[0]), StepsOf(Moved(w, ms[0]), ms[1..]));
    }
  }

  /** Whoever sleeps on the lock when it is given up is chosen again within as many scheduling calls as
      there are other tasks, plus one per task created meanwhile. */
  lemma WaiterRunsAgain(w: World, ms: seq<Move>, t: Tid)
    requires WInv(w) && Enabled(w, WakeAll) && Asleep(w.s, t, LOCK)
    requires WInv(Moved(w, WakeAll)) && Legal(Moved(w, WakeAll), ms)
    requires var u := Moved(w, WakeAll);
      CountSchedules(StepsOf(u, ms)) >= |u.s.ring| - 1 + CountCreates(StepsOf(u, ms))
    ensures var u := Moved(w, WakeAll); Run(u.s, StepsOf(u, ms)) && Chosen(u.s, StepsOf(u, ms), t)
  {
    hide Wake, Others, IndexOf, Skip;
    var u := Moved(w, WakeAll);
    RunsProject(u, ms);
    WakeAllInv(w);
    assert t != w.s.current;
    if !Chosen(u.s, StepsOf(u, ms), t) {
      WaitingDistance(u.s, t);
      NotChosen(u.s, StepsOf(u, ms), t);
    }
  }
}
