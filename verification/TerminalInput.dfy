/** The keyboard queue of a terminal in stage2/dev/tty.c: filled by the keyboard interrupt, emptied by
    the one task that reads the terminal, which sleeps while there is nothing to read. */
module TerminalInput {
  import opened Bytes
  import opened RoundRobin
  import opened Sleepers

  const SIZE := 256


  // ------------------------------------------------------------------------------------------
  // The ring
  // ------------------------------------------------------------------------------------------

  datatype Ring = Ring(cells: seq<Byte>, head: nat, tail: nat)

  predicate RingOk(r: Ring) { |r.cells| == SIZE && r.head < SIZE && r.tail < SIZE }

  function Wrap(i: nat): nat
    requires i < 2 * SIZE
  {
    if i < SIZE then i else i - SIZE
  }

  function Count(r: Ring): (n: nat)
    requires RingOk(r)
    ensures n < SIZE && (n == 0 <==> r.head == r.tail)
  {
    if r.head >= r.tail then r.head - r.tail else r.head + SIZE - r.tail
  }

  /** The characters waiting, oldest first. */
  function Pending(r: Ring): (p: seq<Byte>)
    requires RingOk(r)
    ensures |p| == Count(r) && forall k :: 0 <= k < |p| ==> p[k] == r.cells[Wrap(r.tail + k)]
  {
    seq<Byte>(Count(r), k requires 0 <= k < Count(r) => r.cells[Wrap(r.tail + k)])
  }

  /** `tty_push_input`. */
  function Pushed(r: Ring, c: Byte): Ring
    requires RingOk(r)
  {
    var next := (r.head + 1) % SIZE;
    if next == r.tail then r else Ring(r.cells[r.head := c], next, r.tail)
  }

  /** The last two lines of `tty_pop_input`. */
  function Popped(r: Ring): Ring { r.(tail := (r.tail + 1) % SIZE) }

  /** A character is appended unless 255 are waiting already. */
  lemma PushPending(r: Ring, c: Byte)
    requires RingOk(r)
    ensures RingOk(Pushed(r, c))
    ensures Pending(Pushed(r, c)) == if |Pending(r)| == 255 then Pending(r) else Pending(r) + [c]
    ensures |Pending(r)| <= 255
  {
    var q := Pushed(r, c);
    if Count(r) < SIZE - 1 {
      assert Count(q) == Count(r) + 1;
      assert Wrap(r.tail + Count(r)) == r.head;
      forall k | 0 <= k < Count(q) ensures Pending(q)[k] == (Pending(r) + [c])[k] {
        if k < Count(r) { assert Wrap(r.tail + k) != r.head; }
      }
    }
  }

  lemma PopPending(r: Ring)
    requires RingOk(r) && Pending(r) != []
    ensures RingOk(Popped(r)) && Pending(Popped(r)) == Pending(r)[1..] && Pending(r)[0] == r.cells[r.tail]
  {
    assert Count(Popped(r)) == Count(r) - 1;
    assert Wrap(r.tail + 0) == r.tail;
    forall k | 0 <= k < Count(r) - 1 ensures Pending(Popped(r))[k] == Pending(r)[k + 1] {
      assert Wrap(Popped(r).tail + k) == Wrap(r.tail + (k + 1));
    }
  }

  // ------------------------------------------------------------------------------------------
  // The reader among the other tasks
  // ------------------------------------------------------------------------------------------

  /** The wait key: the terminal's address. */
  const TTY: nat := 0x2

  /** Where the reader stands in `tty_pop_input`. */
  datatype Pc =
    | Idle            // not reading
    | Checking        // interrupts off, about to look at the queue
    | Awake           // back from scheduler_block, interrupts on, about to disable them
    | Found           // the queue was not empty; interrupts on
    | Taken(c: Byte)  // character read, queue not yet advanced

  /** `accepted` are the characters the queue took in, `taken` those the reader got. */
  datatype World = World(s: Sched, tasks: set<Tid>, reader: Tid, pc: Pc, interrupts: bool, ring: Ring,
                         accepted: seq<Byte>, taken: seq<Byte>)

  ghost predicate QueueOk(ring: Ring, pc: Pc, accepted: seq<Byte>, taken: seq<Byte>) {
    && RingOk(ring) && accepted == taken + Pending(ring)
    && (pc.Found? || pc.Taken? ==> Pending(ring) != []) && (pc.Taken? ==> pc.c == ring.cells[ring.tail])
  }

  /** Interrupts are off exactly while the reader looks at the queue. */
  predicate MaskOk(pc: Pc, reader: Tid, current: Tid, interrupts: bool) {
    !interrupts <==> (pc.Checking? && current == reader)
  }

  /** Only the reader sleeps on the terminal, and only while the queue is empty. */
  ghost predicate SleepOk(s: Sched, reader: Tid, pc: Pc, ring: Ring)
    requires RingOk(ring)
  {
    forall t :: Asleep(s, t, TTY) ==> t == reader && pc.Awake? && Pending(ring) == []
  }

  ghost predicate WInv(w: World) {
    && SchedOk(w.s, w.tasks) && w.reader in w.tasks && (w.pc.Checking? ==> w.s.current == w.reader)
    && QueueOk(w.ring, w.pc, w.accepted, w.taken) && MaskOk(w.pc, w.reader, w.s.current, w.interrupts)
    && SleepOk(w.s, w.reader, w.pc, w.ring)
  }

  datatype Move =
    | Look          // CLI
    | Check         // the test, and STI or scheduler_block
    | Retry         // CLI after scheduler_block
    | Fetch         // c = input[tail]
    | Advance       // tail moves on and the character is returned
    | Key(c: Byte)  // keyboard interrupt
    | Timer
    | OtherBlock(key: nat)
    | OtherWake(key: nat)
    | Spawn(t: Tid)
    | Quit(pid: nat)

  /** The reader's moves are enabled while it runs; interrupts come when enabled; the other moves are
      those of any task outside `tty_pop_input`. */
  predicate Enabled(w: World, m: Move) {
    var reading := w.s.current == w.reader;
    match m
    case Look => reading && w.pc.Idle?
    case Check => reading && w.pc.Checking?
    case Retry => reading && w.pc.Awake?
    case Fetch => reading && w.pc.Found?
    case Advance => reading && w.pc.Taken?
    case Key(c) => w.interrupts && c != 0
    case Timer => w.interrupts
    case OtherBlock(key) => key != TTY && w.interrupts && (!reading || w.pc.Idle?)
    case OtherWake(_) => w.interrupts
    case Spawn(t) => w.interrupts && t !in w.s.ring
    case Quit(_) => w.interrupts && (!reading || w.pc.Idle?)
  }

  ghost function Moved(w: World, m: Move): World
    requires WInv(w) && Enabled(w, m)
  {
    match m
    case Look => w.(pc := Checking, interrupts := false)
    case Check =>
      if w.ring.head != w.ring.tail then w.(pc := Found, interrupts := true)
      else w.(pc := Awake, interrupts := true, s := Block(w.s, TTY))
    case Retry => w.(pc := Checking, interrupts := false)
    case Fetch => w.(pc := Taken(w.ring.cells[w.ring.tail]))
    case Advance => w.(pc := Idle, ring := Popped(w.ring), taken := w.taken + [w.pc.c])
    case Key(c) =>
      w.(ring := Pushed(w.ring, c), s := Wake(w.s, TTY),
         accepted := if Count(w.ring) == SIZE - 1 then w.accepted else w.accepted + [c])
    case Timer => w.(s := Tick(w.s))
    case OtherBlock(key) => w.(s := Block(w.s, key))
    case OtherWake(key) => w.(s := Wake(w.s, key))
    case Spawn(t) => w.(s := Create(w.s, t), tasks := w.tasks + {t})
    case Quit(pid) => w.(s := Exit(w.s, pid))
  }

  // ------------------------------------------------------------------------------------------
  // Invariance
  // ------------------------------------------------------------------------------------------

  lemma CheckInv(w: World)
    requires WInv(w) && Enabled(w, Check)
    ensures WInv(Moved(w, Check))
  {
    hide Inv, Block;
    if w.ring.head == w.ring.tail { BlockSleepers(w.s, TTY, w.tasks); }
  }

  lemma AdvanceInv(w: World)
    requires WInv(w) && Enabled(w, Advance)
    ensures WInv(Moved(w, Advance))
  {
    hide Inv, Pending;
    PopPending(w.ring);
    var p := Pending(w.ring);
    assert p == [p[0]] + p[1..];
    assert w.taken + p == w.taken + [p[0]] + p[1..];
    NotAsleep(w.s, w.tasks);
  }

  lemma NotAsleep(s: Sched, tasks: set<Tid>)
    requires SchedOk(s, tasks)
    ensures !Asleep(s, s.current, TTY)
  {
  }

  lemma KeyInv(w: World, c: Byte)
    requires WInv(w) && Enabled(w, Key(c))
    ensures WInv(Moved(w, Key(c)))
  {
    hide Inv, Wake, Pending;
    PushPending(w.ring, c);
    WakeSleepers(w.s, TTY, w.tasks);
    TailKept(w.ring, c);
    var p := Pending(w.ring);
    assert w.taken + (p + [c]) == (w.taken + p) + [c];
  }

  /** A key that arrives does not disturb the oldest character. */
  lemma TailKept(r: Ring, c: Byte)
    requires RingOk(r)
    ensures Pushed(r, c).tail == r.tail && (Pending(r) != [] ==> Pushed(r, c).cells[r.tail] == r.cells[r.tail])
  {
  }

  lemma SchedulerInv(w: World, m: Move)
    requires WInv(w) && Enabled(w, m) && (m.Timer? || m.OtherBlock? || m.OtherWake? || m.Quit?)
    ensures WInv(Moved(w, m))
  {
    hide Inv, Tick, Block, Wake, Exit, Pending;
    match m {
      case Timer => TickSleepers(w.s, w.tasks);
      case OtherBlock(key) => BlockSleepers(w.s, key, w.tasks);
      case OtherWake(key) => WakeSleepers(w.s, key, w.tasks);
      case Quit(pid) => ExitSleepers(w.s, pid, w.tasks);
    }
  }

  lemma MoveInv(w: World, m: Move)
    requires WInv(w) && Enabled(w, m)
    ensures WInv(Moved(w, m))
  {
    hide Inv, Pending;
    match m {
      case Look => NotAsleep(w.s, w.tasks);
      case Check => CheckInv(w);
      case Retry => NotAsleep(w.s, w.tasks);
      case Fetch => NotAsleep(w.s, w.tasks);
      case Advance => AdvanceInv(w);
      case Key(c) => KeyInv(w, c);
      case Timer => SchedulerInv(w, m);
      case OtherBlock(_) => SchedulerInv(w, m);
      case OtherWake(_) => SchedulerInv(w, m);
      case Spawn(t) => CreateSleepers(w.s, t, w.tasks);
      case Quit(_) => SchedulerInv(w, m);
    }
  }

  // ------------------------------------------------------------------------------------------
  // Runs
  // ------------------------------------------------------------------------------------------

  ghost predicate Legal(w: World, ms: seq<Move>)
    requires WInv(w)
    decreases |ms|
  {
    ms == [] || (Enabled(w, ms[0]) && (MoveInv(w, ms[0]); Legal(Moved(w, ms[0]), ms[1..])))
  }

  ghost function Final(w: World, ms: seq<Move>): World
    requires WInv(w) && Legal(w, ms)
    decreases |ms|
  {
    if ms == [] then w else MoveInv(w, ms[0]); Final(Moved(w, ms[0]), ms[1..])
  }

  lemma {:induction false} FinalInv(w: World, ms: seq<Move>)
    requires WInv(w) && Legal(w, ms)
    ensures WInv(Final(w, ms)) && Final(w, ms).reader == w.reader
    decreases |ms|
  {
    if ms != [] {
      MoveInv(w, ms[0]);
      FinalInv(Moved(w, ms[0]), ms[1..]);
    }
  }

  /** A terminal just cleared, at a moment when nobody sleeps on it. */
  ghost predicate Start(w: World) {
    && SchedOk(w.s, w.tasks) && w.reader in w.tasks && w.pc == Idle && w.interrupts && RingOk(w.ring)
    && w.ring.head == w.ring.tail && w.accepted == [] && w.taken == [] && forall t :: !Asleep(w.s, t, TTY)
  }

  /** In every interleaving the reader sleeps on its terminal only while the queue is empty: a key
      that arrives between the test and the sleep is not missed. */
  lemma SleepsOnlyWhenEmpty(w: World, ms: seq<Move>)
    requires Start(w)
    ensures WInv(w)
    ensures Legal(w, ms) ==>
      var f := Final(w, ms);
      RingOk(f.ring) && (Asleep(f.s, f.reader, TTY) ==> Pending(f.ring) == [])
  {
    assert WInv(w);
    if Legal(w, ms) { FinalInv(w, ms); }
  }

  /** And it gets the accepted characters in the order in which they arrived; what it has not got yet is
      still in the queue. */
  lemma TakenInOrder(w: World, ms: seq<Move>)
    requires Start(w)
    ensures WInv(w)
    ensures Legal(w, ms) ==> RingOk(Final(w, ms).ring)
    ensures Legal(w, ms) ==> Accepted(w, ms) == Final(w, ms).taken + Pending(Final(w, ms).ring)
  {
    assert WInv(w);
    if Legal(w, ms) {
      FinalInv(w, ms);
      AcceptedIs(w, ms);
    }
  }

  /** The characters that arrived, without those that came while 255 were waiting. */
  ghost function Accepted(w: World, ms: seq<Move>): seq<Byte>
    requires WInv(w) && Legal(w, ms)
    decreases |ms|
  {
    if ms == [] then []
    else
      MoveInv(w, ms[0]);
      (if ms[0].Key? && |Pending(w.ring)| < 255 then [ms[0].c] else []) + Accepted(Moved(w, ms[0]), ms[1..])
  }

  lemma {:induction false} AcceptedIs(w: World, ms: seq<Move>)
    requires WInv(w) && Legal(w, ms)
    ensures Final(w, ms).accepted == w.accepted + Accepted(w, ms)
    decreases |ms|
  {
    hide WInv, Moved, Enabled, Pending;
    if ms != [] {
      MoveInv(w, ms[0]);
      AcceptedStep(w, ms[0]);
      AcceptedIs(Moved(w, ms[0]), ms[1..]);
    }
  }

  lemma AcceptedStep(w: World, m: Move)
    requires WInv(w) && Enabled(w, m)
    ensures Moved(w, m).accepted == w.accepted + if m.Key? && |Pending(w.ring)| < 255 then [m.c] else []
  {
  }

  lemma LegalCons(w: World, m: Move, ms: seq<Move>)
    requires WInv(w) && Enabled(w, m) && WInv(Moved(w, m)) && Legal(Moved(w, m), ms)
    ensures Legal(w, [m] + ms) && Final(w, [m] + ms) == Final(Moved(w, m), ms)
  {
    assert ([m] + ms)[1..] == ms;
  }

  /** A reader that begins, or comes back from its sleep, gets the oldest waiting character in four moves. */
  lemma ReaderGets(w: World, m: Move)
    requires WInv(w) && m in {Look, Retry} && Enabled(w, m) && Pending(w.ring) != []
    ensures var ms := [m, Check, Fetch, Advance];
      && Legal(w, ms) && RingOk(Final(w, ms).ring)
      && Final(w, ms).taken == w.taken + [Pending(w.ring)[0]] && Pending(Final(w, ms).ring) == Pending(w.ring)[1..]
      && Final(w, ms).pc == Idle && Final(w, ms).interrupts && Final(w, ms).s == w.s
  {
    hide WInv, Pending;
    RingOf(w);
    MoveInv(w, m);
    var w1 := Moved(w, m);
    MoveInv(w1, Check);
    var w2 := Moved(w1, Check);
    MoveInv(w2, Fetch);
    var w3 := Moved(w2, Fetch);
    MoveInv(w3, Advance);
    var w4 := Moved(w3, Advance);
    PopPending(w.ring);
    LegalCons(w3, Advance, []);
    LegalCons(w2, Fetch, [Advance]);
    LegalCons(w1, Check, [Fetch, Advance]);
    LegalCons(w, m, [Check, Fetch, Advance]);
    assert [m] + [Check, Fetch, Advance] == [m, Check, Fetch, Advance];
    assert [Check] + [Fetch, Advance] == [Check, Fetch, Advance] && [Fetch] + [Advance] == [Fetch, Advance];
    assert [Advance] + [] == [Advance];
  }

  lemma RingOf(w: World)
    requires WInv(w)
    ensures RingOk(w.ring) && (Pending(w.ring) == [] <==> w.ring.head == w.ring.tail)
  {
  }

  /** A key makes a sleeping reader ready. */
  lemma KeyWakes(w: World, c: Byte)
    requires WInv(w) && Enabled(w, Key(c))
    ensures Asleep(w.s, w.reader, TTY) ==> Waiting(Moved(w, Key(c)).s, w.reader)
    ensures forall t :: !Asleep(Moved(w, Key(c)).s, t, TTY)
  {
    hide Pending, Pushed;
    WakeSleepers(w.s, TTY, w.tasks);
    NotAsleep(w.s, w.tasks);
  }

  /** With nothing in the queue the reader sleeps, and another task runs, if there is one that can. */
  lemma ReaderSleeps(w: World, m: Move)
    requires WInv(w) && m in {Look, Retry} && Enabled(w, m) && Pending(w.ring) == []
    ensures Legal(w, [m, Check]) && Final(w, [m, Check]).pc == Awake && Final(w, [m, Check]).interrupts
    ensures var t := Final(w, [m, Check]);
      (exists u :: u in w.s.ring && u != w.s.current && Runnable(w.s.status, u)) ==>
        Asleep(t.s, w.reader, TTY) && t.s.current != w.reader
  {
    hide WInv, Pending;
    RingOf(w);
    MoveInv(w, m);
    var w1 := Moved(w, m);
    MoveInv(w1, Check);
    LegalCons(w1, Check, []);
    LegalCons(w, m, [Check]);
    assert [m] + [Check] == [m, Check] && [Check] + [] == [Check];
    SchedOf(w);
    BlockRuns(w.s, TTY);
  }

  lemma SchedOf(w: World)
    requires WInv(w)
    ensures Inv(w.s)
  {
  }

  // ------------------------------------------------------------------------------------------
  // The scheduler underneath
  // ------------------------------------------------------------------------------------------

  /** What a move is to the scheduler. */
  ghost function StepOf(w: World, m: Move): seq<Step>
    requires WInv(w) && Enabled(w, m)
  {
    match m
    case Check => if w.ring.head == w.ring.tail then [DoBlock(TTY)] else []
    case Key(_) => [DoWake(TTY)]
    case Timer => [DoTick]
    case OtherBlock(key) => [DoBlock(key)]
    case OtherWake(key) => [DoWake(key)]
    case Spawn(t) => [DoCreate(t)]
    case Quit(pid) => [DoExit(pid)]
    case _ => []
  }

  lemma MoveSteps(w: World, m: Move)
    requires WInv(w) && Enabled(w, m)
    ensures Run(w.s, StepOf(w, m)) && After(w.s, StepOf(w, m)) == Moved(w, m).s
  {
    hide Tick, Block, Wake, Exit, Create, Others, IndexOf, Skip, Pending;
    var steps := StepOf(w, m);
    if steps != [] {
      assert steps == [steps[0]] && steps[1..] == [] && Allowed(w.s, steps[0]);
      RunCons(w.s, steps[0], []);
      assert [steps[0]] + [] == steps;
    }
  }

  ghost function StepsOf(w: World, ms: seq<Move>): seq<Step>
    requires WInv(w) && Legal(w, ms)
    decreases |ms|
  {
    if ms == [] then [] else MoveInv(w, ms[0]); StepOf(w, ms[0]) + StepsOf(Moved(w, ms[0]), ms[1..])
  }

  /** Every interleaving is a run of the scheduler. */
  lemma {:induction false} RunsProject(w: World, ms: seq<Move>)
    requires WInv(w) && Legal(w, ms)
    ensures Run(w.s, StepsOf(w, ms)) && After(w.s, StepsOf(w, ms)) == Final(w, ms).s
    decreases |ms|
  {
    hide WInv, Moved, Enabled, StepOf;
    if ms != [] {
      MoveInv(w, ms[0]);
      MoveSteps(w, ms[0]);
      RunsProject(Moved(w, ms[0]), ms[1..]);
      RunAppend(w.s, StepOf(w, ms[0]), StepsOf(Moved(w, ms[0]), ms[1..]));
    }
  }

  /** A reader asleep when a key arrives is chosen again within as many scheduling calls as there are other
      tasks, plus one per task created meanwhile. */
  lemma ReaderRunsAgain(w: World, c: Byte, ms: seq<Move>)
    requires WInv(w) && Enabled(w, Key(c)) && Asleep(w.s, w.reader, TTY)
    requires WInv(Moved(w, Key(c))) && Legal(Moved(w, Key(c)), ms)
    requires var u := Moved(w, Key(c));
      CountSchedules(StepsOf(u, ms)) >= |u.s.ring| - 1 + CountCreates(StepsOf(u, ms))
    ensures var u := Moved(w, Key(c)); Run(u.s, StepsOf(u, ms)) && Chosen(u.s, StepsOf(u, ms), w.reader)
  {
    hide Wake, Others, IndexOf, Skip, Pending, Pushed;
    var u := Moved(w, Key(c));
    RunsProject(u, ms);
    KeyWakes(w, c);
    if !Chosen(u.s, StepsOf(u, ms), w.reader) {
      WaitingDistance(u.s, w.reader);
      NotChosen(u.s, StepsOf(u, ms), w.reader);
    }
  }

  // ------------------------------------------------------------------------------------------
  // The code
  // ------------------------------------------------------------------------------------------

  class InputQueue {
    var input: array<Byte>
    var head: nat
    var tail: nat

    ghost predicate Valid()
      reads this
    {
      input.Length == SIZE && head < SIZE && tail < SIZE
    }

    ghost function View(): Ring
      reads this, input
    {
      Ring(input[..], head, tail)
    }

    constructor ()
      ensures Valid() && fresh(input) && Pending(View()) == []
    {
      input := new Byte[SIZE](_ => 0);
      head, tail := 0, 0;
    }

    method Push(c: Byte)
      requires Valid()
      modifies this`head, input
      ensures Valid() && View() == Pushed(old(View()), c)
      ensures Pending(View()) == if |old(Pending(View()))| == SIZE - 1 then old(Pending(View()))
        else old(Pending(View())) + [c]
    {
      PushPending(View(), c);
      var next := (head + 1) % SIZE;
      if next == tail { return; }
      input[head] := c;
      head := next;
    }

    method Take() returns (c: Byte)
      requires Valid() && Pending(View()) != []
      modifies this`tail
      ensures Valid() && View() == Popped(old(View()))
      ensures old(Pending(View())) == [c] + Pending(View())
    {
      PopPending(View());
      ghost var p := Pending(View());
      c := input[tail];
      tail := (tail + 1) % SIZE;
      assert p == [p[0]] + p[1..];
    }
  }
}
