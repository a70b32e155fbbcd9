/** The round-robin scheduler of stage2/scheduler.c: the circular task list, timer ticks, blocking
    and waking on keys, and the guarantee that a ready task is chosen in time. */
module RoundRobin {
  type Tid = nat

  /** Task states as in `task_state_t`. */
  datatype Status = Ready | Running | Blocked | Exited

  /** The circular list in list order from the idle task on, and what the control blocks hold. */
  datatype Sched = Sched(ring: seq<Tid>, status: map<Tid, Status>, key: map<Tid, nat>, current: Tid)

  predicate NoDup(xs: seq<Tid>) { forall i, j :: 0 <= i < j < |xs| ==> xs[i] != xs[j] }

  /** The list holds each task once, the current task is one of them, and no other task is running. */
  ghost predicate Inv(s: Sched) {
    && NoDup(s.ring) && s.current in s.ring
    && (forall t :: t in s.ring ==> t in s.status && t in s.key)
    && (forall t :: t in s.ring && s.status[t] == Running ==> t == s.current)
  }

  function IndexOf(xs: seq<Tid>, t: Tid): (i: nat)
    ensures i <= |xs| && (i < |xs| ==> xs[i] == t) && (t in xs ==> i < |xs|)
  {
    if xs == [] then 0 else if xs[0] == t then 0 else 1 + IndexOf(xs[1..], t)
  }

  lemma IndexIs(xs: seq<Tid>, i: nat)
    requires NoDup(xs) && i < |xs|
    ensures IndexOf(xs, xs[i]) == i
  {
    var k := IndexOf(xs, xs[i]);
    assert xs[i] in xs;
  }

  /** The other tasks, in the order in which the list is walked from position `p`. */
  function Others(ring: seq<Tid>, p: nat): (xs: seq<Tid>)
    requires p < |ring|
    ensures |xs| == |ring| - 1
    ensures forall k :: 0 <= k < |xs| ==>
      xs[k] == if p + 1 + k < |ring| then ring[p + 1 + k] else ring[p + 1 + k - |ring|]
  {
    ring[p + 1..] + ring[..p]
  }

  predicate Runnable(status: map<Tid, Status>, t: Tid) { t in status && (status[t] == Ready || status[t] == Running) }

  /** How many tasks are skipped. */
  function Skip(xs: seq<Tid>, status: map<Tid, Status>): (k: nat)
    ensures k <= |xs| && (k < |xs| ==> Runnable(status, xs[k])) && forall i :: 0 <= i < k ==> !Runnable(status, xs[i])
  {
    if xs == [] || Runnable(status, xs[0]) then 0 else 1 + Skip(xs[1..], status)
  }

  predicate Placed(s: Sched) { s.current in s.ring && s.current in s.status }

  function Queue(s: Sched): seq<Tid>
    requires Placed(s)
  {
    Others(s.ring, IndexOf(s.ring, s.current))
  }

  /** `scheduler_schedule`. */
  function Schedule(s: Sched): Sched
    requires Placed(s)
  {
    var xs := Queue(s);
    var k := Skip(xs, s.status);
    if k < |xs| then s.(current := xs[k], status := s.status[xs[k] := Running])
    else if s.status[s.current] == Blocked then s.(status := s.status[s.current := Running])
    else s
  }

  /** `scheduler_tick`. */
  function Tick(s: Sched): Sched
    requires Placed(s)
  {
    Schedule(if s.status[s.current] == Running then s.(status := s.status[s.current := Ready]) else s)
  }

  /** `scheduler_block`, up to the point where the next task runs. */
  function Block(s: Sched, key: nat): Sched
    requires Placed(s)
  {
    Schedule(s.(status := s.status[s.current := Blocked], key := s.key[s.current := key]))
  }

  /** `scheduler_wake`; the null key wakes nobody. */
  function Wake(s: Sched, key: nat): Sched
    requires forall t :: t in s.ring ==> t in s.status && t in s.key
  {
    if key == 0 then s
    else s.(status := map t | t in s.status ::
              if t in s.ring && s.status[t] == Blocked && s.key[t] == key then Ready else s.status[t])
  }

  /** A new task goes right behind the idle task. */
  function Create(s: Sched, t: Tid): Sched
    requires s.ring != []
  {
    s.(ring := [s.ring[0], t] + s.ring[1..], status := s.status[t := Ready], key := s.key[t := 0])
  }

  /** `scheduler_exit_current` and `task_exit`: the exiting one stays current until the next tick. */
  function Exit(s: Sched, pid: nat): Sched
    requires Placed(s) && forall t :: t in s.ring ==> t in s.status && t in s.key
  {
    if s.ring[0] == s.current then s else Wake(s.(status := s.status[s.current := Exited]), pid)
  }

  datatype Step =
    | DoTick
    | DoBlock(key: nat)
    | DoWake(key: nat)
    | DoCreate(t: Tid)
    | DoExit(pid: nat)

  ghost predicate Allowed(s: Sched, step: Step) { step.DoCreate? ==> step.t !in s.ring }

  ghost function Do(s: Sched, step: Step): Sched
    requires Inv(s)
  {
    match step
    case DoTick => Tick(s)
    case DoBlock(key) => Block(s, key)
    case DoWake(key) => Wake(s, key)
    case DoCreate(t) => Create(s, t)
    case DoExit(pid) => Exit(s, pid)
  }

  // ------------------------------------------------------------------------------------------
  // Invariants
  // ------------------------------------------------------------------------------------------

  /** The queue is everybody else. */
  lemma QueueIs(s: Sched, t: Tid)
    requires NoDup(s.ring) && Placed(s)
    ensures t in Queue(s) <==> t in s.ring && t != s.current
    ensures NoDup(Queue(s))
  {
    var p, xs := IndexOf(s.ring, s.current), Queue(s);
    if t in s.ring && t != s.current {
      var i :| 0 <= i < |s.ring| && s.ring[i] == t;
      assert xs[if i > p then i - p - 1 else i - p - 1 + |s.ring|] == t;
    }
    if t in xs {
      var k :| 0 <= k < |xs| && xs[k] == t;
      var i := if p + 1 + k < |s.ring| then p + 1 + k else p + 1 + k - |s.ring|;
      assert s.ring[i] == t;
    }
  }

  lemma ScheduleInv(s: Sched)
    requires Inv(s) && s.status[s.current] != Running
    ensures Inv(Schedule(s)) && Schedule(s).ring == s.ring && Schedule(s).key == s.key
  {
    var k := Skip(Queue(s), s.status);
    if k < |Queue(s)| { QueueIs(s, Queue(s)[k]); }
  }

  lemma CreateInv(s: Sched, t: Tid)
    requires Inv(s) && t !in s.ring
    ensures Inv(Create(s, t))
  {
    var r := Create(s, t).ring;
    forall i | 0 <= i < |r| ensures r[i] == if i == 0 then s.ring[0] else if i == 1 then t else s.ring[i - 1] {}
    assert s.ring[0] in s.ring;
    forall x | x in r ensures x == t || x in s.ring {}
    forall x | x in s.ring ensures x in r {
      var i :| 0 <= i < |s.ring| && s.ring[i] == x;
      assert r[if i == 0 then 0 else i + 1] == x;
    }
  }

  /** Every step keeps the list one cycle with each task once, and at most the current task running. */
  lemma DoInv(s: Sched, step: Step)
    requires Inv(s) && Allowed(s, step)
    ensures Inv(Do(s, step))
    ensures Do(s, step).ring == if step.DoCreate? then Create(s, step.t).ring else s.ring
  {
    match step {
      case DoTick =>
        ScheduleInv(if s.status[s.current] == Running then s.(status := s.status[s.current := Ready]) else s);
      case DoBlock(key) => ScheduleInv(s.(status := s.status[s.current := Blocked], key := s.key[s.current := key]));
      case DoWake(key) =>
      case DoCreate(t) => CreateInv(s, t);
      case DoExit(pid) =>
    }
  }

  /** An exited task changes state only if it itself goes on to block. */
  lemma ExitedStays(s: Sched, step: Step, t: Tid)
    requires Inv(s) && Allowed(s, step) && t in s.ring && s.status[t] == Exited
    ensures t in Do(s, step).status
    ensures Do(s, step).status[t] == Exited <==> !(step.DoBlock? && s.current == t)
  {
    match step {
      case DoTick =>
      case DoBlock(key) =>
        if s.current == t { BlockedAfter(s, key); }
      case DoWake(key) =>
      case DoCreate(t') =>
      case DoExit(pid) =>
    }
  }

  /** So any task but idle can undo its own exit by blocking. */
  lemma ExitUndone(s: Sched, pid: nat, key: nat)
    requires Inv(s) && s.current != s.ring[0]
    ensures Inv(Do(s, DoExit(pid))) && Do(s, DoExit(pid)).current == s.current
    ensures Do(s, DoExit(pid)).status[s.current] == Exited
    ensures var t := Do(Do(s, DoExit(pid)), DoBlock(key)); s.current in t.status && t.status[s.current] != Exited
  {
    DoInv(s, DoExit(pid));
    ExitedStays(Do(s, DoExit(pid)), DoBlock(key), s.current);
  }

  lemma BlockedAfter(s: Sched, key: nat)
    requires Inv(s)
    ensures s.current in Block(s, key).status && Block(s, key).status[s.current] in {Blocked, Running}
  {
    var u := s.(status := s.status[s.current := Blocked], key := s.key[s.current := key]);
    var k := Skip(Queue(u), u.status);
    if k < |Queue(u)| { QueueIs(u, Queue(u)[k]); }
  }

  /** A task that blocks is left blocked on its key if another one takes over. */
  lemma BlockRuns(s: Sched, key: nat)
    requires Inv(s)
    ensures var u := Block(s, key);
      && u.ring == s.ring && u.key == s.key[s.current := key] && s.current in u.status
      && (u.current != s.current ==>
           u.status[s.current] == Blocked && u.current in s.ring && u.status[u.current] == Running)
      && (u.current == s.current ==> u.status[s.current] == Running)
      && (u.current != s.current <==> exists x :: x in s.ring && x != s.current && Runnable(s.status, x))
  {
    var v := s.(status := s.status[s.current := Blocked], key := s.key[s.current := key]);
    var k := Skip(Queue(v), v.status);
    if k < |Queue(v)| {
      QueueIs(v, Queue(v)[k]);
      assert Runnable(s.status, Queue(v)[k]);
    } else {
      forall x | x in s.ring && x != s.current ensures !Runnable(s.status, x) { QueueIs(v, x); }
    }
  }

  /** A task created while idle runs is the next to run. */
  lemma NewestNext(s: Sched, t: Tid)
    requires Inv(s) && s.current == s.ring[0] && t !in s.ring
    ensures Inv(Create(s, t)) && Tick(Create(s, t)).current == t && Block(Create(s, t), 0).current == t
  {
    CreateInv(s, t);
    var u := Create(s, t);
    var v := u.(status := u.status[u.current := Ready]);
    var w := u.(status := u.status[u.current := Blocked], key := u.key[u.current := 0]);
    assert u.ring[0] == s.current && u.ring[1] == t;
    IndexIs(u.ring, 0);
    assert Queue(u)[0] == Queue(v)[0] == Queue(w)[0] == t;
    SkipNone(Queue(u), u.status);
    SkipNone(Queue(v), v.status);
    SkipNone(Queue(w), w.status);
  }

  lemma SkipNone(xs: seq<Tid>, status: map<Tid, Status>)
    requires xs != [] && Runnable(status, xs[0])
    ensures Skip(xs, status) == 0
  {
  }

  // ------------------------------------------------------------------------------------------
  // No starvation
  // ------------------------------------------------------------------------------------------

  /** How many tasks the walk meets before `t`. */
  function Distance(s: Sched, t: Tid): nat
    requires Placed(s)
  {
    IndexOf(Queue(s), t)
  }

  /** `t` is ready and waits for its turn. */
  ghost predicate Waiting(s: Sched, t: Tid) { Inv(s) && t in s.ring && t != s.current && s.status[t] == Ready }

  lemma DistanceIs(s: Sched, t: Tid, k: nat)
    requires NoDup(s.ring) && Placed(s) && k < |Queue(s)| && Queue(s)[k] == t
    ensures Distance(s, t) == k
  {
    QueueIs(s, t);
    IndexIs(Queue(s), k);
  }

  lemma PositionIs(s: Sched, i: nat)
    requires NoDup(s.ring) && i < |s.ring| && s.ring[i] == s.current && Placed(s)
    ensures Queue(s) == Others(s.ring, i)
  {
    IndexIs(s.ring, i);
  }

  /** Where the walk's `k`th task sits in the list. */
  function Place(ring: seq<Tid>, p: nat, k: nat): (q: nat)
    requires p < |ring| && k < |ring| - 1
    ensures q < |ring| && Others(ring, p)[k] == ring[q]
  {
    if p + 1 + k < |ring| then p + 1 + k else p + 1 + k - |ring|
  }

  /** Walking on from the `k`th task, the `j`th comes `k + 1` tasks earlier. */
  lemma WalkOn(ring: seq<Tid>, p: nat, k: nat, j: nat)
    requires p < |ring| && k < j < |ring| - 1
    ensures Others(ring, Place(ring, p, k))[j - k - 1] == Others(ring, p)[j]
  {
  }

  /** Either `t` is chosen or it has come closer. */
  lemma ScheduleCloser(s: Sched, t: Tid)
    requires Waiting(s, t) && s.status[s.current] != Running
    ensures Schedule(s).current == t || (Waiting(Schedule(s), t) && Distance(Schedule(s), t) < Distance(s, t))
  {
    hide Others, NoDup;
    var u, k, j, p := Schedule(s), Skip(Queue(s), s.status), Distance(s, t), IndexOf(s.ring, s.current);
    QueueIs(s, t);
    ScheduleInv(s);
    assert k <= j;
    if k < j {
      PositionIs(u, Place(s.ring, p, k));
      WalkOn(s.ring, p, k, j);
      DistanceIs(u, t, j - k - 1);
    }
  }

  /** The distance from position `p` to position `i`. */
  function Ahead(n: nat, p: nat, i: nat): (k: nat)
    requires p < n && i < n && p != i
    ensures k < n - 1
  {
    if i > p then i - p - 1 else i - p - 1 + n
  }

  lemma AheadIs(s: Sched, p: nat, i: nat)
    requires NoDup(s.ring) && Placed(s) && p < |s.ring| && i < |s.ring| && p != i && s.ring[p] == s.current
    ensures Distance(s, s.ring[i]) == Ahead(|s.ring|, p, i)
  {
    PositionIs(s, p);
    DistanceIs(s, s.ring[i], Ahead(|s.ring|, p, i));
  }

  /** A new task can be put in front of `t` at most once. */
  lemma CreateDistance(s: Sched, x: Tid, t: Tid)
    requires Waiting(s, t) && x !in s.ring
    ensures Waiting(Create(s, x), t) && Distance(Create(s, x), t) <= Distance(s, t) + 1
  {
    hide Distance, NoDup;
    CreateInv(s, x);
    var u, p, i := Create(s, x), IndexOf(s.ring, s.current), IndexOf(s.ring, t);
    var p', i' := if p == 0 then 0 else p + 1, if i == 0 then 0 else i + 1;
    assert u.ring[p'] == s.current && u.ring[i'] == t && |u.ring| == |s.ring| + 1;
    AheadIs(u, p', i');
    AheadIs(s, p, i);
  }

  predicate Schedules(step: Step) { step.DoTick? || step.DoBlock? }

  /** The measure: every scheduling call lowers it, and only a new task can raise it, by one. */
  lemma DoCloser(s: Sched, step: Step, t: Tid)
    requires Waiting(s, t) && Allowed(s, step)
    ensures Do(s, step).current == t || (Waiting(Do(s, step), t)
      && Distance(Do(s, step), t) <= Distance(s, t) + (if step.DoCreate? then 1 else 0)
        - (if Schedules(step) then 1 else 0))
  {
    match step {
      case DoTick => TickCloser(s, t);
      case DoBlock(key) => BlockCloser(s, key, t);
      case DoWake(key) => WakeDistance(s, key, t);
      case DoCreate(x) => CreateDistance(s, x, t);
      case DoExit(pid) => ExitDistance(s, pid, t);
    }
  }

  lemma TickCloser(s: Sched, t: Tid)
    requires Waiting(s, t)
    ensures Tick(s).current == t || (Waiting(Tick(s), t) && Distance(Tick(s), t) < Distance(s, t))
  {
    hide Schedule, Skip, IndexOf, Others;
    ScheduleCloser(if s.status[s.current] == Running then s.(status := s.status[s.current := Ready]) else s, t);
  }

  lemma BlockCloser(s: Sched, key: nat, t: Tid)
    requires Waiting(s, t)
    ensures Block(s, key).current == t || (Waiting(Block(s, key), t) && Distance(Block(s, key), t) < Distance(s, t))
  {
    hide Schedule, Skip, IndexOf, Others;
    ScheduleCloser(s.(status := s.status[s.current := Blocked], key := s.key[s.current := key]), t);
  }

  lemma WakeDistance(s: Sched, key: nat, t: Tid)
    requires Waiting(s, t)
    ensures Waiting(Wake(s, key), t) && Distance(Wake(s, key), t) == Distance(s, t)
  {
    hide IndexOf, Others;
  }

  lemma ExitDistance(s: Sched, pid: nat, t: Tid)
    requires Waiting(s, t)
    ensures Waiting(Exit(s, pid), t) && Distance(Exit(s, pid), t) == Distance(s, t)
  {
    hide IndexOf, Others;
  }

  ghost predicate Run(s: Sched, steps: seq<Step>)
    decreases |steps|
  {
    steps == [] || (Inv(s) && Allowed(s, steps[0]) && Run(Do(s, steps[0]), steps[1..]))
  }

  /** `t` is not the current task at any point of the run. */
  ghost predicate NeverCurrent(s: Sched, steps: seq<Step>, t: Tid)
    requires Run(s, steps)
    decreases |steps|
  {
    s.current != t && (steps == [] || NeverCurrent(Do(s, steps[0]), steps[1..], t))
  }

  function CountSchedules(steps: seq<Step>): nat {
    if steps == [] then 0 else (if Schedules(steps[0]) then 1 else 0) + CountSchedules(steps[1..])
  }

  function CountCreates(steps: seq<Step>): nat {
    if steps == [] then 0 else (if steps[0].DoCreate? then 1 else 0) + CountCreates(steps[1..])
  }

  lemma {:induction false} PassedOver(s: Sched, steps: seq<Step>, t: Tid)
    requires Waiting(s, t) && Run(s, steps) && NeverCurrent(s, steps, t)
    ensures CountSchedules(steps) <= Distance(s, t) + CountCreates(steps)
    decreases |steps|
  {
    if steps != [] {
      DoCloser(s, steps[0], t);
      PassedOver(Do(s, steps[0]), steps[1..], t);
    }
  }

  /** A ready task is chosen at the latest by the scheduling call whose number is the length of the
      list minus one plus the number of tasks created meanwhile. */
  lemma NoStarvation(s: Sched, steps: seq<Step>, t: Tid)
    requires Waiting(s, t) && Run(s, steps)
    requires CountSchedules(steps) >= |s.ring| - 1 + CountCreates(steps)
    ensures !NeverCurrent(s, steps, t)
  {
    if NeverCurrent(s, steps, t) {
      QueueIs(s, t);
      PassedOver(s, steps, t);
    }
  }

  // ------------------------------------------------------------------------------------------
  // Nobody is lost
  // ------------------------------------------------------------------------------------------

  /** Task `t` gives up being runnable: it is current and blocks or exits. */
  predicate Leaves(s: Sched, step: Step, t: Tid) { t == s.current && (step.DoBlock? || step.DoExit?) }

  /** A runnable task stays runnable through every step but its own blocking and exit. */
  lemma RunnableStays(s: Sched, step: Step, t: Tid)
    requires Inv(s) && Allowed(s, step) && t in s.ring && Runnable(s.status, t) && !Leaves(s, step, t)
    ensures t in Do(s, step).ring && Runnable(Do(s, step).status, t)
  {
    hide Others, IndexOf, Skip;
    DoInv(s, step);
    if step.DoCreate? { CreateKeeps(s, step.t, t); }
  }

  lemma CreateKeeps(s: Sched, x: Tid, t: Tid)
    requires s.ring != [] && t in s.ring
    ensures t in Create(s, x).ring
  {
    var i :| 0 <= i < |s.ring| && s.ring[i] == t;
    assert Create(s, x).ring[if i == 0 then 0 else i + 1] == t;
  }

  /** Only a scheduling call changes the current task. */
  lemma CurrentStays(s: Sched, step: Step)
    requires Inv(s) && !Schedules(step)
    ensures Do(s, step).current == s.current
  {
  }

  /** A task whose turn ends by a tick is ready for the next one. */
  lemma TickReady(s: Sched, t: Tid)
    requires Inv(s) && t == s.current && Runnable(s.status, t)
    ensures Tick(s).current == t || Waiting(Tick(s), t)
  {
    hide Others, IndexOf, Skip;
    DoInv(s, DoTick);
  }

  /** Some scheduling call of the run chooses `t`. */
  ghost predicate Chosen(s: Sched, steps: seq<Step>, t: Tid)
    requires Run(s, steps)
    decreases |steps|
  {
    steps != [] &&
      ((Schedules(steps[0]) && Do(s, steps[0]).current == t) || Chosen(Do(s, steps[0]), steps[1..], t))
  }

  /** `t` neither blocks nor exits during the run. */
  ghost predicate Persists(s: Sched, steps: seq<Step>, t: Tid)
    requires Run(s, steps)
    decreases |steps|
  {
    steps == [] || (!Leaves(s, steps[0], t) && Persists(Do(s, steps[0]), steps[1..], t))
  }

  lemma {:induction false} NotChosen(s: Sched, steps: seq<Step>, t: Tid)
    requires Waiting(s, t) && Run(s, steps) && !Chosen(s, steps, t)
    ensures CountSchedules(steps) <= Distance(s, t) + CountCreates(steps)
    decreases |steps|
  {
    hide Do, Distance, Inv;
    if steps != [] {
      DoCloser(s, steps[0], t);
      if !Schedules(steps[0]) { CurrentStays(s, steps[0]); }
      NotChosen(Do(s, steps[0]), steps[1..], t);
    }
  }

  lemma {:induction false} CurrentReturns(s: Sched, steps: seq<Step>, t: Tid)
    requires Inv(s) && t in s.ring && t == s.current && Runnable(s.status, t) && Run(s, steps) && Persists(s, steps, t)
    requires CountSchedules(steps) >= |s.ring| + CountCreates(steps)
    ensures Chosen(s, steps, t)
    decreases |steps|
  {
    hide Inv, Distance, Tick;
    assert steps != [];
    var u := Do(s, steps[0]);
    DoInv(s, steps[0]);
    RunnableStays(s, steps[0], t);
    if !Schedules(steps[0]) {
      CurrentStays(s, steps[0]);
      CurrentReturns(u, steps[1..], t);
    } else if u.current != t {
      TickReady(s, t);
      if !Chosen(u, steps[1..], t) {
        WaitingDistance(u, t);
        NotChosen(u, steps[1..], t);
      }
    }
  }

  lemma WaitingDistance(s: Sched, t: Tid)
    requires Waiting(s, t)
    ensures Distance(s, t) <= |s.ring| - 2
  {
    QueueIs(s, t);
  }

  /** A task that neither blocks nor exits is chosen in every window of as many scheduling calls as the
      list is long plus the tasks created meanwhile, also if it is current at the start. */
  lemma AlwaysAgain(s: Sched, steps: seq<Step>, t: Tid)
    requires Inv(s) && t in s.ring && Runnable(s.status, t) && Run(s, steps) && Persists(s, steps, t)
    requires CountSchedules(steps) >= |s.ring| + CountCreates(steps)
    ensures Chosen(s, steps, t)
  {
    if t == s.current {
      CurrentReturns(s, steps, t);
    } else if !Chosen(s, steps, t) {
      WaitingDistance(s, t);
      NotChosen(s, steps, t);
    }
  }

  /** The list grows by exactly the tasks created. */
  lemma {:induction false} ListGrows(s: Sched, steps: seq<Step>)
    requires Inv(s) && Run(s, steps)
    ensures |After(s, steps).ring| == |s.ring| + CountCreates(steps)
    decreases |steps|
  {
    if steps != [] {
      DoInv(s, steps[0]);
      ListGrows(Do(s, steps[0]), steps[1..]);
    }
  }

  lemma {:induction false} RunInv(s: Sched, steps: seq<Step>)
    requires Inv(s) && Run(s, steps)
    ensures Inv(After(s, steps)) && After(s, steps).ring[0] == s.ring[0]
    decreases |steps|
  {
    if steps != [] {
      DoInv(s, steps[0]);
      RunInv(Do(s, steps[0]), steps[1..]);
    }
  }

  /** That happens after boot: a task is created, chosen by a tick, exits and blocks, and is then not
      exited any more. */
  lemma ExitUndoneAfterBoot(idle: Tid, t: Tid, pid: nat, key: nat) returns (steps: seq<Step>)
    requires t != idle
    ensures var s := Sched([idle], map[idle := Running], map[idle := 0], idle);
      && Inv(s) && |steps| == 4 && Run(s, steps) && steps[2] == DoExit(pid) && steps[3] == DoBlock(key)
      && Run(s, steps[..3]) && After(s, steps[..3]).current == t && t in After(s, steps[..3]).status
      && After(s, steps[..3]).status[t] == Exited
      && t in After(s, steps).status && After(s, steps).status[t] != Exited
  {
    var s0 := Sched([idle], map[idle := Running], map[idle := 0], idle);
    var s1 := Do(s0, DoCreate(t));
    DoInv(s0, DoCreate(t));
    var s2 := Do(s1, DoTick);
    DoInv(s1, DoTick);
    FirstTick(idle, t);
    ExitUndone(s2, pid, key);
    var s3 := Do(s2, DoExit(pid));
    DoInv(s3, DoBlock(key));
    steps := [DoCreate(t), DoTick, DoExit(pid), DoBlock(key)];
    RunOfFour(s0, steps[0], steps[1], steps[2], steps[3]);
  }

  lemma FirstTick(idle: Tid, t: Tid)
    requires t != idle
    ensures var s1 := Create(Sched([idle], map[idle := Running], map[idle := 0], idle), t);
      Placed(s1) && Tick(s1).current == t && Tick(s1).ring == [idle, t]
  {
    var s1 := Create(Sched([idle], map[idle := Running], map[idle := 0], idle), t);
    assert s1.ring == [idle, t];
    var u := s1.(status := s1.status[idle := Ready]);
    IndexIs(s1.ring, 0);
    assert Queue(u) == [t];
    assert Runnable(u.status, t);
    assert Skip(Queue(u), u.status) == 0;
  }

  lemma RunOfFour(s: Sched, a: Step, b: Step, c: Step, d: Step)
    requires Inv(s) && Allowed(s, a) && Inv(Do(s, a)) && Allowed(Do(s, a), b) && Inv(Do(Do(s, a), b))
    requires Allowed(Do(Do(s, a), b), c) && Inv(Do(Do(Do(s, a), b), c)) && Allowed(Do(Do(Do(s, a), b), c), d)
    requires Inv(Do(Do(Do(Do(s, a), b), c), d))
    ensures Run(s, [a, b, c, d]) && After(s, [a, b, c, d]) == Do(Do(Do(Do(s, a), b), c), d)
    ensures Run(s, [a, b, c, d][..3]) && After(s, [a, b, c, d][..3]) == Do(Do(Do(s, a), b), c)
  {
    hide Do, Inv, Allowed;
    var s1, s2, s3 := Do(s, a), Do(Do(s, a), b), Do(Do(Do(s, a), b), c);
    RunCons(s3, d, []);
    RunCons(s2, c, [d]);
    RunCons(s1, b, [c, d]);
    RunCons(s, a, [b, c, d]);
    RunCons(s2, c, []);
    RunCons(s1, b, [c]);
    RunCons(s, a, [b, c]);
    assert [a, b, c, d][..3] == [a] + [b, c] && [a, b, c, d] == [a] + [b, c, d];
    assert [b, c, d] == [b] + [c, d] && [b, c] == [b] + [c] && [c, d] == [c] + [d] && [c] == [c] + []
      && [d] == [d] + [];
  }

  lemma {:induction false} RunAppend(s: Sched, a: seq<Step>, b: seq<Step>)
    requires Run(s, a) && Run(After(s, a), b)
    ensures Run(s, a + b) && After(s, a + b) == After(After(s, a), b)
    decreases |a|
  {
    hide Do, Allowed, Inv;
    if a == [] {
      assert a + b == b;
    } else {
      RunAppend(Do(s, a[0]), a[1..], b);
      assert (a + b)[1..] == a[1..] + b;
    }
  }

  lemma RunCons(s: Sched, a: Step, rest: seq<Step>)
    requires Inv(s) && Allowed(s, a) && Run(Do(s, a), rest)
    ensures Run(s, [a] + rest) && After(s, [a] + rest) == After(Do(s, a), rest)
  {
    assert ([a] + rest)[1..] == rest;
  }

  ghost function After(s: Sched, steps: seq<Step>): Sched
    requires Run(s, steps)
    decreases |steps|
  {
    if steps == [] then s else After(Do(s, steps[0]), steps[1..])
  }
}
