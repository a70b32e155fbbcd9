/** The linked task list of stage2/scheduler.c, changed in place; every method performs the step that
    `RoundRobin` describes. */
module TaskList {
  import opened RoundRobin

  function Succ(n: nat, i: nat): nat
    requires i < n
  {
    if i + 1 < n then i + 1 else 0
  }

  /** Following `next` from the idle task visits `ring` and closes the circle. */
  predicate Linked(next: map<Tid, Tid>, ring: seq<Tid>) {
    forall i :: 0 <= i < |ring| ==> ring[i] in next && next[ring[i]] == ring[Succ(|ring|, i)]
  }

  lemma OthersStep(ring: seq<Tid>, p: nat, k: nat)
    requires p < |ring| && k < |ring|
    ensures var q := if k == 0 then p else Place(ring, p, k - 1);
      (if k < |ring| - 1 then Others(ring, p)[k] else ring[p]) == ring[Succ(|ring|, q)]
  {
  }

  /** One step along the list is one step along the queue. */
  lemma NextInQueue(next: map<Tid, Tid>, s: Sched, k: nat)
    requires Linked(next, s.ring) && NoDup(s.ring) && Placed(s) && k <= |Queue(s)|
    ensures var xs := Queue(s) + [s.current];
      var from := if k == 0 then s.current else xs[k - 1];
      from in next && next[from] == xs[k]
  {
    hide IndexOf, NoDup, Others;
    var p, n := IndexOf(s.ring, s.current), |s.ring|;
    var q := if k == 0 then p else Place(s.ring, p, k - 1);
    assert next[s.ring[q]] == s.ring[Succ(n, q)];
    OthersStep(s.ring, p, k);
  }

  lemma SkipIs(xs: seq<Tid>, status: map<Tid, Status>, k: nat)
    requires k <= |xs| && (forall i :: 0 <= i < k ==> !Runnable(status, xs[i]))
      && (k < |xs| ==> Runnable(status, xs[k]))
    ensures Skip(xs, status) == k
  {
  }

  lemma PlacedIn(s: Sched)
    requires Inv(s)
    ensures NoDup(s.ring) && Placed(s)
  {
  }

  /** What waking on `k` makes of one task. */
  function Woken(s: Sched, k: nat, t: Tid): Status
    requires t in s.status && t in s.key
  {
    if s.status[t] == Blocked && s.key[t] == k then Ready else s.status[t]
  }

  /** The first `i` tasks of the list have been looked at. */
  ghost predicate WokenTo(s: Sched, status: map<Tid, Status>, k: nat, i: nat)
    requires Inv(s)
  {
    && status.Keys == s.status.Keys
    && (forall j :: 0 <= j < |s.ring| ==>
         status[s.ring[j]] == if j < i then Woken(s, k, s.ring[j]) else s.status[s.ring[j]])
    && (forall t :: t in s.status && t !in s.ring ==> status[t] == s.status[t])
  }

  lemma WokenStart(s: Sched, k: nat)
    requires Inv(s)
    ensures WokenTo(s, s.status, k, 0)
  {
  }

  lemma InTables(s: Sched, status: map<Tid, Status>, k: nat, i: nat)
    requires Inv(s) && WokenTo(s, status, k, i) && i < |s.ring|
    ensures s.ring[i] in status && s.ring[i] in s.key
  {
  }

  lemma WokenStep(s: Sched, status: map<Tid, Status>, k: nat, i: nat)
    requires Inv(s) && WokenTo(s, status, k, i) && i < |s.ring| && s.ring[i] in status && s.ring[i] in s.key
    ensures var t := s.ring[i];
      WokenTo(s, if status[t] == Blocked && s.key[t] == k then status[t := Ready] else status, k, i + 1)
  {
  }

  /** The link of the last task, and only that one, leads back to the first. */
  lemma FollowLink(next: map<Tid, Tid>, ring: seq<Tid>, i: nat)
    requires Linked(next, ring) && NoDup(ring) && i < |ring|
    ensures ring[i] in next
    ensures if i == |ring| - 1 then next[ring[i]] == ring[0] else next[ring[i]] == ring[i + 1] != ring[0]
  {
  }

  lemma WokenAll(s: Sched, status: map<Tid, Status>, k: nat)
    requires Inv(s) && WokenTo(s, status, k, |s.ring|) && k != 0
    ensures s.(status := status) == Wake(s, k) && Inv(Wake(s, k))
  {
    DoInv(s, DoWake(k));
    forall t | t in status ensures status[t] == Wake(s, k).status[t] {
      if t in s.ring { var j :| 0 <= j < |s.ring| && s.ring[j] == t; }
    }
  }

  class Scheduler {
    var next: map<Tid, Tid>
    var status: map<Tid, Status>
    var key: map<Tid, nat>
    var current: Tid
    const idle: Tid
    ghost var ring: seq<Tid>

    ghost function View(): Sched
      reads this
    {
      Sched(ring, status, key, current)
    }

    ghost predicate Valid()
      reads this
    {
      Inv(View()) && ring[0] == idle && Linked(next, ring)
    }

    /** `scheduler_init`: what runs at boot is from now on the idle task, alone in the list. */
    constructor (boot: Tid)
      ensures Valid() && View() == Sched([boot], map[boot := Running], map[boot := 0], boot)
    {
      idle, current, ring := boot, boot, [boot];
      next, status, key := map[boot := boot], map[boot := Running], map[boot := 0];
    }

    /** The walk of `scheduler_schedule` along the list. */
    method FindNext() returns (t: Tid)
      requires Valid()
      ensures var xs := Queue(View()); t == (xs + [current])[Skip(xs, status)]
    {
      hide Others, Skip, IndexOf, Inv;
      ghost var s := View();
      assert NoDup(s.ring) && Placed(s) by { PlacedIn(s); }
      ghost var xs, k := Queue(s), 0;
      NextInQueue(next, s, 0);
      t := next[current];
      while t != current && !Runnable(status, t)
        invariant 0 <= k <= |xs| && t == (xs + [current])[k]
        invariant forall i :: 0 <= i < k ==> !Runnable(status, xs[i])
        decreases |xs| - k
      {
        NextInQueue(next, s, k + 1);
        t := next[t];
        k := k + 1;
      }
      QueueIs(s, s.current);
      SkipIs(xs, status, k);
    }

    /** `scheduler_schedule`. */
    method ScheduleNext()
      requires Valid() && status[current] != Running
      modifies this`current, this`status
      ensures Valid() && View() == Schedule(old(View()))
    {
      hide Others, Skip, IndexOf, NoDup;
      ghost var s := View();
      var t := FindNext();
      QueueIs(s, t);
      ScheduleInv(s);
      if t != current {
        current := t;
        status := status[t := Running];
      } else if status[current] == Blocked {
        status := status[current := Running];
      }
    }

    /** `scheduler_tick`. */
    method TickTimer()
      requires Valid()
      modifies this`current, this`status
      ensures Valid() && View() == Tick(old(View()))
    {
      if status[current] == Running {
        status := status[current := Ready];
      }
      ScheduleNext();
    }

    /** `scheduler_block`. */
    method BlockOn(k: nat)
      requires Valid()
      modifies this`current, this`status, this`key
      ensures Valid() && View() == Block(old(View()), k)
    {
      key := key[current := k];
      status := status[current := Blocked];
      ScheduleNext();
    }

    /** `scheduler_wake`. */
    method WakeKey(k: nat)
      requires Valid()
      modifies this`status
      ensures Valid() && View() == Wake(old(View()), k)
    {
      if k != 0 {
        WakeAll(k);
      }
    }

    /** The walk of `scheduler_wake` along the whole list. */
    method WakeAll(k: nat)
      requires Valid() && k != 0
      modifies this`status
      ensures Valid() && View() == Wake(old(View()), k)
    {
      hide Inv, WokenTo, Wake, Linked, NoDup;
      ghost var s, i := View(), 0;
      PlacedIn(s);
      WokenStart(s, k);
      var t := idle;
      while true
        invariant 0 <= i < |ring| && t == ring[i] && WokenTo(s, status, k, i)
        decreases |ring| - i
      {
        InTables(s, status, k, i);
        WokenStep(s, status, k, i);
        if status[t] == Blocked && key[t] == k {
          status := status[t := Ready];
        }
        FollowLink(next, ring, i);
        t := next[t];
        if t == idle { break; }
        i := i + 1;
      }
      WokenAll(s, status, k);
    }

    /** The list insertion of `create_task`, `create_user_task_from_segments` and `fork_current`. */
    method InsertTask(t: Tid)
      requires Valid() && t !in ring
      modifies this`next, this`status, this`key, this`ring
      ensures Valid() && View() == Create(old(View()), t)
    {
      CreateInv(View(), t);
      status, key := status[t := Ready], key[t := 0];
      next := next[t := next[idle]];
      next := next[idle := t];
      ring := [ring[0], t] + ring[1..];
      forall i | 0 <= i < |ring| ensures ring[i] in next && next[ring[i]] == ring[Succ(|ring|, i)] {
        InsertedLink(old(next), old(ring), t, i);
      }
    }

    /** `scheduler_exit_current`. */
    method ExitCurrent(pid: nat)
      requires Valid()
      modifies this`status
      ensures Valid() && View() == Exit(old(View()), pid)
    {
      if current == idle { return; }
      status := status[current := Exited];
      WakeKey(pid);
    }
  }

  lemma InsertedLink(next: map<Tid, Tid>, ring: seq<Tid>, t: Tid, i: nat)
    requires ring != [] && Linked(next, ring) && NoDup(ring) && t !in ring && i < |ring| + 1
    ensures var r, m := [ring[0], t] + ring[1..], next[t := next[ring[0]]][ring[0] := t];
      r[i] in m && m[r[i]] == r[Succ(|r|, i)]
  {
    var r := [ring[0], t] + ring[1..];
    if i >= 2 {
      assert r[i] == ring[i - 1] && ring[i - 1] in ring && ring[i - 1] != ring[0];
      assert next[ring[i - 1]] == ring[Succ(|ring|, i - 1)];
    } else {
      assert next[ring[0]] == ring[Succ(|ring|, 0)] && ring[0] in ring;
    }
  }
}
