/** What each step of the scheduler does to those that sleep on a key: only blocking makes a task
    sleep, and only the one that blocks. */
module Sleepers {
  import opened RoundRobin

  predicate Asleep(s: Sched, t: Tid, k: nat) {
    t in s.ring && t in s.status && t in s.key && s.status[t] == Blocked && s.key[t] == k
  }

  /** The scheduler's invariant for the given tasks; the current task is not asleep. */
  ghost predicate SchedOk(s: Sched, tasks: set<Tid>) {
    Inv(s) && s.status[s.current] != Blocked && forall t :: t in s.ring <==> t in tasks
  }

  lemma ScheduleSleepers(s: Sched)
    requires Inv(s) && s.status[s.current] != Running
    ensures Inv(Schedule(s)) && Schedule(s).ring == s.ring
    ensures Schedule(s).status[Schedule(s).current] != Blocked
    ensures forall t, k :: Asleep(Schedule(s), t, k) ==> Asleep(s, t, k)
  {
    ScheduleInv(s);
  }

  lemma TickSleepers(s: Sched, tasks: set<Tid>)
    requires SchedOk(s, tasks)
    ensures SchedOk(Tick(s), tasks) && forall t, k :: Asleep(Tick(s), t, k) ==> Asleep(s, t, k)
  {
    hide Schedule;
    ScheduleSleepers(if s.status[s.current] == Running then s.(status := s.status[s.current := Ready]) else s);
  }

  lemma BlockSleepers(s: Sched, key: nat, tasks: set<Tid>)
    requires SchedOk(s, tasks)
    ensures SchedOk(Block(s, key), tasks)
    ensures forall t, k :: Asleep(Block(s, key), t, k) ==> Asleep(s, t, k) || (t == s.current && key == k)
  {
    hide Schedule;
    ScheduleSleepers(s.(status := s.status[s.current := Blocked], key := s.key[s.current := key]));
  }

  lemma WakeSleepers(s: Sched, key: nat, tasks: set<Tid>)
    requires SchedOk(s, tasks)
    ensures SchedOk(Wake(s, key), tasks) && Wake(s, key).current == s.current
    ensures forall t, k :: Asleep(Wake(s, key), t, k) <==> Asleep(s, t, k) && (key != k || k == 0)
    ensures forall t :: key != 0 && Asleep(s, t, key) ==> Wake(s, key).status[t] == Ready
  {
  }

  lemma ExitSleepers(s: Sched, pid: nat, tasks: set<Tid>)
    requires SchedOk(s, tasks)
    ensures SchedOk(Exit(s, pid), tasks) && Exit(s, pid).current == s.current
    ensures s.current != s.ring[0] ==> Exit(s, pid).status[s.current] == Exited
    ensures s.current != s.ring[0] && pid != 0 ==>
      && (forall t, k :: Asleep(Exit(s, pid), t, k) <==> Asleep(s, t, k) && k != pid)
      && (forall t :: Asleep(s, t, pid) ==> Exit(s, pid).status[t] == Ready)
    ensures forall t, k :: Asleep(Exit(s, pid), t, k) ==> Asleep(s, t, k)
  {
  }

  /** Whoever waits for a task that exits is chosen within as many scheduling calls as there are other tasks,
      plus one per task created meanwhile. */
  lemma WaiterRuns(s: Sched, pid: nat, tasks: set<Tid>, t: Tid, steps: seq<Step>)
    requires SchedOk(s, tasks) && s.current != s.ring[0] && pid != 0 && Asleep(s, t, pid)
    requires Run(Exit(s, pid), steps) && CountSchedules(steps) >= |s.ring| - 1 + CountCreates(steps)
    ensures Chosen(Exit(s, pid), steps, t)
  {
    hide Others, IndexOf, Skip;
    ExitSleepers(s, pid, tasks);
    var u := Exit(s, pid);
    assert Waiting(u, t);
    if !Chosen(u, steps, t) {
      WaitingDistance(u, t);
      NotChosen(u, steps, t);
    }
  }

  lemma CreateSleepers(s: Sched, t: Tid, tasks: set<Tid>)
    requires SchedOk(s, tasks) && t !in s.ring
    ensures SchedOk(Create(s, t), tasks + {t}) && Create(s, t).current == s.current
    ensures forall u, k :: Asleep(Create(s, t), u, k) ==> Asleep(s, u, k)
  {
    CreateInv(s, t);
    var r := Create(s, t).ring;
    forall x ensures x in r <==> x in s.ring || x == t {
      if x in s.ring {
        var i :| 0 <= i < |s.ring| && s.ring[i] == x;
        assert r[if i == 0 then 0 else i + 1] == x;
      }
      assert r[1] == t;
    }
  }

  lemma CurrentIn(s: Sched, tasks: set<Tid>)
    requires SchedOk(s, tasks)
    ensures s.current in tasks
  {
  }
}
