/** Descriptor tables and the reference counts behind them: stage2/vfs.c over the open-file table of
    stage2/fat16.c, the cpuinfo table and the socket table of stage2/net/socket.c. Several tasks share
    the objects through fork and dup2. */
module Descriptors {
  import opened Bags

  const EMPTY := -1
  const CPUINFO_BASE := -8
  const TTY_BASE := -32
  const UDP_BASE := -1024
  const SOCKET_BASE := -4096
  const FILES := 8
  const CPUINFOS := 4
  const TTYS := 4
  const SOCKETS := 16
  const MAX_FDS := 16

  /** A slot of one of the three tables. */
  datatype Slot = Slot(used: bool, refs: int)

  datatype Objects = Objects(files: seq<Slot>, cpus: seq<Slot>, socks: seq<Slot>)

  predicate Sized(o: Objects) { |o.files| == FILES && |o.cpus| == CPUINFOS && |o.socks| == SOCKETS }

  // ------------------------------------------------------------------------------------------
  // Handles
  // ------------------------------------------------------------------------------------------

  predicate IsFile(h: int) { 0 <= h < FILES }
  predicate IsCpu(h: int) { CPUINFO_BASE - CPUINFOS < h <= CPUINFO_BASE }
  predicate IsSock(h: int) { SOCKET_BASE - SOCKETS < h <= SOCKET_BASE }
  predicate IsTty(h: int) { TTY_BASE - TTYS < h <= TTY_BASE }

  /** Handles that name a reference-counted object. */
  predicate Counted(h: int) { IsFile(h) || IsCpu(h) || IsSock(h) }

  /** The handle of a `/dev/udp` device is also a socket's handle exactly for these ports. */
  lemma UdpHandleClash(port: nat)
    requires port < 65536
    ensures Counted(UDP_BASE - port) <==> 3072 <= port <= 3087
    ensures Counted(UDP_BASE - port) ==> IsSock(UDP_BASE - port)
  {
  }

  function Get(o: Objects, h: int): Slot
    requires Sized(o) && Counted(h)
  {
    if IsFile(h) then o.files[h] else if IsCpu(h) then o.cpus[CPUINFO_BASE - h] else o.socks[SOCKET_BASE - h]
  }

  function Put(o: Objects, h: int, x: Slot): (p: Objects)
    requires Sized(o) && Counted(h)
    ensures Sized(p) && forall g :: Counted(g) ==> Get(p, g) == if g == h then x else Get(o, g)
  {
    if IsFile(h) then o.(files := o.files[h := x])
    else if IsCpu(h) then o.(cpus := o.cpus[CPUINFO_BASE - h := x])
    else o.(socks := o.socks[SOCKET_BASE - h := x])
  }

  /** One reference less; the last one frees the slot. */
  function Dropped(x: Slot): Slot { if x.refs - 1 > 0 then Slot(true, x.refs - 1) else Slot(false, 0) }

  datatype Closed = Closed(o: Objects, result: int)

  /** `file_close`: sockets first, then devices, then the file system. */
  function FileClose(o: Objects, h: int): (c: Closed)
    requires Sized(o)
    ensures Sized(c.o)
  {
    if IsSock(h) && Get(o, h).used then Closed(Put(o, h, Dropped(Get(o, h))), 0)
    else if h < EMPTY then
      if IsCpu(h) then if Get(o, h).used then Closed(Put(o, h, Dropped(Get(o, h))), 0) else Closed(o, -1)
      else Closed(o, 0)
    else if IsFile(h) && Get(o, h).used then Closed(Put(o, h, Dropped(Get(o, h))), 0)
    else Closed(o, -1)
  }

  /** The dispatch in `vfs_dup2` and `vfs_fork_fds`. */
  function DupHandle(o: Objects, h: int): (p: Objects)
    requires Sized(o)
    ensures Sized(p)
  {
    if Counted(h) && Get(o, h).used then Put(o, h, Slot(true, Get(o, h).refs + 1)) else o
  }

  // ------------------------------------------------------------------------------------------
  // The whole state
  // ------------------------------------------------------------------------------------------

  /** One descriptor table per task, the objects, and the handles the kernel itself holds. */
  datatype Vfs = Vfs(tables: seq<seq<int>>, o: Objects, held: multiset<int>)

  predicate Shape(s: Vfs) { Sized(s.o) && forall t :: 0 <= t < |s.tables| ==> |s.tables[t]| == MAX_FDS }

  /** Every mention of a handle: in any descriptor of any task, or held by the kernel. */
  function Names(s: Vfs): multiset<int> { Bag(s.tables) + s.held }

  /** The count never falls below the number of mentions, and a free object is not mentioned. */
  predicate RefsOk(o: Objects, names: multiset<int>, h: int)
    requires Sized(o) && Counted(h)
  {
    var x := Get(o, h);
    if x.used then x.refs >= 1 && x.refs >= names[h] else names[h] == 0
  }

  ghost predicate Covered(o: Objects, names: multiset<int>)
    requires Sized(o)
  {
    forall h :: Counted(h) ==> RefsOk(o, names, h)
  }

  ghost predicate Inv(s: Vfs) { Shape(s) && Covered(s.o, Names(s)) }

  /** The count is exactly the number of mentions. */
  ghost predicate ExactIn(o: Objects, names: multiset<int>)
    requires Sized(o)
  {
    forall h :: Counted(h) && Get(o, h).used ==> Get(o, h).refs == names[h]
  }

  ghost predicate Exact(s: Vfs) { Shape(s) && ExactIn(s.o, Names(s)) }

  function SetFd(s: Vfs, t: nat, fd: nat, h: int): Vfs
    requires Shape(s) && t < |s.tables| && fd < MAX_FDS
  {
    s.(tables := s.tables[t := s.tables[t][fd := h]])
  }

  /** Changing one descriptor takes out one mention and puts in another. */
  lemma SetFdNames(s: Vfs, t: nat, fd: nat, h: int)
    requires Shape(s) && t < |s.tables| && fd < MAX_FDS
    ensures Names(SetFd(s, t, fd, h)) == Names(s) - multiset{s.tables[t][fd]} + multiset{h}
    ensures s.tables[t][fd] in Names(s) && Shape(SetFd(s, t, fd, h))
  {
    hide Bag;
    var tab := s.tables[t];
    BagReplace(s.tables, t, tab[fd := h]);
    assert tab[fd] in multiset(tab);
    Exchange(Bag(s.tables), multiset(tab), tab[fd], h, s.held);
  }

  lemma Exchange(all: multiset<int>, part: multiset<int>, x: int, h: int, held: multiset<int>)
    requires part <= all && x in part
    ensures all - part + (part - multiset{x} + multiset{h}) + held == all + held - multiset{x} + multiset{h}
      && x in all + held
  {
  }

  // ------------------------------------------------------------------------------------------
  // One mention more, one less
  // ------------------------------------------------------------------------------------------

  /** Closing a handle while one mention of it goes away. */
  lemma CloseCovered(o: Objects, names: multiset<int>, h: int)
    requires Sized(o) && Covered(o, names) && h in names
    ensures Sized(FileClose(o, h).o) && Covered(FileClose(o, h).o, names - multiset{h})
    ensures Counted(h) ==> FileClose(o, h).result == 0
    ensures ExactIn(o, names) <==> ExactIn(FileClose(o, h).o, names - multiset{h})
  {
    var p, m := FileClose(o, h).o, names - multiset{h};
    if Counted(h) { assert RefsOk(o, names, h); }
    forall g | Counted(g) ensures RefsOk(p, m, g) { assert RefsOk(o, names, g); }
  }

  /** Duplicating a handle while one mention of it is added. */
  lemma DupCovered(o: Objects, names: multiset<int>, h: int)
    requires Sized(o) && Covered(o, names) && h in names
    ensures Sized(DupHandle(o, h)) && Covered(DupHandle(o, h), names + multiset{h})
    ensures ExactIn(o, names) <==> ExactIn(DupHandle(o, h), names + multiset{h})
  {
    var p, m := DupHandle(o, h), names + multiset{h};
    if Counted(h) { assert RefsOk(o, names, h); }
    forall g | Counted(g) ensures RefsOk(p, m, g) { assert RefsOk(o, names, g); }
  }

  /** Mentions of uncounted handles do not matter. */
  lemma PlainCovered(o: Objects, names: multiset<int>, names': multiset<int>)
    requires Sized(o) && Covered(o, names) && forall h :: Counted(h) ==> names'[h] == names[h]
    ensures Covered(o, names') && (ExactIn(o, names) <==> ExactIn(o, names'))
  {
    forall g | Counted(g) ensures RefsOk(o, names', g) { assert RefsOk(o, names, g); }
  }

  /** A free slot taken over: nothing mentioned it before. */
  lemma TakeCovered(o: Objects, names: multiset<int>, h: int)
    requires Sized(o) && Covered(o, names) && Counted(h) && !Get(o, h).used
    ensures names[h] == 0
    ensures Covered(Put(o, h, Slot(true, 1)), names + multiset{h})
    ensures ExactIn(o, names) <==> ExactIn(Put(o, h, Slot(true, 1)), names + multiset{h})
  {
    assert RefsOk(o, names, h);
    forall g | Counted(g) ensures RefsOk(Put(o, h, Slot(true, 1)), names + multiset{h}, g) {
      assert RefsOk(o, names, g);
    }
  }

  // ------------------------------------------------------------------------------------------
  // Operations on one task's table
  // ------------------------------------------------------------------------------------------

  predicate HasTask(s: Vfs, t: nat) { Shape(s) && t < |s.tables| }

  datatype Done = Done(s: Vfs, result: int)

  /** `vfs_close`. */
  function CloseFd(s: Vfs, t: nat, fd: int): Done
    requires HasTask(s, t)
  {
    if fd < 0 || fd >= MAX_FDS || s.tables[t][fd] == EMPTY then Done(s, -1)
    else
      var c := FileClose(s.o, s.tables[t][fd]);
      if c.result == 0 then Done(SetFd(s.(o := c.o), t, fd, EMPTY), 0) else Done(s.(o := c.o), c.result)
  }

  function FirstEmpty(tab: seq<int>): (i: nat)
    ensures i <= |tab| && (i < |tab| ==> tab[i] == EMPTY) && forall j :: 0 <= j < i ==> tab[j] != EMPTY
  {
    if tab == [] || tab[0] == EMPTY then 0 else 1 + FirstEmpty(tab[1..])
  }

  /** `vfs_attach_handle`. */
  function Attach(s: Vfs, t: nat, h: int): Done
    requires HasTask(s, t)
  {
    var i := FirstEmpty(s.tables[t]);
    if i < MAX_FDS then Done(SetFd(s, t, i, h), i) else Done(s, -1)
  }

  function FirstUnused(xs: seq<Slot>): (i: nat)
    ensures i <= |xs| && (i < |xs| ==> !xs[i].used) && forall j :: 0 <= j < i ==> xs[j].used
  {
    if xs == [] || !xs[0].used then 0 else 1 + FirstUnused(xs[1..])
  }

  datatype Kind = AFile | ACpuinfo | ASocket

  /** The handle that `fat16_open`, `cpuinfo_open` or `socket_create` hands out; none when full. */
  function NewHandle(o: Objects, k: Kind): (h: int)
    requires Sized(o)
    ensures h == EMPTY || (Counted(h) && !Get(o, h).used)
  {
    match k
    case AFile => var i := FirstUnused(o.files); if i < FILES then i else EMPTY
    case ACpuinfo => var i := FirstUnused(o.cpus); if i < CPUINFOS then CPUINFO_BASE - i else EMPTY
    case ASocket => var i := FirstUnused(o.socks); if i < SOCKETS then SOCKET_BASE - i else EMPTY
  }

  /** Opening an object and naming it: `vfs_open` for files and cpuinfo, and the socket call. */
  function OpenObject(s: Vfs, t: nat, k: Kind): Done
    requires HasTask(s, t)
  {
    var h := NewHandle(s.o, k);
    if h == EMPTY then Done(s, -1)
    else
      var u := s.(o := Put(s.o, h, Slot(true, 1)));
      var d := Attach(u, t, h);
      if d.result < 0 then Done(u.(o := FileClose(u.o, h).o), -1) else d
  }

  /** `vfs_open` of a device without a count. */
  function OpenDevice(s: Vfs, t: nat, h: int): Done
    requires HasTask(s, t) && !Counted(h) && h < EMPTY
  {
    var d := Attach(s, t, h);
    if d.result < 0 then Done(s.(o := FileClose(s.o, h).o), -1) else d
  }

  function TtyId(h: int): int { if IsTty(h) then TTY_BASE - h else -1 }

  /** `vfs_dup2` for a task whose terminal is `tty`. */
  function Dup2(s: Vfs, t: nat, oldfd: int, newfd: int, tty: int): Done
    requires HasTask(s, t)
  {
    if oldfd < 0 || newfd < 0 || oldfd >= MAX_FDS || newfd >= MAX_FDS || s.tables[t][oldfd] == EMPTY then Done(s, -1)
    else if oldfd == newfd then Done(s, newfd)
    else
      var h := s.tables[t][oldfd];
      if newfd <= 2 && TtyId(h) >= 0 && TtyId(h) != tty then Done(s, -1)
      else
        var u := CloseFd(s, t, newfd).s;
        Done(SetFd(u, t, newfd, h).(o := DupHandle(u.o, h)), newfd)
  }

  function ValidTty(tty: int): int { if 0 <= tty < TTYS then tty else 0 }

  /** `vfs_bind_tty`: descriptors 0 to 2 are overwritten without being closed. */
  function BindTty(s: Vfs, t: nat, tty: int): Vfs
    requires HasTask(s, t)
  {
    var h := TTY_BASE - ValidTty(tty);
    SetFd(SetFd(SetFd(s, t, 0, h), t, 1, h), t, 2, h)
  }

  // ------------------------------------------------------------------------------------------
  // Invariants
  // ------------------------------------------------------------------------------------------

  lemma CloseFdInv(s: Vfs, t: nat, fd: int)
    requires Inv(s) && HasTask(s, t)
    ensures Inv(CloseFd(s, t, fd).s) && HasTask(CloseFd(s, t, fd).s, t) && (Exact(s) <==> Exact(CloseFd(s, t, fd).s))
    ensures |CloseFd(s, t, fd).s.tables| == |s.tables|
    ensures CloseFd(s, t, fd).result < 0 ==> CloseFd(s, t, fd).s == s
    ensures 0 <= fd < MAX_FDS && s.tables[t][fd] != EMPTY && (s.tables[t][fd] < 0 || Counted(s.tables[t][fd])) ==>
      CloseFd(s, t, fd).result == 0
  {
    hide Names, Bag, Covered, ExactIn;
    if 0 <= fd < MAX_FDS && s.tables[t][fd] != EMPTY {
      var h := s.tables[t][fd];
      SetFdNames(s, t, fd, EMPTY);
      var c, m := FileClose(s.o, h), Names(s) - multiset{h};
      CloseCovered(s.o, Names(s), h);
      var u := SetFd(s.(o := c.o), t, fd, EMPTY);
      assert Names(u) == m + multiset{EMPTY} by { SameNames(u, SetFd(s, t, fd, EMPTY)); }
      PlainCovered(c.o, m, m + multiset{EMPTY});
    }
  }

  lemma SameNames(s: Vfs, u: Vfs)
    requires s.tables == u.tables && s.held == u.held
    ensures Names(s) == Names(u)
  {
  }

  /** A new mention in a descriptor that named nothing counted. */
  lemma GiveFdNames(s: Vfs, t: nat, fd: nat, h: int)
    requires HasTask(s, t) && fd < MAX_FDS && !Counted(s.tables[t][fd])
    ensures Shape(SetFd(s, t, fd, h))
    ensures forall g :: Counted(g) ==> Names(SetFd(s, t, fd, h))[g] == (Names(s) + multiset{h})[g]
  {
    SetFdNames(s, t, fd, h);
  }

  lemma OpenObjectInv(s: Vfs, t: nat, k: Kind)
    requires Inv(s) && HasTask(s, t)
    ensures var d := OpenObject(s, t, k); Inv(d.s) && (Exact(s) <==> Exact(d.s))
  {
    hide Names, Bag, Covered, ExactIn;
    var h := NewHandle(s.o, k);
    if h != EMPTY {
      var o := Put(s.o, h, Slot(true, 1));
      var u := s.(o := o);
      TakeCovered(s.o, Names(s), h);
      SameNames(s, u);
      var i := FirstEmpty(s.tables[t]);
      if i < MAX_FDS {
        GiveFdNames(u, t, i, h);
        PlainCovered(o, Names(s) + multiset{h}, Names(SetFd(u, t, i, h)));
      } else {
        CloseCovered(o, Names(s) + multiset{h}, h);
        assert Names(s) + multiset{h} - multiset{h} == Names(s);
        SameNames(s, u.(o := FileClose(o, h).o));
      }
    }
  }

  /** A new object is named by the one descriptor that was just filled, and by nothing else. */
  lemma OpenObjectFresh(s: Vfs, t: nat, k: Kind)
    requires Inv(s) && HasTask(s, t) && OpenObject(s, t, k).result >= 0
    ensures var h := NewHandle(s.o, k);
      && Names(s)[h] == 0 && Names(OpenObject(s, t, k).s)[h] == 1 && Get(OpenObject(s, t, k).s.o, h) == Slot(true, 1)
  {
    var h := NewHandle(s.o, k);
    TakeCovered(s.o, Names(s), h);
    var u := s.(o := Put(s.o, h, Slot(true, 1)));
    GiveFdNames(u, t, FirstEmpty(s.tables[t]), h);
  }

  lemma OpenDeviceInv(s: Vfs, t: nat, h: int)
    requires Inv(s) && HasTask(s, t) && !Counted(h) && h < EMPTY
    ensures var d := OpenDevice(s, t, h); Inv(d.s) && (Exact(s) <==> Exact(d.s))
  {
    hide Names, Bag, Covered, ExactIn;
    var i := FirstEmpty(s.tables[t]);
    if i < MAX_FDS {
      GiveFdNames(s, t, i, h);
      PlainCovered(s.o, Names(s), Names(SetFd(s, t, i, h)));
    }
  }

  lemma Dup2Inv(s: Vfs, t: nat, oldfd: int, newfd: int, tty: int)
    requires Inv(s) && HasTask(s, t)
    ensures var d := Dup2(s, t, oldfd, newfd, tty); Inv(d.s) && (Exact(s) <==> Exact(d.s))
  {
    hide Names, Bag, Covered, ExactIn;
    if Dup2(s, t, oldfd, newfd, tty).s != s {
      var h := s.tables[t][oldfd];
      var u := CloseFd(s, t, newfd).s;
      CloseFdInv(s, t, newfd);
      ClosedEmpty(s, t, newfd);
      GiveFdNames(u, t, newfd, h);
      assert h in Names(u) by { SetFdNames(u, t, oldfd, h); }
      DupCovered(u.o, Names(u), h);
      var v := SetFd(u, t, newfd, h).(o := DupHandle(u.o, h));
      SameNames(v, SetFd(u, t, newfd, h));
      PlainCovered(v.o, Names(u) + multiset{h}, Names(v));
    }
  }

  /** After a close the descriptor names nothing counted, and the other descriptors are as before. */
  lemma ClosedEmpty(s: Vfs, t: nat, fd: nat)
    requires Inv(s) && HasTask(s, t) && fd < MAX_FDS
    ensures var u := CloseFd(s, t, fd).s;
      && HasTask(u, t) && !Counted(u.tables[t][fd])
      && forall i :: 0 <= i < MAX_FDS && i != fd ==> u.tables[t][i] == s.tables[t][i]
  {
    CloseFdInv(s, t, fd);
  }

  lemma ClosedTables(s: Vfs, t: nat, fd: nat)
    requires HasTask(s, t) && fd < MAX_FDS
    ensures var u := CloseFd(s, t, fd).s;
      && HasTask(u, t) && u.held == s.held
      && (u.tables == s.tables || u.tables == s.tables[t := s.tables[t][fd := EMPTY]])
  {
  }

  /** A successful `dup2` makes the new descriptor name the old one's object and touches no other
      descriptor; a failed one changes nothing. */
  lemma Dup2Effect(s: Vfs, t: nat, oldfd: int, newfd: int, tty: int)
    requires Inv(s) && HasTask(s, t)
    ensures var d := Dup2(s, t, oldfd, newfd, tty);
      && HasTask(d.s, t) && d.s.held == s.held && (d.result < 0 ==> d.s == s)
      && (d.result >= 0 ==>
           && 0 <= oldfd < MAX_FDS && 0 <= newfd < MAX_FDS && d.result == newfd
           && d.s.tables == s.tables[t := s.tables[t][newfd := s.tables[t][oldfd]]])
  {
    hide CloseFd, DupHandle, Inv;
    if 0 <= oldfd < MAX_FDS && 0 <= newfd < MAX_FDS {
      ClosedTables(s, t, newfd);
      var h, u := s.tables[t][oldfd], CloseFd(s, t, newfd).s;
      assert u.tables[t][newfd := h] == s.tables[t][newfd := h];
      if oldfd == newfd { assert s.tables[t][newfd := h] == s.tables[t]; }
    }
  }

  /** Closing succeeds on every descriptor that names something, and empties it; otherwise nothing changes. */
  lemma CloseEffect(s: Vfs, t: nat, fd: int)
    requires Inv(s) && HasTask(s, t) && forall i :: 0 <= i < MAX_FDS ==> s.tables[t][i] < 8
    ensures var d := CloseFd(s, t, fd);
      && (d.result == 0 <==> 0 <= fd < 16 && s.tables[t][fd] != -1)
      && (d.result == 0 ==> d.s.tables == s.tables[t := s.tables[t][fd := -1]] && d.s.held == s.held)
      && (d.result != 0 ==> d.s == s && d.result == -1)
  {
    CloseFdInv(s, t, fd);
  }

  /** Closing a terminal gives back nothing. */
  lemma CloseTerminal(s: Vfs, t: nat, fd: int, tty: int)
    requires HasTask(s, t) && 0 <= fd < 16 && 0 <= tty < 4 && s.tables[t][fd] == -32 - tty
    ensures CloseFd(s, t, fd) == Done(s.(tables := s.tables[t := s.tables[t][fd := -1]]), 0)
  {
  }

  /** `dup2` succeeds if and only if both descriptors exist, the first names something, and no terminal but
      the task's own would become a standard descriptor. */
  lemma Dup2Exact(s: Vfs, t: nat, oldfd: int, newfd: int, tty: int)
    requires HasTask(s, t)
    ensures Dup2(s, t, oldfd, newfd, tty).result in {-1, newfd}
    ensures Dup2(s, t, oldfd, newfd, tty).result >= 0 <==>
      && 0 <= oldfd < 16 && 0 <= newfd < 16 && s.tables[t][oldfd] != -1
      && (oldfd == newfd || newfd > 2 || !(-36 < s.tables[t][oldfd] <= -32) || s.tables[t][oldfd] == -32 - tty)
  {
  }

  /** After a rebinding the three standard descriptors name the given terminal, or the first one if there
      is no such terminal, and the others are as before. */
  lemma BindEffect(s: Vfs, t: nat, tty: int)
    requires HasTask(s, t)
    ensures var u := BindTty(s, t, tty);
      && u.o == s.o && u.held == s.held && |u.tables| == |s.tables|
      && (forall i :: 0 <= i < 3 ==> TtyId(u.tables[t][i]) == if tty in {0, 1, 2, 3} then tty else 0)
      && (forall i :: 0 <= i < 3 ==> u.tables[t][i] == -32 - TtyId(u.tables[t][i]))
      && (forall i :: 3 <= i < MAX_FDS ==> u.tables[t][i] == s.tables[t][i])
      && (forall x :: 0 <= x < |s.tables| && x != t ==> u.tables[x] == s.tables[x])
  {
  }

  /** A new object is of the kind asked for and goes to the lowest empty descriptor; opening fails if and
      only if the table of that kind or the descriptor table is full. */
  lemma OpenEffect(s: Vfs, t: nat, k: Kind)
    requires HasTask(s, t)
    ensures var d := OpenObject(s, t, k);
      && (d.result >= 0 ==>
           && d.result < MAX_FDS && s.tables[t][d.result] == EMPTY
           && (forall i :: 0 <= i < d.result ==> s.tables[t][i] != EMPTY)
           && d.s.tables == s.tables[t := s.tables[t][d.result := NewHandle(s.o, k)]] && OfKind(NewHandle(s.o, k), k))
      && (d.result < 0 ==> d.result == -1 && d.s.tables == s.tables && (Tidy(s.o) ==> d.s == s))
      && (d.result < 0 <==> KindFull(s.o, k) || TableFull(s.tables[t]))
  {
    var h := NewHandle(s.o, k);
    if h == EMPTY {
      assert KindFull(s.o, k);
    } else {
      assert OfKind(h, k) && !KindFull(s.o, k);
      if Tidy(s.o) && FirstEmpty(s.tables[t]) == MAX_FDS { PutBack(s.o, h); }
    }
  }

  /** The same for a device without a count. */
  lemma DeviceEffect(s: Vfs, t: nat, h: int)
    requires HasTask(s, t) && !Counted(h) && h < EMPTY
    ensures var d := OpenDevice(s, t, h);
      && (d.result >= 0 ==>
           && d.result < MAX_FDS && s.tables[t][d.result] == EMPTY
           && (forall i :: 0 <= i < d.result ==> s.tables[t][i] != EMPTY)
           && d.s == s.(tables := s.tables[t := s.tables[t][d.result := h]]))
      && (d.result < 0 ==> d.result == -1 && d.s == s)
      && (d.result < 0 <==> TableFull(s.tables[t]))
  {
  }

  predicate TableFull(tab: seq<int>) { forall i :: 0 <= i < |tab| ==> tab[i] != -1 }

  /** Slots that are not in use have no references. */
  ghost predicate Tidy(o: Objects) {
    Sized(o) && forall h :: Counted(h) && !Get(o, h).used ==> Get(o, h).refs == 0
  }

  /** A slot taken and given back at once is as it was. */
  lemma PutBack(o: Objects, h: int)
    requires Sized(o) && Tidy(o) && Counted(h) && !Get(o, h).used
    ensures FileClose(Put(o, h, Slot(true, 1)), h).o == o
  {
  }

  /** The slots of files, of cpuinfo and of sockets. */
  predicate OfKind(h: int, k: Kind) {
    match k
    case AFile => 0 <= h < 8
    case ACpuinfo => -12 < h <= -8
    case ASocket => -4112 < h <= -4096
  }

  ghost predicate KindFull(o: Objects, k: Kind)
    requires Sized(o)
  {
    forall h :: OfKind(h, k) ==> Counted(h) && Get(o, h).used
  }

  function Ones(a: int, g: int): nat { if a == g then 1 else 0 }

  lemma OverwriteNames(s: Vfs, t: nat, fd: nat, h: int)
    requires HasTask(s, t) && fd < MAX_FDS && !Counted(h)
    ensures Shape(SetFd(s, t, fd, h))
    ensures forall g :: Counted(g) ==> Names(SetFd(s, t, fd, h))[g] + Ones(s.tables[t][fd], g) == Names(s)[g]
  {
    SetFdNames(s, t, fd, h);
  }

  lemma BindNames(s: Vfs, t: nat, h: int, g: int)
    requires HasTask(s, t) && !Counted(h) && Counted(g)
    ensures var u := SetFd(SetFd(SetFd(s, t, 0, h), t, 1, h), t, 2, h);
      && Shape(u)
      && Names(u)[g] + Ones(s.tables[t][0], g) + Ones(s.tables[t][1], g) + Ones(s.tables[t][2], g) == Names(s)[g]
  {
    hide Names, Bag;
    OverwriteNames(s, t, 0, h);
    OverwriteNames(SetFd(s, t, 0, h), t, 1, h);
    OverwriteNames(SetFd(SetFd(s, t, 0, h), t, 1, h), t, 2, h);
  }

  /** Descriptors 0 to 2 name no counted object. */
  predicate PlainStandard(s: Vfs, t: nat)
    requires HasTask(s, t)
  {
    forall i :: 0 <= i < 3 ==> !Counted(s.tables[t][i])
  }

  /** Rebinding the terminal keeps the lower bound always, and exactness if and only if the three
      descriptors name no counted object. */
  lemma BindTtyInv(s: Vfs, t: nat, tty: int)
    requires Inv(s) && HasTask(s, t)
    ensures Inv(BindTty(s, t, tty))
    ensures Exact(BindTty(s, t, tty)) <==> Exact(s) && PlainStandard(s, t)
  {
    hide Names, Bag;
    var h, u := TTY_BASE - ValidTty(tty), BindTty(s, t, tty);
    forall g | Counted(g) ensures RefsOk(u.o, Names(u), g) && (PlainStandard(s, t) ==> Names(u)[g] == Names(s)[g]) {
      assert RefsOk(s.o, Names(s), g);
      BindNames(s, t, h, g);
    }
    if !PlainStandard(s, t) {
      var i :| 0 <= i < 3 && Counted(s.tables[t][i]);
      var g := s.tables[t][i];
      BindNames(s, t, h, g);
      assert RefsOk(s.o, Names(s), g) && Names(u)[g] < Names(s)[g];
    } else if !Exact(s) {
      var g :| Counted(g) && Get(s.o, g).used && Get(s.o, g).refs != Names(s)[g];
      BindNames(s, t, h, g);
      assert RefsOk(s.o, Names(s), g);
    }
  }

  // ------------------------------------------------------------------------------------------
  // Tasks
  // ------------------------------------------------------------------------------------------

  /** Descriptors that name nothing. */
  function Empties(n: nat): (e: seq<int>)
    ensures |e| == n && forall k :: 0 <= k < n ==> e[k] == EMPTY
  {
    seq(n, _ => EMPTY)
  }

  function NewTask(s: Vfs): Vfs { s.(tables := s.tables + [Empties(MAX_FDS)]) }

  /** `vfs_init_fds` for a task made at boot. */
  function Spawn(s: Vfs, tty: int): Vfs
    requires Shape(s)
  {
    BindTty(NewTask(s), |s.tables|, tty)
  }

  /** One round of the loop in `vfs_fork_fds`. */
  function ForkFd(s: Vfs, t: nat, c: nat, i: nat): Vfs
    requires HasTask(s, t) && HasTask(s, c) && i < MAX_FDS
  {
    var h := s.tables[t][i];
    SetFd(s.(o := DupHandle(s.o, h)), c, i, h)
  }

  function ForkFrom(s: Vfs, t: nat, c: nat, i: nat): Vfs
    requires HasTask(s, t) && HasTask(s, c) && i <= MAX_FDS
    decreases MAX_FDS - i
  {
    if i == MAX_FDS then s else ForkFrom(ForkFd(s, t, c, i), t, c, i + 1)
  }

  function Fork(s: Vfs, t: nat): Vfs
    requires HasTask(s, t)
  {
    ForkFrom(NewTask(s), t, |s.tables|, 0)
  }

  /** One round of the loop in `vfs_exit_fds`. */
  function ExitFd(s: Vfs, t: nat, i: nat): Vfs
    requires HasTask(s, t) && i < MAX_FDS
  {
    var h := s.tables[t][i];
    if h == EMPTY then s else SetFd(s.(o := FileClose(s.o, h).o), t, i, EMPTY)
  }

  function ExitFrom(s: Vfs, t: nat, i: nat): Vfs
    requires HasTask(s, t) && i <= MAX_FDS
    decreases MAX_FDS - i
  {
    if i == MAX_FDS then s else ExitFrom(ExitFd(s, t, i), t, i + 1)
  }

  lemma NewTaskInv(s: Vfs)
    requires Inv(s)
    ensures Inv(NewTask(s)) && (Exact(s) <==> Exact(NewTask(s)))
  {
    hide Bag, Covered, ExactIn;
    BagAppend(s.tables, Empties(MAX_FDS));
    assert forall h :: Counted(h) ==> h !in Empties(MAX_FDS);
    PlainCovered(s.o, Names(s), Names(NewTask(s)));
  }

  lemma SpawnInv(s: Vfs, tty: int)
    requires Inv(s)
    ensures Inv(Spawn(s, tty)) && (Exact(s) <==> Exact(Spawn(s, tty)))
  {
    NewTaskInv(s);
    BindTtyInv(NewTask(s), |s.tables|, tty);
  }

  /** The child's first `i` descriptors equal the parent's; the others are empty. */
  predicate ForkedTo(s: Vfs, t: nat, c: nat, i: nat)
    requires HasTask(s, t) && HasTask(s, c)
  {
    t != c && forall j :: 0 <= j < MAX_FDS ==> s.tables[c][j] == if j < i then s.tables[t][j] else EMPTY
  }

  lemma ForkFdInv(s: Vfs, t: nat, c: nat, i: nat)
    requires Inv(s) && HasTask(s, t) && HasTask(s, c) && i < MAX_FDS && ForkedTo(s, t, c, i)
    ensures var u := ForkFd(s, t, c, i);
      && Inv(u) && (Exact(s) <==> Exact(u)) && HasTask(u, t) && HasTask(u, c) && ForkedTo(u, t, c, i + 1)
      && |u.tables| == |s.tables| && u.tables == s.tables[c := u.tables[c]] && u.held == s.held
  {
    hide Names, Bag, Covered, ExactIn;
    var h, u := s.tables[t][i], ForkFd(s, t, c, i);
    assert h in Names(s) by { SetFdNames(s, t, i, h); }
    DupCovered(s.o, Names(s), h);
    GiveFdNames(s, c, i, h);
    SameNames(u, SetFd(s, c, i, h));
    PlainCovered(u.o, Names(s) + multiset{h}, Names(u));
  }

  lemma {:induction false} ForkFromInv(s: Vfs, t: nat, c: nat, i: nat)
    requires Inv(s) && HasTask(s, t) && HasTask(s, c) && i <= MAX_FDS && ForkedTo(s, t, c, i)
    ensures var u := ForkFrom(s, t, c, i);
      && Inv(u) && (Exact(s) <==> Exact(u)) && HasTask(u, t) && HasTask(u, c) && ForkedTo(u, t, c, MAX_FDS)
      && u.tables == s.tables[c := u.tables[c]] && u.held == s.held
    decreases MAX_FDS - i
  {
    hide Inv, Exact, ForkFd, ForkedTo;
    if i == MAX_FDS {
      assert s.tables == s.tables[c := s.tables[c]];
    } else {
      ForkFdInv(s, t, c, i);
      ForkFromInv(ForkFd(s, t, c, i), t, c, i + 1);
    }
  }

  /** The child starts with the parent's descriptors, each with a reference of its own. */
  lemma ForkInv(s: Vfs, t: nat)
    requires Inv(s) && HasTask(s, t)
    ensures Inv(Fork(s, t)) && (Exact(s) <==> Exact(Fork(s, t)))
    ensures Fork(s, t).tables == s.tables + [s.tables[t]]
  {
    hide ForkFrom, ExactIn, Covered, Names;
    NewTaskInv(s);
    var u, c := NewTask(s), |s.tables|;
    ForkFromInv(u, t, c, 0);
    assert Fork(s, t).tables[c] == s.tables[t];
  }

  lemma ExitFdInv(s: Vfs, t: nat, i: nat)
    requires Inv(s) && HasTask(s, t) && i < MAX_FDS
    ensures var u := ExitFd(s, t, i);
      && Inv(u) && (Exact(s) <==> Exact(u)) && u.held == s.held && HasTask(u, t)
      && u.tables == s.tables[t := s.tables[t][i := EMPTY]]
  {
    hide Names, Bag, Covered, ExactIn;
    var h, u := s.tables[t][i], ExitFd(s, t, i);
    if h == EMPTY {
      assert s.tables[t][i := EMPTY] == s.tables[t];
    } else {
      SetFdNames(s, t, i, EMPTY);
      CloseCovered(s.o, Names(s), h);
      SameNames(u, SetFd(s, t, i, EMPTY));
      var m := Names(s) - multiset{h};
      PlainCovered(u.o, m, m + multiset{EMPTY});
    }
  }

  lemma {:induction false} ExitFromInv(s: Vfs, t: nat, i: nat)
    requires Inv(s) && HasTask(s, t) && i <= MAX_FDS && s.tables[t][..i] == Empties(i)
    ensures var u := ExitFrom(s, t, i);
      Inv(u) && (Exact(s) <==> Exact(u)) && u.held == s.held && u.tables == s.tables[t := Empties(MAX_FDS)]
    decreases MAX_FDS - i
  {
    hide Inv, Exact, ExitFd;
    if i == MAX_FDS {
      assert s.tables[t] == s.tables[t][..i] && s.tables == s.tables[t := s.tables[t]];
    } else {
      ExitFdInv(s, t, i);
      var u := ExitFd(s, t, i);
      assert u.tables[t][..i + 1] == Empties(i + 1);
      ExitFromInv(u, t, i + 1);
    }
  }

  /** An exiting task gives up every descriptor and every reference that went with it. */
  lemma ExitInv(s: Vfs, t: nat)
    requires Inv(s) && HasTask(s, t)
    ensures Inv(ExitFrom(s, t, 0)) && (Exact(s) <==> Exact(ExitFrom(s, t, 0)))
    ensures ExitFrom(s, t, 0).tables == s.tables[t := Empties(MAX_FDS)]
  {
    ExitFromInv(s, t, 0);
  }

  // ------------------------------------------------------------------------------------------
  // Handles the kernel holds itself, as the program loader does
  // ------------------------------------------------------------------------------------------

  function Hold(s: Vfs, k: Kind): Vfs
    requires Shape(s)
  {
    var h := NewHandle(s.o, k);
    if h == EMPTY then s else s.(o := Put(s.o, h, Slot(true, 1)), held := s.held + multiset{h})
  }

  function Release(s: Vfs, h: int): Vfs
    requires Shape(s) && h in s.held
  {
    s.(o := FileClose(s.o, h).o, held := s.held - multiset{h})
  }

  lemma HoldInv(s: Vfs, k: Kind)
    requires Inv(s)
    ensures Inv(Hold(s, k)) && (Exact(s) <==> Exact(Hold(s, k)))
  {
    hide Bag, Covered, ExactIn;
    var h := NewHandle(s.o, k);
    if h != EMPTY {
      TakeCovered(s.o, Names(s), h);
      assert Names(Hold(s, k)) == Names(s) + multiset{h};
    }
  }

  lemma ReleaseInv(s: Vfs, h: int)
    requires Inv(s) && h in s.held
    ensures Inv(Release(s, h)) && (Exact(s) <==> Exact(Release(s, h)))
  {
    hide Bag, Covered, ExactIn;
    CloseCovered(s.o, Names(s), h);
    assert Names(Release(s, h)) == Names(s) - multiset{h};
  }

  // ------------------------------------------------------------------------------------------
  // Runs
  // ------------------------------------------------------------------------------------------

  datatype Op =
    | DoOpen(t: nat, k: Kind)
    | DoDevice(t: nat, h: int)
    | DoClose(t: nat, fd: int)
    | DoDup2(t: nat, oldfd: int, newfd: int, tty: int)
    | DoBind(t: nat, tty: int)
    | DoFork(t: nat)
    | DoSpawn(tty: int)
    | DoExit(t: nat)
    | DoHold(k: Kind)
    | DoRelease(h: int)

  predicate Allowed(s: Vfs, op: Op) {
    && Shape(s)
    && match op
       case DoOpen(t, _) => HasTask(s, t)
       case DoDevice(t, h) => HasTask(s, t) && !Counted(h) && h < EMPTY
       case DoClose(t, _) => HasTask(s, t)
       case DoDup2(t, _, _, _) => HasTask(s, t)
       case DoBind(t, _) => HasTask(s, t)
       case DoFork(t) => HasTask(s, t)
       case DoSpawn(_) => true
       case DoExit(t) => HasTask(s, t)
       case DoHold(_) => true
       case DoRelease(h) => h in s.held
  }

  function Do(s: Vfs, op: Op): Vfs
    requires Allowed(s, op)
  {
    match op
    case DoOpen(t, k) => OpenObject(s, t, k).s
    case DoDevice(t, h) => OpenDevice(s, t, h).s
    case DoClose(t, fd) => CloseFd(s, t, fd).s
    case DoDup2(t, a, b, tty) => Dup2(s, t, a, b, tty).s
    case DoBind(t, tty) => BindTty(s, t, tty)
    case DoFork(t) => Fork(s, t)
    case DoSpawn(tty) => Spawn(s, tty)
    case DoExit(t) => ExitFrom(s, t, 0)
    case DoHold(k) => Hold(s, k)
    case DoRelease(h) => Release(s, h)
  }

  /** A rebinding of the terminal that loses a reference. */
  predicate Leaks(s: Vfs, op: Op)
    requires Allowed(s, op)
  {
    op.DoBind? && !PlainStandard(s, op.t)
  }

  lemma DoInv(s: Vfs, op: Op)
    requires Inv(s) && Allowed(s, op)
    ensures Inv(Do(s, op)) && (Exact(Do(s, op)) <==> Exact(s) && !Leaks(s, op))
  {
    hide Exact, Inv;
    match op {
      case DoOpen(t, k) => OpenObjectInv(s, t, k);
      case DoDevice(t, h) => OpenDeviceInv(s, t, h);
      case DoClose(t, fd) => CloseFdInv(s, t, fd);
      case DoDup2(t, a, b, tty) => Dup2Inv(s, t, a, b, tty);
      case DoBind(t, tty) => BindTtyInv(s, t, tty);
      case DoFork(t) => ForkInv(s, t);
      case DoSpawn(tty) => SpawnInv(s, tty);
      case DoExit(t) => ExitInv(s, t);
      case DoHold(k) => HoldInv(s, k);
      case DoRelease(h) => ReleaseInv(s, h);
    }
  }

  predicate Run(s: Vfs, ops: seq<Op>)
    decreases |ops|
  {
    ops == [] || (Allowed(s, ops[0]) && Run(Do(s, ops[0]), ops[1..]))
  }

  function After(s: Vfs, ops: seq<Op>): Vfs
    requires Run(s, ops)
    decreases |ops|
  {
    if ops == [] then s else After(Do(s, ops[0]), ops[1..])
  }

  predicate NeverLeaks(s: Vfs, ops: seq<Op>)
    requires Run(s, ops)
    decreases |ops|
  {
    ops == [] || (!Leaks(s, ops[0]) && NeverLeaks(Do(s, ops[0]), ops[1..]))
  }

  /** In every run the counts cover all mentions, and they end exact if and only if they began exact
      and no rebinding of a terminal overwrote a descriptor of a counted object. */
  lemma {:induction false} RunRefs(s: Vfs, ops: seq<Op>)
    requires Inv(s) && Run(s, ops)
    ensures Inv(After(s, ops)) && (Exact(After(s, ops)) <==> Exact(s) && NeverLeaks(s, ops))
    decreases |ops|
  {
    if ops != [] {
      DoInv(s, ops[0]);
      RunRefs(Do(s, ops[0]), ops[1..]);
    }
  }

  function Unopened(): (o: Objects)
    ensures Sized(o) && forall h :: Counted(h) ==> !Get(o, h).used
  {
    Objects(seq(FILES, _ => Slot(false, 0)), seq(CPUINFOS, _ => Slot(false, 0)), seq(SOCKETS, _ => Slot(false, 0)))
  }

  /** No task and nothing open. */
  function Boot(): Vfs { Vfs([], Unopened(), multiset{}) }

  lemma BootInv()
    ensures Inv(Boot()) && Exact(Boot())
  {
    forall h | Counted(h) ensures RefsOk(Boot().o, Names(Boot()), h) {}
  }

  /** A reference does get lost: a task opens a file, duplicates it onto descriptor 0 and has its
      terminal bound again. The file's count stays above its mentions from then on. */
  lemma ReferenceLost() returns (ops: seq<Op>)
    ensures ops == [DoSpawn(0), DoOpen(0, AFile), DoDup2(0, 3, 0, 0), DoBind(0, 0)]
    ensures Run(Boot(), ops) && Inv(After(Boot(), ops)) && !Exact(After(Boot(), ops))
  {
    hide Exact, Inv, Names;
    ops := [DoSpawn(0), DoOpen(0, AFile), DoDup2(0, 3, 0, 0), DoBind(0, 0)];
    BootInv();
    var s1 := Do(Boot(), ops[0]);
    DoInv(Boot(), ops[0]);
    FileOpened(s1);
    var s2 := Do(s1, ops[1]);
    DoInv(s1, ops[1]);
    Dup2Effect(s2, 0, 3, 0, 0);
    var s3 := Do(s2, ops[2]);
    assert s3.tables[0][0] == 0 && Counted(0);
    var rest := ops[1..];
    assert rest == [DoOpen(0, AFile), DoDup2(0, 3, 0, 0), DoBind(0, 0)];
    assert rest[1..] == [DoDup2(0, 3, 0, 0), DoBind(0, 0)] && rest[1..][1..] == [DoBind(0, 0)];
    assert Leaks(s3, DoBind(0, 0)) && Run(s3, [DoBind(0, 0)]) && !NeverLeaks(s3, [DoBind(0, 0)]);
    assert Run(s2, rest[1..]) && !NeverLeaks(s2, rest[1..]);
    assert Run(s1, rest) && !NeverLeaks(s1, rest);
    RunRefs(Boot(), ops);
  }

  lemma FileOpened(s: Vfs)
    requires s == Spawn(Boot(), 0)
    ensures HasTask(s, 0) && HasTask(OpenObject(s, 0, AFile).s, 0) && OpenObject(s, 0, AFile).s.tables[0][3] == 0
  {
    assert s.tables[0][0] == s.tables[0][1] == s.tables[0][2] == TTY_BASE && s.tables[0][3] == EMPTY;
    FirstEmptyIs(s.tables[0], 3);
    FirstUnusedIs(s.o.files, 0);
  }

  lemma TidySteps(o: Objects, h: int)
    requires Sized(o) && Tidy(o)
    ensures Tidy(FileClose(o, h).o) && Tidy(DupHandle(o, h)) && (Counted(h) ==> Tidy(Put(o, h, Slot(true, 1))))
  {
  }

  lemma {:induction false} ForkTidy(s: Vfs, t: nat, c: nat, i: nat)
    requires HasTask(s, t) && HasTask(s, c) && i <= MAX_FDS && Tidy(s.o)
    ensures Tidy(ForkFrom(s, t, c, i).o)
    decreases MAX_FDS - i
  {
    hide Tidy, DupHandle;
    if i < MAX_FDS {
      TidySteps(s.o, s.tables[t][i]);
      ForkTidy(ForkFd(s, t, c, i), t, c, i + 1);
    }
  }

  lemma {:induction false} ExitTidy(s: Vfs, t: nat, i: nat)
    requires HasTask(s, t) && i <= MAX_FDS && Tidy(s.o)
    ensures Tidy(ExitFrom(s, t, i).o)
    decreases MAX_FDS - i
  {
    hide Tidy, FileClose;
    if i < MAX_FDS {
      TidySteps(s.o, s.tables[t][i]);
      ExitTidy(ExitFd(s, t, i), t, i + 1);
    }
  }

  lemma DoTidy(s: Vfs, op: Op)
    requires Allowed(s, op) && Tidy(s.o)
    ensures Tidy(Do(s, op).o)
  {
    hide Tidy, FileClose, DupHandle, Put;
    match op {
      case DoOpen(t, k) =>
        var h := NewHandle(s.o, k);
        TidySteps(s.o, h);
        if h != EMPTY { TidySteps(Put(s.o, h, Slot(true, 1)), h); }
      case DoDevice(t, h) => TidySteps(s.o, h);
      case DoClose(t, fd) => CloseTidy(s, t, fd);
      case DoDup2(t, a, b, tty) =>
        CloseTidy(s, t, b);
        if 0 <= a < MAX_FDS { TidySteps(CloseFd(s, t, b).s.o, s.tables[t][a]); }
      case DoBind(t, tty) =>
      case DoFork(t) => ForkTidy(NewTask(s), t, |s.tables|, 0);
      case DoSpawn(tty) =>
      case DoExit(t) => ExitTidy(s, t, 0);
      case DoHold(k) => TidySteps(s.o, NewHandle(s.o, k));
      case DoRelease(h) => TidySteps(s.o, h);
    }
  }

  lemma CloseTidy(s: Vfs, t: nat, fd: int)
    requires HasTask(s, t) && Tidy(s.o)
    ensures Tidy(CloseFd(s, t, fd).s.o)
  {
    hide Tidy, FileClose;
    if 0 <= fd < MAX_FDS { TidySteps(s.o, s.tables[t][fd]); }
  }

  lemma {:induction false} RunTidy(s: Vfs, ops: seq<Op>)
    requires Run(s, ops) && Shape(s) && Inv(s) && Tidy(s.o)
    ensures Shape(After(s, ops)) && Tidy(After(s, ops).o)
    decreases |ops|
  {
    hide Tidy, Inv;
    if ops == [] {
    } else {
      DoTidy(s, ops[0]);
      DoInv(s, ops[0]);
      ShapeOf(Do(s, ops[0]));
      RunTidy(Do(s, ops[0]), ops[1..]);
    }
  }

  lemma ShapeOf(s: Vfs)
    requires Inv(s)
    ensures Shape(s)
  {}

  /** In every run from boot a failed open leaves everything as it was. */
  lemma FailedOpen(ops: seq<Op>, t: nat, k: Kind)
    requires Run(Boot(), ops) && HasTask(After(Boot(), ops), t) && OpenObject(After(Boot(), ops), t, k).result < 0
    ensures OpenObject(After(Boot(), ops), t, k) == Done(After(Boot(), ops), -1)
  {
    BootInv();
    RunTidy(Boot(), ops);
    OpenEffect(After(Boot(), ops), t, k);
  }

  /** So an object is never handed out again while some descriptor, or the kernel, still names it. */
  lemma NeverRecycled(s: Vfs, ops: seq<Op>, t: nat, fd: nat)
    requires Inv(s) && Run(s, ops) && HasTask(After(s, ops), t) && fd < MAX_FDS
    requires Counted(After(s, ops).tables[t][fd])
    ensures var u := After(s, ops);
      Get(u.o, u.tables[t][fd]).used && forall k :: NewHandle(u.o, k) != u.tables[t][fd]
  {
    RunRefs(s, ops);
    var u := After(s, ops);
    SetFdNames(u, t, fd, EMPTY);
    assert RefsOk(u.o, Names(u), u.tables[t][fd]);
  }

  // ------------------------------------------------------------------------------------------
  // The code
  // ------------------------------------------------------------------------------------------

  class FileTables {
    var tables: seq<seq<int>>
    var o: Objects
    ghost var held: multiset<int>

    ghost function View(): Vfs
      reads this
    {
      Vfs(tables, o, held)
    }

    /** At boot nothing is open and there is no task yet. */
    constructor ()
      ensures View() == Boot() && Inv(View()) && Exact(View())
    {
      tables, o, held := [], Unopened(), multiset{};
      new;
      BootInv();
    }

    /** The scan of `vfs_attach_handle`. */
    method AttachHandle(t: nat, h: int) returns (fd: int)
      requires HasTask(View(), t)
      modifies this`tables
      ensures Done(View(), fd) == Attach(old(View()), t, h)
    {
      var i := 0;
      while i < MAX_FDS
        invariant 0 <= i <= MAX_FDS && forall j :: 0 <= j < i ==> tables[t][j] != EMPTY
      {
        if tables[t][i] == EMPTY {
          FirstEmptyIs(tables[t], i);
          tables := tables[t := tables[t][i := h]];
          return i;
        }
        i := i + 1;
      }
      FirstEmptyIs(tables[t], i);
      return -1;
    }

    /** The scans of `fat16_open`, `cpuinfo_open` and `socket_create` for a free slot. */
    method FindUnused(xs: seq<Slot>) returns (i: nat)
      ensures i == FirstUnused(xs)
    {
      i := 0;
      while i < |xs| && xs[i].used
        invariant 0 <= i <= |xs| && forall j :: 0 <= j < i ==> xs[j].used
      {
        i := i + 1;
      }
      FirstUnusedIs(xs, i);
    }

    method NewObject(k: Kind) returns (h: int)
      requires Sized(o)
      modifies this`o
      ensures h == NewHandle(old(o), k) && o == if h == EMPTY then old(o) else Put(old(o), h, Slot(true, 1))
    {
      var i;
      match k {
        case AFile => i := FindUnused(o.files); h := if i < FILES then i else EMPTY;
        case ACpuinfo => i := FindUnused(o.cpus); h := if i < CPUINFOS then CPUINFO_BASE - i else EMPTY;
        case ASocket => i := FindUnused(o.socks); h := if i < SOCKETS then SOCKET_BASE - i else EMPTY;
      }
      if h != EMPTY { o := Put(o, h, Slot(true, 1)); }
    }

    /** `vfs_open` on a counted object, and the socket call. */
    method Open(t: nat, k: Kind) returns (fd: int)
      requires Inv(View()) && HasTask(View(), t)
      modifies this`tables, this`o
      ensures Inv(View()) && Done(View(), fd) == OpenObject(old(View()), t, k)
    {
      OpenObjectInv(View(), t, k);
      var h := NewObject(k);
      if h == EMPTY { return -1; }
      fd := AttachHandle(t, h);
      if fd < 0 { o := FileClose(o, h).o; }
    }

    method Close(t: nat, fd: int) returns (r: int)
      requires Inv(View()) && HasTask(View(), t)
      modifies this`tables, this`o
      ensures Inv(View()) && Done(View(), r) == CloseFd(old(View()), t, fd)
    {
      CloseFdInv(View(), t, fd);
      if fd < 0 || fd >= MAX_FDS || tables[t][fd] == EMPTY { return -1; }
      var c := FileClose(o, tables[t][fd]);
      o, r := c.o, c.result;
      if r == 0 { tables := tables[t := tables[t][fd := EMPTY]]; }
    }

    /** `vfs_dup2`. */
    method Duplicate(t: nat, oldfd: int, newfd: int, tty: int) returns (r: int)
      requires Inv(View()) && HasTask(View(), t)
      modifies this`tables, this`o
      ensures Inv(View()) && Done(View(), r) == Dup2(old(View()), t, oldfd, newfd, tty)
    {
      hide Names, Bag, Covered, FileClose, Put;
      Dup2Inv(View(), t, oldfd, newfd, tty);
      if oldfd < 0 || newfd < 0 || oldfd >= MAX_FDS || newfd >= MAX_FDS || tables[t][oldfd] == EMPTY { return -1; }
      if oldfd == newfd { return newfd; }
      if newfd <= 2 && TtyId(tables[t][oldfd]) >= 0 && TtyId(tables[t][oldfd]) != tty { return -1; }
      ClosedEmpty(View(), t, newfd);
      if tables[t][newfd] != EMPTY {
        var _ := Close(t, newfd);
      }
      tables := tables[t := tables[t][newfd := tables[t][oldfd]]];
      o := DupHandle(o, tables[t][newfd]);
      return newfd;
    }

    /** `vfs_fork_fds`. */
    method ForkTable(t: nat)
      requires Inv(View()) && HasTask(View(), t)
      modifies this`tables, this`o
      ensures Inv(View()) && View() == Fork(old(View()), t)
    {
      hide Names, Bag, Covered, FileClose, Put, DupHandle, ExactIn, Empties;
      ghost var s, c := View(), |tables|;
      ForkInv(s, t);
      NewTaskInv(s);
      tables := tables + [Empties(MAX_FDS)];
      var i := 0;
      while i < MAX_FDS
        invariant 0 <= i <= MAX_FDS && HasTask(View(), t) && HasTask(View(), c) && held == s.held
        invariant ForkFrom(View(), t, c, i) == Fork(s, t) && |tables| == c + 1
      {
        var h := tables[t][i];
        o := DupHandle(o, h);
        tables := tables[|tables| - 1 := tables[|tables| - 1][i := h]];
        i := i + 1;
      }
    }

    /** `vfs_exit_fds`. */
    method ExitTable(t: nat)
      requires Inv(View()) && HasTask(View(), t)
      modifies this`tables, this`o
      ensures Inv(View()) && View() == ExitFrom(old(View()), t, 0)
      ensures tables == old(tables)[t := Empties(MAX_FDS)]
    {
      ghost var s := View();
      ExitInv(s, t);
      var i := 0;
      while i < MAX_FDS
        invariant 0 <= i <= MAX_FDS && HasTask(View(), t) && held == s.held
        invariant ExitFrom(View(), t, i) == ExitFrom(s, t, 0)
      {
        if tables[t][i] != EMPTY {
          o := FileClose(o, tables[t][i]).o;
          tables := tables[t := tables[t][i := EMPTY]];
        }
        i := i + 1;
      }
    }
  }

  lemma {:induction false} FirstEmptyIs(tab: seq<int>, i: nat)
    requires i <= |tab| && (forall j :: 0 <= j < i ==> tab[j] != EMPTY) && (i < |tab| ==> tab[i] == EMPTY)
    ensures FirstEmpty(tab) == i
  {
    var k := FirstEmpty(tab);
  }

  lemma {:induction false} FirstUnusedIs(xs: seq<Slot>, i: nat)
    requires i <= |xs| && (forall j :: 0 <= j < i ==> xs[j].used) && (i < |xs| ==> !xs[i].used)
    ensures FirstUnused(xs) == i
  {
    var k := FirstUnused(xs);
  }
}
