/**
 What every operation of IOManager on event registrations keeps: the views agree, no assertion fails, every
 epoll_ctl call is one the kernel accepts, and no task is lost or duplicated on the way to the queue.
 */
module IoProofs {
  import opened Wrappers
  import opened Tasks
  import opened IoSpec

  // ---- Triggering is waking ----

  lemma TriggerOne(ok: bool, io: Io, fd: Fd, e: Event, which: Events)
    requires fd < |io.fds| && ContextOk(io.fds[fd]) && which.Has(e) && io.fds[fd].events.Has(e)
    ensures TriggerIf(Done(ok, io), fd, e, which) == Done(ok, Wake(io, fd, Only(e)).(kernel := io.kernel))
    ensures ContextOk(Left(io.fds[fd], Only(e)))
  {
    assert Armed(io.fds[fd].Get(e));
  }

  /** Waking one event and then the other is waking both. */
  lemma WakeTwice(io: Io, fd: Fd)
    requires fd < |io.fds| && ContextOk(io.fds[fd]) && io.fds[fd].events == Events(true, true)
    ensures var io1 := Wake(io, fd, Only(READ));
            && ContextOk(io1.fds[fd]) && Only(WRITE).Within(io1.fds[fd].events)
            && (forall k: Kernel :: Wake(io1.(kernel := k), fd, Only(WRITE)).(kernel := k) == Wake(io, fd, Events(true, true)).(kernel := k))
  {
    var c := io.fds[fd];
    assert Left(Left(c, Only(READ)), Only(WRITE)) == Left(c, Events(true, true));
    assert io.fds[fd := Left(c, Only(READ))][fd := Left(c, Events(true, true))] == io.fds[fd := Left(c, Events(true, true))];
    assert io.queue + Woken(c, Only(READ)) + Woken(Left(c, Only(READ)), Only(WRITE)) == io.queue + Woken(c, Events(true, true));
  }

  lemma WakeNone(io: Io, fd: Fd)
    requires fd < |io.fds| && ContextOk(io.fds[fd])
    ensures Wake(io, fd, NONE).(kernel := io.kernel) == io
  {
    assert io.fds[fd := Left(io.fds[fd], NONE)] == io.fds;
    assert io.queue + [] == io.queue;
  }

  /** Triggering a set of registered events one after the other is waking them. */
  lemma TriggerBoth(io: Io, fd: Fd, which: Events)
    requires fd < |io.fds| && ContextOk(io.fds[fd]) && which.Within(io.fds[fd].events)
    ensures TriggerIf(TriggerIf(Done(true, io), fd, READ, which), fd, WRITE, which) ==
            Done(true, Wake(io, fd, which).(kernel := io.kernel))
  {
    if which.read && which.write {
      TriggerOne(true, io, fd, READ, which);
      WakeTwice(io, fd);
      TriggerOne(true, Wake(io, fd, Only(READ)).(kernel := io.kernel), fd, WRITE, which);
    } else if which.read {
      TriggerOne(true, io, fd, READ, which);
    } else if which.write {
      TriggerOne(true, io, fd, WRITE, which);
    } else {
      WakeNone(io, fd);
    }
  }

  /** cancelEvent of a registered event wakes exactly that one, unless the kernel fails by itself. */
  lemma CancelEventMeaning(io: Io, fd: Fd, e: Event, fault: bool)
    requires Inv(io)
    ensures CancelEvent(io, fd, e, fault) ==
            if fd < |io.fds| && io.fds[fd].events.Has(e) && !fault then Done(true, Wake(io, fd, Only(e))) else Done(false, io)
  {
    if fd < |io.fds| && io.fds[fd].events.Has(e) {
      assert ContextOk(io.fds[fd]) && fd in io.kernel;
      TriggerOne(true, io, fd, e, Only(e));
    }
  }

  /** cancelAll wakes every registered event of the fd, READ first, and its final assertion holds. */
  lemma CancelAllMeaning(io: Io, fd: Fd, fault: bool)
    requires Inv(io)
    ensures CancelAll(io, fd, fault) ==
            if fd < |io.fds| && io.fds[fd].events != NONE && !fault then Done(true, Wake(io, fd, io.fds[fd].events)) else Done(false, io)
  {
    if fd < |io.fds| && io.fds[fd].events != NONE && !fault {
      var c := io.fds[fd];
      assert ContextOk(c) && fd in io.kernel;
      var io0 := io.(kernel := io.kernel - {fd});
      TriggerBoth(io0, fd, c.events);
      if c.events.read {
        TriggerOne(true, io0, fd, READ, c.events);
      }
    }
  }

  // ---- Counting ----

  lemma {:induction false} BitsUpdate(fds: seq<FdContext>, i: nat, c: FdContext)
    requires i < |fds|
    ensures SetBits(fds[i := c]) + Bits(fds[i]) == SetBits(fds) + Bits(c)
  {
    if i == 0 {
      assert fds[i := c][1..] == fds[1..];
    } else {
      assert fds[i := c][1..] == fds[1..][i - 1 := c];
      BitsUpdate(fds[1..], i - 1, c);
    }
  }

  lemma {:induction false} WaitUpdate(fds: seq<FdContext>, i: nat, c: FdContext, t: Task)
    requires i < |fds|
    ensures WaitCount(fds[i := c], t) + FdCount(fds[i], t) == WaitCount(fds, t) + FdCount(c, t)
  {
    if i == 0 {
      assert fds[i := c][1..] == fds[1..];
    } else {
      assert fds[i := c][1..] == fds[1..][i - 1 := c];
      WaitUpdate(fds[1..], i - 1, c, t);
    }
  }

  /** Empty contexts at the end count for nothing. */
  lemma {:induction false} BlankBits(fds: seq<FdContext>, n: nat)
    ensures SetBits(fds + Blank(n)) == SetBits(fds)
    decreases |fds| + n
  {
    if fds != [] {
      assert (fds + Blank(n))[1..] == fds[1..] + Blank(n);
      BlankBits(fds[1..], n);
    } else if n > 0 {
      assert (fds + Blank(n))[1..] == [] + Blank(n - 1);
      BlankBits([], n - 1);
    }
  }

  lemma {:induction false} BlankWaits(fds: seq<FdContext>, n: nat, t: Task)
    ensures WaitCount(fds + Blank(n), t) == WaitCount(fds, t)
    decreases |fds| + n
  {
    if fds != [] {
      assert (fds + Blank(n))[1..] == fds[1..] + Blank(n);
      BlankWaits(fds[1..], n, t);
    } else if n > 0 {
      assert (fds + Blank(n))[1..] == [] + Blank(n - 1);
      BlankWaits([], n - 1, t);
    }
  }

  /** No bit set means that nothing waits. */
  lemma {:induction false} NoBitsNoWaits(fds: seq<FdContext>, t: Task)
    requires forall i | 0 <= i < |fds| :: ContextOk(fds[i])
    ensures WaitCount(fds, t) <= SetBits(fds)
  {
    if fds != [] {
      NoBitsNoWaits(fds[1..], t);
    }
  }

  /** `io'` differs from `io` in the context of `fd`, and its interest list and count follow suit. */
  ghost predicate Updates(io: Io, fd: Fd, io': Io) {
    && fd < |io.fds| && |io'.fds| == |io.fds|
    && io'.fds == io.fds[fd := io'.fds[fd]]
    && io'.kernel == (if io'.fds[fd].events == NONE then io.kernel - {fd} else io.kernel[fd := io'.fds[fd].events])
    && io'.pending - io.pending == Bits(io'.fds[fd]) - Bits(io.fds[fd])
  }

  /** Replacing one context by another legal one, with the rest following suit, keeps the agreement. */
  lemma UpdateKeepsInv(io: Io, fd: Fd, io': Io)
    requires Inv(io) && Updates(io, fd, io') && ContextOk(io'.fds[fd])
    ensures Inv(io')
  {
    KernelUpdate(io, fd, io');
    BitsUpdate(io.fds, fd, io'.fds[fd]);
    assert forall i | 0 <= i < |io'.fds| && i != fd :: io'.fds[i] == io.fds[i];
  }

  lemma KernelUpdate(io: Io, fd: Fd, io': Io)
    requires KernelAgrees(io) && Updates(io, fd, io')
    ensures KernelAgrees(io')
  {
  }

  // ---- Waking ----

  lemma LeftOk(c: FdContext, which: Events)
    requires ContextOk(c) && which.Within(c.events)
    ensures ContextOk(Left(c, which))
    ensures Bits(c) == Bits(Left(c, which)) + which.Count()
    ensures forall e | e in Woken(c, which) :: e.thread == -1
  {
  }

  lemma WokenCount(c: FdContext, which: Events, t: Task)
    requires ContextOk(c) && which.Within(c.events)
    ensures FdCount(c, t) == FdCount(Left(c, which), t) + QueueCount(Woken(c, which), t)
  {
    var r := if which.read then [Entry(TaskOf(c.read), -1)] else [];
    var w := if which.write then [Entry(TaskOf(c.write), -1)] else [];
    QueueConcat(r, w, t);
  }

  /** Waking keeps the agreement of all views. */
  lemma WakeKeepsInv(io: Io, fd: Fd, which: Events)
    requires Inv(io) && fd < |io.fds| && which.Within(io.fds[fd].events) && io.fds[fd].events != NONE
    ensures ContextOk(io.fds[fd]) && Inv(Wake(io, fd, which))
  {
    assert ContextOk(io.fds[fd]) && fd in io.kernel;
    LeftOk(io.fds[fd], which);
    UpdateKeepsInv(io, fd, Wake(io, fd, which));
  }

  /** Waking moves each woken task to the queue, once. */
  lemma WakeMoves(io: Io, fd: Fd, which: Events, t: Task)
    requires fd < |io.fds| && ContextOk(io.fds[fd]) && which.Within(io.fds[fd].events)
    ensures WaitCount(io.fds, t) == WaitCount(Wake(io, fd, which).fds, t) + QueueCount(Woken(io.fds[fd], which), t)
    ensures QueueCount(Wake(io, fd, which).queue, t) == QueueCount(io.queue, t) + QueueCount(Woken(io.fds[fd], which), t)
    ensures Held(Wake(io, fd, which), t) == Held(io, t)
  {
    WaitUpdate(io.fds, fd, Left(io.fds[fd], which), t);
    WokenCount(io.fds[fd], which, t);
    QueueConcat(io.queue, Woken(io.fds[fd], which), t);
  }

  // ---- addEvent ----

  lemma GrowShape(io: Io, fd: Fd)
    requires |io.fds| >= 32
    ensures var fds := Grow(io.fds, fd);
            && fd < |fds| && |io.fds| <= |fds| && fds == io.fds + Blank(|fds| - |io.fds|)
  {
  }

  /** Room can be made beforehand. */
  lemma GrowFirst(io: Io, fd: Fd, e: Event, task: Task, fault: bool)
    requires |io.fds| >= 32
    ensures AddEvent(io.(fds := Grow(io.fds, fd)), fd, e, task, fault) == AddEvent(io, fd, e, task, fault)
  {
    GrowShape(io, fd);
  }

  /** Growth makes room for the fd and changes nothing else. */
  lemma GrowKeeps(io: Io, fd: Fd)
    requires Inv(io)
    ensures Inv(io.(fds := Grow(io.fds, fd))) && fd < |Grow(io.fds, fd)|
    ensures forall t :: WaitCount(Grow(io.fds, fd), t) == WaitCount(io.fds, t)
  {
    GrowShape(io, fd);
    var fds := Grow(io.fds, fd);
    var more := Blank(|fds| - |io.fds|);
    BlankBits(io.fds, |more|);
    GrowKernel(io, fds, more);
    forall t ensures WaitCount(fds, t) == WaitCount(io.fds, t) {
      BlankWaits(io.fds, |more|, t);
    }
  }

  lemma GrowKernel(io: Io, fds: seq<FdContext>, more: seq<FdContext>)
    requires KernelAgrees(io) && fds == io.fds + more && forall i | 0 <= i < |more| :: more[i] == NOTHING
    requires forall i | 0 <= i < |io.fds| :: ContextOk(io.fds[i])
    ensures KernelAgrees(io.(fds := fds)) && forall i | 0 <= i < |fds| :: ContextOk(fds[i])
  {
    forall i | 0 <= i < |fds| ensures ContextOk(fds[i]) && (fds[i].events != NONE ==> i in io.kernel) {
      assert fds[i] == if i < |io.fds| then io.fds[i] else NOTHING;
    }
  }

  function Registration(task: Task): EventContext {
    match task
    case FibreTask(f) => EventContext(true, Some(f), None)
    case CbTask(cb) => EventContext(true, None, Some(cb))
  }

  /** The context after registering an event. */
  function Register(c: FdContext, e: Event, task: Task): FdContext {
    c.(events := c.events.Set(e, true)).With(e, Registration(task))
  }

  lemma RegisterKeeps(c: FdContext, e: Event, task: Task)
    requires ContextOk(c) && !c.events.Has(e)
    ensures c.Get(e) == EMPTY && ContextOk(Register(c, e, task))
    ensures forall t :: FdCount(Register(c, e, task), t) == FdCount(c, t) + (if t == task then 1 else 0)
    ensures Bits(Register(c, e, task)) == Bits(c) + 1
  {
    match e case READ => case WRITE =>
  }

  /** The io state after a successful registration. */
  function Registered(io: Io, fd: Fd, e: Event, task: Task): Io
    requires fd < |Grow(io.fds, fd)|
  {
    var c := Grow(io.fds, fd)[fd];
    Io(Grow(io.fds, fd)[fd := Register(c, e, task)], io.pending + 1, io.kernel[fd := c.events.Set(e, true)], io.queue)
  }

  /**
   addEvent of an event not yet registered: the context it takes is always empty, the epoll_ctl call it makes
   is always legal, so it succeeds unless the kernel fails by itself. For an event already registered it
   ends in the assertion of line 174, and only then in one.
   */
  lemma AddEventMeaning(io: Io, fd: Fd, e: Event, task: Task, fault: bool)
    requires Inv(io)
    ensures fd < |Grow(io.fds, fd)|
    ensures AddEvent(io, fd, e, task, fault) ==
            if fd < |io.fds| && io.fds[fd].events.Has(e) then Abort(174)
            else if fault then Done(false, io.(fds := Grow(io.fds, fd)))
            else Done(true, Registered(io, fd, e, task))
  {
    GrowShape(io, fd);
    SlotIsFree(io, fd, e);
  }

  lemma SlotIsFree(io: Io, fd: Fd, e: Event)
    requires Inv(io)
    ensures fd < |Grow(io.fds, fd)|
    ensures var c := Grow(io.fds, fd)[fd];
            && (c.events != NONE <==> fd in io.kernel)
            && (!c.events.Has(e) ==> c.Get(e) == EMPTY)
            && c == if fd < |io.fds| then io.fds[fd] else NOTHING
  {
    GrowShape(io, fd);
    if fd < |io.fds| {
      assert ContextOk(io.fds[fd]);
    }
  }

  /** A successful registration keeps the views in agreement and adds exactly `task` to the waiting ones. */
  lemma RegisteredKeeps(io: Io, fd: Fd, e: Event, task: Task)
    requires Inv(io) && SlotFree(io, fd, e)
    ensures fd < |Grow(io.fds, fd)|
    ensures Inv(Registered(io, fd, e, task))
    ensures forall t :: WaitCount(Registered(io, fd, e, task).fds, t) == WaitCount(io.fds, t) + (if t == task then 1 else 0)
  {
    GrowKeeps(io, fd);
    SlotIsFree(io, fd, e);
    var io1 := io.(fds := Grow(io.fds, fd));
    var io2 := Registered(io, fd, e, task);
    assert ContextOk(io1.fds[fd]);
    RegisterKeeps(io1.fds[fd], e, task);
    assert Updates(io1, fd, io2);
    UpdateKeepsInv(io1, fd, io2);
    forall t ensures WaitCount(io2.fds, t) == WaitCount(io.fds, t) + (if t == task then 1 else 0) {
      WaitUpdate(io1.fds, fd, io2.fds[fd], t);
    }
  }

  // ---- delEvent ----

  /** delEvent takes the registration out as waking does, but queues nothing: its task is discarded. */
  lemma DelEventMeaning(io: Io, fd: Fd, e: Event, fault: bool)
    requires Inv(io)
    ensures DelEvent(io, fd, e, fault) ==
            if fd < |io.fds| && io.fds[fd].events.Has(e) && !fault then Done(true, Wake(io, fd, Only(e)).(queue := io.queue))
            else Done(false, io)
    ensures fd < |io.fds| && io.fds[fd].events.Has(e) ==> Armed(io.fds[fd].Get(e))
  {
    if fd < |io.fds| && io.fds[fd].events.Has(e) {
      assert ContextOk(io.fds[fd]) && fd in io.kernel;
    }
  }

  /** Withdrawing one event concerns exactly the task registered for it. */
  lemma WakeOne(io: Io, fd: Fd, e: Event)
    requires Inv(io) && fd < |io.fds| && io.fds[fd].events.Has(e)
    ensures Armed(io.fds[fd].Get(e)) && ContextOk(io.fds[fd])
    ensures Inv(Wake(io, fd, Only(e))) && Inv(Wake(io, fd, Only(e)).(queue := io.queue))
    ensures Woken(io.fds[fd], Only(e)) == [Entry(TaskOf(io.fds[fd].Get(e)), -1)]
    ensures forall t :: WaitCount(io.fds, t) ==
                        WaitCount(Wake(io, fd, Only(e)).fds, t) + (if t == TaskOf(io.fds[fd].Get(e)) then 1 else 0)
  {
    WakeKeepsInv(io, fd, Only(e));
    forall t ensures WaitCount(io.fds, t) ==
                     WaitCount(Wake(io, fd, Only(e)).fds, t) + (if t == TaskOf(io.fds[fd].Get(e)) then 1 else 0) {
      WakeMoves(io, fd, Only(e), t);
    }
  }

  // ---- Readiness ----

  /** The report names none of the registered events, or no event that is not registered. */
  predicate Consistent(r: Ready, c: FdContext) {
    RealEvents(r, c).And(c.events) == NONE || RealEvents(r, c).Within(c.events)
  }

  /**
   One turn of the loop over reports: it wakes exactly the reported events, unless the kernel fails. It can
   end in the assertion of triggerEvent, and does so exactly for an inconsistent report: one that names a
   registered event together with one that is not.
   */
  lemma HandleReadyMeaning(io: Io, r: Ready, fault: bool)
    requires Inv(io)
    ensures HandleReady(io, r, fault).Abort? <==> r.fd < |io.fds| && !fault && !Consistent(r, io.fds[r.fd])
    ensures HandleReady(io, r, fault).Done? ==>
              HandleReady(io, r, fault) ==
              if r.fd < |io.fds| && !fault && RealEvents(r, io.fds[r.fd]).And(io.fds[r.fd].events) != NONE
              then Done(true, Wake(io, r.fd, RealEvents(r, io.fds[r.fd])))
              else Done(false, io)
  {
    if r.fd < |io.fds| {
      var c := io.fds[r.fd];
      var which := RealEvents(r, c);
      assert ContextOk(c) && (c.events != NONE <==> r.fd in io.kernel);
      if which.And(c.events) != NONE && !fault {
        var left := c.events.Without(which);
        var io0 := io.(kernel := if left == NONE then io.kernel - {r.fd} else io.kernel[r.fd := left]);
        if which.Within(c.events) {
          TriggerBoth(io0, r.fd, which);
        } else {
          InconsistentAborts(io0, r.fd, which);
        }
      }
    }
  }

  lemma InconsistentAborts(io: Io, fd: Fd, which: Events)
    requires fd < |io.fds| && ContextOk(io.fds[fd]) && !which.Within(io.fds[fd].events)
    ensures TriggerIf(TriggerIf(Done(true, io), fd, READ, which), fd, WRITE, which).Abort?
  {
    if which.read && io.fds[fd].events.read {
      TriggerOne(true, io, fd, READ, which);
    }
  }

  lemma InitialInv(size: nat)
    requires size >= 32
    ensures Inv(Initial(size)) && forall t :: Held(Initial(size), t) == 0
  {
    assert Blank(size) == [] + Blank(size);
    BlankBits([], size);
    forall t ensures Held(Initial(size), t) == 0 {
      BlankWaits([], size, t);
    }
  }

  /**
   The assertion can fail: a fd registered for WRITE only, with a report that still says readable, as it does
   when READ is withdrawn by another thread between epoll_wait and this loop.
   */
  lemma StaleReportAborts() returns (io: Io, r: Ready)
    ensures Inv(io) && HandleReady(io, r, false).Abort?
  {
    var size := 32;
    InitialInv(size);
    RegisteredKeeps(Initial(size), 5, WRITE, FibreTask(7));
    io := Registered(Initial(size), 5, WRITE, FibreTask(7));
    r := Ready(5, true, true, false);
    assert io.fds[5].events == Events(false, true);
    HandleReadyMeaning(io, r, false);
  }

  /** Reports of one epoll_wait: each fd at most once, each consistent. */
  predicate GoodReports(io: Io, rs: seq<(Ready, bool)>) {
    && (forall i, j | 0 <= i < j < |rs| :: rs[i].0.fd != rs[j].0.fd)
    && (forall i | 0 <= i < |rs| :: rs[i].0.fd < |io.fds| && Consistent(rs[i].0, io.fds[rs[i].0.fd]))
  }

  lemma HandleReadyKeeps(io: Io, r: Ready, fault: bool)
    requires Inv(io) && r.fd < |io.fds| && Consistent(r, io.fds[r.fd])
    ensures var o := HandleReady(io, r, fault);
            && o.Done? && Inv(o.io) && io.queue <= o.io.queue
            && (forall t :: Held(o.io, t) == Held(io, t))
            && |o.io.fds| == |io.fds| && (forall i | 0 <= i < |io.fds| && i != r.fd :: o.io.fds[i] == io.fds[i])
            && (forall k | |io.queue| <= k < |o.io.queue| :: o.io.queue[k].thread == -1)
  {
    HandleReadyMeaning(io, r, fault);
    var c := io.fds[r.fd];
    var which := RealEvents(r, c);
    if which.And(c.events) != NONE && !fault {
      WakeKeepsInv(io, r.fd, which);
      LeftOk(c, which);
      forall t ensures Held(Wake(io, r.fd, which), t) == Held(io, t) {
        WakeMoves(io, r.fd, which, t);
      }
    }
  }

  /** A turn of the loop that ends normally keeps the agreement, whatever the report. */
  lemma HandleReadyEnds(io: Io, r: Ready, fault: bool)
    requires Inv(io) && r.fd < |io.fds|
    ensures HandleReady(io, r, fault).Done? ==> Inv(HandleReady(io, r, fault).io)
  {
    HandleReadyMeaning(io, r, fault);
    if Consistent(r, io.fds[r.fd]) {
      HandleReadyKeeps(io, r, fault);
    }
  }

  /** The whole loop over good reports: no assertion fails, and every task is kept. */
  lemma {:induction false} HandleAllKeeps(io: Io, rs: seq<(Ready, bool)>)
    requires Inv(io) && GoodReports(io, rs)
    ensures var o := HandleAll(io, rs);
            && o.Done? && Inv(o.io) && io.queue <= o.io.queue
            && (forall t :: Held(o.io, t) == Held(io, t))
            && (forall k | |io.queue| <= k < |o.io.queue| :: o.io.queue[k].thread == -1)
    decreases |rs|
  {
    if rs != [] {
      HandleReadyKeeps(io, rs[0].0, rs[0].1);
      var o1 := HandleReady(io, rs[0].0, rs[0].1);
      GoodReportsTail(io, rs, o1.io);
      HandleAllKeeps(o1.io, rs[1..]);
    }
  }

  lemma GoodReportsTail(io: Io, rs: seq<(Ready, bool)>, io': Io)
    requires GoodReports(io, rs) && rs != [] && |io'.fds| == |io.fds|
    requires forall i | 0 <= i < |io.fds| && i != rs[0].0.fd :: io'.fds[i] == io.fds[i]
    ensures GoodReports(io', rs[1..])
  {
    forall i | 0 <= i < |rs[1..]| ensures Consistent(rs[1..][i].0, io'.fds[rs[1..][i].0.fd]) {
      assert rs[1..][i] == rs[i + 1] && rs[i + 1].0.fd != rs[0].0.fd;
    }
  }

  // ---- What callers see of the operations ----

  /** cancelEvent: no assertion fails, the views agree, every task is kept. */
  lemma CancelEventKeeps(io: Io, fd: Fd, e: Event, fault: bool)
    requires Inv(io)
    ensures var o := CancelEvent(io, fd, e, fault);
            && o.Done? && Inv(o.io) && o.ok == (fd < |io.fds| && io.fds[fd].events.Has(e) && !fault)
            && forall t :: Held(o.io, t) == Held(io, t)
  {
    CancelEventMeaning(io, fd, e, fault);
    if fd < |io.fds| && io.fds[fd].events.Has(e) && !fault {
      WakeKeepsInv(io, fd, Only(e));
      forall t ensures Held(Wake(io, fd, Only(e)), t) == Held(io, t) {
        WakeMoves(io, fd, Only(e), t);
      }
    }
  }

  lemma CancelAllKeeps(io: Io, fd: Fd, fault: bool)
    requires Inv(io)
    ensures var o := CancelAll(io, fd, fault);
            && o.Done? && Inv(o.io) && (o.ok ==> fd < |o.io.fds| && o.io.fds[fd].events == NONE)
            && forall t :: Held(o.io, t) == Held(io, t)
  {
    CancelAllMeaning(io, fd, fault);
    if fd < |io.fds| && io.fds[fd].events != NONE && !fault {
      WakeKeepsInv(io, fd, io.fds[fd].events);
      forall t ensures Held(Wake(io, fd, io.fds[fd].events), t) == Held(io, t) {
        WakeMoves(io, fd, io.fds[fd].events, t);
      }
    }
  }

  /** delEvent: the one task registered for the event is gone, and nothing else. */
  lemma DelEventKeeps(io: Io, fd: Fd, e: Event, fault: bool)
    requires Inv(io)
    ensures var o := DelEvent(io, fd, e, fault);
            && o.Done? && Inv(o.io)
            && (o.ok ==> fd < |io.fds| && Armed(io.fds[fd].Get(e)))
            && forall t :: Held(io, t) == Held(o.io, t) + (if o.ok && t == TaskOf(io.fds[fd].Get(e)) then 1 else 0)
  {
    DelEventMeaning(io, fd, e, fault);
    if fd < |io.fds| && io.fds[fd].events.Has(e) && !fault {
      WakeOne(io, fd, e);
    }
  }

  /** addEvent of a free event: the given task is added, and nothing else. */
  lemma AddEventKeeps(io: Io, fd: Fd, e: Event, task: Task, fault: bool)
    requires Inv(io) && SlotFree(io, fd, e)
    ensures var o := AddEvent(io, fd, e, task, fault);
            && o.Done? && Inv(o.io) && o.ok == !fault
            && forall t :: Held(o.io, t) == Held(io, t) + (if o.ok && t == task then 1 else 0)
  {
    AddEventMeaning(io, fd, e, task, fault);
    if fault {
      GrowKeeps(io, fd);
    } else {
      RegisteredKeeps(io, fd, e, task);
    }
  }

  lemma QueueKeepsInv(io: Io, q: seq<Entry>)
    requires Inv(io)
    ensures Inv(io.(queue := q))
  {
  }
}
