/**
 What each operation on event registrations does, read off the event bits, the contexts and the queue before and
 after: who is woken, what stays, and when an assertion fails.
 */
module IoEffects {
  import opened Wrappers
  import opened Tasks
  import opened IoSpec
  import P = IoProofs

  /**
   Of the fd's registrations those for reading (if `rd`) and writing (if `wr`) are gone, and their tasks are at
   the end of the queue, the reader's first, for any thread to take. Nothing else is different.
   */
  ghost predicate Woke(io: Io, fd: Fd, rd: bool, wr: bool, io': Io)
    requires fd < |io.fds| && ContextOk(io.fds[fd]) && (rd ==> io.fds[fd].events.read) && (wr ==> io.fds[fd].events.write)
  {
    && Inv(io') && |io'.fds| == |io.fds| && (forall i | 0 <= i < |io.fds| && i != fd :: io'.fds[i] == io.fds[i])
    && var c, c' := io.fds[fd], io'.fds[fd];
       && c'.events.read == (c.events.read && !rd) && c'.events.write == (c.events.write && !wr)
       && c'.read == (if rd then EMPTY else c.read) && c'.write == (if wr then EMPTY else c.write)
       && io'.queue == io.queue + (if rd then [Entry(TaskOf(c.read), -1)] else []) + (if wr then [Entry(TaskOf(c.write), -1)] else [])
  }

  lemma WakeMeans(io: Io, fd: Fd, which: Events)
    requires Inv(io) && fd < |io.fds| && which.Within(io.fds[fd].events) && io.fds[fd].events != NONE
    ensures ContextOk(io.fds[fd]) && Woke(io, fd, which.read, which.write, Wake(io, fd, which))
  {
    P.WakeKeepsInv(io, fd, which);
  }

  // ---- Reports ----

  /** A report is about an event if it names it, or an error or hang-up, which concern both. */
  predicate About(r: Ready, e: Event) {
    match e
    case READ => r.readable || r.error
    case WRITE => r.writable || r.error
  }

  /** It is about a registered event. */
  predicate Hits(r: Ready, c: FdContext) {
    (c.events.read && About(r, READ)) || (c.events.write && About(r, WRITE))
  }

  /** It names an event that is not registered. */
  predicate Strays(r: Ready, c: FdContext) {
    (r.readable && !c.events.read) || (r.writable && !c.events.write)
  }

  /**
   One report: exactly the registered events it is about are withdrawn and their tasks queued, unless the kernel
   fails. The assertion fails exactly for one that is about a registered event and names an unregistered one.
   */
  lemma ReportMeans(io: Io, r: Ready, fault: bool)
    requires Inv(io) && r.fd < |io.fds|
    ensures var c, o := io.fds[r.fd], HandleReady(io, r, fault);
            && ContextOk(c)
            && (o.Abort? <==> !fault && Hits(r, c) && Strays(r, c))
            && (o.Done? ==> o.ok == (!fault && Hits(r, c)))
            && (o.Done? ==> if o.ok then Woke(io, r.fd, c.events.read && About(r, READ), c.events.write && About(r, WRITE), o.io) else o.io == io)
  {
    var c := io.fds[r.fd];
    assert ContextOk(c);
    P.HandleReadyMeaning(io, r, fault);
    var actual := RealEvents(r, c);
    assert Hits(r, c) <==> actual.And(c.events) != NONE;
    if HandleReady(io, r, fault).Done? && !fault && Hits(r, c) {
      assert P.Consistent(r, c) && actual == Events(c.events.read && About(r, READ), c.events.write && About(r, WRITE));
      WakeMeans(io, r.fd, actual);
    }
  }

  /** A hang-up alone wakes a fibre that waits for reading, on any fd. */
  lemma HangUpWakes(size: nat, fd: Fd, f: FibreId)
    requires size >= 32
    ensures fd < |Grow(Initial(size).fds, fd)|
    ensures var io := P.Registered(Initial(size), fd, READ, FibreTask(f));
            && AddEvent(Initial(size), fd, READ, FibreTask(f), false) == Done(true, io)
            && var o := HandleReady(io, Ready(fd, false, false, true), false);
               o.Done? && o.io.queue == [Entry(FibreTask(f), -1)] && SlotFree(o.io, fd, READ)
  {
    P.InitialInv(size);
    P.AddEventMeaning(Initial(size), fd, READ, FibreTask(f), false);
    P.RegisteredKeeps(Initial(size), fd, READ, FibreTask(f));
    var io := P.Registered(Initial(size), fd, READ, FibreTask(f));
    P.SlotIsFree(Initial(size), fd, READ);
    assert io.fds[fd] == FdContext(Events(true, false), EventContext(true, Some(f), None), EMPTY);
    ReportMeans(io, Ready(fd, false, false, true), false);
  }

  /** What is left registered at `i` after reports: what none of them, not refused by the kernel, is about. */
  ghost predicate LeftBy(rs: seq<(Ready, bool)>, fd: Fd, c: FdContext, c': FdContext) {
    && c'.events.read == (c.events.read && !exists i :: 0 <= i < |rs| && rs[i].0.fd == fd && !rs[i].1 && About(rs[i].0, READ))
    && c'.events.write == (c.events.write && !exists i :: 0 <= i < |rs| && rs[i].0.fd == fd && !rs[i].1 && About(rs[i].0, WRITE))
  }

  /** The whole loop: of every fd exactly the registrations that some report is about are gone. */
  lemma {:induction false} ReportsMean(io: Io, rs: seq<(Ready, bool)>, fd: Fd)
    requires Inv(io) && P.GoodReports(io, rs) && fd < |io.fds|
    ensures var o := HandleAll(io, rs);
            o.Done? && fd < |o.io.fds| && LeftBy(rs, fd, io.fds[fd], o.io.fds[fd])
    decreases |rs|
  {
    if rs != [] {
      P.HandleReadyKeeps(io, rs[0].0, rs[0].1);
      var io1 := HandleReady(io, rs[0].0, rs[0].1).io;
      FirstReport(io, rs[0].0, rs[0].1, fd);
      P.GoodReportsTail(io, rs, io1);
      ReportsMean(io1, rs[1..], fd);
      LeftByOneMore(rs, fd, io.fds[fd], io1.fds[fd], HandleAll(io1, rs[1..]).io.fds[fd]);
    }
  }

  lemma FirstReport(io: Io, r: Ready, fault: bool, fd: Fd)
    requires Inv(io) && r.fd < |io.fds| && P.Consistent(r, io.fds[r.fd]) && fd < |io.fds|
    ensures var o := HandleReady(io, r, fault);
            && o.Done? && fd < |o.io.fds|
            && o.io.fds[fd].events.read == (io.fds[fd].events.read && !(r.fd == fd && !fault && About(r, READ)))
            && o.io.fds[fd].events.write == (io.fds[fd].events.write && !(r.fd == fd && !fault && About(r, WRITE)))
  {
    P.HandleReadyMeaning(io, r, fault);
    ReportMeans(io, r, fault);
  }

  lemma LeftByOneMore(rs: seq<(Ready, bool)>, fd: Fd, c: FdContext, c1: FdContext, c2: FdContext)
    requires rs != [] && LeftBy(rs[1..], fd, c1, c2)
    requires c1.events.read == (c.events.read && !(rs[0].0.fd == fd && !rs[0].1 && About(rs[0].0, READ)))
    requires c1.events.write == (c.events.write && !(rs[0].0.fd == fd && !rs[0].1 && About(rs[0].0, WRITE)))
    ensures LeftBy(rs, fd, c, c2)
  {
    assert forall i | 0 <= i < |rs[1..]| :: rs[1..][i] == rs[i + 1];
    assert forall i | 0 < i < |rs| :: rs[i] == rs[1..][i - 1];
  }

  // ---- Operations of clients ----

  /** There is a registration for the event. */
  predicate Has(io: Io, fd: Fd, e: Event) {
    fd < |io.fds| && (match e case READ => io.fds[fd].events.read case WRITE => io.fds[fd].events.write)
  }

  /** cancelEvent wakes who is registered for the event, and nobody else. */
  lemma CancelEventMeans(io: Io, fd: Fd, e: Event, fault: bool)
    requires Inv(io)
    ensures var o := CancelEvent(io, fd, e, fault);
            && o.Done? && o.ok == (Has(io, fd, e) && !fault)
            && if o.ok then ContextOk(io.fds[fd]) && Woke(io, fd, e == READ, e == WRITE, o.io) else o.io == io
  {
    P.CancelEventMeaning(io, fd, e, fault);
    if Has(io, fd, e) && !fault {
      WakeMeans(io, fd, Only(e));
    }
  }

  /** cancelAll wakes everybody registered for the fd. */
  lemma CancelAllMeans(io: Io, fd: Fd, fault: bool)
    requires Inv(io)
    ensures var o := CancelAll(io, fd, fault);
            && o.Done? && o.ok == ((Has(io, fd, READ) || Has(io, fd, WRITE)) && !fault)
            && if o.ok then ContextOk(io.fds[fd]) && Woke(io, fd, io.fds[fd].events.read, io.fds[fd].events.write, o.io) else o.io == io
  {
    P.CancelAllMeaning(io, fd, fault);
    if fd < |io.fds| && io.fds[fd].events != NONE && !fault {
      WakeMeans(io, fd, io.fds[fd].events);
    }
  }

  /** delEvent does what cancelEvent does, but the task gets lost instead of queued. */
  lemma DelEventMeans(io: Io, fd: Fd, e: Event, fault: bool)
    requires Inv(io)
    ensures var o := DelEvent(io, fd, e, fault);
            && o.Done? && o.ok == (Has(io, fd, e) && !fault)
            && (o.ok ==> CancelEvent(io, fd, e, fault).Done? && o.io == CancelEvent(io, fd, e, fault).io.(queue := io.queue))
            && (!o.ok ==> o.io == io)
  {
    P.DelEventMeaning(io, fd, e, fault);
    P.CancelEventMeaning(io, fd, e, fault);
  }

  /** `task` is registered for the event, nothing else is different; the table has room for the fd, half as much again if it had not. */
  ghost predicate Joined(io: Io, fd: Fd, e: Event, task: Task, io': Io) {
    && Inv(io') && io'.queue == io.queue
    && |io'.fds| == (if fd < |io.fds| then |io.fds| else fd * 3 / 2) && fd < |io'.fds|
    && (forall i | 0 <= i < |io'.fds| && i != fd :: io'.fds[i] == if i < |io.fds| then io.fds[i] else NOTHING)
    && JoinedAt(if fd < |io.fds| then io.fds[fd] else NOTHING, e, task, io'.fds[fd])
  }

  /** In the context of the fd: the event's bit and its own half of the context. */
  predicate JoinedAt(c: FdContext, e: Event, task: Task, c': FdContext) {
    var x := if e == READ then c'.read else c'.write;
    && c'.events.read == (c.events.read || e == READ) && c'.events.write == (c.events.write || e == WRITE)
    && (e == WRITE ==> c'.read == c.read) && (e == READ ==> c'.write == c.write)
    && x.scheduler && (match task case FibreTask(f) => x.fibre == Some(f) && x.cb.None? case CbTask(b) => x.cb == Some(b) && x.fibre.None?)
  }

  /** addEvent: the assertion fails exactly for an event somebody is registered for already. */
  lemma AddEventMeans(io: Io, fd: Fd, e: Event, task: Task, fault: bool)
    requires Inv(io)
    ensures var o := AddEvent(io, fd, e, task, fault);
            && (o.Abort? <==> Has(io, fd, e))
            && (o.Done? ==> o.ok == !fault && (o.ok ==> Joined(io, fd, e, task, o.io)) && (!o.ok ==> o.io == io.(fds := o.io.fds)))
  {
    P.AddEventMeaning(io, fd, e, task, fault);
    P.GrowShape(io, fd);
    P.SlotIsFree(io, fd, e);
    if !Has(io, fd, e) && !fault {
      P.RegisteredKeeps(io, fd, e, task);
      assert Grow(io.fds, fd)[fd] == if fd < |io.fds| then io.fds[fd] else NOTHING;
    }
  }
}
