/**
 The I/O manager as the program has it: one context object per fd, changed in place, a count of pending events,
 the kernel's interest list, the scheduler's queue and the timers. Every method is proved to do what the
 operation of the same name in `IoSpec` does to the values `View()`, and to end in one of the program's assertions
 exactly when that operation does.
 */
module IOManagers {
  import opened Words
  import opened Wrappers
  import opened Tasks
  import TT = TimerTasks
  import Io = IoSpec
  import P = IoProofs
  import E = IoEffects
  import S = Schedulers
  import T = TimerSpec
  import TM = TimerManagers

  /** How a method ends: normally with its return value, or in the failed assertion of that line. */
  datatype End = Ended(ok: bool) | Aborted(line: nat)

  /** It ends as the operation on values does, normally with the same state. */
  ghost predicate EndsAs(end: End, io: Io.Io, o: Io.Outcome) {
    match end
    case Ended(ok) => o == Io.Done(ok, io)
    case Aborted(line) => o == Io.Abort(line)
  }

  class FdContext {
    const fd: Io.Fd
    var events: Io.Events
    var read: Io.EventContext
    var write: Io.EventContext

    constructor (fd: Io.Fd)
      ensures this.fd == fd && View() == Io.NOTHING
    {
      this.fd, events, read, write := fd, Io.NONE, Io.EMPTY, Io.EMPTY;
    }

    function View(): Io.FdContext
      reads this
    {
      Io.FdContext(events, read, write)
    }

    method SetContext(e: Io.Event, c: Io.EventContext)
      modifies this`read, this`write
      ensures View() == old(View()).With(e, c)
    {
      match e {
        case READ => read := c;
        case WRITE => write := c;
      }
    }

    /** Move the callback, or else the fibre, of the event into the scheduler's queue; false: the assertion fails. */
    method TriggerEvent(e: Io.Event, scheduler: S.Scheduler) returns (ok: bool)
      requires events.Has(e) ==> View().Get(e).scheduler
      modifies this`events, this`read, this`write, scheduler`fibres
      ensures ok == old(events.Has(e))
      ensures Io.TriggerEvent(old(View()), e, old(scheduler.fibres)) ==
              if ok then Io.Triggered(View(), scheduler.fibres) else Io.TriggerAbort
    {
      ok := events.Has(e);
      if !ok {
        return;
      }
      events := events.Set(e, false);
      var ctx := View().Get(e);
      var task: Option<Task>;
      if ctx.cb.Some? {
        task := Some(CbTask(ctx.cb.value));
        ctx := ctx.(cb := None);
      } else {
        task := if ctx.fibre.Some? then Some(FibreTask(ctx.fibre.value)) else None;
        ctx := ctx.(fibre := None);
      }
      var needTickle := scheduler.ScheduleNoLock(task, -1);
      SetContext(e, ctx.(scheduler := false));
    }
  }

  function Views(cs: seq<FdContext>): (vs: seq<Io.FdContext>)
    reads set c | c in cs
    ensures |vs| == |cs|
    ensures forall i | 0 <= i < |cs| :: vs[i] == cs[i].View()
  {
    seq(|cs|, i requires 0 <= i < |cs| reads set c | c in cs => cs[i].View())
  }

  /** Context `i` belongs to fd `i`, so no two positions share an object. */
  ghost predicate Indexed(cs: seq<FdContext>) {
    forall i | 0 <= i < |cs| :: cs[i].fd == i
  }

  class IOManager {
    var fdContexts: seq<FdContext>
    var pendingEventCount: int
    var kernel: Io.Kernel
    const scheduler: S.Scheduler
    const timers: TM.TimerManager

    ghost function View(): Io.Io
      reads this, scheduler, set c | c in fdContexts
    {
      Io.Io(Views(fdContexts), pendingEventCount, kernel, scheduler.fibres)
    }

    ghost predicate Valid()
      reads this, scheduler, set c | c in fdContexts
    {
      Indexed(fdContexts) && Io.Inv(View())
    }

    constructor (now: T.U64)
      ensures Valid() && View() == Io.Initial(|fdContexts|) && |fdContexts| == 32 && fresh(scheduler) && fresh(timers)
      ensures forall c | c in fdContexts :: fresh(c)
      ensures timers.Valid() && timers.View() == T.Timers([], false, now)
    {
      fdContexts, pendingEventCount, kernel := [], 0, map[];
      scheduler := new S.Scheduler();
      timers := new TM.TimerManager(now);
      new;
      FirstContexts(32);
    }

    method FirstContexts(size: nat)
      requires fdContexts == [] && pendingEventCount == 0 && kernel == map[] && scheduler.fibres == [] && size >= 32
      modifies `fdContexts
      ensures Valid() && View() == Io.Initial(size) && forall c | c in fdContexts :: fresh(c)
    {
      ContextResize(size);
      P.InitialInv(size);
      assert [] + Io.Blank(size) == Io.Blank(size);
    }

    /** Grow (or shrink) the table; new positions get new, empty contexts. */
    method ContextResize(size: nat)
      requires Indexed(fdContexts)
      modifies this`fdContexts
      ensures Indexed(fdContexts) && Views(fdContexts) == Io.Resize(old(Views(fdContexts)), size)
      ensures forall c | c in fdContexts :: c in old(fdContexts) || fresh(c)
      ensures size >= |old(fdContexts)| ==> old(fdContexts) <= fdContexts
    {
      ghost var before := fdContexts;
      if size <= |fdContexts| {
        fdContexts := fdContexts[..size];
        assert Views(fdContexts) == Views(before)[..size];
      } else {
        while |fdContexts| < size
          invariant |before| <= |fdContexts| <= size && Indexed(fdContexts) && before == fdContexts[..|before|]
          invariant forall i | |before| <= i < |fdContexts| :: fresh(fdContexts[i]) && fdContexts[i].View() == Io.NOTHING
        {
          var c := new FdContext(|fdContexts|);
          fdContexts := fdContexts + [c];
        }
        assert Views(fdContexts) == Views(before) + Io.Blank(size - |before|);
      }
    }

    /** The context `c` is the table's. */
    ghost predicate Mine(c: FdContext)
      reads this
    {
      Indexed(fdContexts) && c.fd < |fdContexts| && fdContexts[c.fd] == c
    }

    /** One context changes: so does its position in the view, and no other. */
    twostate lemma ContextChanged(c: FdContext)
      requires Mine(c) && fdContexts == old(fdContexts)
      requires forall x | x in fdContexts && x != c :: x.View() == old(x.View())
      ensures Views(fdContexts) == old(Views(fdContexts))[c.fd := c.View()]
    {
      forall i | 0 <= i < |fdContexts| && i != c.fd ensures fdContexts[i].View() == old(fdContexts[i].View()) {
        assert fdContexts[i].fd != c.fd;
      }
    }

    /** epoll_ctl. */
    method EpollCtl(op: Io.EpollOp, fd: Io.Fd, mask: Io.Events, fault: bool) returns (ok: bool)
      modifies this`kernel
      ensures var r := Io.EpollCtl(old(kernel), op, fd, mask, fault);
              ok == r.Some? && kernel == if r.Some? then r.value else old(kernel)
    {
      var r := Io.EpollCtl(kernel, op, fd, mask, fault);
      ok := r.Some?;
      if ok {
        kernel := r.value;
      }
    }

    /** addEvent once the context is found: `task` is the callback given, or else the calling fibre. */
    method Register(c: FdContext, e: Io.Event, task: Task, fault: bool) returns (ok: bool)
      requires Mine(c) && !c.events.Has(e) && c.View().Get(e) == Io.EMPTY
      modifies this`kernel, this`pendingEventCount, c
      ensures Io.Done(ok, View()) == Io.AddEvent(old(View()), c.fd, e, task, fault)
    {
      assert c.View() == Views(fdContexts)[c.fd];
      var op := if c.events != Io.NONE then Io.MOD else Io.ADD;
      ok := EpollCtl(op, c.fd, c.events.Set(e, true), fault);
      if !ok {
        return;
      }
      pendingEventCount := pendingEventCount + 1;
      c.events := c.events.Set(e, true);
      assert c.View().Get(e) == Io.EMPTY;
      var ctx := match task
        case CbTask(cb) => Io.EventContext(true, None, Some(cb))
        case FibreTask(f) => Io.EventContext(true, Some(f), None);
      c.SetContext(e, ctx);
      ContextChanged(c);
    }

    /** The context of `fd`, for which room is made if need be. */
    method ContextFor(fd: Io.Fd) returns (c: FdContext)
      requires Indexed(fdContexts) && |fdContexts| >= 32
      modifies this`fdContexts
      ensures Mine(c) && c.fd == fd && View() == old(View()).(fds := Io.Grow(old(View().fds), fd))
      ensures forall x | x in fdContexts :: x in old(fdContexts) || fresh(x)
    {
      P.GrowShape(View(), fd);
      if fd >= |fdContexts| {
        ContextResize(fd * 3 / 2);
      }
      c := fdContexts[fd];
    }

    method AddEvent(fd: Io.Fd, e: Io.Event, task: Task, fault: bool) returns (end: End)
      requires Valid()
      modifies this`fdContexts, this`kernel, this`pendingEventCount, set c | c in fdContexts
      ensures EndsAs(end, View(), Io.AddEvent(old(View()), fd, e, task, fault)) && (end.Ended? ==> Valid())
      ensures forall c | c in fdContexts :: c in old(fdContexts) || fresh(c)
    {
      ghost var before := View();
      P.AddEventMeaning(before, fd, e, task, fault);
      P.SlotIsFree(before, fd, e);
      P.GrowFirst(before, fd, e, task, fault);
      var c := ContextFor(fd);
      assert c.View() == View().fds[fd];
      if c.events.Has(e) {
        return Aborted(174);
      }
      P.AddEventKeeps(before, fd, e, task, fault);
      ghost var grown := View();
      var ok := Register(c, e, task, fault);
      assert Io.Done(ok, View()) == Io.AddEvent(grown, fd, e, task, fault);
      end := Ended(ok);
    }

    /** delEvent once the context is found to have the event. */
    method Withdraw(c: FdContext, e: Io.Event, fault: bool) returns (ok: bool)
      requires Mine(c) && c.events.Has(e)
      modifies this`kernel, this`pendingEventCount, c
      ensures Io.Done(ok, View()) == Io.DelEvent(old(View()), c.fd, e, fault)
    {
      assert c.View() == Views(fdContexts)[c.fd];
      var left := c.events.Set(e, false);
      ok := EpollCtl(if left != Io.NONE then Io.MOD else Io.DEL, c.fd, left, fault);
      if !ok {
        return;
      }
      pendingEventCount := pendingEventCount - 1;
      c.events := left;
      c.SetContext(e, Io.EMPTY);
      ContextChanged(c);
    }

    method DelEvent(fd: Io.Fd, e: Io.Event, fault: bool) returns (ok: bool)
      requires Valid()
      modifies this`kernel, this`pendingEventCount, set c | c in fdContexts
      ensures Valid() && Io.Done(ok, View()) == Io.DelEvent(old(View()), fd, e, fault)
    {
      P.DelEventKeeps(View(), fd, e, fault);
      if fd >= |fdContexts| {
        return false;
      }
      assert fdContexts[fd].View() == Views(fdContexts)[fd];
      if !fdContexts[fd].events.Has(e) {
        return false;
      }
      ok := Withdraw(fdContexts[fd], e, fault);
    }

    /** cancelEvent once the context is found to have the event. */
    method Fire(c: FdContext, e: Io.Event, fault: bool) returns (ok: bool)
      requires Mine(c) && c.events.Has(e) && c.View().Get(e).scheduler
      modifies this`kernel, this`pendingEventCount, scheduler`fibres, c
      ensures Io.Done(ok, View()) == Io.CancelEvent(old(View()), c.fd, e, fault)
    {
      assert c.View() == Views(fdContexts)[c.fd];
      var left := c.events.Set(e, false);
      ok := EpollCtl(if left != Io.NONE then Io.MOD else Io.DEL, c.fd, left, fault);
      if !ok {
        return;
      }
      var triggered := c.TriggerEvent(e, scheduler);
      ContextChanged(c);
      pendingEventCount := pendingEventCount - 1;
    }

    method CancelEvent(fd: Io.Fd, e: Io.Event, fault: bool) returns (ok: bool)
      requires Valid()
      modifies this`kernel, this`pendingEventCount, scheduler`fibres, set c | c in fdContexts
      ensures Valid() && Io.Done(ok, View()) == Io.CancelEvent(old(View()), fd, e, fault)
    {
      P.CancelEventKeeps(View(), fd, e, fault);
      if fd >= |fdContexts| {
        return false;
      }
      assert fdContexts[fd].View() == Views(fdContexts)[fd] && Io.ContextOk(Views(fdContexts)[fd]);
      if !fdContexts[fd].events.Has(e) {
        return false;
      }
      ok := Fire(fdContexts[fd], e, fault);
    }

    /** If `e` is in `which`, trigger it and count it off; false: it is not registered, and the assertion fails. */
    method TriggerIf(c: FdContext, e: Io.Event, which: Io.Events) returns (ok: bool)
      requires Mine(c)
      requires c.events.Has(e) ==> c.View().Get(e).scheduler
      modifies this`pendingEventCount, scheduler`fibres, c
      ensures ok == (which.Has(e) ==> old(c.events.Has(e)))
      ensures Io.TriggerIf(Io.Done(true, old(View())), c.fd, e, which) == if ok then Io.Done(true, View()) else Io.Abort(83)
      ensures ok ==> forall e' | e' != e :: c.View().Get(e') == old(c.View().Get(e')) && c.events.Has(e') == old(c.events.Has(e'))
    {
      assert c.View() == Views(fdContexts)[c.fd];
      ok := true;
      if which.Has(e) {
        ok := c.TriggerEvent(e, scheduler);
        if !ok {
          return;
        }
        ContextChanged(c);
        pendingEventCount := pendingEventCount - 1;
      }
    }

    /** cancelAll once the context is found to have events. */
    method FireAll(c: FdContext, fault: bool) returns (ok: bool)
      requires Mine(c) && c.events != Io.NONE && Io.ContextOk(c.View())
      modifies this`kernel, this`pendingEventCount, scheduler`fibres, c
      ensures Io.Done(ok, View()) == Io.CancelAll(old(View()), c.fd, fault)
    {
      assert c.View() == Views(fdContexts)[c.fd];
      ok := EpollCtl(Io.DEL, c.fd, Io.NONE, fault);
      if !ok {
        return;
      }
      var read := TriggerIf(c, Io.READ, c.events);
      assert c.View() == Views(fdContexts)[c.fd];
      var written := TriggerIf(c, Io.WRITE, c.events);
      assert c.View() == Views(fdContexts)[c.fd] && c.events == Io.NONE;
    }

    method CancelAll(fd: Io.Fd, fault: bool) returns (ok: bool)
      requires Valid()
      modifies this`kernel, this`pendingEventCount, scheduler`fibres, set c | c in fdContexts
      ensures Valid() && Io.Done(ok, View()) == Io.CancelAll(old(View()), fd, fault)
    {
      P.CancelAllKeeps(View(), fd, fault);
      if fd >= |fdContexts| {
        return false;
      }
      assert fdContexts[fd].View() == Views(fdContexts)[fd] && Io.ContextOk(Views(fdContexts)[fd]);
      if fdContexts[fd].events == Io.NONE {
        return false;
      }
      ok := FireAll(fdContexts[fd], fault);
    }

    /** The rest of that turn once it is known that some registered event was reported. */
    method Serve(c: FdContext, actual: Io.Events, fault: bool, ghost r: Io.Ready) returns (end: End)
      requires Mine(c) && Io.ContextOk(c.View()) && r.fd == c.fd
      requires actual == Io.RealEvents(r, c.View()) && c.events.And(actual) != Io.NONE
      modifies this`kernel, this`pendingEventCount, scheduler`fibres, c
      ensures EndsAs(end, View(), Io.HandleReady(old(View()), r, fault))
    {
      assert c.View() == Views(fdContexts)[c.fd];
      var left := c.events.Without(actual);
      var ok := EpollCtl(if left != Io.NONE then Io.MOD else Io.DEL, c.fd, left, fault);
      if !ok {
        return Ended(false);
      }
      var read := TriggerIf(c, Io.READ, actual);
      if !read {
        return Aborted(83);
      }
      var written := TriggerIf(c, Io.WRITE, actual);
      end := if written then Ended(true) else Aborted(83);
    }

    /** One turn of the loop over the reported events; a report points to the context it is for. */
    method HandleReady(r: Io.Ready, fault: bool) returns (end: End)
      requires Valid() && r.fd < |fdContexts|
      modifies this`kernel, this`pendingEventCount, scheduler`fibres, set c | c in fdContexts
      ensures EndsAs(end, View(), Io.HandleReady(old(View()), r, fault)) && (end.Ended? ==> Valid())
      ensures end.Aborted? <==> !fault && E.Hits(r, old(View()).fds[r.fd]) && E.Strays(r, old(View()).fds[r.fd])
      ensures end.Ended? ==> end.ok == (!fault && E.Hits(r, old(View()).fds[r.fd])) && (!end.ok ==> View() == old(View()))
      ensures end == Ended(true) ==>
                var c := old(View()).fds[r.fd];
                Io.ContextOk(c) && E.Woke(old(View()), r.fd, c.events.read && E.About(r, Io.READ), c.events.write && E.About(r, Io.WRITE), View())
    {
      P.HandleReadyEnds(View(), r, fault);
      E.ReportMeans(View(), r, fault);
      var c := fdContexts[r.fd];
      assert c.View() == Views(fdContexts)[r.fd] && Io.ContextOk(Views(fdContexts)[r.fd]);
      var readable, writable := r.readable, r.writable;
      if r.error {
        readable, writable := readable || c.events.read, writable || c.events.write;
      }
      var actual := Io.Events(readable, writable);
      if c.events.And(actual) == Io.NONE {
        return Ended(false);
      }
      end := Serve(c, actual, fault, r);
    }

    /** The whole loop. */
    method HandleAll(reports: seq<(Io.Ready, bool)>) returns (end: End)
      requires Valid() && forall i | 0 <= i < |reports| :: reports[i].0.fd < |fdContexts|
      modifies this`kernel, this`pendingEventCount, scheduler`fibres, set c | c in fdContexts
      ensures EndsAs(end, View(), Io.HandleAll(old(View()), reports)) && (end.Ended? ==> Valid())
    {
      for i := 0 to |reports|
        invariant Valid() && fdContexts == old(fdContexts)
        invariant Io.HandleAll(View(), reports[i..]) == Io.HandleAll(old(View()), reports)
      {
        ghost var rest := reports[i..];
        ghost var before := View();
        assert rest[0] == reports[i] && rest[1..] == reports[i + 1..];
        end := HandleReady(reports[i].0, reports[i].1);
        if end.Aborted? {
          return;
        }
      }
      end := Ended(true);
    }

    /** The combined stop condition; asking for the next deadline also clears the timers' wake-up flag. */
    method Stopping(now: T.U64) returns (timeout: T.U64, stop: bool)
      requires timers.Valid()
      modifies timers`tickled
      ensures timers.Valid() && timers.View() == old(timers.View()).(tickled := false)
      ensures timeout == T.NextTimer(old(timers.View()), now)
      ensures stop == (timeout == TWO64 - 1 && pendingEventCount == 0 && scheduler.autoStop && scheduler.stopFlag &&
                       scheduler.fibres == [] && scheduler.activeThreadCount == 0)
    {
      timeout := timers.GetNextTimer(now);
      var own := scheduler.Stopping();
      stop := timeout == TWO64 - 1 && pendingEventCount == 0 && own;
    }

    /** schedule over a range of callbacks. */
    method QueueCallbacks(cbs: seq<CbId>)
      modifies scheduler`fibres
      ensures scheduler.fibres == old(scheduler.fibres) + TT.CbEntries(cbs)
    {
      var slots := new Option<CbId>[|cbs|](i requires 0 <= i < |cbs| => Some(cbs[i]));
      AllSlots(slots[..], cbs);
      var needTickle := scheduler.ScheduleAll(slots);
    }

    /** Take the due timers and queue their callbacks. */
    method QueueExpired(now: T.U64, probe: nat)
      requires timers.Valid()
      modifies scheduler`fibres, timers`timers, timers`previousTime, set t | t in timers.timers
      ensures timers.Valid()
      ensures var (cbs, tm') := T.ListExpired(old(timers.View()), now, probe);
              timers.View() == tm' && scheduler.fibres == old(scheduler.fibres) + TT.CbEntries(cbs)
    {
      var cbs := timers.ListExpiredCb(now, probe);
      if cbs != [] {
        QueueCallbacks(cbs);
      }
    }

    /** What `idle` does after epoll_wait: queue the callbacks of expired timers, then handle the reports. */
    method IdlePass(now: T.U64, probe: nat, reports: seq<(Io.Ready, bool)>) returns (end: End)
      requires Valid() && timers.Valid() && forall i | 0 <= i < |reports| :: reports[i].0.fd < |fdContexts|
      modifies this`kernel, this`pendingEventCount, scheduler`fibres, set c | c in fdContexts
      modifies timers`timers, timers`previousTime, set t | t in timers.timers
      ensures timers.Valid() && (end.Ended? ==> Valid())
      ensures var (cbs, tm') := T.ListExpired(old(timers.View()), now, probe);
              && timers.View() == tm'
              && EndsAs(end, View(), Io.HandleAll(old(View()).(queue := old(scheduler.fibres) + TT.CbEntries(cbs)), reports))
    {
      ghost var before := View();
      QueueExpired(now, probe);
      P.QueueKeepsInv(before, scheduler.fibres);
      assert View() == before.(queue := scheduler.fibres);
      end := HandleAll(reports);
    }

    /** Queueing full slots queues their callbacks. */
    static lemma {:induction false} AllSlots(slots: seq<Option<CbId>>, cbs: seq<CbId>)
      requires |slots| == |cbs| && forall i | 0 <= i < |cbs| :: slots[i] == Some(cbs[i])
      ensures S.SlotEntries(slots) == TT.CbEntries(cbs)
    {
      if cbs != [] {
        AllSlots(slots[1..], cbs[1..]);
      }
    }
  }
  /** A fibre waits for reading on fd 5; a hang-up is reported, and nothing else: the fibre is queued. */
  method HangUp(now: T.U64) returns (m: IOManager)
    ensures m.scheduler.fibres == [Entry(FibreTask(1), -1)] && Io.SlotFree(m.View(), 5, Io.READ)
  {
    m := new IOManager(now);
    ReadThenHangUp(m);
  }

  method ReadThenHangUp(m: IOManager)
    requires m.Valid() && m.View() == Io.Initial(32)
    modifies m`fdContexts, m`kernel, m`pendingEventCount, m.scheduler`fibres, set c | c in m.fdContexts
    ensures m.scheduler.fibres == [Entry(FibreTask(1), -1)] && Io.SlotFree(m.View(), 5, Io.READ)
  {
    E.HangUpWakes(32, 5, 1);
    var added := m.AddEvent(5, Io.READ, FibreTask(1), false);
    assert m.View() == P.Registered(Io.Initial(32), 5, Io.READ, FibreTask(1));
    ghost var o := Io.HandleReady(m.View(), Io.Ready(5, false, false, true), false);
    var reported := m.HandleReady(Io.Ready(5, false, false, true), false);
    assert m.View() == o.io;
  }
}
