/**
 Event registration on values: the fd contexts, the kernel's interest list, the count of pending events and
 the task queue, with the operations of IOManager that move registrations between them.
 */
module IoSpec {
  import opened Wrappers
  import opened Tasks

  type Fd = nat

  datatype Event = READ | WRITE

  /** A mask of events. */
  datatype Events = Events(read: bool, write: bool) {
    predicate Has(e: Event) {
      match e
      case READ => read
      case WRITE => write
    }

    function Set(e: Event, on: bool): Events {
      match e
      case READ => this.(read := on)
      case WRITE => this.(write := on)
    }

    function And(m: Events): Events {
      Events(read && m.read, write && m.write)
    }

    function Without(m: Events): Events {
      Events(read && !m.read, write && !m.write)
    }

    predicate Within(m: Events) {
      (read ==> m.read) && (write ==> m.write)
    }

    function Count(): nat {
      (if read then 1 else 0) + (if write then 1 else 0)
    }
  }

  const NONE: Events := Events(false, false)

  // ---- The kernel side: what epoll_ctl accepts ----

  datatype EpollOp = ADD | MOD | DEL

  /** The interest list: which fds are registered, for which events. */
  type Kernel = map<Fd, Events>

  /** A call the kernel cannot refuse for being out of place: ADD of a new fd, MOD or DEL of a known one. */
  predicate Legal(k: Kernel, op: EpollOp, fd: Fd) {
    match op
    case ADD => fd !in k
    case MOD => fd in k
    case DEL => fd in k
  }

  /** epoll_ctl; `fault` stands for a failure of the kernel's own. None is an error return. */
  function EpollCtl(k: Kernel, op: EpollOp, fd: Fd, mask: Events, fault: bool): Option<Kernel> {
    if fault || !Legal(k, op, fd) then None
    else
      match op
      case ADD => Some(k[fd := mask])
      case MOD => Some(k[fd := mask])
      case DEL => Some(k - {fd})
  }

  // ---- Event contexts ----

  datatype EventContext = EventContext(scheduler: bool, fibre: Option<FibreId>, cb: Option<CbId>)

  const EMPTY: EventContext := EventContext(false, None, None)

  datatype FdContext = FdContext(events: Events, read: EventContext, write: EventContext) {
    function Get(e: Event): EventContext {
      match e
      case READ => read
      case WRITE => write
    }

    function With(e: Event, c: EventContext): FdContext {
      match e
      case READ => this.(read := c)
      case WRITE => this.(write := c)
    }
  }

  const NOTHING: FdContext := FdContext(NONE, EMPTY, EMPTY)

  datatype Io = Io(fds: seq<FdContext>, pending: int, kernel: Kernel, queue: seq<Entry>)

  /** How an operation ends: normally with its return value, or in the failed assertion of that line. */
  datatype Outcome = Done(ok: bool, io: Io) | Abort(line: nat)

  // ---- scheduleNoLock and triggerEvent ----

  /** A task made from a caller's slot: empty slots queue nothing. */
  function Push(q: seq<Entry>, task: Option<Task>, thread: int): seq<Entry> {
    match task
    case None => q
    case Some(t) => q + [Entry(t, thread)]
  }

  datatype Triggered = Triggered(ctx: FdContext, queue: seq<Entry>) | TriggerAbort

  /**
   Clear the event's bit and move its callback, or else its fibre, to the queue. The slot that was scheduled
   is left empty by the move; the other one is not touched.
   */
  function TriggerEvent(c: FdContext, e: Event, q: seq<Entry>): Triggered {
    var ctx := c.Get(e);
    if !c.events.Has(e) || !ctx.scheduler then TriggerAbort
    else
      var c' := c.(events := c.events.Set(e, false));
      match ctx.cb
      case Some(cb) => Triggered(c'.With(e, EventContext(false, ctx.fibre, None)), Push(q, Some(CbTask(cb)), -1))
      case None =>
        var task := if ctx.fibre.Some? then Some(FibreTask(ctx.fibre.value)) else None;
        Triggered(c'.With(e, EventContext(false, None, None)), Push(q, task, -1))
  }

  // ---- The operations ----

  /** `n` empty contexts. */
  function Blank(n: nat): (r: seq<FdContext>)
    ensures |r| == n && forall i | 0 <= i < n :: r[i] == NOTHING
  {
    seq(n, i => NOTHING)
  }

  function Resize(fds: seq<FdContext>, size: nat): (r: seq<FdContext>)
    ensures |r| == size
    ensures forall i | 0 <= i < size :: r[i] == if i < |fds| then fds[i] else NOTHING
  {
    if size <= |fds| then fds[..size] else fds + Blank(size - |fds|)
  }

  /** The context table after making room for `fd`: half as much again. */
  function Grow(fds: seq<FdContext>, fd: Fd): seq<FdContext> {
    if fd < |fds| then fds else Resize(fds, fd * 3 / 2)
  }

  /** addEvent for the calling fibre or a callback. The table's growth survives a failed registration. */
  function AddEvent(io: Io, fd: Fd, e: Event, task: Task, fault: bool): Outcome {
    var fds := Grow(io.fds, fd);
    if fd >= |fds| then Abort(165)
    else
      var c := fds[fd];
      if c.events.Has(e) then Abort(174)
      else
        var op := if c.events == NONE then ADD else MOD;
        var mask := c.events.Set(e, true);
        match EpollCtl(io.kernel, op, fd, mask, fault)
        case None => Done(false, io.(fds := fds))
        case Some(kernel) =>
          if c.Get(e) != EMPTY then Abort(198)
          else
            var ctx := match task
              case FibreTask(f) => EventContext(true, Some(f), None)
              case CbTask(cb) => EventContext(true, None, Some(cb));
            Done(true, Io(fds[fd := c.(events := mask).With(e, ctx)], io.pending + 1, kernel, io.queue))
  }

  function DelEvent(io: Io, fd: Fd, e: Event, fault: bool): Outcome {
    if fd >= |io.fds| || !io.fds[fd].events.Has(e) then Done(false, io)
    else
      var c := io.fds[fd];
      var left := c.events.Set(e, false);
      match EpollCtl(io.kernel, if left != NONE then MOD else DEL, fd, left, fault)
      case None => Done(false, io)
      case Some(kernel) =>
        Done(true, Io(io.fds[fd := c.(events := left).With(e, EMPTY)], io.pending - 1, kernel, io.queue))
  }

  function CancelEvent(io: Io, fd: Fd, e: Event, fault: bool): Outcome {
    if fd >= |io.fds| || !io.fds[fd].events.Has(e) then Done(false, io)
    else
      var c := io.fds[fd];
      var left := c.events.Set(e, false);
      match EpollCtl(io.kernel, if left != NONE then MOD else DEL, fd, left, fault)
      case None => Done(false, io)
      case Some(kernel) =>
        match TriggerEvent(c, e, io.queue)
        case TriggerAbort => Abort(83)
        case Triggered(c', q') => Done(true, Io(io.fds[fd := c'], io.pending - 1, kernel, q'))
  }

  /** Trigger `e` if it is in `which`; the count goes down with it. */
  function TriggerIf(o: Outcome, fd: Fd, e: Event, which: Events): Outcome {
    if o.Abort? || !which.Has(e) || fd >= |o.io.fds| then o
    else
      match TriggerEvent(o.io.fds[fd], e, o.io.queue)
      case TriggerAbort => Abort(83)
      case Triggered(c', q') => Done(o.ok, o.io.(fds := o.io.fds[fd := c'], pending := o.io.pending - 1, queue := q'))
  }

  function CancelAll(io: Io, fd: Fd, fault: bool): Outcome {
    if fd >= |io.fds| || io.fds[fd].events == NONE then Done(false, io)
    else
      match EpollCtl(io.kernel, DEL, fd, NONE, fault)
      case None => Done(false, io)
      case Some(kernel) =>
        var o1 := TriggerIf(Done(true, io.(kernel := kernel)), fd, READ, io.fds[fd].events);
        if o1.Abort? || fd >= |o1.io.fds| then o1
        else
          var o2 := TriggerIf(o1, fd, WRITE, o1.io.fds[fd].events);
          if o2.Abort? || fd >= |o2.io.fds| then o2
          else if o2.io.fds[fd].events != NONE then Abort(324)
          else o2
  }

  /** One element of the array filled by epoll_wait. `error` is EPOLLERR or EPOLLHUP. */
  datatype Ready = Ready(fd: Fd, readable: bool, writable: bool, error: bool)

  /** Which of READ and WRITE the report stands for; errors count as both of the registered ones. */
  function RealEvents(r: Ready, c: FdContext): Events {
    Events(r.readable || (r.error && c.events.read), r.writable || (r.error && c.events.write))
  }

  /** One turn of the loop of `idle` over the reported events. */
  function HandleReady(io: Io, r: Ready, fault: bool): Outcome {
    if r.fd >= |io.fds| then Done(false, io)
    else
      var c := io.fds[r.fd];
      var actual := RealEvents(r, c);
      if c.events.And(actual) == NONE then Done(false, io)
      else
        var left := c.events.Without(actual);
        match EpollCtl(io.kernel, if left != NONE then MOD else DEL, r.fd, left, fault)
        case None => Done(false, io)
        case Some(kernel) =>
          TriggerIf(TriggerIf(Done(true, io.(kernel := kernel)), r.fd, READ, actual), r.fd, WRITE, actual)
  }

  /** The whole loop. A report comes with whether its epoll_ctl call fails. */
  function HandleAll(io: Io, rs: seq<(Ready, bool)>): Outcome
    decreases |rs|
  {
    if rs == [] then Done(true, io)
    else
      match HandleReady(io, rs[0].0, rs[0].1)
      case Abort(line) => Abort(line)
      case Done(_, io') => HandleAll(io', rs[1..])
  }

  // ---- What holds in every state ----

  /** The context of a registered event: its scheduler is set, and exactly one of fibre and callback. */
  predicate Armed(c: EventContext) {
    c.scheduler && c.fibre.Some? != c.cb.Some?
  }

  /** A bit is set exactly when the event's context is armed; otherwise the context is empty. */
  predicate ContextOk(c: FdContext) {
    && (if c.events.read then Armed(c.read) else c.read == EMPTY)
    && (if c.events.write then Armed(c.write) else c.write == EMPTY)
  }

  function TaskOf(c: EventContext): Task
    requires Armed(c)
  {
    if c.cb.Some? then CbTask(c.cb.value) else FibreTask(c.fibre.value)
  }

  /** How often a task is waiting in one event context, in a fd context, in all of them. */
  function SlotCount(c: EventContext, t: Task): nat {
    if Armed(c) && TaskOf(c) == t then 1 else 0
  }

  function FdCount(c: FdContext, t: Task): nat {
    SlotCount(c.read, t) + SlotCount(c.write, t)
  }

  ghost function WaitCount(fds: seq<FdContext>, t: Task): nat {
    if fds == [] then 0 else FdCount(fds[0], t) + WaitCount(fds[1..], t)
  }

  function Bits(c: FdContext): nat {
    c.events.Count()
  }

  /** The number of event bits set. */
  ghost function SetBits(fds: seq<FdContext>): nat {
    if fds == [] then 0 else Bits(fds[0]) + SetBits(fds[1..])
  }

  /** How often a task is waiting for an event or queued. */
  ghost function Held(io: Io, t: Task): nat {
    WaitCount(io.fds, t) + QueueCount(io.queue, t)
  }

  /** The interest list is exactly the event bits. */
  ghost predicate KernelAgrees(io: Io) {
    && (forall fd | fd in io.kernel :: fd < |io.fds| && io.fds[fd].events != NONE && io.kernel[fd] == io.fds[fd].events)
    && (forall fd | 0 <= fd < |io.fds| && io.fds[fd].events != NONE :: fd in io.kernel)
  }

  /** Event bits, event contexts, the kernel's list and the pending count agree. */
  ghost predicate Inv(io: Io) {
    && |io.fds| >= 32
    && (forall i | 0 <= i < |io.fds| :: ContextOk(io.fds[i]))
    && KernelAgrees(io)
    && io.pending == SetBits(io.fds)
  }

  /** Nobody is registered for the event. */
  predicate SlotFree(io: Io, fd: Fd, e: Event) {
    !(fd < |io.fds| && io.fds[fd].events.Has(e))
  }

  /** Before any registration; the constructor makes 32 contexts. */
  function Initial(size: nat): Io {
    Io(Blank(size), 0, map[], [])
  }

  // ---- One meaning for cancelEvent, cancelAll and readiness ----

  /** What is left of a context after the events `which` were withdrawn. */
  function Left(c: FdContext, which: Events): FdContext {
    FdContext(c.events.Without(which), if which.read then EMPTY else c.read, if which.write then EMPTY else c.write)
  }

  /** The tasks of the events `which`, in the order they are triggered. */
  function Woken(c: FdContext, which: Events): seq<Entry>
    requires ContextOk(c) && which.Within(c.events)
  {
    (if which.read then [Entry(TaskOf(c.read), -1)] else []) +
    (if which.write then [Entry(TaskOf(c.write), -1)] else [])
  }

  /** Registrations `which` of one fd are withdrawn everywhere at once and their tasks appended to the queue. */
  function Wake(io: Io, fd: Fd, which: Events): Io
    requires fd < |io.fds| && ContextOk(io.fds[fd]) && which.Within(io.fds[fd].events)
  {
    var c := io.fds[fd];
    var left := c.events.Without(which);
    Io(io.fds[fd := Left(c, which)],
       io.pending - which.Count(),
       if left == NONE then io.kernel - {fd} else io.kernel[fd := left],
       io.queue + Woken(c, which))
  }

  /** The mask of one event. */
  function Only(e: Event): Events {
    NONE.Set(e, true)
  }
}
