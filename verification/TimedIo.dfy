/**
 The wait, timeout and retry protocol of the hooked I/O calls (`do_io`), for any number of calls at once, on top
 of the event registrations and the timers. The steps of one call are: adding the timer; registering the event
 and parking; waking up; returning. Those of a timeout callback are: looking at the call's flag; setting it;
 withdrawing the call's event. Anything else may happen between them, as with several workers.
 */
module TimedIo {
  import opened Words
  import opened Wrappers
  import opened Tasks
  import opened TimerTasks
  import Io = IoSpec
  import P = IoProofs
  import T = TimerSpec

  /** `Returned(true)`: the call failed with ETIMEDOUT. */
  datatype Phase = Running | Armed | Waiting | Returned(timedOut: bool)

  /**
   One call. `cancelled` is the flag shared with the timeout callbacks; `cb` is the callback of the current
   timer. `firstWait` is when the call first armed a timer. `missed`: it is parked with the flag set, and no
   callback is left that would wake it; they all acted before it parked, or the kernel refused the last one.
   */
  datatype Call = Call(
    fibre: FibreId, fd: Io.Fd, event: Io.Event, to: Option<T.U64>, phase: Phase, cancelled: bool,
    timer: Option<nat>, cb: Option<CbId>, firstWait: Option<T.U64>, missed: bool)

  /** A timeout callback being run, past its look at the flag; `flagged`: it has set the flag. */
  datatype Half = Half(cb: CbId, flagged: bool)

  /** `owner` says whose timeout callback a callback is. A callback not in it is none. */
  datatype State = State(
    io: Io.Io, tm: T.Timers, now: T.U64, calls: map<nat, Call>, owner: map<CbId, nat>, acting: seq<Half>)

  datatype Action =
    | Enter(k: nat, fibre: FibreId, fd: Io.Fd, event: Io.Event, to: Option<T.U64>)
    | Arm(k: nat, addr: nat, cb: CbId)
    | Register(k: nat, fault: bool)
    | Resume(k: nat, i: nat)
    | Complete(k: nat)
    | RunCb(i: nat)
    | SetFlag(h: nat)
    | Withdraw(h: nat, fault: bool)
    | Expire(probe: nat)
    | Ready(reports: seq<(Io.Ready, bool)>)
    | Tick(d: nat)
    | OtherIo(op: OtherIoOp)
    | OtherTimer(top: OtherTimerOp)

  /** What the rest of the program does with registrations, the queue and timers. */
  datatype OtherIoOp =
    | TakeTask(i: nat)
    | SubmitTask(entry: Entry)
    | AddFd(fd: Io.Fd, event: Io.Event, task: Task, fault: bool)
    | DelFd(fd: Io.Fd, event: Io.Event, fault: bool)
    | CancelFd(fd: Io.Fd, event: Io.Event, fault: bool)
    | CancelAllFd(fd: Io.Fd, fault: bool)

  datatype OtherTimerOp =
    | AddTimer(addr: nat, ms: T.U64, cb: CbId, recurring: bool)
    | CancelTimer(addr: nat)

  // ---- Steps ----

  function With(s: State, k: nat, c: Call): State {
    s.(calls := s.calls[k := c])
  }

  /** addConditionTimer, unless the timeout is infinite. */
  function DoArm(s: State, k: nat, addr: nat, cb: CbId): State
    requires k in s.calls
  {
    var c := s.calls[k];
    var c1 := c.(phase := Armed, firstWait := if c.firstWait.Some? then c.firstWait else Some(s.now));
    match c.to
    case None => With(s, k, c1.(timer := None, cb := None))
    case Some(ms) =>
      With(s, k, c1.(timer := Some(addr), cb := Some(cb))).(
        tm := T.AddTimer(s.tm, T.NewTimer(addr, ms, cb, false, s.now)).timers,
        owner := s.owner[cb := k])
  }

  /** timer->cancel(), if there is one. */
  function CancelOwn(tm: T.Timers, timer: Option<nat>): T.Timers {
    match timer
    case None => tm
    case Some(addr) => T.Cancel(tm, addr).1
  }

  /** A callback of call `k` has looked at the flag and not yet withdrawn the event. */
  predicate Pending(acting: seq<Half>, owner: map<CbId, nat>, k: nat) {
    exists x | x in acting :: x.cb in owner && owner[x.cb] == k
  }

  /** addEvent and YieldToHold; when addEvent fails the timer is cancelled and the call returns. None: an assertion failed. */
  function DoRegister(s: State, k: nat, fault: bool): Option<State>
    requires k in s.calls
  {
    var c := s.calls[k];
    match Io.AddEvent(s.io, c.fd, c.event, FibreTask(c.fibre), fault)
    case Abort(_) => None
    case Done(ok, io') =>
      if ok then Some(With(s, k, c.(phase := Waiting, missed := c.cancelled && !Pending(s.acting, s.owner, k))).(io := io'))
      else Some(With(s, k, c.(phase := Returned(false))).(io := io', tm := CancelOwn(s.tm, c.timer)))
  }

  /** The fibre runs again: cancel the timer, then look at the flag. */
  function DoResume(s: State, k: nat, i: nat): State
    requires k in s.calls && i < |s.io.queue|
  {
    var c := s.calls[k];
    With(s, k, c.(phase := if c.cancelled then Returned(true) else Running)).(
      io := s.io.(queue := Without(s.io.queue, i)), tm := CancelOwn(s.tm, c.timer))
  }

  /** A timeout callback is taken from the queue: it goes on only if its call exists and the flag is clear. */
  function DoRunCb(s: State, i: nat): State
    requires i < |s.io.queue| && s.io.queue[i].task.CbTask? && s.io.queue[i].task.cb in s.owner
  {
    var s1 := s.(io := s.io.(queue := Without(s.io.queue, i)));
    var cb := s.io.queue[i].task.cb;
    var k := s.owner[cb];
    if k !in s.calls || s.calls[k].phase.Returned? || s.calls[k].cancelled then s1
    else s1.(acting := s.acting + [Half(cb, false)])
  }

  /** It sets the flag. The flag of a call that has returned meanwhile is nobody's but the callback's own. */
  function DoSetFlag(s: State, h: nat): State
    requires h < |s.acting|
  {
    var cb := s.acting[h].cb;
    var s1 := s.(acting := s.acting[h := Half(cb, true)]);
    if cb !in s.owner || s.owner[cb] !in s.calls || s.calls[s.owner[cb]].phase.Returned? then s1
    else With(s1, s.owner[cb], s.calls[s.owner[cb]].(cancelled := true))
  }

  /** It calls cancelEvent for the fd and event of its call, whoever is registered there now. */
  function DoWithdraw(s: State, h: nat, fault: bool): Option<State>
    requires h < |s.acting|
  {
    var cb := s.acting[h].cb;
    var acting := Without(s.acting, h);
    if cb !in s.owner || s.owner[cb] !in s.calls then Some(s.(acting := acting))
    else
      var k := s.owner[cb];
      var c := s.calls[k];
      match Io.CancelEvent(s.io, c.fd, c.event, fault)
      case Abort(_) => None
      case Done(_, io') =>
        var s1 := s.(io := io', acting := acting);
        Some(if c.phase.Waiting? then With(s1, k, c.(missed := fault && !Pending(acting, s.owner, k))) else s1)
  }

  function DoExpire(s: State, probe: nat): State {
    var (cbs, tm') := T.ListExpired(s.tm, s.now, probe);
    s.(tm := tm', io := s.io.(queue := s.io.queue + CbEntries(cbs)))
  }

  function OtherIoResult(io: Io.Io, op: OtherIoOp): Io.Outcome {
    match op
    case TakeTask(i) => if i < |io.queue| then Io.Done(true, io.(queue := Without(io.queue, i))) else Io.Done(false, io)
    case SubmitTask(e) => Io.Done(true, io.(queue := io.queue + [e]))
    case AddFd(fd, e, task, fault) => Io.AddEvent(io, fd, e, task, fault)
    case DelFd(fd, e, fault) => Io.DelEvent(io, fd, e, fault)
    case CancelFd(fd, e, fault) => Io.CancelEvent(io, fd, e, fault)
    case CancelAllFd(fd, fault) => Io.CancelAll(io, fd, fault)
  }

  function OtherTimerResult(tm: T.Timers, now: T.U64, op: OtherTimerOp): T.Timers {
    match op
    case AddTimer(addr, ms, cb, recurring) => T.AddTimer(tm, T.NewTimer(addr, ms, cb, recurring, now)).timers
    case CancelTimer(addr) => T.Cancel(tm, addr).1
  }

  // ---- When a step is allowed ----

  ghost predicate Active(s: State, k: nat) {
    k in s.calls && !s.calls[k].phase.Returned?
  }

  /** A task of the protocol: the fibre of a call in progress, or a timeout callback. */
  ghost predicate Ours(s: State, t: Task) {
    match t
    case FibreTask(f) => exists k :: Active(s, k) && s.calls[k].fibre == f
    case CbTask(c) => c in s.owner
  }

  /** The task `t` is registered for `e` on `fd`. */
  predicate At(io: Io.Io, fd: Io.Fd, e: Io.Event, t: Task) {
    fd < |io.fds| && io.fds[fd].events.Has(e) && Io.Armed(io.fds[fd].Get(e)) && Io.TaskOf(io.fds[fd].Get(e)) == t
  }

  /** No timer lives at this address: neither an armed one nor one that a call still points to. */
  ghost predicate AddrFree(s: State, addr: nat) {
    T.Absent(s.tm.armed, addr) &&
    forall k | k in s.calls && (s.calls[k].phase.Armed? || s.calls[k].phase.Waiting?) :: s.calls[k].timer != Some(addr)
  }

  /** The rest of the program keeps off the protocol's tasks: above all it does not delEvent a parked call. */
  ghost predicate OtherIoOk(s: State, op: OtherIoOp) {
    match op
    case TakeTask(i) => i < |s.io.queue| && !Ours(s, s.io.queue[i].task)
    case SubmitTask(e) => !Ours(s, e.task)
    case AddFd(fd, e, task, _) => Io.SlotFree(s.io, fd, e) && !Ours(s, task)
    case DelFd(fd, e, _) => forall t | Ours(s, t) :: !At(s.io, fd, e, t)
    case CancelFd(_, _, _) => true
    case CancelAllFd(_, _) => true
  }

  ghost predicate OtherTimerOk(s: State, op: OtherTimerOp) {
    match op
    case AddTimer(addr, _, cb, _) => AddrFree(s, addr) && cb !in s.owner
    case CancelTimer(addr) => forall t | t in s.tm.armed && t.addr == addr :: t.cb !in s.owner
  }

  ghost predicate Enabled(s: State, a: Action) {
    match a
    case Enter(k, f, _, _, _) =>
      k !in s.calls && (forall j | Active(s, j) :: s.calls[j].fibre != f) && Io.Held(s.io, FibreTask(f)) == 0
    case Arm(k, addr, cb) =>
      && k in s.calls && s.calls[k].phase.Running?
      && AddrFree(s, addr) && cb !in s.owner && Io.Held(s.io, CbTask(cb)) == 0 && (forall t | t in s.tm.armed :: t.cb != cb)
      && (s.calls[k].to.Some? ==> s.now + s.calls[k].to.value < TWO64)
    case Register(k, _) => k in s.calls && s.calls[k].phase.Armed? && Io.SlotFree(s.io, s.calls[k].fd, s.calls[k].event)
    case Resume(k, i) => k in s.calls && s.calls[k].phase.Waiting? && i < |s.io.queue| && s.io.queue[i].task == FibreTask(s.calls[k].fibre)
    case Complete(k) => k in s.calls && s.calls[k].phase.Running?
    case RunCb(i) => i < |s.io.queue| && s.io.queue[i].task.CbTask? && s.io.queue[i].task.cb in s.owner
    case SetFlag(h) => h < |s.acting| && !s.acting[h].flagged
    case Withdraw(h, _) => h < |s.acting| && s.acting[h].flagged
    case Expire(_) => true
    case Ready(reports) => P.GoodReports(s.io, reports)
    case Tick(d) => s.now + d < TWO64
    case OtherIo(op) => OtherIoOk(s, op)
    case OtherTimer(top) => OtherTimerOk(s, top)
  }

  /** The state after an allowed step; None if one of the source's assertions fails in it. */
  ghost function Next(s: State, a: Action): Option<State>
    requires Enabled(s, a)
  {
    match a
    case Enter(k, f, fd, e, to) => Some(With(s, k, Call(f, fd, e, to, Running, false, None, None, None, false)))
    case Arm(k, addr, cb) => Some(DoArm(s, k, addr, cb))
    case Register(k, fault) => DoRegister(s, k, fault)
    case Resume(k, i) => Some(DoResume(s, k, i))
    case Complete(k) => Some(With(s, k, s.calls[k].(phase := Returned(false))))
    case RunCb(i) => Some(DoRunCb(s, i))
    case SetFlag(h) => Some(DoSetFlag(s, h))
    case Withdraw(h, fault) => DoWithdraw(s, h, fault)
    case Expire(probe) => Some(DoExpire(s, probe))
    case Ready(reports) =>
      (match Io.HandleAll(s.io, reports)
       case Abort(_) => None
       case Done(_, io') => Some(s.(io := io')))
    case Tick(d) => Some(s.(now := s.now + d))
    case OtherIo(op) =>
      (match OtherIoResult(s.io, op)
       case Abort(_) => None
       case Done(_, io') => Some(s.(io := io')))
    case OtherTimer(top) => Some(s.(tm := OtherTimerResult(s.tm, s.now, top)))
  }

  // ---- What every reachable state satisfies ----

  /** How often a callback is being run past its look at the flag. */
  ghost function HalfCount(acting: seq<Half>, c: CbId): nat {
    if acting == [] then 0 else (if acting[0].cb == c then 1 else 0) + HalfCount(acting[1..], c)
  }

  /** In how many places a callback is: the queue, one-shot timers, workers running it. */
  ghost function CbCount(s: State, c: CbId): nat {
    QueueCount(s.io.queue, CbTask(c)) + TimerCount(s.tm.armed, CbTask(c)) + HalfCount(s.acting, c)
  }

  ghost predicate Queued(s: State, k: nat)
    requires k in s.calls
  {
    QueueCount(s.io.queue, FibreTask(s.calls[k].fibre)) == 1
  }

  ghost predicate Registered(s: State, k: nat)
    requires k in s.calls
  {
    At(s.io, s.calls[k].fd, s.calls[k].event, FibreTask(s.calls[k].fibre))
  }

  /** A parked call's fibre is in one place, its own event context or the queue; a running call's is in none. */
  ghost predicate TokenOk(s: State, k: nat)
    requires k in s.calls
  {
    var c := s.calls[k];
    && (c.phase.Waiting? ==> Io.Held(s.io, FibreTask(c.fibre)) == 1 && (Registered(s, k) || Queued(s, k)))
    && (c.phase.Running? || c.phase.Armed? ==> Io.Held(s.io, FibreTask(c.fibre)) == 0)
  }

  ghost predicate TimeReached(s: State, c: Call) {
    c.to.Some? && c.firstWait.Some? && c.firstWait.value + c.to.value <= s.now
  }

  /** The flag is set, and ETIMEDOUT is reported, only when the timeout has passed since the first wait. */
  ghost predicate TimeOk(s: State, k: nat)
    requires k in s.calls
  {
    var c := s.calls[k];
    && (c.cancelled ==> TimeReached(s, c))
    && (c.phase == Returned(true) ==> TimeReached(s, c))
    && (c.firstWait.Some? ==> c.firstWait.value <= s.now)
    && (c.phase.Armed? || c.phase.Waiting? ==> c.firstWait.Some?)
  }

  /** A call with a timer has its callback somewhere, unless the flag is set; a parked one with the flag set missed it. */
  ghost predicate SourceOk(s: State, k: nat)
    requires k in s.calls
  {
    var c := s.calls[k];
    && ((c.phase.Armed? || c.phase.Waiting?) && c.to.Some? ==>
          c.cb.Some? && c.timer.Some? && c.cb.value in s.owner && s.owner[c.cb.value] == k)
    && (c.phase.Armed? && c.to.Some? ==> c.cancelled || CbCount(s, c.cb.value) >= 1)
    && (c.phase.Waiting? && Registered(s, k) ==>
          && (c.missed <==> c.cancelled && !Pending(s.acting, s.owner, k))
          && (c.to.Some? && !c.cancelled ==> CbCount(s, c.cb.value) >= 1))
  }

  /** A timeout callback is in an event context never, in a timer or the queue only when its time is right. */
  ghost predicate CbOk(s: State, cb: CbId)
    requires cb in s.owner
  {
    var k := s.owner[cb];
    && k in s.calls && s.calls[k].to.Some? && s.calls[k].firstWait.Some?
    && Io.WaitCount(s.io.fds, CbTask(cb)) == 0
    && (QueueCount(s.io.queue, CbTask(cb)) > 0 ==> TimeReached(s, s.calls[k]))
  }

  /** A callback being run saw its time reached; once it has set the flag its call has it, while there is the call. */
  ghost predicate HalfOk(s: State, x: Half) {
    && x.cb in s.owner && s.owner[x.cb] in s.calls
    && var c := s.calls[s.owner[x.cb]];
       TimeReached(s, c) && (x.flagged && !c.phase.Returned? ==> c.cancelled)
  }

  /** This is the timer the call waits with. */
  predicate WaitsWith(c: Call, addr: nat) {
    (c.phase.Armed? || c.phase.Waiting?) && c.timer == Some(addr)
  }

  /** An armed timer with a timeout callback is the one its call waits with, and not set too early. */
  ghost predicate TimerOk(s: State, t: T.Timer) {
    t.cb in s.owner ==>
      && !t.recurring
      && s.owner[t.cb] in s.calls
      && var c := s.calls[s.owner[t.cb]];
         WaitsWith(c, t.addr) && c.to.Some? && c.firstWait.Some? && c.firstWait.value + c.to.value <= t.next
  }

  /** The timer at an address a call remembers is that call's, if there is one at all. */
  ghost predicate OwnTimer(s: State, k: nat)
    requires k in s.calls
  {
    var c := s.calls[k];
    (c.phase.Armed? || c.phase.Waiting?) && c.timer.Some? ==>
      forall t | t in s.tm.armed && t.addr == c.timer.value :: t.cb in s.owner && s.owner[t.cb] == k
  }

  ghost predicate CallOk(s: State, k: nat)
    requires k in s.calls
  {
    TokenOk(s, k) && TimeOk(s, k) && SourceOk(s, k) && OwnTimer(s, k)
  }

  ghost predicate FibresApart(s: State) {
    forall j, k | Active(s, j) && Active(s, k) && j != k :: s.calls[j].fibre != s.calls[k].fibre
  }

  ghost predicate Inv(s: State) {
    && Io.Inv(s.io) && T.Ordered(s.tm.armed) && s.tm.previous <= s.now && FibresApart(s)
    && (forall k | k in s.calls :: CallOk(s, k))
    && (forall c | c in s.owner :: CbOk(s, c))
    && (forall t | t in s.tm.armed :: TimerOk(s, t))
    && (forall x | x in s.acting :: HalfOk(s, x))
  }
}
