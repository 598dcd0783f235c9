/**
 The runtime as one transition system: workers of `Scheduler::run`, fibre states, the event registrations and
 the timers. A step is one critical section or one switch between fibres. A fibre's yield or end is one step
 with the worker's bookkeeping for it; evaluating `stopping()` is one step; an idle pass after epoll_wait is one.
 */
module Runtime {
  import opened Words
  import opened Wrappers
  import opened Tasks
  import opened TimerTasks
  import Io = IoSpec
  import P = IoProofs
  import T = TimerSpec

  datatype FibreState = INIT | HOLD | EXEC | TERM | READY | EXCEPT

  /** Where a worker is in `run`: at the loop top, with a task in hand, inside a fibre, inside its idle fibre, gone. */
  datatype Pc =
    | Top
    | Hand(entry: Entry)
    | Running(fibre: FibreId, viaCb: bool)
    | IdleCheck
    | IdleWait
    | Exited

  /** `cbFibre` is the fibre a worker keeps for callbacks; `idleDone`: its idle fibre has ended. */
  datatype Worker = Worker(tid: int, pc: Pc, cbFibre: Option<FibreId>, idleDone: bool)

  /**
   The history: every task ever handed to the runtime; every one that a worker began to execute; every one it
   passed over because the fibre had ended before; every one discarded by delEvent or a timer's cancel.
   */
  datatype State = State(
    io: Io.Io, tm: T.Timers, now: T.U64,
    fibres: map<FibreId, FibreState>, workers: seq<Worker>, active: int, idle: int,
    autoStop: bool, stopping: bool,
    submitted: multiset<Task>, executed: multiset<Task>, skipped: multiset<Task>, dropped: multiset<Task>)

  datatype Client =
    | NewFibre(fibre: FibreId)
    | Submit(task: Task, thread: int)
    | AddFd(fd: Io.Fd, event: Io.Event, task: Task, fault: bool)
    | DelFd(fd: Io.Fd, event: Io.Event, fault: bool)
    | CancelFd(fd: Io.Fd, event: Io.Event, fault: bool)
    | CancelAllFd(fd: Io.Fd, fault: bool)
    | AddTimer(addr: nat, ms: T.U64, cb: CbId, recurring: bool)
    | CancelTimer(addr: nat)
    | RefreshTimer(addr: nat)
    | ResetTimer(addr: nat, ms: T.U64, fromNow: bool)

  datatype Action =
    | Pop(w: nat)
    | SwapIn(w: nat, newId: FibreId)
    | YieldReady(w: nat)
    | YieldHold(w: nat)
    | Finish(w: nat, ok: bool)
    | IdleEval(w: nat)
    | IdlePass(w: nat, probe: nat, reports: seq<(Io.Ready, bool)>)
    | Do(who: Option<nat>, op: Client)
    | Tick(d: nat)
    | SetAutoStop
    | SetStopping

  /** `Failed`: one of the source's assertions does not hold. */
  datatype Result = Ok(s: State) | Failed

  // ---- The queue ----

  /** What the scan of the queue stops at: an entry for this thread that is not a fibre still executing. */
  predicate Takeable(e: Entry, tid: int, fibres: map<FibreId, FibreState>) {
    && (e.thread == -1 || e.thread == tid)
    && (e.task.FibreTask? ==> !(e.task.fibre in fibres && fibres[e.task.fibre] == EXEC))
  }

  function Scan(q: seq<Entry>, tid: int, fibres: map<FibreId, FibreState>): (r: Option<nat>)
    ensures r.Some? ==> r.value < |q| && Takeable(q[r.value], tid, fibres)
    ensures r.Some? ==> forall i | 0 <= i < r.value :: !Takeable(q[i], tid, fibres)
    ensures r.None? ==> forall i | 0 <= i < |q| :: !Takeable(q[i], tid, fibres)
  {
    if q == [] then None
    else if Takeable(q[0], tid, fibres) then Some(0)
    else
      match Scan(q[1..], tid, fibres)
      case None => (assert forall i | 0 < i < |q| :: q[i] == q[1..][i - 1]; None)
      case Some(i) => (assert forall j | 0 < j < i + 1 :: q[j] == q[1..][j - 1]; Some(i + 1))
  }

  // ---- The stop condition ----

  predicate SchedulerStopping(s: State) {
    s.autoStop && s.stopping && s.io.queue == [] && s.active == 0
  }

  /** IOManager::stopping: no timer, no pending event, and the scheduler's own condition. */
  predicate Stopping(s: State) {
    T.NextTimer(s.tm, s.now) == TWO64 - 1 && s.io.pending == 0 && SchedulerStopping(s)
  }

  // ---- Steps ----

  function At(s: State, w: nat, x: Worker): State
    requires w < |s.workers|
  {
    s.(workers := s.workers[w := x])
  }

  predicate Dead(st: FibreState) {
    st == TERM || st == EXCEPT
  }

  function DoPop(s: State, w: nat): Result
    requires w < |s.workers|
  {
    var me := s.workers[w];
    match Scan(s.io.queue, me.tid, s.fibres)
    case Some(i) =>
      var e := s.io.queue[i];
      Ok(At(s, w, me.(pc := Hand(e))).(io := s.io.(queue := Without(s.io.queue, i)), active := s.active + 1))
    case None =>
      if me.idleDone then Ok(At(s, w, me.(pc := Exited)))
      else Ok(At(s, w, me.(pc := IdleCheck)).(idle := s.idle + 1))
  }

  function DoSwapIn(s: State, w: nat, newId: FibreId): Result
    requires w < |s.workers| && s.workers[w].pc.Hand?
  {
    var me := s.workers[w];
    var task := me.pc.entry.task;
    var s1 := s.(executed := s.executed + multiset{task});
    match task
    case FibreTask(f) =>
      if f !in s.fibres then Failed
      else if Dead(s.fibres[f]) then Ok(At(s, w, me.(pc := Top)).(active := s.active - 1, skipped := s.skipped + multiset{task}))
      else if s.fibres[f] == EXEC then Failed
      else Ok(At(s1, w, me.(pc := Running(f, false))).(fibres := s.fibres[f := EXEC]))
    case CbTask(_) =>
      match me.cbFibre
      case Some(g) =>
        if g in s.fibres && (Dead(s.fibres[g]) || s.fibres[g] == INIT)
        then Ok(At(s1, w, me.(pc := Running(g, true))).(fibres := s.fibres[g := EXEC]))
        else Failed
      case None =>
        Ok(At(s1, w, me.(pc := Running(newId, true), cbFibre := Some(newId))).(fibres := s.fibres[newId := EXEC]))
  }

  function DoYieldReady(s: State, w: nat): Result
    requires w < |s.workers| && s.workers[w].pc.Running?
  {
    var me := s.workers[w];
    var f := me.pc.fibre;
    if f !in s.fibres || s.fibres[f] != EXEC then Failed
    else Ok(At(s, w, me.(pc := Top, cbFibre := if me.pc.viaCb then None else me.cbFibre)).(
            fibres := s.fibres[f := READY], active := s.active - 1,
            io := s.io.(queue := s.io.queue + [Entry(FibreTask(f), -1)]),
            submitted := s.submitted + multiset{FibreTask(f)}))
  }

  function DoYieldHold(s: State, w: nat): Result
    requires w < |s.workers| && s.workers[w].pc.Running?
  {
    var me := s.workers[w];
    var f := me.pc.fibre;
    if f !in s.fibres || s.fibres[f] != EXEC then Failed
    else Ok(At(s, w, me.(pc := Top, cbFibre := if me.pc.viaCb then None else me.cbFibre)).(
            fibres := s.fibres[f := HOLD], active := s.active - 1))
  }

  /** The fibre's function returned (`ok`) or threw. A callback's fibre is reset for the next callback. */
  function DoFinish(s: State, w: nat, ok: bool): Result
    requires w < |s.workers| && s.workers[w].pc.Running?
  {
    var me := s.workers[w];
    var st := if me.pc.viaCb then INIT else if ok then TERM else EXCEPT;
    Ok(At(s, w, me.(pc := Top)).(fibres := s.fibres[me.pc.fibre := st], active := s.active - 1))
  }

  function DoIdleEval(s: State, w: nat): Result
    requires w < |s.workers|
  {
    var me := s.workers[w];
    var s1 := s.(tm := s.tm.(tickled := false));
    if Stopping(s) then Ok(At(s1, w, me.(pc := Top, idleDone := true)).(idle := s.idle - 1))
    else Ok(At(s1, w, me.(pc := IdleWait)))
  }

  function DoIdlePass(s: State, w: nat, probe: nat, reports: seq<(Io.Ready, bool)>): Result
    requires w < |s.workers|
  {
    var me := s.workers[w];
    var (cbs, tm') := T.ListExpired(s.tm, s.now, probe);
    match Io.HandleAll(s.io.(queue := s.io.queue + CbEntries(cbs)), reports)
    case Abort(_) => Failed
    case Done(_, io') =>
      Ok(At(s, w, me.(pc := Top)).(io := io', tm := tm', idle := s.idle - 1,
              submitted := s.submitted + FiredAgain(Gone(s.tm, s.now, probe))))
  }

  function DoClient(s: State, op: Client): Result {
    match op
    case NewFibre(f) => Ok(s.(fibres := s.fibres[f := INIT]))
    case Submit(task, thread) =>
      Ok(s.(io := s.io.(queue := Io.Push(s.io.queue, Some(task), thread)), submitted := s.submitted + multiset{task}))
    case AddFd(fd, e, task, fault) =>
      (match Io.AddEvent(s.io, fd, e, task, fault)
       case Abort(_) => Failed
       case Done(ok, io') =>
         if ok && task.FibreTask? && !(task.fibre in s.fibres && s.fibres[task.fibre] == EXEC) then Failed
         else Ok(s.(io := io', submitted := if ok then s.submitted + multiset{task} else s.submitted)))
    case DelFd(fd, e, fault) =>
      (match Io.DelEvent(s.io, fd, e, fault)
       case Abort(_) => Failed
       case Done(ok, io') =>
         var gone := if ok && fd < |s.io.fds| && Io.Armed(s.io.fds[fd].Get(e)) then multiset{Io.TaskOf(s.io.fds[fd].Get(e))} else multiset{};
         Ok(s.(io := io', dropped := s.dropped + gone)))
    case CancelFd(fd, e, fault) =>
      (match Io.CancelEvent(s.io, fd, e, fault)
       case Abort(_) => Failed
       case Done(_, io') => Ok(s.(io := io')))
    case CancelAllFd(fd, fault) =>
      (match Io.CancelAll(s.io, fd, fault)
       case Abort(_) => Failed
       case Done(_, io') => Ok(s.(io := io')))
    case AddTimer(addr, ms, cb, recurring) =>
      Ok(s.(tm := T.AddTimer(s.tm, T.NewTimer(addr, ms, cb, recurring, s.now)).timers,
            submitted := if recurring then s.submitted else s.submitted + multiset{CbTask(cb)}))
    case CancelTimer(addr) =>
      var i := T.Index(s.tm.armed, addr);
      Ok(s.(tm := T.Cancel(s.tm, addr).1,
            dropped := if i.Some? && !s.tm.armed[i.value].recurring then s.dropped + multiset{CbTask(s.tm.armed[i.value].cb)} else s.dropped))
    case RefreshTimer(addr) => Ok(s.(tm := T.Refresh(s.tm, addr, s.now).1))
    case ResetTimer(addr, ms, fromNow) => Ok(s.(tm := T.Reset(s.tm, addr, ms, fromNow, s.now).1.timers))
  }

  // ---- Counting ----

  function InHand(x: Worker, t: Task): nat {
    if x.pc.Hand? && x.pc.entry.task == t then 1 else 0
  }

  function Busy(x: Worker): nat {
    if x.pc.Hand? || x.pc.Running? then 1 else 0
  }

  function Idling(x: Worker): nat {
    if x.pc.IdleCheck? || x.pc.IdleWait? then 1 else 0
  }

  ghost function HandCount(ws: seq<Worker>, t: Task): nat {
    if ws == [] then 0 else InHand(ws[0], t) + HandCount(ws[1..], t)
  }

  ghost function BusyCount(ws: seq<Worker>): nat {
    if ws == [] then 0 else Busy(ws[0]) + BusyCount(ws[1..])
  }

  ghost function IdleCount(ws: seq<Worker>): nat {
    if ws == [] then 0 else Idling(ws[0]) + IdleCount(ws[1..])
  }

  /** In how many places a task is: event contexts, the queue, workers' hands, one-shot timers. */
  ghost function Places(s: State, t: Task): nat {
    Io.Held(s.io, t) + HandCount(s.workers, t) + TimerCount(s.tm.armed, t)
  }

  // ---- What clients promise ----

  /** A worker keeps this fibre for its next callback. */
  ghost predicate Spare(s: State, g: FibreId) {
    exists w :: 0 <= w < |s.workers| && s.workers[w].cbFibre == Some(g) && !(s.workers[w].pc.Running? && s.workers[w].pc.viaCb)
  }

  /** A fibre goes to one waker at a time; an event is registered once; a new object is a new object. */
  ghost predicate ClientOk(s: State, who: Option<nat>, op: Client) {
    match op
    case NewFibre(f) => f !in s.fibres
    case Submit(task, _) => task.FibreTask? ==> task.fibre in s.fibres && Places(s, task) == 0 && !Spare(s, task.fibre)
    case AddFd(fd, e, task, _) =>
      && Io.SlotFree(s.io, fd, e)
      && (task.FibreTask? ==> Places(s, task) == 0 && who.Some? && who.value < |s.workers| && s.workers[who.value].pc.Running? && s.workers[who.value].pc.fibre == task.fibre)
    case AddTimer(addr, _, _, _) => T.Absent(s.tm.armed, addr)
    case _ => true
  }

  ghost predicate Enabled(s: State, a: Action) {
    match a
    case Pop(w) => w < |s.workers| && s.workers[w].pc.Top?
    case SwapIn(w, newId) => w < |s.workers| && s.workers[w].pc.Hand? && newId !in s.fibres
    case YieldReady(w) => w < |s.workers| && s.workers[w].pc.Running? && Places(s, FibreTask(s.workers[w].pc.fibre)) == 0
    case YieldHold(w) => w < |s.workers| && s.workers[w].pc.Running?
    case Finish(w, _) =>
      w < |s.workers| && s.workers[w].pc.Running? && (s.workers[w].pc.viaCb ==> Places(s, FibreTask(s.workers[w].pc.fibre)) == 0)
    case IdleEval(w) => w < |s.workers| && s.workers[w].pc.IdleCheck?
    case IdlePass(w, _, reports) => w < |s.workers| && s.workers[w].pc.IdleWait? && P.GoodReports(s.io, reports)
    case Do(who, op) => (who.Some? ==> who.value < |s.workers| && s.workers[who.value].pc.Running?) && ClientOk(s, who, op)
    case Tick(d) => s.now + d < TWO64
    case SetAutoStop => true
    case SetStopping => true
  }

  function Step(s: State, a: Action): Result
    requires a.Pop? || a.IdleEval? || a.IdlePass? ==> a.w < |s.workers|
    requires a.SwapIn? ==> a.w < |s.workers| && s.workers[a.w].pc.Hand?
    requires a.YieldReady? || a.YieldHold? || a.Finish? ==> a.w < |s.workers| && s.workers[a.w].pc.Running?
  {
    match a
    case Pop(w) => DoPop(s, w)
    case SwapIn(w, newId) => DoSwapIn(s, w, newId)
    case YieldReady(w) => DoYieldReady(s, w)
    case YieldHold(w) => DoYieldHold(s, w)
    case Finish(w, ok) => DoFinish(s, w, ok)
    case IdleEval(w) => DoIdleEval(s, w)
    case IdlePass(w, probe, reports) => DoIdlePass(s, w, probe, reports)
    case Do(_, op) => DoClient(s, op)
    case Tick(d) => if s.now + d < TWO64 then Ok(s.(now := s.now + d)) else Ok(s)
    case SetAutoStop => Ok(s.(autoStop := true))
    case SetStopping => Ok(s.(stopping := true))
  }

  // ---- What every reachable state satisfies ----

  ghost predicate WorkerOk(s: State, x: Worker) {
    && (x.pc.Hand? ==>
          && (x.pc.entry.thread == -1 || x.pc.entry.thread == x.tid)
          && (x.pc.entry.task.FibreTask? ==> x.pc.entry.task.fibre in s.fibres && s.fibres[x.pc.entry.task.fibre] != EXEC))
    && (x.pc.Running? ==> x.pc.fibre in s.fibres && s.fibres[x.pc.fibre] == EXEC && (x.pc.viaCb ==> x.cbFibre == Some(x.pc.fibre)))
    && (x.cbFibre.Some? && !(x.pc.Running? && x.pc.viaCb) ==>
          && x.cbFibre.value in s.fibres && s.fibres[x.cbFibre.value] == INIT
          && Places(s, FibreTask(x.cbFibre.value)) == 0)
  }

  /** No two workers run the same fibre or keep the same callback fibre. */
  predicate Apart(x: Worker, y: Worker) {
    && (x.pc.Running? && y.pc.Running? ==> x.pc.fibre != y.pc.fibre)
    && (x.cbFibre.Some? && y.cbFibre.Some? ==> x.cbFibre != y.cbFibre)
  }

  ghost predicate WorkersOk(s: State) {
    && (forall w | 0 <= w < |s.workers| :: WorkerOk(s, s.workers[w]))
    && (forall v, w | 0 <= v < w < |s.workers| :: Apart(s.workers[v], s.workers[w]))
    && s.active == BusyCount(s.workers)
    && s.idle == IdleCount(s.workers)
  }

  predicate Runs(x: Worker, f: FibreId) {
    x.pc.Running? && x.pc.fibre == f
  }

  /** A fibre in state EXEC is being run by a worker. */
  ghost predicate ExecRuns(s: State) {
    forall f | f in s.fibres && s.fibres[f] == EXEC :: exists w :: 0 <= w < |s.workers| && Runs(s.workers[w], f)
  }

  /** A fibre is in at most one place. */
  ghost predicate OnePlace(s: State) {
    forall f: FibreId :: Places(s, FibreTask(f)) <= 1 && (Places(s, FibreTask(f)) > 0 ==> f in s.fibres)
  }

  /** Every task handed over is somewhere, or was executed, passed over or discarded: exactly once for each time. */
  ghost predicate Conserved(s: State) {
    forall t :: s.submitted[t] == Places(s, t) + s.executed[t] + s.skipped[t] + s.dropped[t]
  }

  /** The registrations agree among themselves, and the timer set is legal. */
  ghost predicate Data(s: State) {
    Io.Inv(s.io) && T.Ordered(s.tm.armed)
  }

  /** Workers, fibre states, counters and the places of fibres fit together. */
  ghost predicate Control(s: State) {
    WorkersOk(s) && ExecRuns(s) && OnePlace(s)
  }

  ghost predicate Inv(s: State) {
    Data(s) && Control(s) && Conserved(s)
  }
}
