/**
 Every step of the timed I/O protocol keeps its invariant, and none fails an assertion.
 */
module TimedIoProofs {
  import opened Words
  import opened Wrappers
  import opened Tasks
  import opened TimerTasks
  import opened TimedIo
  import Io = IoSpec
  import P = IoProofs
  import T = TimerSpec
  import TR = TimerRuns

  // ---- Registrations and the queue ----

  /** Across a step the task `t` is kept: it does not leave the queue, and leaves an event only for the queue. */
  ghost predicate Kept(io: Io.Io, io': Io.Io, t: Task) {
    && Io.Held(io', t) == Io.Held(io, t)
    && QueueCount(io.queue, t) <= QueueCount(io'.queue, t)
    && (forall fd, e | At(io, fd, e, t) :: At(io', fd, e, t) || QueueCount(io.queue, t) < QueueCount(io'.queue, t))
  }

  lemma KeptTwice(io: Io.Io, io1: Io.Io, io2: Io.Io, t: Task)
    requires Kept(io, io1, t) && Kept(io1, io2, t)
    ensures Kept(io, io2, t)
  {
  }

  lemma {:induction false} WaitAt(fds: seq<Io.FdContext>, fd: Io.Fd, t: Task)
    requires fd < |fds|
    ensures Io.FdCount(fds[fd], t) <= Io.WaitCount(fds, t)
  {
    if fd > 0 {
      WaitAt(fds[1..], fd - 1, t);
    }
  }

  lemma AtWaits(io: Io.Io, fd: Io.Fd, e: Io.Event, t: Task)
    requires At(io, fd, e, t)
    ensures Io.WaitCount(io.fds, t) >= 1
  {
    WaitAt(io.fds, fd, t);
  }

  lemma WokenHas(c: Io.FdContext, which: Io.Events, e: Io.Event)
    requires Io.ContextOk(c) && which.Within(c.events) && which.Has(e)
    ensures QueueCount(Io.Woken(c, which), Io.TaskOf(c.Get(e))) >= 1
  {
    var t := Io.TaskOf(c.Get(e));
    var r := if which.read then [Entry(Io.TaskOf(c.read), -1)] else [];
    var w := if which.write then [Entry(Io.TaskOf(c.write), -1)] else [];
    QueueConcat(r, w, t);
  }

  lemma WakeKept(io: Io.Io, fd: Io.Fd, which: Io.Events, t: Task)
    requires fd < |io.fds| && Io.ContextOk(io.fds[fd]) && which.Within(io.fds[fd].events)
    ensures Kept(io, Io.Wake(io, fd, which), t)
  {
    P.WakeMoves(io, fd, which, t);
    var io' := Io.Wake(io, fd, which);
    forall fd0, e | At(io, fd0, e, t)
      ensures At(io', fd0, e, t) || QueueCount(io.queue, t) < QueueCount(io'.queue, t)
    {
      if fd0 == fd && which.Has(e) {
        WokenHas(io.fds[fd], which, e);
      }
    }
  }

  lemma CancelEventKept(io: Io.Io, fd: Io.Fd, e: Io.Event, fault: bool, t: Task)
    requires Io.Inv(io)
    ensures Io.CancelEvent(io, fd, e, fault).Done? && Io.Inv(Io.CancelEvent(io, fd, e, fault).io)
    ensures Kept(io, Io.CancelEvent(io, fd, e, fault).io, t)
  {
    P.CancelEventMeaning(io, fd, e, fault);
    P.CancelEventKeeps(io, fd, e, fault);
    if fd < |io.fds| && io.fds[fd].events.Has(e) && !fault {
      assert Io.ContextOk(io.fds[fd]);
      WakeKept(io, fd, Io.Only(e), t);
    }
  }

  lemma CancelAllKept(io: Io.Io, fd: Io.Fd, fault: bool, t: Task)
    requires Io.Inv(io)
    ensures Io.CancelAll(io, fd, fault).Done? && Io.Inv(Io.CancelAll(io, fd, fault).io)
    ensures Kept(io, Io.CancelAll(io, fd, fault).io, t)
  {
    P.CancelAllMeaning(io, fd, fault);
    P.CancelAllKeeps(io, fd, fault);
    if fd < |io.fds| && io.fds[fd].events != Io.NONE && !fault {
      assert Io.ContextOk(io.fds[fd]);
      WakeKept(io, fd, io.fds[fd].events, t);
    }
  }

  lemma DelEventKept(io: Io.Io, fd: Io.Fd, e: Io.Event, fault: bool, t: Task)
    requires Io.Inv(io) && !At(io, fd, e, t)
    ensures Io.DelEvent(io, fd, e, fault).Done? && Io.Inv(Io.DelEvent(io, fd, e, fault).io)
    ensures Kept(io, Io.DelEvent(io, fd, e, fault).io, t)
  {
    P.DelEventMeaning(io, fd, e, fault);
    P.DelEventKeeps(io, fd, e, fault);
    if fd < |io.fds| && io.fds[fd].events.Has(e) && !fault {
      assert Io.ContextOk(io.fds[fd]);
      P.WakeOne(io, fd, e);
    }
  }

  lemma AddEventKept(io: Io.Io, fd: Io.Fd, e: Io.Event, task: Task, fault: bool, t: Task)
    requires Io.Inv(io) && Io.SlotFree(io, fd, e) && t != task
    ensures Io.AddEvent(io, fd, e, task, fault).Done? && Io.Inv(Io.AddEvent(io, fd, e, task, fault).io)
    ensures Kept(io, Io.AddEvent(io, fd, e, task, fault).io, t)
  {
    P.AddEventMeaning(io, fd, e, task, fault);
    P.AddEventKeeps(io, fd, e, task, fault);
    P.GrowShape(io, fd);
  }

  /** Where the registered task ends up. */
  lemma AddEventPlaces(io: Io.Io, fd: Io.Fd, e: Io.Event, task: Task)
    requires Io.Inv(io) && Io.SlotFree(io, fd, e)
    ensures var o := Io.AddEvent(io, fd, e, task, false);
            && o.Done? && o.ok && At(o.io, fd, e, task)
            && Io.Held(o.io, task) == Io.Held(io, task) + 1 && o.io.queue == io.queue
  {
    P.AddEventMeaning(io, fd, e, task, false);
    P.AddEventKeeps(io, fd, e, task, false);
  }

  lemma {:induction false} HandleAllKept(io: Io.Io, rs: seq<(Io.Ready, bool)>, t: Task)
    requires Io.Inv(io) && P.GoodReports(io, rs)
    ensures Io.HandleAll(io, rs).Done? && Kept(io, Io.HandleAll(io, rs).io, t)
    decreases |rs|
  {
    if rs != [] {
      P.HandleReadyKeeps(io, rs[0].0, rs[0].1);
      var io1 := Io.HandleReady(io, rs[0].0, rs[0].1).io;
      HandleReadyKept(io, rs[0].0, rs[0].1, t);
      P.GoodReportsTail(io, rs, io1);
      HandleAllKept(io1, rs[1..], t);
      KeptTwice(io, io1, Io.HandleAll(io, rs).io, t);
    }
  }

  lemma HandleReadyKept(io: Io.Io, r: Io.Ready, fault: bool, t: Task)
    requires Io.Inv(io) && r.fd < |io.fds| && P.Consistent(r, io.fds[r.fd])
    ensures Io.HandleReady(io, r, fault).Done? && Kept(io, Io.HandleReady(io, r, fault).io, t)
  {
    P.HandleReadyMeaning(io, r, fault);
    var which := Io.RealEvents(r, io.fds[r.fd]);
    if which.And(io.fds[r.fd].events) != Io.NONE && !fault {
      assert Io.ContextOk(io.fds[r.fd]);
      WakeKept(io, r.fd, which, t);
    }
  }

  lemma QueueOnlyKept(io: Io.Io, q: seq<Entry>, t: Task)
    requires QueueCount(q, t) == QueueCount(io.queue, t)
    ensures Kept(io, io.(queue := q), t)
  {
  }

  // ---- What carries over to the next state ----

  ghost predicate SameOwner(s: State, s': State) {
    forall c | c in s.owner :: c in s'.owner && s'.owner[c] == s.owner[c]
  }

  /** Callbacks being run have the same owners before and after; those of a cancelled call stay or stay away. */
  ghost predicate SamePending(s: State, s': State, k: nat) {
    Pending(s'.acting, s'.owner, k) <==> Pending(s.acting, s.owner, k)
  }

  /** A call none of whose own things changed. */
  lemma CallCarries(s: State, s': State, k: nat)
    requires k in s.calls && CallOk(s, k) && k in s'.calls && s'.calls[k] == s.calls[k]
    requires s.now <= s'.now && SameOwner(s, s')
    requires Active(s, k) ==> Kept(s.io, s'.io, FibreTask(s.calls[k].fibre))
    requires forall c | c in s.owner && s.owner[c] == k && Active(s, k) && !s.calls[k].cancelled :: CbCount(s, c) <= CbCount(s', c)
    requires Active(s, k) && s.calls[k].cancelled ==> SamePending(s, s', k)
    requires OwnTimer(s', k)
    ensures CallOk(s', k)
  {
    var c := s.calls[k];
    if c.phase.Waiting? {
      if Registered(s, k) {
        AtWaits(s.io, c.fd, c.event, FibreTask(c.fibre));
      }
      if Registered(s', k) {
        AtWaits(s'.io, c.fd, c.event, FibreTask(c.fibre));
      }
    }
  }

  /** A callback stays where its time is right. */
  lemma CbCarries(s: State, s': State, c: CbId)
    requires c in s.owner && CbOk(s, c) && s.now <= s'.now && SameOwner(s, s')
    requires var k := s.owner[c];
             k in s'.calls && s'.calls[k].to == s.calls[k].to && s'.calls[k].firstWait == s.calls[k].firstWait
    requires Io.WaitCount(s'.io.fds, CbTask(c)) == 0
    requires QueueCount(s'.io.queue, CbTask(c)) <= QueueCount(s.io.queue, CbTask(c)) || TimeReached(s, s.calls[s.owner[c]])
    ensures CbOk(s', c)
  {
  }

  /** The calls' deadlines as the timers know them. */
  ghost predicate SameDeadlines(s: State, s': State) {
    forall k | k in s.calls ::
      k in s'.calls && s'.calls[k].to == s.calls[k].to &&
      (s.calls[k].firstWait.Some? ==> s'.calls[k].firstWait == s.calls[k].firstWait)
  }

  lemma TimerCarries(s: State, s': State, t: T.Timer)
    requires TimerOk(s, t) && SameDeadlines(s, s') && SameOwner(s, s')
    requires t.cb in s'.owner ==> t.cb in s.owner
    requires t.cb in s.owner ==> WaitsWith(s'.calls[s.owner[t.cb]], t.addr)
    ensures TimerOk(s', t)
  {
  }

  /** No new timer lives where a call points to. */
  ghost predicate FewerTimers(s: State, s': State) {
    forall t' | t' in s'.tm.armed :: exists t :: t in s.tm.armed && t.addr == t'.addr && t.cb == t'.cb
  }

  lemma OwnTimerCarries(s: State, s': State, k: nat)
    requires k in s.calls && OwnTimer(s, k) && k in s'.calls
    requires s'.calls[k].phase.Armed? || s'.calls[k].phase.Waiting? ==>
               (s.calls[k].phase.Armed? || s.calls[k].phase.Waiting?) && s'.calls[k].timer == s.calls[k].timer
    requires SameOwner(s, s') && FewerTimers(s, s')
    ensures OwnTimer(s', k)
  {
  }

  // ---- Steps that change no call ----

  /** A callback that may still act is where it was or a step further; no callback gets into an event context. */
  ghost predicate CbMoves(s: State, s': State, c: CbId)
    requires c in s.owner && s.owner[c] in s.calls
  {
    var k := s.owner[c];
    && Io.WaitCount(s'.io.fds, CbTask(c)) == 0
    && (Active(s, k) && !s.calls[k].cancelled ==> CbCount(s, c) <= CbCount(s', c))
    && (QueueCount(s'.io.queue, CbTask(c)) <= QueueCount(s.io.queue, CbTask(c)) || TimeReached(s, s.calls[k]))
  }

  /** Calls stay, the clock does not go back, timers keep their own time, the views agree. */
  ghost predicate Surroundings(s: State, s': State) {
    && s'.calls == s.calls && s'.owner == s.owner && s.now <= s'.now
    && Io.Inv(s'.io) && T.Ordered(s'.tm.armed) && s'.tm.previous <= s'.now
    && (forall t | t in s'.tm.armed :: t in s.tm.armed || t.cb !in s.owner)
    && (forall x | x in s'.acting :: x in s.acting || HalfOk(s', x))
    && (forall k | Active(s, k) && s.calls[k].cancelled :: SamePending(s, s', k))
  }

  lemma SurroundingsKeep(s: State, s': State)
    requires Inv(s) && Surroundings(s, s')
    requires forall k | Active(s, k) :: Kept(s.io, s'.io, FibreTask(s.calls[k].fibre))
    requires forall k | k in s.calls :: OwnTimer(s', k)
    requires forall c | c in s.owner :: s.owner[c] in s.calls && CbMoves(s, s', c)
    ensures Inv(s')
  {
    forall k | k in s.calls ensures CallOk(s', k) {
      assert CallOk(s, k);
      assert forall c | c in s.owner && s.owner[c] == k :: CbMoves(s, s', c);
      CallCarries(s, s', k);
    }
    forall c | c in s.owner ensures CbOk(s', c) {
      assert CbOk(s, c) && CbMoves(s, s', c);
      CbCarries(s, s', c);
    }
    forall t | t in s'.tm.armed ensures TimerOk(s', t) {
      if t in s.tm.armed { TimerCarries(s, s', t); }
    }
    forall x | x in s'.acting ensures HalfOk(s', x) {
      if x in s.acting { assert HalfOk(s, x); }
    }
    assert forall j :: Active(s', j) == Active(s, j);
  }

  /** Where no timer is added no call points to a wrong one. */
  lemma OwnTimersCarry(s: State, s': State)
    requires (forall k | k in s.calls :: CallOk(s, k)) && s'.calls == s.calls && s'.owner == s.owner && FewerTimers(s, s')
    ensures forall k | k in s.calls :: OwnTimer(s', k)
  {
    forall k | k in s.calls ensures OwnTimer(s', k) {
      assert CallOk(s, k);
      OwnTimerCarries(s, s', k);
    }
  }

  /** A step that keeps all the protocol's tasks and changes nothing but registrations and the queue. */
  lemma IoOnlyKeeps(s: State, io': Io.Io)
    requires Inv(s) && Io.Inv(io') && forall t | Ours(s, t) :: Kept(s.io, io', t)
    ensures Inv(s.(io := io'))
  {
    var s' := s.(io := io');
    OwnTimersCarry(s, s');
    forall c | c in s.owner ensures s.owner[c] in s.calls && CbMoves(s, s', c) {
      assert Ours(s, CbTask(c)) && CbOk(s, c);
    }
    forall k | Active(s, k) ensures Kept(s.io, io', FibreTask(s.calls[k].fibre)) {
      assert Ours(s, FibreTask(s.calls[k].fibre));
    }
    SurroundingsKeep(s, s');
  }

  lemma ReadyKeeps(s: State, reports: seq<(Io.Ready, bool)>)
    requires Inv(s) && P.GoodReports(s.io, reports)
    ensures Keeps(s, Ready(reports))
  {
    P.HandleAllKeeps(s.io, reports);
    forall t ensures Kept(s.io, Io.HandleAll(s.io, reports).io, t) {
      HandleAllKept(s.io, reports, t);
    }
    IoOnlyKeeps(s, Io.HandleAll(s.io, reports).io);
  }

  lemma OtherIoKept(s: State, op: OtherIoOp, t: Task)
    requires Inv(s) && OtherIoOk(s, op) && Ours(s, t)
    ensures OtherIoResult(s.io, op).Done? && Io.Inv(OtherIoResult(s.io, op).io)
    ensures Kept(s.io, OtherIoResult(s.io, op).io, t)
  {
    match op
    case TakeTask(i) => QueueErase(s.io.queue, i, t); QueueOnlyKept(s.io, Without(s.io.queue, i), t);
    case SubmitTask(e) => QueueAppend(s.io.queue, e, t);
    case AddFd(fd, e, task, fault) => AddEventKept(s.io, fd, e, task, fault, t);
    case DelFd(fd, e, fault) => DelEventKept(s.io, fd, e, fault, t);
    case CancelFd(fd, e, fault) => CancelEventKept(s.io, fd, e, fault, t);
    case CancelAllFd(fd, fault) => CancelAllKept(s.io, fd, fault, t);
  }

  lemma OtherIoDone(s: State, op: OtherIoOp)
    requires Inv(s) && OtherIoOk(s, op)
    ensures OtherIoResult(s.io, op).Done? && Io.Inv(OtherIoResult(s.io, op).io)
  {
    match op
    case TakeTask(i) =>
    case SubmitTask(e) =>
    case AddFd(fd, e, task, fault) => P.AddEventKeeps(s.io, fd, e, task, fault);
    case DelFd(fd, e, fault) => P.DelEventKeeps(s.io, fd, e, fault);
    case CancelFd(fd, e, fault) => P.CancelEventKeeps(s.io, fd, e, fault);
    case CancelAllFd(fd, fault) => P.CancelAllKeeps(s.io, fd, fault);
  }

  lemma OtherIoKeeps(s: State, op: OtherIoOp)
    requires Inv(s) && OtherIoOk(s, op)
    ensures Keeps(s, OtherIo(op))
  {
    OtherIoDone(s, op);
    forall t | Ours(s, t) ensures Kept(s.io, OtherIoResult(s.io, op).io, t) {
      OtherIoKept(s, op, t);
    }
    IoOnlyKeeps(s, OtherIoResult(s.io, op).io);
  }

  // ---- Timers ----

  /** Cancelling takes out at most the timer at the address. */
  lemma CancelMeans(tm: T.Timers, addr: nat)
    requires T.Ordered(tm.armed)
    ensures var tm' := T.Cancel(tm, addr).1;
            && T.Ordered(tm'.armed) && tm'.previous == tm.previous
            && (forall t | t in tm'.armed :: t in tm.armed && t.addr != addr)
            && (forall c | (forall t | t in tm.armed && t.addr == addr :: t.cb != c) ::
                  TimerCount(tm'.armed, CbTask(c)) == TimerCount(tm.armed, CbTask(c)))
  {
    var i := T.Index(tm.armed, addr);
    if i.Some? {
      TR.EraseKeeps(tm.armed, i.value);
      assert T.Absent(T.Erase(tm.armed, i.value), addr);
      assert tm.armed[i.value] in tm.armed;
      forall c | forall t | t in tm.armed && t.addr == addr :: t.cb != c
        ensures TimerCount(T.Cancel(tm, addr).1.armed, CbTask(c)) == TimerCount(tm.armed, CbTask(c))
      {
        TimerEraseCount(tm.armed, i.value, CbTask(c));
      }
    }
  }

  /** Adding a timer puts in exactly that one. */
  lemma AddMeans(tm: T.Timers, u: T.Timer)
    requires T.Ordered(tm.armed) && T.Absent(tm.armed, u.addr)
    ensures var tm' := T.AddTimer(tm, u).timers;
            && T.Ordered(tm'.armed) && tm'.previous == tm.previous
            && (forall t :: t in tm'.armed <==> t in tm.armed || t == u)
            && (forall c :: TimerCount(tm'.armed, CbTask(c)) == TimerCount(tm.armed, CbTask(c)) + OneShot(u, CbTask(c)))
  {
    TR.AddKeeps(tm, u);
    forall c ensures TimerCount(T.AddTimer(tm, u).timers.armed, CbTask(c)) ==
                     TimerCount(tm.armed, CbTask(c)) + OneShot(u, CbTask(c)) {
      TimerInsertCount(tm.armed, u, CbTask(c));
    }
  }

  /** What a step of call `k` may do to the timers: take out `k`'s own. */
  ghost predicate TimersMove(s: State, k: nat, tm': T.Timers) {
    && T.Ordered(tm'.armed) && tm'.previous == s.tm.previous
    && (forall t | t in tm'.armed :: t in s.tm.armed)
    && (forall c | c in s.owner && s.owner[c] != k :: TimerCount(tm'.armed, CbTask(c)) == TimerCount(s.tm.armed, CbTask(c)))
  }

  /** And to registrations and the queue: what belongs to other calls is kept, no callback is queued. */
  ghost predicate IoMoves(s: State, k: nat, io': Io.Io) {
    && Io.Inv(io')
    && (forall j | Active(s, j) && j != k :: Kept(s.io, io', FibreTask(s.calls[j].fibre)))
    && (forall c | c in s.owner ::
          && Io.WaitCount(io'.fds, CbTask(c)) == 0
          && QueueCount(io'.queue, CbTask(c)) <= QueueCount(s.io.queue, CbTask(c))
          && (s.owner[c] != k ==> QueueCount(io'.queue, CbTask(c)) == QueueCount(s.io.queue, CbTask(c))))
  }

  /** timer->cancel() of one call leaves the other calls' callbacks where they are. */
  lemma CancelOwnMoves(s: State, k: nat)
    requires Inv(s) && k in s.calls && (s.calls[k].phase.Armed? || s.calls[k].phase.Waiting?)
    ensures TimersMove(s, k, CancelOwn(s.tm, s.calls[k].timer))
    ensures forall t | t in CancelOwn(s.tm, s.calls[k].timer).armed && t.cb in s.owner :: s.owner[t.cb] != k
  {
    assert OwnTimer(s, k) by { assert CallOk(s, k); }
    if s.calls[k].timer.Some? {
      CancelMeans(s.tm, s.calls[k].timer.value);
    }
    forall t | t in CancelOwn(s.tm, s.calls[k].timer).armed && t.cb in s.owner ensures s.owner[t.cb] != k {
      assert TimerOk(s, t);
    }
  }

  // ---- Steps of the calls ----

  /** A step of call `k` or of a callback of its. */
  ghost function Put(s: State, k: nat, c: Call, io': Io.Io, tm': T.Timers, acting': seq<Half>): State {
    s.(calls := s.calls[k := c], io := io', tm := tm', acting := acting')
  }

  /** Of the callbacks being run it concerns only those of `k`, and gives one of them at most its flag. */
  ghost predicate HalvesMove(s: State, k: nat, c: Call, acting': seq<Half>) {
    && (forall b | b in s.owner && s.owner[b] != k :: HalfCount(acting', b) == HalfCount(s.acting, b))
    && (forall j | j != k :: Pending(acting', s.owner, j) <==> Pending(s.acting, s.owner, j))
    && (forall x | x in acting' && x !in s.acting ::
          Half(x.cb, false) in s.acting && x.cb in s.owner && s.owner[x.cb] == k && (c.cancelled || c.phase.Returned?))
  }

  /** The call's new record goes with its old one: same timeout, first wait and timer. */
  ghost predicate Succeeds(s: State, k: nat, c: Call) {
    if k in s.calls then
      && Active(s, k) && c.fibre == s.calls[k].fibre && c.to == s.calls[k].to
      && (c.firstWait == s.calls[k].firstWait || s.calls[k].firstWait.None?)
      && (c.phase.Armed? || c.phase.Waiting? ==>
            c.timer.None? || ((s.calls[k].phase.Armed? || s.calls[k].phase.Waiting?) && c.timer == s.calls[k].timer))
      && (s.calls[k].cancelled ==> c.cancelled || c.phase.Returned?)
    else
      c.phase.Running? && forall j | Active(s, j) :: s.calls[j].fibre != c.fibre
  }

  /** The call's armed timers are the ones its new record waits with. */
  ghost predicate TimersFit(s: State, k: nat, c: Call, tm': T.Timers) {
    forall t | t in tm'.armed && t.cb in s.owner && s.owner[t.cb] == k :: WaitsWith(c, t.addr)
  }

  lemma SameTimersFit(s: State, k: nat, c: Call)
    requires Inv(s) && (k in s.calls ==> forall a | WaitsWith(s.calls[k], a) :: WaitsWith(c, a))
    ensures TimersFit(s, k, c, s.tm)
  {
    forall t | t in s.tm.armed && t.cb in s.owner && s.owner[t.cb] == k ensures WaitsWith(c, t.addr) {
      assert TimerOk(s, t);
    }
  }

  /** A step of one call keeps everything else in order. */
  lemma PutKeeps(s: State, k: nat, c: Call, io': Io.Io, tm': T.Timers, acting': seq<Half>)
    requires Inv(s) && Succeeds(s, k, c) && IoMoves(s, k, io') && TimersMove(s, k, tm') && HalvesMove(s, k, c, acting') && TimersFit(s, k, c, tm')
    requires var s' := Put(s, k, c, io', tm', acting'); TokenOk(s', k) && TimeOk(s', k) && SourceOk(s', k)
    ensures Inv(Put(s, k, c, io', tm', acting'))
  {
    PutCalls(s, k, c, io', tm', acting');
    PutFibres(s, k, c, io', tm', acting');
    PutCallbacks(s, k, c, io', tm', acting');
    PutTimers(s, k, c, io', tm', acting');
    PutHalves(s, k, c, io', tm', acting');
  }

  lemma PutCallbacks(s: State, k: nat, c: Call, io': Io.Io, tm': T.Timers, acting': seq<Half>)
    requires (forall b | b in s.owner :: CbOk(s, b)) && Succeeds(s, k, c) && IoMoves(s, k, io')
    ensures var s' := Put(s, k, c, io', tm', acting'); forall b | b in s'.owner :: CbOk(s', b)
  {
    var s' := Put(s, k, c, io', tm', acting');
    forall b | b in s'.owner ensures CbOk(s', b) {
      assert CbOk(s, b);
      CbStays(s, s', b);
    }
  }

  lemma PutTimers(s: State, k: nat, c: Call, io': Io.Io, tm': T.Timers, acting': seq<Half>)
    requires (forall t | t in s.tm.armed :: TimerOk(s, t)) && Succeeds(s, k, c) && TimersMove(s, k, tm') && TimersFit(s, k, c, tm')
    ensures var s' := Put(s, k, c, io', tm', acting'); forall t | t in s'.tm.armed :: TimerOk(s', t)
  {
    forall t | t in tm'.armed ensures TimerOk(Put(s, k, c, io', tm', acting'), t) {
      TimerStays(s, k, c, io', tm', acting', t);
    }
  }

  lemma PutHalves(s: State, k: nat, c: Call, io': Io.Io, tm': T.Timers, acting': seq<Half>)
    requires (forall x | x in s.acting :: HalfOk(s, x)) && Succeeds(s, k, c) && HalvesMove(s, k, c, acting')
    ensures var s' := Put(s, k, c, io', tm', acting'); forall x | x in s'.acting :: HalfOk(s', x)
  {
    forall x | x in acting' ensures HalfOk(Put(s, k, c, io', tm', acting'), x) {
      HalfStays(s, k, c, io', tm', acting', x);
    }
  }

  lemma HalfStays(s: State, k: nat, c: Call, io': Io.Io, tm': T.Timers, acting': seq<Half>, x: Half)
    requires (forall x | x in s.acting :: HalfOk(s, x)) && Succeeds(s, k, c) && HalvesMove(s, k, c, acting') && x in acting'
    ensures HalfOk(Put(s, k, c, io', tm', acting'), x)
  {
    assert HalfOk(s, if x in s.acting then x else Half(x.cb, false));
  }

  lemma PutCalls(s: State, k: nat, c: Call, io': Io.Io, tm': T.Timers, acting': seq<Half>)
    requires (forall j | j in s.calls :: CallOk(s, j)) && Succeeds(s, k, c) && IoMoves(s, k, io') && TimersMove(s, k, tm') && HalvesMove(s, k, c, acting')
    requires var s' := Put(s, k, c, io', tm', acting'); TokenOk(s', k) && TimeOk(s', k) && SourceOk(s', k)
    ensures var s' := Put(s, k, c, io', tm', acting'); forall j | j in s'.calls :: CallOk(s', j)
  {
    var s' := Put(s, k, c, io', tm', acting');
    assert FewerTimers(s, s');
    forall j | j in s'.calls ensures CallOk(s', j) {
      PutCall(s, k, c, io', tm', acting', j);
    }
  }

  lemma PutFibres(s: State, k: nat, c: Call, io': Io.Io, tm': T.Timers, acting': seq<Half>)
    requires FibresApart(s) && Succeeds(s, k, c)
    ensures FibresApart(Put(s, k, c, io', tm', acting'))
  {
    assert forall j | j != k :: Active(Put(s, k, c, io', tm', acting'), j) == Active(s, j);
  }

  lemma PutCall(s: State, k: nat, c: Call, io': Io.Io, tm': T.Timers, acting': seq<Half>, j: nat)
    requires (j in s.calls ==> CallOk(s, j)) && Succeeds(s, k, c) && IoMoves(s, k, io') && TimersMove(s, k, tm') && HalvesMove(s, k, c, acting')
    requires j in s.calls || j == k
    requires var s' := Put(s, k, c, io', tm', acting'); TokenOk(s', k) && TimeOk(s', k) && SourceOk(s', k) && FewerTimers(s, s')
    ensures CallOk(Put(s, k, c, io', tm', acting'), j)
  {
    var s' := Put(s, k, c, io', tm', acting');
    if j in s.calls && (j != k || c.timer.Some?) {
      OwnTimerCarries(s, s', j);
    }
    if j != k {
      CallCarries(s, s', j);
    }
  }

  lemma CbStays(s: State, s': State, b: CbId)
    requires b in s.owner && CbOk(s, b) && s'.owner == s.owner && s'.now == s.now && SameDeadlines(s, s')
    requires Io.WaitCount(s'.io.fds, CbTask(b)) == 0
    requires QueueCount(s'.io.queue, CbTask(b)) <= QueueCount(s.io.queue, CbTask(b))
    ensures CbOk(s', b)
  {
  }

  lemma TimerStays(s: State, k: nat, c: Call, io': Io.Io, tm': T.Timers, acting': seq<Half>, t: T.Timer)
    requires TimerOk(s, t) && Succeeds(s, k, c) && t in tm'.armed && TimersFit(s, k, c, tm')
    ensures TimerOk(Put(s, k, c, io', tm', acting'), t)
  {
    TimerCarries(s, Put(s, k, c, io', tm', acting'), t);
  }

  lemma NothingMoves(s: State, k: nat)
    requires Inv(s)
    ensures IoMoves(s, k, s.io) && TimersMove(s, k, s.tm)
  {
    forall c | c in s.owner ensures Io.WaitCount(s.io.fds, CbTask(c)) == 0 { assert CbOk(s, c); }
  }

  /** A step is possible and keeps the invariant. */
  ghost predicate Keeps(s: State, a: Action)
    requires Enabled(s, a)
  {
    Next(s, a).Some? && Inv(Next(s, a).value)
  }

  lemma EnterKeeps(s: State, k: nat, f: FibreId, fd: Io.Fd, e: Io.Event, to: Option<T.U64>)
    requires Inv(s) && Enabled(s, Enter(k, f, fd, e, to))
    ensures Keeps(s, Enter(k, f, fd, e, to))
  {
    var c := Call(f, fd, e, to, Running, false, None, None, None, false);
    NothingMoves(s, k);
    SameTimersFit(s, k, c);
    PutKeeps(s, k, c, s.io, s.tm, s.acting);
  }

  lemma CompleteKeeps(s: State, k: nat)
    requires Inv(s) && Enabled(s, Complete(k))
    ensures Keeps(s, Complete(k))
  {
    NothingMoves(s, k);
    assert CallOk(s, k);
    SameTimersFit(s, k, s.calls[k].(phase := Returned(false)));
    PutKeeps(s, k, s.calls[k].(phase := Returned(false)), s.io, s.tm, s.acting);
  }

  lemma ArmForeverKeeps(s: State, k: nat, addr: nat, cb: CbId)
    requires Inv(s) && Enabled(s, Arm(k, addr, cb)) && s.calls[k].to.None?
    ensures Keeps(s, Arm(k, addr, cb))
  {
    var c := s.calls[k];
    NothingMoves(s, k);
    assert CallOk(s, k);
    SameTimersFit(s, k, DoArm(s, k, addr, cb).calls[k]);
    PutKeeps(s, k, DoArm(s, k, addr, cb).calls[k], s.io, s.tm, s.acting);
  }

  /** The state after arming a timer for call `k`. */
  ghost function ArmState(s: State, k: nat, addr: nat, cb: CbId, ms: T.U64): State
    requires k in s.calls
  {
    var c := s.calls[k];
    var c' := c.(phase := Armed, firstWait := if c.firstWait.Some? then c.firstWait else Some(s.now), timer := Some(addr), cb := Some(cb));
    s.(calls := s.calls[k := c'], tm := T.AddTimer(s.tm, T.NewTimer(addr, ms, cb, false, s.now)).timers, owner := s.owner[cb := k])
  }

  lemma ArmTimerCalls(s: State, k: nat, addr: nat, cb: CbId, ms: T.U64)
    requires Inv(s) && Enabled(s, Arm(k, addr, cb)) && s.calls[k].to == Some(ms)
    ensures forall j | j in s.calls :: CallOk(ArmState(s, k, addr, cb, ms), j)
  {
    var s' := ArmState(s, k, addr, cb, ms);
    AddMeans(s.tm, T.NewTimer(addr, ms, cb, false, s.now));
    forall j | j in s.calls ensures CallOk(s', j) {
      assert CallOk(s, j);
      if j == k {
        ArmOwnCall(s, k, addr, cb, ms);
      } else {
        ArmOtherCall(s, k, addr, cb, ms, j);
      }
    }
  }

  lemma ArmOwnCall(s: State, k: nat, addr: nat, cb: CbId, ms: T.U64)
    requires k in s.calls && CallOk(s, k) && s.calls[k].phase.Running? && T.Absent(s.tm.armed, addr)
    requires var u := T.NewTimer(addr, ms, cb, false, s.now);
             var tm' := T.AddTimer(s.tm, u).timers;
             && (forall t :: t in tm'.armed <==> t in s.tm.armed || t == u)
             && TimerCount(tm'.armed, CbTask(cb)) == TimerCount(s.tm.armed, CbTask(cb)) + OneShot(u, CbTask(cb))
    ensures CallOk(ArmState(s, k, addr, cb, ms), k)
  {
    var s' := ArmState(s, k, addr, cb, ms);
    assert CbCount(s', cb) >= 1;
    assert OwnTimer(s', k);
  }

  lemma ArmOtherCall(s: State, k: nat, addr: nat, cb: CbId, ms: T.U64, j: nat)
    requires k in s.calls && j in s.calls && j != k && CallOk(s, j) && AddrFree(s, addr) && cb !in s.owner
    requires var u := T.NewTimer(addr, ms, cb, false, s.now);
             var tm' := T.AddTimer(s.tm, u).timers;
             && (forall t :: t in tm'.armed <==> t in s.tm.armed || t == u)
             && (forall c :: TimerCount(tm'.armed, CbTask(c)) == TimerCount(s.tm.armed, CbTask(c)) + OneShot(u, CbTask(c)))
    ensures CallOk(ArmState(s, k, addr, cb, ms), j)
  {
    var s' := ArmState(s, k, addr, cb, ms);
    assert s.calls[j].phase.Armed? || s.calls[j].phase.Waiting? ==> s.calls[j].timer != Some(addr);
    assert OwnTimer(s', j);
    QueueOnlyKept(s.io, s.io.queue, FibreTask(s.calls[j].fibre));
    CallCarries(s, s', j);
  }

  lemma ArmTimerCallbacks(s: State, k: nat, addr: nat, cb: CbId, ms: T.U64)
    requires Inv(s) && Enabled(s, Arm(k, addr, cb)) && s.calls[k].to == Some(ms)
    ensures var s' := ArmState(s, k, addr, cb, ms);
            (forall c | c in s'.owner :: CbOk(s', c)) && s'.tm.previous <= s'.now
  {
    var s' := ArmState(s, k, addr, cb, ms);
    assert CallOk(s, k);
    forall c | c in s'.owner ensures CbOk(s', c) {
      if c != cb {
        assert CbOk(s, c);
        ArmCallback(s, k, addr, cb, ms, c);
      }
    }
  }

  lemma ArmCallback(s: State, k: nat, addr: nat, cb: CbId, ms: T.U64, c: CbId)
    requires k in s.calls && CallOk(s, k) && c in s.owner && CbOk(s, c) && c != cb && cb !in s.owner
    ensures CbOk(ArmState(s, k, addr, cb, ms), c)
  {
  }

  lemma ArmTimerTimers(s: State, k: nat, addr: nat, cb: CbId, ms: T.U64)
    requires Inv(s) && Enabled(s, Arm(k, addr, cb)) && s.calls[k].to == Some(ms)
    ensures var s' := ArmState(s, k, addr, cb, ms);
            T.Ordered(s'.tm.armed) && forall t | t in s'.tm.armed :: TimerOk(s', t)
  {
    var s' := ArmState(s, k, addr, cb, ms);
    AddMeans(s.tm, T.NewTimer(addr, ms, cb, false, s.now));
    assert CallOk(s, k);
    forall t | t in s'.tm.armed ensures TimerOk(s', t) {
      ArmTimer(s, k, addr, cb, ms, t);
    }
  }

  lemma ArmTimer(s: State, k: nat, addr: nat, cb: CbId, ms: T.U64, t: T.Timer)
    requires k in s.calls && TimeOk(s, k) && s.calls[k].to == Some(ms) && s.now + ms < TWO64
    requires t == T.NewTimer(addr, ms, cb, false, s.now) || (TimerOk(s, t) && t.cb != cb && s.calls[k].phase.Running?)
    ensures TimerOk(ArmState(s, k, addr, cb, ms), t)
  {
    T.NoWrap(s.now, ms);
  }

  lemma ArmHalves(s: State, k: nat, addr: nat, cb: CbId, ms: T.U64)
    requires k in s.calls && s.calls[k].phase.Running? && cb !in s.owner && forall x | x in s.acting :: HalfOk(s, x)
    ensures forall x | x in s.acting :: HalfOk(ArmState(s, k, addr, cb, ms), x)
  {
    forall x | x in s.acting ensures HalfOk(ArmState(s, k, addr, cb, ms), x) { ArmHalf(s, k, addr, cb, ms, x); }
  }

  lemma ArmHalf(s: State, k: nat, addr: nat, cb: CbId, ms: T.U64, x: Half)
    requires k in s.calls && s.calls[k].phase.Running? && cb !in s.owner && HalfOk(s, x)
    ensures HalfOk(ArmState(s, k, addr, cb, ms), x)
  {
  }

  lemma ArmKeeps(s: State, k: nat, addr: nat, cb: CbId)
    requires Inv(s) && Enabled(s, Arm(k, addr, cb))
    ensures Keeps(s, Arm(k, addr, cb))
  {
    match s.calls[k].to
    case None => ArmForeverKeeps(s, k, addr, cb);
    case Some(ms) =>
      ArmTimerCalls(s, k, addr, cb, ms);
      ArmTimerCallbacks(s, k, addr, cb, ms);
      ArmTimerTimers(s, k, addr, cb, ms);
      var s' := ArmState(s, k, addr, cb, ms);
      assert forall j :: Active(s', j) == Active(s, j);
      ArmHalves(s, k, addr, cb, ms);
      assert Next(s, Arm(k, addr, cb)) == Some(s');
  }

  /** Registering `k`'s fibre moves nothing else. */
  lemma RegisterMoves(s: State, k: nat, fault: bool)
    requires Inv(s) && Active(s, k) && Io.SlotFree(s.io, s.calls[k].fd, s.calls[k].event)
    ensures var c := s.calls[k];
            var o := Io.AddEvent(s.io, c.fd, c.event, FibreTask(c.fibre), fault);
            o.Done? && o.ok == !fault && o.io.queue == s.io.queue && IoMoves(s, k, o.io)
  {
    var c := s.calls[k];
    P.AddEventKeeps(s.io, c.fd, c.event, FibreTask(c.fibre), fault);
    P.AddEventMeaning(s.io, c.fd, c.event, FibreTask(c.fibre), fault);
    var io' := Io.AddEvent(s.io, c.fd, c.event, FibreTask(c.fibre), fault).io;
    forall cb | cb in s.owner ensures Io.WaitCount(io'.fds, CbTask(cb)) == 0 {
      assert CbOk(s, cb);
      AddEventKept(s.io, c.fd, c.event, FibreTask(c.fibre), fault, CbTask(cb));
    }
    forall j | Active(s, j) && j != k ensures Kept(s.io, io', FibreTask(s.calls[j].fibre)) {
      AddEventKept(s.io, c.fd, c.event, FibreTask(c.fibre), fault, FibreTask(s.calls[j].fibre));
    }
  }

  lemma RegisterKeeps(s: State, k: nat, fault: bool)
    requires Inv(s) && Enabled(s, Register(k, fault))
    ensures Keeps(s, Register(k, fault))
  {
    var c := s.calls[k];
    RegisterMoves(s, k, fault);
    assert CallOk(s, k);
    var io' := Io.AddEvent(s.io, c.fd, c.event, FibreTask(c.fibre), fault).io;
    if fault {
      CancelOwnMoves(s, k);
      PutKeeps(s, k, c.(phase := Returned(false)), io', CancelOwn(s.tm, c.timer), s.acting);
    } else {
      AddEventPlaces(s.io, c.fd, c.event, FibreTask(c.fibre));
      NothingMoves(s, k);
      SameTimersFit(s, k, c.(phase := Waiting, missed := c.cancelled && !Pending(s.acting, s.owner, k)));
      PutKeeps(s, k, c.(phase := Waiting, missed := c.cancelled && !Pending(s.acting, s.owner, k)), io', s.tm, s.acting);
    }
  }

  /** Taking an entry out of the queue moves nothing but its task. */
  lemma TakeMoves(s: State, k: nat, i: nat)
    requires Inv(s) && i < |s.io.queue|
    requires forall j | Active(s, j) && j != k :: s.io.queue[i].task != FibreTask(s.calls[j].fibre)
    requires s.io.queue[i].task.CbTask? ==> s.io.queue[i].task.cb in s.owner && s.owner[s.io.queue[i].task.cb] == k
    ensures IoMoves(s, k, s.io.(queue := Without(s.io.queue, i)))
    ensures var t := s.io.queue[i].task; QueueCount(s.io.queue, t) == QueueCount(Without(s.io.queue, i), t) + 1
  {
    var q' := Without(s.io.queue, i);
    forall j | Active(s, j) && j != k ensures Kept(s.io, s.io.(queue := q'), FibreTask(s.calls[j].fibre)) {
      QueueErase(s.io.queue, i, FibreTask(s.calls[j].fibre));
    }
    forall c | c in s.owner
      ensures Io.WaitCount(s.io.fds, CbTask(c)) == 0 && QueueCount(q', CbTask(c)) <= QueueCount(s.io.queue, CbTask(c))
      ensures s.owner[c] != k ==> QueueCount(q', CbTask(c)) == QueueCount(s.io.queue, CbTask(c))
    {
      assert CbOk(s, c);
      QueueErase(s.io.queue, i, CbTask(c));
    }
    QueueErase(s.io.queue, i, s.io.queue[i].task);
  }

  lemma ResumeKeeps(s: State, k: nat, i: nat)
    requires Inv(s) && Enabled(s, Resume(k, i))
    ensures Keeps(s, Resume(k, i))
  {
    var c := s.calls[k];
    assert CallOk(s, k) && Active(s, k);
    TakeMoves(s, k, i);
    CancelOwnMoves(s, k);
    PutKeeps(s, k, c.(phase := if c.cancelled then Returned(true) else Running),
      s.io.(queue := Without(s.io.queue, i)), CancelOwn(s.tm, c.timer), s.acting);
  }

  // ---- A timeout callback runs ----

  lemma {:induction false} HalfConcat(a: seq<Half>, b: seq<Half>, c: CbId)
    ensures HalfCount(a + b, c) == HalfCount(a, c) + HalfCount(b, c)
  {
    if a == [] {
      assert a + b == b;
    } else {
      HalfConcat(a[1..], b, c);
      assert (a + b)[1..] == a[1..] + b;
    }
  }

  lemma HalfSplit(acting: seq<Half>, h: nat, c: CbId)
    requires h < |acting|
    ensures HalfCount(acting, c) == HalfCount(acting[..h], c) + HalfCount([acting[h]], c) + HalfCount(acting[h + 1..], c)
    ensures HalfCount(Without(acting, h), c) == HalfCount(acting[..h], c) + HalfCount(acting[h + 1..], c)
  {
    HalfConcat(acting[..h], acting[h + 1..], c);
    HalfConcat(acting[..h] + [acting[h]], acting[h + 1..], c);
    HalfConcat(acting[..h], [acting[h]], c);
    assert acting == acting[..h] + [acting[h]] + acting[h + 1..];
  }

  /** A callback leaving, or setting its flag, matters to no other callback. */
  lemma HalfLeaves(acting: seq<Half>, h: nat, c: CbId)
    requires h < |acting|
    ensures c != acting[h].cb ==> HalfCount(Without(acting, h), c) == HalfCount(acting, c)
    ensures HalfCount(acting[h := Half(acting[h].cb, true)], c) == HalfCount(acting, c)
  {
    var flagged := acting[h := Half(acting[h].cb, true)];
    HalfSplit(acting, h, c);
    HalfSplit(flagged, h, c);
    assert flagged[..h] == acting[..h] && flagged[h + 1..] == acting[h + 1..];
  }

  lemma WithoutMembers(acting: seq<Half>, h: nat)
    requires h < |acting|
    ensures forall x :: x in acting <==> x in Without(acting, h) || x == acting[h]
  {
    assert acting == acting[..h] + [acting[h]] + acting[h + 1..];
  }

  lemma SetMembers(acting: seq<Half>, h: nat)
    requires h < |acting|
    ensures var x := Half(acting[h].cb, true);
            && (forall y | y in acting :: y in acting[h := x] || y == acting[h])
            && (forall y | y in acting[h := x] :: y in acting || y == x)
            && x in acting[h := x] && acting[h] in acting
  {
    var x := Half(acting[h].cb, true);
    assert acting[h := x][h] == x;
    forall y | y in acting ensures y in acting[h := x] || y == acting[h] {
      var i :| 0 <= i < |acting| && acting[i] == y;
      assert i == h || acting[h := x][i] == y;
    }
  }

  /** Setting one callback's flag changes nobody's pending callbacks. */
  lemma SetPending(s: State, h: nat, k: nat)
    requires h < |s.acting|
    ensures Pending(s.acting[h := Half(s.acting[h].cb, true)], s.owner, k) <==> Pending(s.acting, s.owner, k)
  {
    SetMembers(s.acting, h);
  }

  /** A callback leaving concerns only its own call. */
  lemma LeavePending(s: State, h: nat, k: nat)
    requires h < |s.acting| && (s.acting[h].cb in s.owner ==> s.owner[s.acting[h].cb] != k)
    ensures Pending(Without(s.acting, h), s.owner, k) <==> Pending(s.acting, s.owner, k)
  {
    WithoutMembers(s.acting, h);
  }

  /** Taking a callback from the queue: it is dropped, or goes on while its call's flag is clear. */
  lemma RunCbKeeps(s: State, i: nat)
    requires Inv(s) && Enabled(s, RunCb(i))
    ensures Keeps(s, RunCb(i))
  {
    var cb := s.io.queue[i].task.cb;
    var k := s.owner[cb];
    var s' := DoRunCb(s, i);
    assert CbOk(s, cb);
    TakeMoves(s, k, i);
    OwnTimersCarry(s, s');
    forall c | c in s.owner ensures s.owner[c] in s.calls && CbMoves(s, s', c) {
      assert CbOk(s, c);
      QueueErase(s.io.queue, i, CbTask(c));
      HalfConcat(s.acting, [Half(cb, false)], c);
    }
    forall j | Active(s, j) ensures Kept(s.io, s'.io, FibreTask(s.calls[j].fibre)) {
      QueueErase(s.io.queue, i, FibreTask(s.calls[j].fibre));
    }
    RunCbSurroundings(s, i);
    SurroundingsKeep(s, s');
    assert Next(s, RunCb(i)) == Some(s');
  }

  lemma RunCbSurroundings(s: State, i: nat)
    requires Inv(s) && Enabled(s, RunCb(i))
    ensures Surroundings(s, DoRunCb(s, i))
  {
    var cb := s.io.queue[i].task.cb;
    var s' := DoRunCb(s, i);
    QueueErase(s.io.queue, i, CbTask(cb));
    assert CbOk(s, cb);
    P.QueueKeepsInv(s.io, s'.io.queue);
    forall x | x in s'.acting ensures x in s.acting || HalfOk(s', x) {
      assert x in s.acting || x == Half(cb, false);
    }
    forall k | Active(s, k) && s.calls[k].cancelled ensures SamePending(s, s', k) {
      assert forall x | x in s'.acting && x !in s.acting :: s.owner[x.cb] != k;
      assert forall x | x in s.acting :: x in s'.acting;
    }
  }

  /** The callback sets the flag of its call, or, if that has returned, nobody's. */
  lemma SetFlagKeeps(s: State, h: nat)
    requires Inv(s) && Enabled(s, SetFlag(h))
    ensures Keeps(s, SetFlag(h))
  {
    var x := s.acting[h];
    assert x in s.acting && HalfOk(s, x);
    var k := s.owner[x.cb];
    var acting' := s.acting[h := Half(x.cb, true)];
    SetMembers(s.acting, h);
    forall j ensures Pending(acting', s.owner, j) <==> Pending(s.acting, s.owner, j) { SetPending(s, h, j); }
    forall c ensures HalfCount(acting', c) == HalfCount(s.acting, c) { HalfLeaves(s.acting, h, c); }
    if s.calls[k].phase.Returned? {
      ActingOnlyKeeps(s, s.io, acting');
    } else {
      assert CallOk(s, k);
      var c' := s.calls[k].(cancelled := true);
      NothingMoves(s, k);
      SameTimersFit(s, k, c');
      SetFlagCall(s, k, c', acting', h);
      PutKeeps(s, k, c', s.io, s.tm, acting');
    }
  }

  /** The call itself: a callback that will wake it is still being run. */
  lemma SetFlagCall(s: State, k: nat, c': Call, acting': seq<Half>, h: nat)
    requires k in s.calls && CallOk(s, k) && TimeReached(s, s.calls[k]) && c' == s.calls[k].(cancelled := true)
    requires h < |s.acting| && s.acting[h].cb in s.owner && s.owner[s.acting[h].cb] == k
    requires Pending(acting', s.owner, k) <==> Pending(s.acting, s.owner, k)
    requires forall c :: HalfCount(acting', c) == HalfCount(s.acting, c)
    ensures var s' := Put(s, k, c', s.io, s.tm, acting'); TokenOk(s', k) && TimeOk(s', k) && SourceOk(s', k)
  {
    assert s.acting[h] in s.acting;
    assert Pending(s.acting, s.owner, k);
  }

  /** A callback of a returned call goes on: no call changes, and what the protocol holds is kept. */
  lemma ActingOnlyKeeps(s: State, io': Io.Io, acting': seq<Half>)
    requires Inv(s) && Io.Inv(io')
    requires forall k | Active(s, k) :: Pending(acting', s.owner, k) <==> Pending(s.acting, s.owner, k)
    requires forall c | c in s.owner && Active(s, s.owner[c]) :: HalfCount(acting', c) == HalfCount(s.acting, c)
    requires forall x | x in acting' :: x in s.acting || HalfOk(s, x)
    requires forall t | Ours(s, t) :: Kept(s.io, io', t)
    ensures Inv(s.(io := io', acting := acting'))
  {
    var s' := s.(io := io', acting := acting');
    OwnTimersCarry(s, s');
    forall c | c in s.owner ensures s.owner[c] in s.calls && CbMoves(s, s', c) {
      assert Ours(s, CbTask(c)) && CbOk(s, c);
    }
    forall k | Active(s, k) ensures Kept(s.io, io', FibreTask(s.calls[k].fibre)) {
      assert Ours(s, FibreTask(s.calls[k].fibre));
    }
    forall x | x in s'.acting ensures x in s.acting || HalfOk(s', x) {}
    SurroundingsKeep(s, s');
  }

  lemma CancelMoves(s: State, k: nat, fd: Io.Fd, e: Io.Event, fault: bool)
    requires Inv(s)
    ensures Io.CancelEvent(s.io, fd, e, fault).Done? && IoMoves(s, k, Io.CancelEvent(s.io, fd, e, fault).io)
    ensures forall t :: Kept(s.io, Io.CancelEvent(s.io, fd, e, fault).io, t)
  {
    P.CancelEventKeeps(s.io, fd, e, fault);
    var io' := Io.CancelEvent(s.io, fd, e, fault).io;
    forall t ensures Kept(s.io, io', t) {
      CancelEventKept(s.io, fd, e, fault, t);
    }
    forall b | b in s.owner
      ensures Io.WaitCount(io'.fds, CbTask(b)) == 0 && QueueCount(io'.queue, CbTask(b)) == QueueCount(s.io.queue, CbTask(b))
    {
      assert CbOk(s, b);
      assert Kept(s.io, io', CbTask(b));
    }
  }

  /** The call itself: parked at its event it is woken, unless the kernel refuses. */
  lemma WithdrawCall(s: State, k: nat, c': Call, io': Io.Io, acting': seq<Half>, fault: bool)
    requires k in s.calls && CallOk(s, k) && Io.Inv(s.io) && (Active(s, k) ==> s.calls[k].cancelled)
    requires c' == (if s.calls[k].phase.Waiting? then s.calls[k].(missed := fault && !Pending(acting', s.owner, k)) else s.calls[k])
    requires Io.CancelEvent(s.io, c'.fd, c'.event, fault).Done? && io' == Io.CancelEvent(s.io, c'.fd, c'.event, fault).io
    ensures var s' := Put(s, k, c', io', s.tm, acting'); TokenOk(s', k) && TimeOk(s', k) && SourceOk(s', k)
  {
    var s' := Put(s, k, c', io', s.tm, acting');
    var t := FibreTask(c'.fibre);
    CancelEventKept(s.io, c'.fd, c'.event, fault, t);
    if c'.phase.Waiting? {
      if Registered(s, k) {
        AtWaits(s.io, c'.fd, c'.event, t);
      }
      if Registered(s', k) {
        AtWaits(io', c'.fd, c'.event, t);
        P.CancelEventMeaning(s.io, c'.fd, c'.event, fault);
      }
    }
  }

  /** Which callbacks are being run once callback `h` has left. */
  lemma LeaveMoves(s: State, h: nat, c: Call)
    requires h < |s.acting| && s.acting[h].cb in s.owner
    ensures HalvesMove(s, s.owner[s.acting[h].cb], c, Without(s.acting, h))
    ensures forall x | x in Without(s.acting, h) :: x in s.acting
  {
    var acting', k := Without(s.acting, h), s.owner[s.acting[h].cb];
    WithoutMembers(s.acting, h);
    forall j | j != k ensures Pending(acting', s.owner, j) <==> Pending(s.acting, s.owner, j) { LeavePending(s, h, j); }
    forall b | b in s.owner && s.owner[b] != k ensures HalfCount(acting', b) == HalfCount(s.acting, b) { HalfLeaves(s.acting, h, b); }
  }

  /** The callback of a returned call withdraws the event: whoever is registered there is woken, nothing is lost. */
  lemma WithdrawReturned(s: State, h: nat, k: nat, io': Io.Io)
    requires Inv(s) && h < |s.acting| && s.acting[h].cb in s.owner && s.owner[s.acting[h].cb] == k
    requires k in s.calls && s.calls[k].phase.Returned? && Io.Inv(io') && forall t :: Kept(s.io, io', t)
    ensures Inv(s.(io := io', acting := Without(s.acting, h)))
  {
    LeaveMoves(s, h, s.calls[k]);
    ActingOnlyKeeps(s, io', Without(s.acting, h));
  }

  /** The callback of a call in progress withdraws the event. */
  lemma WithdrawActive(s: State, h: nat, k: nat, fault: bool, io': Io.Io, c': Call)
    requires Inv(s) && h < |s.acting| && s.acting[h].cb in s.owner && s.owner[s.acting[h].cb] == k && Active(s, k)
    requires s.calls[k].cancelled && IoMoves(s, k, io')
    requires c' == if s.calls[k].phase.Waiting? then s.calls[k].(missed := fault && !Pending(Without(s.acting, h), s.owner, k)) else s.calls[k]
    requires Io.CancelEvent(s.io, c'.fd, c'.event, fault).Done? && io' == Io.CancelEvent(s.io, c'.fd, c'.event, fault).io
    ensures Inv(Put(s, k, c', io', s.tm, Without(s.acting, h)))
  {
    assert CallOk(s, k);
    NothingMoves(s, k);
    SameTimersFit(s, k, c');
    LeaveMoves(s, h, c');
    WithdrawCall(s, k, c', io', Without(s.acting, h), fault);
    PutKeeps(s, k, c', io', s.tm, Without(s.acting, h));
  }

  /** The callback withdraws the event of its call, and is done. */
  lemma WithdrawKeeps(s: State, h: nat, fault: bool)
    requires Inv(s) && Enabled(s, Withdraw(h, fault))
    ensures Keeps(s, Withdraw(h, fault))
  {
    var x := s.acting[h];
    assert x in s.acting && HalfOk(s, x);
    var k := s.owner[x.cb];
    var c := s.calls[k];
    CancelMoves(s, k, c.fd, c.event, fault);
    var io' := Io.CancelEvent(s.io, c.fd, c.event, fault).io;
    if c.phase.Returned? {
      WithdrawReturned(s, h, k, io');
    } else {
      var c' := if c.phase.Waiting? then c.(missed := fault && !Pending(Without(s.acting, h), s.owner, k)) else c;
      WithdrawActive(s, h, k, fault, io', c');
      assert s.calls[k := c] == s.calls;
    }
  }

  // ---- Timers expire ----

  /** The callbacks handed over are those of due timers. */
  lemma {:induction false} EntriesOfCallbacks(ts: seq<T.Timer>, t: Task)
    requires QueueCount(CbEntries(T.Callbacks(ts)), t) > 0
    ensures t.CbTask? && exists i :: 0 <= i < |ts| && ts[i].cb == t.cb
  {
    if ts != [] {
      var cbs := T.Callbacks(ts);
      assert cbs[1..] == T.Callbacks(ts[1..]) && cbs[0] == ts[0].cb;
      assert CbEntries(cbs)[1..] == CbEntries(cbs[1..]);
      if CbTask(ts[0].cb) == t {
      } else {
        EntriesOfCallbacks(ts[1..], t);
        var i :| 0 <= i < |ts[1..]| && ts[1..][i].cb == t.cb;
        assert ts[i + 1].cb == t.cb;
      }
    }
  }

  /** The state as the timer theorems see it. */
  ghost function TimerState(s: State): TR.State {
    TR.State(s.tm, s.now, map[], None, false)
  }

  /** A timer armed after the pass was armed before it: itself, or a recurring one of the same name. */
  lemma ExpireTimers(s: State, probe: nat)
    requires Inv(s)
    ensures var s' := DoExpire(s, probe);
            && T.Ordered(s'.tm.armed) && s'.tm.previous <= s'.now && FewerTimers(s, s')
            && (forall t | t in s'.tm.armed :: t in s.tm.armed || t.cb !in s.owner)
  {
    var s' := DoExpire(s, probe);
    TR.ExpireShape(TimerState(s), probe);
    forall t | t in s'.tm.armed
      ensures (t in s.tm.armed || t.cb !in s.owner) && exists u :: u in s.tm.armed && u.addr == t.addr && u.cb == t.cb
    {
      var i := TR.ExpireSource(TimerState(s), probe, t);
      var u := s.tm.armed[i];
      assert u in s.tm.armed && TimerOk(s, u);
    }
  }

  /** A callback gets from its timer to the queue, when its time has come. */
  lemma ExpireCallback(s: State, probe: nat, c: CbId)
    requires Inv(s) && c in s.owner
    ensures var s' := DoExpire(s, probe);
            && CbCount(s, c) <= CbCount(s', c)
            && (QueueCount(s'.io.queue, CbTask(c)) <= QueueCount(s.io.queue, CbTask(c)) || TimeReached(s, s.calls[s.owner[c]]))
  {
    var (cbs, tm') := T.ListExpired(s.tm, s.now, probe);
    ExpireCount(s.tm, s.now, probe, CbTask(c));
    QueueConcat(s.io.queue, CbEntries(cbs), CbTask(c));
    if QueueCount(CbEntries(cbs), CbTask(c)) > 0 {
      TR.ExpireShape(TimerState(s), probe);
      var gone := TR.Expiring(TimerState(s));
      EntriesOfCallbacks(gone, CbTask(c));
      var i :| 0 <= i < |gone| && gone[i].cb == c;
      assert gone[i] == s.tm.armed[i] && TimerOk(s, s.tm.armed[i]);
      assert CbOk(s, c);
    }
  }

  lemma ExpireFibre(s: State, probe: nat, t: Task)
    requires t.FibreTask?
    ensures Kept(s.io, DoExpire(s, probe).io, t)
  {
    var (cbs, tm') := T.ListExpired(s.tm, s.now, probe);
    NoFibreEntries(cbs, t);
    QueueConcat(s.io.queue, CbEntries(cbs), t);
    QueueOnlyKept(s.io, s.io.queue + CbEntries(cbs), t);
  }

  lemma {:induction false} NoFibreEntries(cbs: seq<CbId>, t: Task)
    requires t.FibreTask?
    ensures QueueCount(CbEntries(cbs), t) == 0
  {
    if cbs != [] {
      NoFibreEntries(cbs[1..], t);
      assert CbEntries(cbs)[1..] == CbEntries(cbs[1..]);
    }
  }

  lemma ExpireKeeps(s: State, probe: nat)
    requires Inv(s)
    ensures Keeps(s, Expire(probe))
  {
    var s' := DoExpire(s, probe);
    ExpireTimers(s, probe);
    P.QueueKeepsInv(s.io, s'.io.queue);
    OwnTimersCarry(s, s');
    forall c | c in s.owner ensures s.owner[c] in s.calls && CbMoves(s, s', c) {
      assert CbOk(s, c);
      ExpireCallback(s, probe, c);
    }
    forall k | Active(s, k) ensures Kept(s.io, s'.io, FibreTask(s.calls[k].fibre)) {
      ExpireFibre(s, probe, FibreTask(s.calls[k].fibre));
    }
    SurroundingsKeep(s, s');
  }

  // ---- The rest ----

  lemma TickKeeps(s: State, d: nat)
    requires Inv(s) && Enabled(s, Tick(d))
    ensures Keeps(s, Tick(d))
  {
    var s' := s.(now := s.now + d);
    assert FewerTimers(s, s');
    OwnTimersCarry(s, s');
    forall c | c in s.owner ensures s.owner[c] in s.calls && CbMoves(s, s', c) {
      assert CbOk(s, c);
    }
    SurroundingsKeep(s, s');
    assert Next(s, Tick(d)) == Some(s');
  }

  /** What the rest of the program does with timers concerns no timeout callback. */
  lemma OtherTimerMoves(s: State, op: OtherTimerOp)
    requires Inv(s) && OtherTimerOk(s, op)
    ensures var tm' := OtherTimerResult(s.tm, s.now, op);
            && T.Ordered(tm'.armed) && tm'.previous == s.tm.previous
            && (forall t | t in tm'.armed :: t in s.tm.armed || (t.cb !in s.owner && AddrFree(s, t.addr)))
            && (forall c | c in s.owner :: TimerCount(tm'.armed, CbTask(c)) == TimerCount(s.tm.armed, CbTask(c)))
  {
    match op
    case AddTimer(addr, ms, cb, recurring) => AddMeans(s.tm, T.NewTimer(addr, ms, cb, recurring, s.now));
    case CancelTimer(addr) => CancelMeans(s.tm, addr);
  }

  lemma OtherTimerKeeps(s: State, op: OtherTimerOp)
    requires Inv(s) && OtherTimerOk(s, op)
    ensures Keeps(s, OtherTimer(op))
  {
    var s' := s.(tm := OtherTimerResult(s.tm, s.now, op));
    OtherTimerMoves(s, op);
    forall c | c in s.owner ensures s.owner[c] in s.calls && CbMoves(s, s', c) {
      assert CbOk(s, c);
    }
    forall k | k in s.calls ensures OwnTimer(s', k) {
      assert CallOk(s, k);
    }
    SurroundingsKeep(s, s');
    assert Next(s, OtherTimer(op)) == Some(s');
  }

  /** One step, of any kind: no assertion fails, and the invariant is kept. */
  lemma StepKeepsInv(s: State, a: Action)
    requires Inv(s) && Enabled(s, a)
    ensures Keeps(s, a)
  {
    match a
    case Enter(k, f, fd, e, to) => EnterKeeps(s, k, f, fd, e, to);
    case Arm(k, addr, cb) => ArmKeeps(s, k, addr, cb);
    case Register(k, fault) => RegisterKeeps(s, k, fault);
    case Resume(k, i) => ResumeKeeps(s, k, i);
    case Complete(k) => CompleteKeeps(s, k);
    case RunCb(i) => RunCbKeeps(s, i);
    case SetFlag(h) => SetFlagKeeps(s, h);
    case Withdraw(h, fault) => WithdrawKeeps(s, h, fault);
    case Expire(probe) => ExpireKeeps(s, probe);
    case Ready(reports) => ReadyKeeps(s, reports);
    case Tick(d) => TickKeeps(s, d);
    case OtherIo(op) => OtherIoKeeps(s, op);
    case OtherTimer(top) => OtherTimerKeeps(s, top);
  }
}
