/**
 What the steps of a worker do to the fibre and the task concerned, in every state a run can reach; and that a
 worker leaves only after the stop condition held.
 */
module RuntimeEffects {
  import opened Wrappers
  import opened Tasks
  import opened TimerTasks
  import opened Runtime
  import opened RuntimeTheorems
  import R = RuntimeProofs
  import Io = IoSpec
  import P = IoProofs
  import T = TimerSpec
  import TS = TimerEffects

  // ---- The loop top ----

  /** Entry `i` is for any thread or for this one, and is not a fibre that some worker runs. */
  ghost predicate Candidate(s: State, tid: int, i: nat) {
    && i < |s.io.queue| && (s.io.queue[i].thread == -1 || s.io.queue[i].thread == tid)
    && (s.io.queue[i].task.FibreTask? ==> forall v | 0 <= v < |s.workers| :: !Runs(s.workers[v], s.io.queue[i].task.fibre))
  }

  lemma {:induction false} QueuedCounts(q: seq<Entry>, i: nat)
    requires i < |q|
    ensures QueueCount(q, q[i].task) >= 1
  {
    if i > 0 {
      QueuedCounts(q[1..], i - 1);
    }
  }

  lemma CandidateIsTakeable(s: State, tid: int, i: nat)
    requires Inv(s) && i < |s.io.queue|
    ensures Candidate(s, tid, i) <==> Takeable(s.io.queue[i], tid, s.fibres)
  {
    var e := s.io.queue[i];
    if e.task.FibreTask? {
      QueuedCounts(s.io.queue, i);
      assert Places(s, FibreTask(e.task.fibre)) > 0;
      forall v | 0 <= v < |s.workers| && Runs(s.workers[v], e.task.fibre) ensures s.fibres[e.task.fibre] == EXEC {
        assert WorkerOk(s, s.workers[v]);
      }
    }
  }

  /** The worker takes the first candidate out of the queue; if there is none it turns to its idle fibre, or leaves. */
  lemma PopMeans(s: State, w: nat)
    requires Inv(s) && Enabled(s, Pop(w))
    ensures Step(s, Pop(w)).Ok?
    ensures var s', tid := Step(s, Pop(w)).s, s.workers[w].tid;
            && w < |s'.workers|
            && (s'.workers[w].pc.Hand? <==> exists i: nat :: Candidate(s, tid, i))
            && (s'.workers[w].pc.Hand? ==> exists i: nat ::
                  && Candidate(s, tid, i) && (forall j: nat | j < i :: !Candidate(s, tid, j))
                  && s'.workers[w].pc.entry == s.io.queue[i] && s'.io.queue == Without(s.io.queue, i))
            && (!s'.workers[w].pc.Hand? ==> s'.io == s.io && s'.workers[w].pc == if s.workers[w].idleDone then Exited else IdleCheck)
  {
    var tid := s.workers[w].tid;
    forall i: nat | i < |s.io.queue| ensures Candidate(s, tid, i) <==> Takeable(s.io.queue[i], tid, s.fibres) {
      CandidateIsTakeable(s, tid, i);
    }
    R.PopShape(s, w);
  }

  // ---- With a task in hand ----

  /** A worker that has a fibre in hand runs it if it has not ended, whatever state it waits in; else it drops it. */
  lemma SwapInMeans(s: State, w: nat, newId: FibreId, f: FibreId)
    requires Inv(s) && Enabled(s, SwapIn(w, newId)) && s.workers[w].pc.entry.task == FibreTask(f)
    ensures Step(s, SwapIn(w, newId)).Ok? && f in s.fibres
    ensures var s' := Step(s, SwapIn(w, newId)).s;
            && w < |s'.workers| && f in s'.fibres
            && (s'.workers[w].pc == Running(f, false) && s'.fibres[f] == EXEC
                <==> s.fibres[f] == INIT || s.fibres[f] == HOLD || s.fibres[f] == READY)
            && (s'.workers[w].pc == Top <==> s.fibres[f] == TERM || s.fibres[f] == EXCEPT)
            && (s'.executed[FibreTask(f)] == s.executed[FibreTask(f)] + 1 <==> s'.workers[w].pc == Running(f, false))
            && (s'.skipped[FibreTask(f)] == s.skipped[FibreTask(f)] + 1 <==> s'.workers[w].pc == Top)
  {
    R.HandIsExclusive(s, w, f);
    R.SwapInFibreShape(s, w, newId, f);
  }

  /** A callback is run on the fibre the worker keeps for callbacks, or on a new one, which it then keeps. */
  lemma CallbackMeans(s: State, w: nat, newId: FibreId, cb: CbId)
    requires Inv(s) && Enabled(s, SwapIn(w, newId)) && s.workers[w].pc.entry.task == CbTask(cb)
    ensures Step(s, SwapIn(w, newId)).Ok?
    ensures var s' := Step(s, SwapIn(w, newId)).s;
            var g := if s.workers[w].cbFibre.Some? then s.workers[w].cbFibre.value else newId;
            && w < |s'.workers| && s'.workers[w].pc == Running(g, true) && s'.workers[w].cbFibre == Some(g)
            && g in s'.fibres && s'.fibres[g] == EXEC
            && s'.executed == s.executed + multiset{CbTask(cb)} && s'.skipped == s.skipped
  {
    assert WorkerOk(s, s.workers[w]);
    R.SwapInCallbackShape(s, w, newId, if s.workers[w].cbFibre.Some? then s.workers[w].cbFibre.value else newId);
  }

  /** A queued fibre that has not ended is run by the next worker for which it is the first candidate. */
  lemma QueuedFibreRuns(s: State, w: nat, i: nat, newId: FibreId) returns (s': State)
    requires Inv(s) && Enabled(s, Pop(w)) && Candidate(s, s.workers[w].tid, i) && newId !in s.fibres
    requires forall j: nat | j < i :: !Candidate(s, s.workers[w].tid, j)
    requires s.io.queue[i].task.FibreTask? && s.io.queue[i].task.fibre in s.fibres && !Dead(s.fibres[s.io.queue[i].task.fibre])
    ensures Run(s, [Pop(w), SwapIn(w, newId)], s')
    ensures w < |s'.workers| && s'.workers[w].pc == Running(s.io.queue[i].task.fibre, false)
  {
    TakesFirst(s, w, i);
    var s1 := Step(s, Pop(w)).s;
    RunsHeld(s1, w, newId, s.io.queue[i].task.fibre);
    s' := Step(s1, SwapIn(w, newId)).s;
    TwoSteps(s, Pop(w), s1, SwapIn(w, newId), s');
  }

  lemma TakesFirst(s: State, w: nat, i: nat)
    requires Inv(s) && Enabled(s, Pop(w)) && Candidate(s, s.workers[w].tid, i)
    requires forall j: nat | j < i :: !Candidate(s, s.workers[w].tid, j)
    ensures Step(s, Pop(w)).Ok?
    ensures var s1 := Step(s, Pop(w)).s;
            Inv(s1) && w < |s1.workers| && s1.workers[w].pc == Hand(s.io.queue[i]) && s1.fibres == s.fibres
  {
    PopMeans(s, w);
    R.StepKeepsInv(s, Pop(w));
    PopKeepsFibres(s, w);
  }

  lemma PopKeepsFibres(s: State, w: nat)
    requires w < |s.workers| && s.workers[w].pc.Top?
    ensures DoPop(s, w).Ok? && DoPop(s, w).s.fibres == s.fibres
  {
  }

  lemma RunsHeld(s: State, w: nat, newId: FibreId, f: FibreId)
    requires Inv(s) && Enabled(s, SwapIn(w, newId)) && s.workers[w].pc.entry.task == FibreTask(f)
    requires f in s.fibres && !Dead(s.fibres[f])
    ensures Step(s, SwapIn(w, newId)).Ok?
    ensures var s' := Step(s, SwapIn(w, newId)).s; w < |s'.workers| && s'.workers[w].pc == Running(f, false)
  {
    R.HandIsExclusive(s, w, f);
    SwapInMeans(s, w, newId, f);
  }

  lemma TwoSteps(s: State, a: Action, s1: State, b: Action, s2: State)
    requires Enabled(s, a) && Step(s, a) == Ok(s1) && Enabled(s1, b) && Step(s1, b) == Ok(s2)
    ensures Run(s, [a, b], s2)
  {
    assert [a, b][1..] == [b] && [b][1..] == [];
    assert Run(s2, [], s2) && Run(s1, [b], s2);
  }

  // ---- A fibre gives its worker back ----

  /** Back at its loop top, with a callback's fibre given up: it is not the worker's own any more. */
  ghost predicate BackAtTop(s: State, w: nat, s': State)
    requires w < |s.workers| && s.workers[w].pc.Running?
  {
    && w < |s'.workers| && s'.workers[w].pc == Top
    && s'.workers[w].cbFibre == (if s.workers[w].pc.viaCb then None else s.workers[w].cbFibre)
    && s'.executed == s.executed && s'.skipped == s.skipped && s'.dropped == s.dropped
  }

  /** YieldToReady: the fibre is at the end of the queue, for any thread, and nowhere else. */
  lemma YieldReadyMeans(s: State, w: nat)
    requires Inv(s) && Enabled(s, YieldReady(w))
    ensures Step(s, YieldReady(w)).Ok?
    ensures var s', f := Step(s, YieldReady(w)).s, s.workers[w].pc.fibre;
            && BackAtTop(s, w, s') && f in s'.fibres && s'.fibres[f] == READY
            && s'.io.queue == s.io.queue + [Entry(FibreTask(f), -1)] && Places(s', FibreTask(f)) == 1
  {
    var f := s.workers[w].pc.fibre;
    R.RunningIsExclusive(s, w);
    R.YieldReadyShape(s, w, f);
    R.RequeuesMoves(s, Step(s, YieldReady(w)).s, w, FibreTask(f));
  }

  /** YieldToHold: the fibre is where somebody put it, or nowhere. */
  lemma YieldHoldMeans(s: State, w: nat)
    requires Inv(s) && Enabled(s, YieldHold(w))
    ensures Step(s, YieldHold(w)).Ok?
    ensures var s', f := Step(s, YieldHold(w)).s, s.workers[w].pc.fibre;
            BackAtTop(s, w, s') && f in s'.fibres && s'.fibres[f] == HOLD && s'.io == s.io && s'.tm == s.tm
  {
    R.RunningIsExclusive(s, w);
    R.YieldHoldShape(s, w, s.workers[w].pc.fibre);
  }

  /** The end of the fibre's function; a callback's fibre is kept and ready for the next one. */
  lemma FinishMeans(s: State, w: nat, ok: bool)
    requires Inv(s) && Enabled(s, Finish(w, ok))
    ensures Step(s, Finish(w, ok)).Ok?
    ensures var s', f := Step(s, Finish(w, ok)).s, s.workers[w].pc.fibre;
            && w < |s'.workers| && s'.workers[w].pc == Top && f in s'.fibres && s'.io == s.io
            && (if s.workers[w].pc.viaCb then s'.fibres[f] == INIT && s'.workers[w].cbFibre == Some(f)
                else s'.fibres[f] == (if ok then TERM else EXCEPT) && s'.workers[w].cbFibre == s.workers[w].cbFibre)
  {
    R.RunningIsExclusive(s, w);
  }

  // ---- Idling and leaving ----

  /** The stop condition, past time 0: both flags set, and nothing armed, registered, queued or being worked on. */
  lemma StoppingIff(s: State)
    requires Inv(s) && s.now > 0
    ensures Stopping(s) <==>
            && s.autoStop && s.stopping && s.tm.armed == [] && s.io.queue == []
            && (forall i | 0 <= i < |s.io.fds| :: s.io.fds[i].events == Io.NONE)
            && (forall w | 0 <= w < |s.workers| :: Busy(s.workers[w]) == 0)
  {
    if Stopping(s) {
      StoppingMeans(s);
    }
    if forall i | 0 <= i < |s.io.fds| :: s.io.fds[i].events == Io.NONE {
      NoEvents(s.io.fds);
    }
    if s.active > 0 {
      SomebodyBusy(s.workers);
    }
  }

  lemma {:induction false} NoEvents(fds: seq<Io.FdContext>)
    requires forall i | 0 <= i < |fds| :: fds[i].events == Io.NONE
    ensures Io.SetBits(fds) == 0
  {
    if fds != [] {
      assert forall i | 0 <= i < |fds[1..]| :: fds[1..][i] == fds[i + 1];
      NoEvents(fds[1..]);
    }
  }

  /** Evaluating the condition ends the idle fibre exactly when it holds; either way it takes note of the timers. */
  lemma IdleEvalMeans(s: State, w: nat)
    requires Inv(s) && s.now > 0 && Enabled(s, IdleEval(w))
    ensures Step(s, IdleEval(w)).Ok?
    ensures var s' := Step(s, IdleEval(w)).s;
            && w < |s'.workers| && s'.tm == s.tm.(tickled := false) && s'.io == s.io
            && (s'.workers[w] == s.workers[w].(pc := Top, idleDone := true) <==>
                  && s.autoStop && s.stopping && s.tm.armed == [] && s.io.queue == []
                  && (forall i | 0 <= i < |s.io.fds| :: s.io.fds[i].events == Io.NONE)
                  && (forall v | 0 <= v < |s.workers| :: Busy(s.workers[v]) == 0))
            && (s'.workers[w].pc.Top? || s'.workers[w] == s.workers[w].(pc := IdleWait))
  {
    StoppingIff(s);
  }

  /** An idle pass puts the callbacks of all due timers at the end of the queue, in order, before anything else. */
  lemma IdlePassMeans(s: State, w: nat, probe: nat, reports: seq<(Io.Ready, bool)>)
    requires Inv(s) && Enabled(s, IdlePass(w, probe, reports))
    ensures Step(s, IdlePass(w, probe, reports)).Ok?
    ensures var s' := Step(s, IdlePass(w, probe, reports)).s;
            && w < |s'.workers| && s'.workers[w] == s.workers[w].(pc := Top)
            && s.io.queue + CbEntries(T.Callbacks(s.tm.armed[..T.Taken(s.tm, s.now)])) <= s'.io.queue
            && s'.executed == s.executed && s'.skipped == s.skipped && s'.dropped == s.dropped
  {
    R.IdlePassData(s, probe, reports);
    R.IdlePassShape(s, w, probe, reports);
    T.ExpiryMeaning(s.tm, s.now, probe);
    var io1 := s.io.(queue := s.io.queue + CbEntries(T.ListExpired(s.tm, s.now, probe).0));
    P.QueueKeepsInv(s.io, io1.queue);
    P.HandleAllKeeps(io1, reports);
  }

  /** Worker `w` is as it was, or took a step that does not end its idle fibre and does not let it leave. */
  predicate StaysOn(x: Worker, x': Worker) {
    x'.idleDone == x.idleDone && (x'.pc.Exited? ==> x.pc.Exited? || x.idleDone)
  }

  /** So it is of every worker, if step of worker `v` gave `r`. */
  predicate AllStayOn(s: State, r: Result) {
    r.Ok? ==> |r.s.workers| == |s.workers| && forall w | 0 <= w < |s.workers| :: StaysOn(s.workers[w], r.s.workers[w])
  }

  lemma PopStaysOn(s: State, v: nat)
    requires v < |s.workers|
    ensures AllStayOn(s, DoPop(s, v))
  {
  }

  /** Changing one worker, from a task in hand, to one at its loop top or in a fibre. */
  lemma OneStaysOn(s: State, v: nat, newId: FibreId)
    requires v < |s.workers| && s.workers[v].pc.Hand? && DoSwapIn(s, v, newId).Ok?
    ensures var s' := DoSwapIn(s, v, newId).s;
            |s'.workers| == |s.workers| && s'.workers == s.workers[v := s'.workers[v]] && StaysOn(s.workers[v], s'.workers[v])
  {
  }

  lemma SwapInStaysOn(s: State, v: nat, newId: FibreId)
    requires v < |s.workers| && s.workers[v].pc.Hand?
    ensures AllStayOn(s, DoSwapIn(s, v, newId))
  {
    if DoSwapIn(s, v, newId).Ok? {
      OneStaysOn(s, v, newId);
    }
  }

  lemma FibreStepStaysOn(s: State, v: nat, ok: bool)
    requires v < |s.workers| && s.workers[v].pc.Running?
    ensures AllStayOn(s, DoYieldReady(s, v)) && AllStayOn(s, DoYieldHold(s, v)) && AllStayOn(s, DoFinish(s, v, ok))
  {
  }

  lemma PassStaysOn(s: State, v: nat, probe: nat, reports: seq<(Io.Ready, bool)>)
    requires v < |s.workers|
    ensures AllStayOn(s, DoIdlePass(s, v, probe, reports))
  {
  }

  lemma WorkerStaysOn(s: State, a: Action, w: nat)
    requires Enabled(s, a) && Step(s, a).Ok? && w < |s.workers| && !a.IdleEval? && !a.Do?
    ensures w < |Step(s, a).s.workers| && StaysOn(s.workers[w], Step(s, a).s.workers[w])
  {
    match a
    case Pop(v) => PopStaysOn(s, v);
    case SwapIn(v, newId) => SwapInStaysOn(s, v, newId);
    case YieldReady(v) => FibreStepStaysOn(s, v, true);
    case YieldHold(v) => FibreStepStaysOn(s, v, true);
    case Finish(v, ok) => FibreStepStaysOn(s, v, ok);
    case IdlePass(v, probe, reports) => PassStaysOn(s, v, probe, reports);
    case _ =>
  }

  lemma ClientLeavesWorkers(s: State, op: Client)
    requires DoClient(s, op).Ok?
    ensures DoClient(s, op).s.workers == s.workers
  {
  }

  /** A worker's idle fibre ends only when the stop condition holds; a worker leaves only after that. */
  lemma OnlyStoppingEnds(s: State, a: Action, w: nat)
    requires Enabled(s, a) && Step(s, a).Ok? && w < |s.workers| && !s.workers[w].idleDone && !s.workers[w].pc.Exited?
    ensures w < |Step(s, a).s.workers|
    ensures Step(s, a).s.workers[w].idleDone ==> a == IdleEval(w) && Stopping(s)
    ensures Step(s, a).s.workers[w].pc.Exited? ==> Step(s, a).s.workers[w].idleDone
  {
    match a
    case IdleEval(_) =>
    case Do(_, op) => ClientLeavesWorkers(s, op);
    case _ => WorkerStaysOn(s, a, w);
  }

  lemma {:induction false} LeavesOnlyWhenStopped(s: State, actions: seq<Action>, s': State, w: nat) returns (j: nat, s1: State)
    requires Run(s, actions, s') && w < |s.workers| && !s.workers[w].idleDone && !s.workers[w].pc.Exited?
    requires w < |s'.workers| && s'.workers[w].pc.Exited?
    ensures j < |actions| && actions[j] == IdleEval(w) && Run(s, actions[..j], s1) && Stopping(s1)
    decreases |actions|
  {
    var s2 := Step(s, actions[0]).s;
    OnlyStoppingEnds(s, actions[0], w);
    if s2.workers[w].idleDone {
      j, s1 := 0, s;
      assert Run(s, actions[..0], s);
    } else {
      var k;
      k, s1 := LeavesOnlyWhenStopped(s2, actions[1..], s', w);
      j := k + 1;
      assert actions[..j][1..] == actions[1..][..k];
    }
  }

  // ---- Clients ----

  /** A submission is at the end of the queue, for the thread asked for; a new fibre has not begun. */
  lemma SubmitMeans(s: State, who: Option<nat>, task: Task, thread: int, f: FibreId)
    requires Inv(s)
    ensures Enabled(s, Do(who, Submit(task, thread))) ==>
              Step(s, Do(who, Submit(task, thread))) ==
              Ok(s.(io := s.io.(queue := s.io.queue + [Entry(task, thread)]), submitted := s.submitted + multiset{task}))
    ensures Enabled(s, Do(who, NewFibre(f))) ==> Step(s, Do(who, NewFibre(f))) == Ok(s.(fibres := s.fibres[f := INIT]))
  {
  }

  /** What is registered for the event. */
  function Waiting(io: Io.Io, fd: Io.Fd, e: Io.Event): Option<Task> {
    if fd < |io.fds| && io.fds[fd].events.Has(e) && Io.Armed(io.fds[fd].Get(e)) then Some(Io.TaskOf(io.fds[fd].Get(e))) else None
  }

  /** Whether the timer at the address, if it is armed, is a one-shot with this callback. */
  ghost predicate Held(ts: seq<T.Timer>, addr: nat, t: Task) {
    exists u :: u in ts && u.addr == addr && !u.recurring && CbTask(u.cb) == t
  }

  /** How many places an operation gives to a task, or takes from it. */
  ghost function Gain(s: State, op: Client, t: Task): int {
    match op
    case Submit(task, _) => if t == task then 1 else 0
    case AddFd(_, _, task, fault) => if t == task && !fault then 1 else 0
    case DelFd(fd, e, fault) => if Waiting(s.io, fd, e) == Some(t) && !fault then -1 else 0
    case AddTimer(_, _, cb, recurring) => if t == CbTask(cb) && !recurring then 1 else 0
    case CancelTimer(addr) => if Held(s.tm.armed, addr, t) then -1 else 0
    case _ => 0
  }

  /**
   A submission, a registration and a one-shot timer give a place to their task; delEvent and a timer's cancel
   take it away; every other operation of a client only moves tasks.
   */
  lemma ClientPlaces(s: State, who: Option<nat>, op: Client, t: Task)
    requires Inv(s) && Enabled(s, Do(who, op))
    ensures Step(s, Do(who, op)).Ok? && Places(Step(s, Do(who, op)).s, t) == Places(s, t) + Gain(s, op, t)
  {
    R.StepKeepsInv(s, Do(who, op));
    match op
    case AddTimer(_, _, _, _) => TimerPlaces(s, op, t);
    case CancelTimer(_) => TimerPlaces(s, op, t);
    case RefreshTimer(_) => RetimePlaces(s, op, t);
    case ResetTimer(_, _, _) => RetimePlaces(s, op, t);
    case _ => IoPlaces(s, op, t);
  }

  lemma IoPlaces(s: State, op: Client, t: Task)
    requires Data(s) && DoClient(s, op).Ok? && (op.AddFd? ==> Io.SlotFree(s.io, op.fd, op.event))
    requires !op.AddTimer? && !op.CancelTimer? && !op.RefreshTimer? && !op.ResetTimer?
    ensures Places(DoClient(s, op).s, t) == Places(s, t) + Gain(s, op, t)
  {
    match op
    case NewFibre(_) =>
    case Submit(task, thread) => QueueAppend(s.io.queue, Entry(task, thread), t);
    case AddFd(fd, e, task, fault) => P.AddEventKeeps(s.io, fd, e, task, fault);
    case DelFd(fd, e, fault) => DelPlaces(s.io, fd, e, fault, t);
    case CancelFd(fd, e, fault) => P.CancelEventKeeps(s.io, fd, e, fault);
    case CancelAllFd(fd, fault) => P.CancelAllKeeps(s.io, fd, fault);
  }

  lemma DelPlaces(io: Io.Io, fd: Io.Fd, e: Io.Event, fault: bool, t: Task)
    requires Io.Inv(io)
    ensures var o := Io.DelEvent(io, fd, e, fault);
            o.Done? && Io.Held(o.io, t) - Io.Held(io, t) == if Waiting(io, fd, e) == Some(t) && !fault then -1 else 0
  {
    P.DelEventMeaning(io, fd, e, fault);
    if fd < |io.fds| && io.fds[fd].events.Has(e) && !fault {
      P.WakeOne(io, fd, e);
    }
  }

  lemma TimerPlaces(s: State, op: Client, t: Task)
    requires Data(s) && (op.CancelTimer? || (op.AddTimer? && T.Absent(s.tm.armed, op.addr)))
    ensures DoClient(s, op).Ok? && Places(DoClient(s, op).s, t) == Places(s, t) + Gain(s, op, t)
  {
    match op
    case AddTimer(addr, ms, cb, recurring) => TimerInsertCount(s.tm.armed, T.NewTimer(addr, ms, cb, recurring, s.now), t);
    case CancelTimer(addr) => CancelCount(s.tm, addr, t);
  }

  lemma CancelCount(tm: T.Timers, addr: nat, t: Task)
    requires T.Ordered(tm.armed)
    ensures TimerCount(T.Cancel(tm, addr).1.armed, t) - TimerCount(tm.armed, t) == if Held(tm.armed, addr, t) then -1 else 0
  {
    var i := T.Index(tm.armed, addr);
    if i.Some? {
      TimerEraseCount(tm.armed, i.value, t);
      assert tm.armed[i.value] in tm.armed;
      forall u | u in tm.armed && u.addr == addr ensures u == tm.armed[i.value] {
        TS.IndexIs(tm.armed, u);
      }
    } else {
      assert forall u | u in tm.armed :: u.addr != addr;
    }
  }

  lemma RetimePlaces(s: State, op: Client, t: Task)
    requires Data(s) && (op.RefreshTimer? || op.ResetTimer?)
    ensures DoClient(s, op).Ok? && Places(DoClient(s, op).s, t) == Places(s, t)
  {
    var i := T.Index(s.tm.armed, op.addr);
    if i.Some? {
      var u := s.tm.armed[i.value];
      RetimeCount(s.tm.armed, i.value, if op.RefreshTimer? then u.(next := T.Add64(s.now, u.ms)) else T.Retimed(u, op.ms, op.fromNow, s.now));
    }
  }
}
