/**
 Whole runs of the runtime: nothing is lost, no fibre runs twice at a time, no assertion fails, and once the
 stop condition holds the runtime is quiet for good.
 */
module RuntimeTheorems {
  import opened Wrappers
  import opened Tasks
  import opened TimerTasks
  import opened Runtime
  import R = RuntimeProofs
  import Io = IoSpec
  import P = IoProofs
  import T = TimerSpec

  /** The steps `actions`, each allowed where it happens, lead from `s` to `s'` without a failed assertion. */
  ghost predicate Run(s: State, actions: seq<Action>, s': State)
    decreases |actions|
  {
    if actions == [] then s' == s
    else Enabled(s, actions[0]) && Step(s, actions[0]).Ok? && Run(Step(s, actions[0]).s, actions[1..], s')
  }

  predicate Idle(x: Worker) {
    x.pc.Top? && x.cbFibre.None? && !x.idleDone
  }

  /** A started runtime: `size` event contexts, any number of workers at the top of their loops. */
  ghost predicate Init(s: State) {
    && s.io == Io.Initial(|s.io.fds|) && |s.io.fds| >= 32
    && s.tm.armed == [] && s.fibres == map[]
    && (forall w | 0 <= w < |s.workers| :: Idle(s.workers[w]))
    && s.active == 0 && s.idle == 0
    && s.submitted == multiset{} && s.executed == multiset{} && s.skipped == multiset{} && s.dropped == multiset{}
  }

  lemma {:induction false} IdleCounts(ws: seq<Worker>)
    requires forall w | 0 <= w < |ws| :: Idle(ws[w])
    ensures BusyCount(ws) == 0 && IdleCount(ws) == 0 && forall t :: HandCount(ws, t) == 0
  {
    if ws != [] {
      IdleCounts(ws[1..]);
    }
  }

  lemma InitIsSafe(s: State)
    requires Init(s)
    ensures Inv(s)
  {
    P.InitialInv(|s.io.fds|);
    IdleCounts(s.workers);
    assert forall t :: Places(s, t) == 0;
  }

  /** In every run every step can be taken without a failed assertion, and the invariant holds throughout. */
  lemma {:induction false} EveryRunIsSafe(s: State, actions: seq<Action>, s': State)
    requires Inv(s) && Run(s, actions, s')
    ensures Inv(s')
    ensures forall a | Enabled(s', a) :: Step(s', a).Ok?
    decreases |actions|
  {
    if actions != [] {
      R.StepKeepsInv(s, actions[0]);
      EveryRunIsSafe(Step(s, actions[0]).s, actions[1..], s');
    } else {
      forall a | Enabled(s', a) ensures Step(s', a).Ok? {
        R.StepKeepsInv(s', a);
      }
    }
  }

  /** Only tasks of fibres that have ended are passed over. */
  ghost predicate SkippedEnded(s: State) {
    forall t | s.skipped[t] > 0 :: t.FibreTask? && t.fibre in s.fibres && Dead(s.fibres[t.fibre])
  }

  /** A fibre that has ended stays so, and one is passed over only then. */
  ghost predicate EndedStays(s: State, s': State) {
    && (forall f | f in s.fibres && Dead(s.fibres[f]) :: f in s'.fibres && s'.fibres[f] == s.fibres[f])
    && (forall t | s'.skipped[t] > s.skipped[t] :: t.FibreTask? && t.fibre in s.fibres && Dead(s.fibres[t.fibre]))
  }

  lemma EndedStep(s: State, a: Action)
    requires Inv(s) && Enabled(s, a) && Step(s, a).Ok?
    ensures EndedStays(s, Step(s, a).s)
  {
    match a
    case SwapIn(w, newId) => EndedSwapIn(s, w, newId);
    case YieldReady(w) => EndedGiveBack(s, a, w);
    case YieldHold(w) => EndedGiveBack(s, a, w);
    case Finish(w, _) => EndedGiveBack(s, a, w);
    case Do(_, op) => EndedClient(s, op);
    case _ => EndedElse(s, a);
  }

  lemma EndedSwapIn(s: State, w: nat, newId: FibreId)
    requires Inv(s) && Enabled(s, SwapIn(w, newId)) && DoSwapIn(s, w, newId).Ok?
    ensures EndedStays(s, DoSwapIn(s, w, newId).s)
  {
    var x := s.workers[w];
    assert WorkerOk(s, x);
    match x.pc.entry.task
    case FibreTask(f) => R.SwapInFibreShape(s, w, newId, f);
    case CbTask(_) => R.SwapInCallbackShape(s, w, newId, if x.cbFibre.Some? then x.cbFibre.value else newId);
  }

  lemma EndedGiveBack(s: State, a: Action, w: nat)
    requires Inv(s) && w < |s.workers| && s.workers[w].pc.Running?
    requires (a == YieldReady(w) || a == YieldHold(w) || (a.Finish? && a.w == w)) && Step(s, a).Ok?
    ensures EndedStays(s, Step(s, a).s)
  {
    R.RunningIsExclusive(s, w);
  }

  lemma EndedClient(s: State, op: Client)
    requires DoClient(s, op).Ok? && (op.NewFibre? ==> op.fibre !in s.fibres)
    ensures EndedStays(s, DoClient(s, op).s)
  {
  }

  lemma EndedElse(s: State, a: Action)
    requires Enabled(s, a) && Step(s, a).Ok?
    requires a.Pop? || a.IdleEval? || a.IdlePass? || a.Tick? || a.SetAutoStop? || a.SetStopping?
    ensures EndedStays(s, Step(s, a).s)
  {
  }

  lemma {:induction false} SkippedHaveEnded(s: State, actions: seq<Action>, s': State)
    requires Inv(s) && SkippedEnded(s) && Run(s, actions, s')
    ensures SkippedEnded(s')
    decreases |actions|
  {
    if actions != [] {
      R.StepKeepsInv(s, actions[0]);
      EndedStep(s, actions[0]);
      SkippedHaveEnded(Step(s, actions[0]).s, actions[1..], s');
    }
  }

  /** The task is to resume a fibre that has returned or thrown. */
  predicate Ended(s: State, t: Task) {
    t.FibreTask? && t.fibre in s.fibres && Dead(s.fibres[t.fibre])
  }

  /**
   Wake-up conservation: in every run, each task handed over is exactly once in an event context, the queue, a
   hand or a one-shot timer, or was executed, passed over, or discarded. Only tasks of fibres that have ended are
   passed over; so any other one handed over once is in one place, or was executed or discarded, once.
   */
  lemma EveryTaskIsSomewhere(s0: State, actions: seq<Action>, s: State, t: Task)
    requires Init(s0) && Run(s0, actions, s)
    ensures s.submitted[t] == Places(s, t) + s.executed[t] + s.skipped[t] + s.dropped[t]
    ensures !Ended(s, t) ==> s.skipped[t] == 0
    ensures !Ended(s, t) && s.submitted[t] == 1 ==> Places(s, t) + s.executed[t] + s.dropped[t] == 1
  {
    InitIsSafe(s0);
    EveryRunIsSafe(s0, actions, s);
    SkippedHaveEnded(s0, actions, s);
  }

  /** In every run no fibre executes on two workers, and none executes without a worker. */
  lemma NoFibreRunsTwice(s0: State, actions: seq<Action>, s: State, v: nat, w: nat)
    requires Init(s0) && Run(s0, actions, s) && v < w < |s.workers|
    ensures s.workers[v].pc.Running? && s.workers[w].pc.Running? ==> s.workers[v].pc.fibre != s.workers[w].pc.fibre
    ensures forall f | f in s.fibres ::
              s.fibres[f] == EXEC <==> exists u :: 0 <= u < |s.workers| && Runs(s.workers[u], f)
  {
    InitIsSafe(s0);
    EveryRunIsSafe(s0, actions, s);
    assert Apart(s.workers[v], s.workers[w]);
    forall f | f in s.fibres
      ensures s.fibres[f] == EXEC <==> exists u :: 0 <= u < |s.workers| && Runs(s.workers[u], f)
    {
      if exists u :: 0 <= u < |s.workers| && Runs(s.workers[u], f) {
        var u :| 0 <= u < |s.workers| && Runs(s.workers[u], f);
        assert WorkerOk(s, s.workers[u]);
      }
    }
  }

  /** In every run the counters say how many workers are busy and how many idle, and pinned tasks stay pinned. */
  lemma CountersAndPinning(s0: State, actions: seq<Action>, s: State)
    requires Init(s0) && Run(s0, actions, s)
    ensures s.active == BusyCount(s.workers) && s.idle == IdleCount(s.workers)
    ensures forall w | 0 <= w < |s.workers| && s.workers[w].pc.Hand? ::
              s.workers[w].pc.entry.thread == -1 || s.workers[w].pc.entry.thread == s.workers[w].tid
  {
    InitIsSafe(s0);
    EveryRunIsSafe(s0, actions, s);
    forall w | 0 <= w < |s.workers| && s.workers[w].pc.Hand?
      ensures s.workers[w].pc.entry.thread == -1 || s.workers[w].pc.entry.thread == s.workers[w].tid
    {
      assert WorkerOk(s, s.workers[w]);
    }
  }

  // ---- Shutdown ----

  /** A step of the runtime itself: anything but a client operation from outside. */
  predicate Internal(a: Action) {
    a.Do? ==> a.who.Some?
  }

  lemma {:induction false} NobodyBusy(ws: seq<Worker>, w: nat)
    requires BusyCount(ws) == 0 && w < |ws|
    ensures Busy(ws[w]) == 0
  {
    if w > 0 {
      NobodyBusy(ws[1..], w - 1);
    }
  }

  lemma {:induction false} NoHands(ws: seq<Worker>, t: Task)
    requires BusyCount(ws) == 0
    ensures HandCount(ws, t) == 0
  {
    if ws != [] {
      NoHands(ws[1..], t);
    }
  }

  lemma {:induction false} NoBits(fds: seq<Io.FdContext>, i: nat)
    requires Io.SetBits(fds) == 0 && i < |fds|
    ensures fds[i].events == Io.NONE
  {
    if i > 0 {
      NoBits(fds[1..], i - 1);
    }
  }

  /** What the stop condition says, at any time but the very first millisecond: everything is empty. */
  lemma StoppingMeans(s: State)
    requires Inv(s) && Stopping(s) && s.now > 0
    ensures s.tm.armed == [] && s.io.queue == [] && s.active == 0
    ensures forall w | 0 <= w < |s.workers| :: Busy(s.workers[w]) == 0
    ensures forall i | 0 <= i < |s.io.fds| :: s.io.fds[i].events == Io.NONE
    ensures forall t :: Places(s, t) == 0
  {
    forall w | 0 <= w < |s.workers| ensures Busy(s.workers[w]) == 0 {
      NobodyBusy(s.workers, w);
    }
    forall i | 0 <= i < |s.io.fds| ensures s.io.fds[i].events == Io.NONE {
      NoBits(s.io.fds, i);
    }
    forall t ensures Places(s, t) == 0 {
      P.NoBitsNoWaits(s.io.fds, t);
      NoHands(s.workers, t);
    }
  }

  /** Reports about fds without registered events are passed over. */
  lemma {:induction false} NothingToWake(io: Io.Io, rs: seq<(Io.Ready, bool)>)
    requires forall i | 0 <= i < |io.fds| :: io.fds[i].events == Io.NONE
    ensures Io.HandleAll(io, rs) == Io.Done(true, io)
    decreases |rs|
  {
    if rs != [] {
      assert Io.HandleReady(io, rs[0].0, rs[0].1) == Io.Done(false, io);
      NothingToWake(io, rs[1..]);
    }
  }

  /** After the stop condition nothing is queued, executed or submitted any more, and the condition stays. */
  ghost predicate Quiet(s: State, s': State) {
    && Stopping(s') && s'.now > 0
    && s'.executed == s.executed && s'.skipped == s.skipped && s'.submitted == s.submitted && s'.fibres == s.fibres
  }

  lemma QuietIdlePass(s: State, w: nat, probe: nat, reports: seq<(Io.Ready, bool)>)
    requires Inv(s) && Stopping(s) && s.now > 0 && Enabled(s, IdlePass(w, probe, reports))
    ensures Step(s, IdlePass(w, probe, reports)).Ok? && Quiet(s, Step(s, IdlePass(w, probe, reports)).s)
  {
    StoppingMeans(s);
    assert s.io.(queue := s.io.queue + CbEntries([])) == s.io;
    NothingToWake(s.io, reports);
    assert s.submitted + multiset{} == s.submitted;
  }

  lemma QuietStep(s: State, a: Action)
    requires Inv(s) && Stopping(s) && s.now > 0 && Enabled(s, a) && Internal(a)
    ensures Step(s, a).Ok? && Quiet(s, Step(s, a).s)
  {
    StoppingMeans(s);
    match a
    case Pop(w) => R.PopShape(s, w);
    case SwapIn(_, _) =>
    case YieldReady(_) =>
    case YieldHold(_) =>
    case Finish(_, _) =>
    case IdleEval(w) =>
    case IdlePass(w, probe, reports) => QuietIdlePass(s, w, probe, reports);
    case Do(_, _) =>
    case Tick(_) =>
    case SetAutoStop =>
    case SetStopping =>
  }

  /**
   Shutdown is quiescent: once `stopping()` holds, without submissions from outside it holds after every later
   run, in which no task is executed.
   */
  lemma {:induction false} StoppedForGood(s: State, actions: seq<Action>, s': State)
    requires Inv(s) && Stopping(s) && s.now > 0 && Run(s, actions, s')
    requires forall i | 0 <= i < |actions| :: Internal(actions[i])
    ensures Quiet(s, s')
    decreases |actions|
  {
    if actions != [] {
      QuietStep(s, actions[0]);
      R.StepKeepsInv(s, actions[0]);
      assert forall i | 0 <= i < |actions[1..]| :: actions[1..][i] == actions[i + 1];
      StoppedForGood(Step(s, actions[0]).s, actions[1..], s');
    }
  }

  /** When `stopping()` holds, every task ever handed over has been executed or discarded, unless its fibre has ended. */
  lemma StoppedMeansAllDone(s0: State, actions: seq<Action>, s: State, t: Task)
    requires Init(s0) && Run(s0, actions, s) && Stopping(s) && s.now > 0
    ensures s.submitted[t] == s.executed[t] + s.skipped[t] + s.dropped[t]
    ensures !Ended(s, t) ==> s.submitted[t] == s.executed[t] + s.dropped[t]
  {
    InitIsSafe(s0);
    EveryRunIsSafe(s0, actions, s);
    SkippedHaveEnded(s0, actions, s);
    StoppingMeans(s);
  }

  /** How many more steps a worker takes once the stop condition holds; a busy one there is not. */
  function StepsLeft(x: Worker): nat {
    match x.pc
    case Exited => 0
    case Top => if x.idleDone then 1 else 3
    case IdleCheck => 2
    case IdleWait => if x.idleDone then 2 else 4
    case Hand(_) => 5
    case Running(_, _) => 5
  }

  predicate Own(a: Action, w: nat) {
    match a
    case Pop(v) => v == w
    case SwapIn(v, _) => v == w
    case YieldReady(v) => v == w
    case YieldHold(v) => v == w
    case Finish(v, _) => v == w
    case IdleEval(v) => v == w
    case IdlePass(v, _, _) => v == w
    case Do(who, _) => who == Some(w)
    case _ => false
  }

  function OwnSteps(actions: seq<Action>, w: nat): nat {
    if actions == [] then 0 else (if Own(actions[0], w) then 1 else 0) + OwnSteps(actions[1..], w)
  }

  /** A step of worker `w` takes it one step nearer to its exit; other workers' steps do not concern it. */
  lemma LeavingStep(s: State, a: Action, w: nat)
    requires Inv(s) && Stopping(s) && s.now > 0 && Enabled(s, a) && Internal(a) && w < |s.workers|
    ensures Step(s, a).Ok? && w < |Step(s, a).s.workers|
    ensures var x, x' := s.workers[w], Step(s, a).s.workers[w];
            if Own(a, w) then StepsLeft(x) == StepsLeft(x') + 1 else x' == x
  {
    StoppingMeans(s);
    QuietStep(s, a);
    assert Busy(s.workers[w]) == 0;
    match a
    case Pop(v) => R.PopShape(s, v);
    case _ =>
  }

  /** What worker `w` can do next, unless it has left. */
  function NextOwn(x: Worker, w: nat): Action {
    match x.pc
    case IdleCheck => IdleEval(w)
    case IdleWait => IdlePass(w, 0, [])
    case _ => Pop(w)
  }

  /**
   Once `stopping()` holds, and without submissions from outside, every worker leaves `run` after at most four
   more steps of its own, wherever it is and whatever the others do in between; until then it can take the next.
   */
  lemma {:induction false} StoppedWorkersLeave(s: State, actions: seq<Action>, s': State, w: nat)
    requires Inv(s) && Stopping(s) && s.now > 0 && Run(s, actions, s') && w < |s.workers|
    requires forall i | 0 <= i < |actions| :: Internal(actions[i])
    ensures w < |s'.workers| && StepsLeft(s.workers[w]) <= 4
    ensures OwnSteps(actions, w) + StepsLeft(s'.workers[w]) == StepsLeft(s.workers[w])
    ensures s'.workers[w].pc.Exited? <==> OwnSteps(actions, w) == StepsLeft(s.workers[w])
    ensures !s'.workers[w].pc.Exited? ==> Enabled(s', NextOwn(s'.workers[w], w))
    decreases |actions|
  {
    StoppingMeans(s);
    assert Busy(s.workers[w]) == 0;
    if actions != [] {
      LeavingStep(s, actions[0], w);
      QuietStep(s, actions[0]);
      R.StepKeepsInv(s, actions[0]);
      assert forall i | 0 <= i < |actions[1..]| :: actions[1..][i] == actions[i + 1];
      StoppedWorkersLeave(Step(s, actions[0]).s, actions[1..], s', w);
    }
  }

  lemma {:induction false} LastBusy(ws: seq<Worker>, w: nat)
    requires w < |ws| && Busy(ws[w]) == 1
    ensures BusyCount(ws) >= 1
    ensures BusyCount(ws) == 1 <==> forall v | 0 <= v < |ws| && v != w :: Busy(ws[v]) == 0
  {
    assert forall v | 0 < v < |ws| :: ws[v] == ws[1..][v - 1];
    if w == 0 {
      if BusyCount(ws[1..]) == 0 {
        forall v | 0 < v < |ws| ensures Busy(ws[v]) == 0 { NobodyBusy(ws[1..], v - 1); }
      } else {
        SomebodyBusy(ws[1..]);
      }
    } else {
      LastBusy(ws[1..], w - 1);
    }
  }

  lemma {:induction false} SomebodyBusy(ws: seq<Worker>)
    requires BusyCount(ws) > 0
    ensures exists v :: 0 <= v < |ws| && Busy(ws[v]) == 1
  {
    if Busy(ws[0]) == 0 {
      SomebodyBusy(ws[1..]);
      var v :| 0 <= v < |ws[1..]| && Busy(ws[1..][v]) == 1;
      assert ws[v + 1] == ws[1..][v];
    }
  }

  /**
   The worker's bookkeeping for a yield has to be one step: between the count going down and the fibre being
   queued again, another worker can see `stopping()` hold although the runtime is not done. That happens
   exactly when the yielding worker is the last busy one and nothing else is left.
   */
  lemma RequeueWindow(s: State, w: nat)
    requires Inv(s) && s.now > 0 && Enabled(s, YieldReady(w))
    ensures Stopping(s.(active := s.active - 1)) <==>
            && s.autoStop && s.stopping && s.tm.armed == [] && s.io.pending == 0 && s.io.queue == []
            && forall v | 0 <= v < |s.workers| && v != w :: Busy(s.workers[v]) == 0
    ensures Step(s, YieldReady(w)).Ok? && !Stopping(Step(s, YieldReady(w)).s)
  {
    assert WorkerOk(s, s.workers[w]);
    LastBusy(s.workers, w);
    R.YieldReadyShape(s, w, s.workers[w].pc.fibre);
  }

  /**
   An idle pass has to be one step for the same reason: between taking the due timers out of the set and queueing
   their callbacks, `stopping()` can be seen to hold. That happens exactly when all timers are due, none recurs,
   and nothing else is left; if there was a timer the pass then ends with `stopping()` false.
   */
  lemma ExpiryWindow(s: State, w: nat, probe: nat, reports: seq<(Io.Ready, bool)>)
    requires Inv(s) && s.now > 0 && Enabled(s, IdlePass(w, probe, reports))
    ensures var taken := s.(tm := T.ListExpired(s.tm, s.now, probe).1);
            && (Stopping(taken) <==>
                  && s.autoStop && s.stopping && s.io.pending == 0 && s.io.queue == []
                  && (forall v | 0 <= v < |s.workers| :: Busy(s.workers[v]) == 0)
                  && forall t | t in s.tm.armed :: !t.recurring && T.Expires(s.tm, s.now, t))
            && (Stopping(taken) && s.tm.armed != [] ==>
                  Step(s, IdlePass(w, probe, reports)).Ok? && !Stopping(Step(s, IdlePass(w, probe, reports)).s))
  {
    var (cbs, tm') := T.ListExpired(s.tm, s.now, probe);
    T.ExpiryEmpties(s.tm, s.now, probe);
    if s.active == 0 {
      forall v | 0 <= v < |s.workers| ensures Busy(s.workers[v]) == 0 { NobodyBusy(s.workers, v); }
    } else {
      SomebodyBusy(s.workers);
    }
    if Stopping(s.(tm := tm')) && s.tm.armed != [] {
      assert s.tm.armed[0] in s.tm.armed;
      var io1 := s.io.(queue := s.io.queue + CbEntries(cbs));
      P.QueueKeepsInv(s.io, io1.queue);
      P.HandleAllKeeps(io1, reports);
    }
  }
}
