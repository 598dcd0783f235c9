/**
 Every step of the runtime keeps its invariant and fails none of the source's assertions; what this means for
 whole runs is in `RuntimeTheorems`.
 */
module RuntimeProofs {
  import opened Wrappers
  import opened Tasks
  import opened TimerTasks
  import opened Runtime
  import Io = IoSpec
  import P = IoProofs
  import T = TimerSpec

  // ---- Counting over workers ----

  lemma {:induction false} HandUpdate(ws: seq<Worker>, i: nat, x: Worker, t: Task)
    requires i < |ws|
    ensures HandCount(ws[i := x], t) + InHand(ws[i], t) == HandCount(ws, t) + InHand(x, t)
  {
    if i == 0 {
      assert ws[i := x][1..] == ws[1..];
    } else {
      assert ws[i := x][1..] == ws[1..][i - 1 := x];
      HandUpdate(ws[1..], i - 1, x, t);
    }
  }

  lemma {:induction false} CountsUpdate(ws: seq<Worker>, i: nat, x: Worker)
    requires i < |ws|
    ensures BusyCount(ws[i := x]) + Busy(ws[i]) == BusyCount(ws) + Busy(x)
    ensures IdleCount(ws[i := x]) + Idling(ws[i]) == IdleCount(ws) + Idling(x)
  {
    if i == 0 {
      assert ws[i := x][1..] == ws[1..];
    } else {
      assert ws[i := x][1..] == ws[1..][i - 1 := x];
      CountsUpdate(ws[1..], i - 1, x);
    }
  }

  lemma {:induction false} HandAt(ws: seq<Worker>, i: nat, t: Task)
    requires i < |ws|
    ensures InHand(ws[i], t) <= HandCount(ws, t)
  {
    if i > 0 {
      HandAt(ws[1..], i - 1, t);
    }
  }

  lemma {:induction false} HandTwo(ws: seq<Worker>, i: nat, j: nat, t: Task)
    requires i < |ws| && j < |ws| && i != j
    ensures InHand(ws[i], t) + InHand(ws[j], t) <= HandCount(ws, t)
  {
    if i == 0 {
      HandAt(ws[1..], j - 1, t);
    } else if j == 0 {
      HandAt(ws[1..], i - 1, t);
    } else {
      HandTwo(ws[1..], i - 1, j - 1, t);
    }
  }

  // ---- What one step does to the data, and where it moves tasks ----

  /** What was handed over stays accounted for, task by task. */
  ghost predicate Accounted(s: State, s': State) {
    forall t :: s'.submitted[t] - Places(s', t) - s'.executed[t] - s'.skipped[t] - s'.dropped[t] ==
                s.submitted[t] - Places(s, t) - s.executed[t] - s.skipped[t] - s.dropped[t]
  }

  /** Fibre tasks other than `t` have no more places than before. */
  ghost predicate NoMorePlaces(s: State, s': State, t: Option<Task>) {
    forall f: FibreId | t != Some(FibreTask(f)) :: Places(s', FibreTask(f)) <= Places(s, FibreTask(f))
  }

  /** The step ends normally, in legal data, with every task accounted for; only `t` may get a place. */
  ghost predicate Moves(s: State, r: Result, t: Option<Task>) {
    r.Ok? && Data(r.s) && Accounted(s, r.s) && NoMorePlaces(s, r.s, t)
  }

  lemma DelFdMoves(s: State, fd: Io.Fd, e: Io.Event, fault: bool)
    requires Data(s)
    ensures Moves(s, DoClient(s, DelFd(fd, e, fault)), None)
  {
    P.DelEventKeeps(s.io, fd, e, fault);
  }

  lemma CancelFdMoves(s: State, fd: Io.Fd, e: Io.Event, fault: bool)
    requires Data(s)
    ensures Moves(s, DoClient(s, CancelFd(fd, e, fault)), None)
  {
    P.CancelEventKeeps(s.io, fd, e, fault);
  }

  lemma CancelAllFdMoves(s: State, fd: Io.Fd, fault: bool)
    requires Data(s)
    ensures Moves(s, DoClient(s, CancelAllFd(fd, fault)), None)
  {
    P.CancelAllKeeps(s.io, fd, fault);
  }

  lemma SubmitMoves(s: State, task: Task, thread: int)
    requires Data(s)
    ensures Moves(s, DoClient(s, Submit(task, thread)), Some(task))
    ensures Places(DoClient(s, Submit(task, thread)).s, task) == Places(s, task) + 1
  {
    P.QueueKeepsInv(s.io, s.io.queue + [Entry(task, thread)]);
    var s' := DoClient(s, Submit(task, thread)).s;
    forall t ensures Places(s', t) == Places(s, t) + (if t == task then 1 else 0) {
      QueueAppend(s.io.queue, Entry(task, thread), t);
    }
  }

  lemma AddFdMoves(s: State, fd: Io.Fd, e: Io.Event, task: Task, fault: bool)
    requires Data(s) && Io.SlotFree(s.io, fd, e)
    requires task.FibreTask? ==> task.fibre in s.fibres && s.fibres[task.fibre] == EXEC
    ensures Moves(s, DoClient(s, AddFd(fd, e, task, fault)), Some(task))
    ensures Places(DoClient(s, AddFd(fd, e, task, fault)).s, task) <= Places(s, task) + 1
  {
    P.AddEventKeeps(s.io, fd, e, task, fault);
    var s' := DoClient(s, AddFd(fd, e, task, fault)).s;
    forall t ensures Places(s', t) == Places(s, t) + (if t == task && !fault then 1 else 0) {}
  }

  /** Timer operations account for the one-shot they add or discard, and hold no fibres. */
  lemma TimersMove(s: State, s': State)
    requires Data(s) && s'.workers == s.workers && s'.io == s.io && T.Ordered(s'.tm.armed) && s'.executed == s.executed && s'.skipped == s.skipped
    requires forall t :: s'.submitted[t] - s'.dropped[t] - TimerCount(s'.tm.armed, t) == s.submitted[t] - s.dropped[t] - TimerCount(s.tm.armed, t)
    ensures Moves(s, Ok(s'), None)
  {
    forall f: FibreId ensures Places(s', FibreTask(f)) == Places(s, FibreTask(f)) {
      NoFibreInTimers(s.tm.armed, f);
      NoFibreInTimers(s'.tm.armed, f);
    }
  }

  lemma AddTimerMoves(s: State, addr: nat, ms: T.U64, cb: CbId, recurring: bool)
    requires Data(s) && T.Absent(s.tm.armed, addr)
    ensures Moves(s, DoClient(s, AddTimer(addr, ms, cb, recurring)), None)
  {
    var u := T.NewTimer(addr, ms, cb, recurring, s.now);
    T.InsertFresh(s.tm.armed, u);
    forall t ensures TimerCount(T.Insert(s.tm.armed, u), t) == TimerCount(s.tm.armed, t) + OneShot(u, t) {
      TimerInsertCount(s.tm.armed, u, t);
    }
    TimersMove(s, DoClient(s, AddTimer(addr, ms, cb, recurring)).s);
  }

  lemma CancelTimerMoves(s: State, addr: nat)
    requires Data(s)
    ensures Moves(s, DoClient(s, CancelTimer(addr)), None)
  {
    var i := T.Index(s.tm.armed, addr);
    if i.Some? {
      T.EraseOrdered(s.tm.armed, i.value);
      forall t ensures TimerCount(s.tm.armed, t) == TimerCount(T.Erase(s.tm.armed, i.value), t) + OneShot(s.tm.armed[i.value], t) {
        TimerEraseCount(s.tm.armed, i.value, t);
      }
    }
    TimersMove(s, DoClient(s, CancelTimer(addr)).s);
  }

  lemma RetimeMoves(s: State, op: Client)
    requires Data(s) && (op.RefreshTimer? || op.ResetTimer?)
    ensures Moves(s, DoClient(s, op), None)
  {
    var i := T.Index(s.tm.armed, op.addr);
    if i.Some? {
      var u := s.tm.armed[i.value];
      RetimeCount(s.tm.armed, i.value, if op.RefreshTimer? then u.(next := T.Add64(s.now, u.ms)) else T.Retimed(u, op.ms, op.fromNow, s.now));
    }
    TimersMove(s, DoClient(s, op).s);
  }

  // A step of worker `w`, by what it does to the data: `s'` is the state after it.

  predicate WorkerMoved(s: State, s': State, w: nat) {
    && w < |s.workers| && |s'.workers| == |s.workers| && s'.workers == s.workers[w := s'.workers[w]]
    && s'.tm.armed == s.tm.armed && s'.dropped == s.dropped
  }

  /** Nothing moves. */
  predicate Stays(s: State, s': State, w: nat) {
    && WorkerMoved(s, s', w) && !s.workers[w].pc.Hand? && !s'.workers[w].pc.Hand?
    && s'.io == s.io && s'.submitted == s.submitted && s'.executed == s.executed && s'.skipped == s.skipped
  }

  /** Queue element `i` goes to the worker's hand. */
  predicate TakesUp(s: State, s': State, w: nat, i: nat) {
    && WorkerMoved(s, s', w) && !s.workers[w].pc.Hand? && i < |s.io.queue| && s'.workers[w].pc == Hand(s.io.queue[i])
    && s'.io == s.io.(queue := Without(s.io.queue, i)) && s'.submitted == s.submitted && s'.executed == s.executed && s'.skipped == s.skipped
  }

  /** The task in the worker's hand leaves it: to be executed, or passed over. */
  predicate Starts(s: State, s': State, w: nat) {
    && WorkerMoved(s, s', w) && s.workers[w].pc.Hand? && !s'.workers[w].pc.Hand?
    && s'.io == s.io && s'.submitted == s.submitted
    && var t := multiset{s.workers[w].pc.entry.task};
       (s'.executed == s.executed + t && s'.skipped == s.skipped) || (s'.executed == s.executed && s'.skipped == s.skipped + t)
  }

  /** A task is put at the end of the queue. */
  predicate Requeues(s: State, s': State, w: nat, t: Task) {
    && WorkerMoved(s, s', w) && !s.workers[w].pc.Hand? && !s'.workers[w].pc.Hand?
    && s'.io == s.io.(queue := s.io.queue + [Entry(t, -1)]) && s'.submitted == s.submitted + multiset{t} && s'.executed == s.executed && s'.skipped == s.skipped
  }

  lemma StaysMoves(s: State, s': State, w: nat)
    requires Data(s) && Stays(s, s', w)
    ensures Moves(s, Ok(s'), None)
  {
    forall t ensures Places(s', t) == Places(s, t) {
      HandUpdate(s.workers, w, s'.workers[w], t);
    }
  }

  lemma TakesUpMoves(s: State, s': State, w: nat, i: nat)
    requires Data(s) && TakesUp(s, s', w, i)
    ensures Moves(s, Ok(s'), None)
  {
    P.QueueKeepsInv(s.io, Without(s.io.queue, i));
    forall t ensures Places(s', t) == Places(s, t) {
      HandUpdate(s.workers, w, s'.workers[w], t);
      QueueErase(s.io.queue, i, t);
    }
  }

  lemma StartsMoves(s: State, s': State, w: nat)
    requires Data(s) && Starts(s, s', w)
    ensures Moves(s, Ok(s'), None)
  {
    var task := s.workers[w].pc.entry.task;
    forall t ensures Places(s', t) + (if t == task then 1 else 0) == Places(s, t) {
      HandUpdate(s.workers, w, s'.workers[w], t);
    }
  }

  lemma RequeuesMoves(s: State, s': State, w: nat, task: Task)
    requires Data(s) && Requeues(s, s', w, task)
    ensures Moves(s, Ok(s'), Some(task)) && Places(s', task) == Places(s, task) + 1
  {
    P.QueueKeepsInv(s.io, s.io.queue + [Entry(task, -1)]);
    forall t ensures Places(s', t) == Places(s, t) + (if t == task then 1 else 0) {
      HandUpdate(s.workers, w, s'.workers[w], t);
      QueueAppend(s.io.queue, Entry(task, -1), t);
    }
  }

  /** The idle pass on the data alone: due callbacks and woken tasks go to the queue, and its assertion holds. */
  lemma IdlePassData(s: State, probe: nat, reports: seq<(Io.Ready, bool)>)
    requires Data(s) && P.GoodReports(s.io, reports)
    ensures var (cbs, tm') := T.ListExpired(s.tm, s.now, probe);
            var o := Io.HandleAll(s.io.(queue := s.io.queue + CbEntries(cbs)), reports);
            && o.Done? && Io.Inv(o.io) && T.Ordered(tm'.armed)
            && forall t :: Io.Held(o.io, t) + TimerCount(tm'.armed, t) ==
                           Io.Held(s.io, t) + TimerCount(s.tm.armed, t) + FiredAgain(Gone(s.tm, s.now, probe))[t]
  {
    var (cbs, tm') := T.ListExpired(s.tm, s.now, probe);
    T.ExpiryMeaning(s.tm, s.now, probe);
    var io1 := s.io.(queue := s.io.queue + CbEntries(cbs));
    P.QueueKeepsInv(s.io, io1.queue);
    P.HandleAllKeeps(io1, reports);
    forall t ensures Io.Held(io1, t) + TimerCount(tm'.armed, t) ==
                     Io.Held(s.io, t) + TimerCount(s.tm.armed, t) + FiredAgain(Gone(s.tm, s.now, probe))[t] {
      QueueConcat(s.io.queue, CbEntries(cbs), t);
      ExpireCount(s.tm, s.now, probe, t);
    }
  }

  lemma IdlePassMoves(s: State, w: nat, probe: nat, reports: seq<(Io.Ready, bool)>)
    requires Data(s) && w < |s.workers| && s.workers[w].pc.IdleWait? && P.GoodReports(s.io, reports)
    ensures Moves(s, DoIdlePass(s, w, probe, reports), None)
  {
    IdlePassData(s, probe, reports);
    var s' := DoIdlePass(s, w, probe, reports).s;
    assert s'.workers == s.workers[w := s.workers[w].(pc := Top)];
    forall t ensures Places(s', t) == Places(s, t) + FiredAgain(Gone(s.tm, s.now, probe))[t] {
      HandUpdate(s.workers, w, s'.workers[w], t);
    }
    forall f: FibreId ensures Places(s', FibreTask(f)) == Places(s, FibreTask(f)) {
      FiredAgainCallbacks(Gone(s.tm, s.now, probe), f);
    }
  }

  // ---- What one step does to workers and fibres ----

  ghost predicate SameWorkers(s: State, s': State) {
    s'.workers == s.workers && s'.fibres == s.fibres && s'.active == s.active && s'.idle == s.idle
  }

  /** Workers and fibres are as they were; at most one fibre, nobody's spare one, got its only place. */
  lemma AsideKeepsControl(s: State, s': State, t: Option<Task>)
    requires Control(s) && SameWorkers(s, s') && NoMorePlaces(s, s', t)
    requires t.Some? && t.value.FibreTask? ==>
               Places(s', t.value) <= 1 && t.value.fibre in s.fibres && !Spare(s, t.value.fibre)
    ensures Control(s')
  {
    forall w | 0 <= w < |s.workers| ensures WorkerOk(s', s.workers[w]) {
      var x := s.workers[w];
      assert WorkerOk(s, x);
      if x.cbFibre.Some? && !(x.pc.Running? && x.pc.viaCb) {
        assert Spare(s, x.cbFibre.value);
        assert Places(s', FibreTask(x.cbFibre.value)) <= Places(s, FibreTask(x.cbFibre.value));
      }
    }
  }

  lemma NewFibreKeepsControl(s: State, f: FibreId)
    requires Control(s) && f !in s.fibres
    ensures Control(DoClient(s, NewFibre(f)).s)
  {
    var s' := DoClient(s, NewFibre(f)).s;
    forall t ensures Places(s', t) == Places(s, t) {}
    forall w | 0 <= w < |s.workers| ensures WorkerOk(s', s.workers[w]) {
      assert WorkerOk(s, s.workers[w]);
    }
    forall g | g in s'.fibres && s'.fibres[g] == EXEC ensures exists w :: 0 <= w < |s'.workers| && Runs(s'.workers[w], g) {
      assert g in s.fibres && s.fibres[g] == EXEC;
    }
  }

  /** The fibre a worker runs is nobody's spare one. */
  lemma RunningNotSpare(s: State, w: nat)
    requires WorkersOk(s) && w < |s.workers| && s.workers[w].pc.Running?
    ensures s.workers[w].pc.fibre in s.fibres && s.fibres[s.workers[w].pc.fibre] == EXEC
    ensures !Spare(s, s.workers[w].pc.fibre)
  {
    assert WorkerOk(s, s.workers[w]);
    forall v | 0 <= v < |s.workers| && s.workers[v].cbFibre == Some(s.workers[w].pc.fibre)
      ensures s.workers[v].pc.Running? && s.workers[v].pc.viaCb
    {
      assert WorkerOk(s, s.workers[v]);
    }
  }

  /** The states of fibres other than `f` are what they were. */
  ghost predicate OnlyFibre(s: State, s': State, f: Option<FibreId>) {
    && (forall g | g in s.fibres :: g in s'.fibres && (f != Some(g) ==> s'.fibres[g] == s.fibres[g]))
    && (forall g | g in s'.fibres && f != Some(g) :: g in s.fibres)
  }

  /** A worker that has nothing to do with fibre `f`. */
  predicate Clear(x: Worker, f: FibreId) {
    !Runs(x, f) && x.cbFibre != Some(f) && !(x.pc.Hand? && x.pc.entry.task == FibreTask(f))
  }

  ghost predicate OthersClear(s: State, w: nat, f: FibreId) {
    forall v | 0 <= v < |s.workers| && v != w :: Clear(s.workers[v], f)
  }

  /** Only worker `w` moves, from running nothing or `f`, to running nothing or `f`. */
  ghost predicate OnlyWorker(s: State, s': State, w: nat, f: Option<FibreId>) {
    && w < |s.workers| && |s'.workers| == |s.workers| && s'.workers == s.workers[w := s'.workers[w]]
    && s'.active - s.active == Busy(s'.workers[w]) - Busy(s.workers[w])
    && s'.idle - s.idle == Idling(s'.workers[w]) - Idling(s.workers[w])
    && (s.workers[w].pc.Running? ==> f == Some(s.workers[w].pc.fibre))
    && (s'.workers[w].pc.Running? ==> f == Some(s'.workers[w].pc.fibre))
    && (s'.workers[w].cbFibre.Some? ==> s'.workers[w].cbFibre == s.workers[w].cbFibre || s'.workers[w].cbFibre == f)
    && (f.Some? && f.value in s'.fibres && s'.fibres[f.value] == EXEC ==> Runs(s'.workers[w], f.value))
  }

  lemma OthersStayOk(s: State, s': State, w: nat, f: Option<FibreId>)
    requires WorkersOk(s) && w < |s.workers| && OnlyFibre(s, s', f) && (f.Some? ==> OthersClear(s, w, f.value))
    requires NoMorePlaces(s, s', if f.Some? then Some(FibreTask(f.value)) else None)
    ensures forall v | 0 <= v < |s.workers| && v != w :: WorkerOk(s', s.workers[v])
  {
    forall v | 0 <= v < |s.workers| && v != w ensures WorkerOk(s', s.workers[v]) {
      var x := s.workers[v];
      assert WorkerOk(s, x) && (f.Some? ==> Clear(x, f.value));
      if x.cbFibre.Some? {
        assert f != Some(x.cbFibre.value);
        assert Places(s', FibreTask(x.cbFibre.value)) <= Places(s, FibreTask(x.cbFibre.value));
      }
    }
  }

  lemma StayApart(s: State, s': State, w: nat, f: Option<FibreId>)
    requires WorkersOk(s) && OnlyWorker(s, s', w, f) && (f.Some? ==> OthersClear(s, w, f.value))
    ensures forall u, v | 0 <= u < v < |s'.workers| :: Apart(s'.workers[u], s'.workers[v])
  {
    forall u, v | 0 <= u < v < |s'.workers| ensures Apart(s'.workers[u], s'.workers[v]) {
      assert Apart(s.workers[u], s.workers[v]);
      if u == w && f.Some? {
        assert Clear(s.workers[v], f.value);
      } else if v == w && f.Some? {
        assert Clear(s.workers[u], f.value);
      }
    }
  }

  lemma StillRun(s: State, s': State, w: nat, f: Option<FibreId>)
    requires ExecRuns(s) && OnlyWorker(s, s', w, f) && OnlyFibre(s, s', f)
    ensures ExecRuns(s')
  {
    forall g | g in s'.fibres && s'.fibres[g] == EXEC ensures exists v :: 0 <= v < |s'.workers| && Runs(s'.workers[v], g) {
      if f == Some(g) {
        assert Runs(s'.workers[w], g);
      } else {
        assert g in s.fibres && s.fibres[g] == EXEC;
        var v :| 0 <= v < |s.workers| && Runs(s.workers[v], g);
        assert v != w && Runs(s'.workers[v], g);
      }
    }
  }

  /** A step of worker `w` that changes at most the state of `f`, a fibre no other worker has to do with. */
  lemma WorkerKeepsControl(s: State, s': State, w: nat, f: Option<FibreId>)
    requires Control(s) && OnlyWorker(s, s', w, f) && OnlyFibre(s, s', f) && WorkerOk(s', s'.workers[w])
    requires NoMorePlaces(s, s', if f.Some? then Some(FibreTask(f.value)) else None)
    requires f.Some? ==> OthersClear(s, w, f.value) && Places(s', FibreTask(f.value)) <= 1 && f.value in s'.fibres
    ensures Control(s')
  {
    CountsUpdate(s.workers, w, s'.workers[w]);
    OthersStayOk(s, s', w, f);
    StayApart(s, s', w, f);
    StillRun(s, s', w, f);
    forall g: FibreId ensures Places(s', FibreTask(g)) <= 1 && (Places(s', FibreTask(g)) > 0 ==> g in s'.fibres) {
      assert Places(s, FibreTask(g)) <= 1;
    }
  }

  /** What a worker has in hand is in a place. */
  lemma HandHeld(s: State, w: nat)
    requires w < |s.workers|
    ensures s.workers[w].pc.Hand? ==> Places(s, s.workers[w].pc.entry.task) >= 1
  {
    if s.workers[w].pc.Hand? {
      HandAt(s.workers, w, s.workers[w].pc.entry.task);
    }
  }

  /** The fibre in a worker's hand is nowhere else: no other worker runs it, holds it or keeps it. */
  lemma HandIsExclusive(s: State, w: nat, f: FibreId)
    requires Control(s) && w < |s.workers| && s.workers[w].pc.Hand? && s.workers[w].pc.entry.task == FibreTask(f)
    ensures f in s.fibres && s.fibres[f] != EXEC && Places(s, FibreTask(f)) == 1
    ensures OthersClear(s, w, f) && s.workers[w].cbFibre != Some(f)
  {
    assert WorkerOk(s, s.workers[w]);
    HandHeld(s, w);
    assert Places(s, FibreTask(f)) <= 1;
    forall v | 0 <= v < |s.workers| && v != w ensures Clear(s.workers[v], f) {
      assert WorkerOk(s, s.workers[v]);
      HandTwo(s.workers, w, v, FibreTask(f));
    }
  }

  /** A worker's own spare fibre, or a fibre that did not exist, is nowhere. */
  lemma CallbackFibreIsExclusive(s: State, w: nat, g: FibreId)
    requires Control(s) && w < |s.workers| && s.workers[w].pc.Hand?
    requires s.workers[w].cbFibre == Some(g) || g !in s.fibres
    ensures OthersClear(s, w, g) && Places(s, FibreTask(g)) == 0
    ensures g in s.fibres ==> s.fibres[g] == INIT
  {
    assert WorkerOk(s, s.workers[w]);
    forall v | 0 <= v < |s.workers| && v != w ensures Clear(s.workers[v], g) {
      assert WorkerOk(s, s.workers[v]);
      HandAt(s.workers, v, FibreTask(g));
      assert if v < w then Apart(s.workers[v], s.workers[w]) else Apart(s.workers[w], s.workers[v]);
    }
  }

  /** The fibre a worker runs is run, held and kept by no other. */
  lemma RunningIsExclusive(s: State, w: nat)
    requires Control(s) && w < |s.workers| && s.workers[w].pc.Running?
    ensures OthersClear(s, w, s.workers[w].pc.fibre)
    ensures s.workers[w].pc.fibre in s.fibres && s.fibres[s.workers[w].pc.fibre] == EXEC
    ensures s.workers[w].pc.viaCb <==> s.workers[w].cbFibre == Some(s.workers[w].pc.fibre)
  {
    var f := s.workers[w].pc.fibre;
    assert WorkerOk(s, s.workers[w]);
    forall v | 0 <= v < |s.workers| && v != w ensures Clear(s.workers[v], f) {
      assert WorkerOk(s, s.workers[v]);
      assert if v < w then Apart(s.workers[v], s.workers[w]) else Apart(s.workers[w], s.workers[v]);
    }
  }

  // The effect of each step on its worker; these follow from the definitions of the steps alone.

  lemma PopShape(s: State, w: nat)
    requires w < |s.workers| && s.workers[w].pc.Top?
    ensures DoPop(s, w).Ok?
    ensures var s' := DoPop(s, w).s; var x' := s'.workers[w]; var i := Scan(s.io.queue, s.workers[w].tid, s.fibres);
            && OnlyWorker(s, s', w, None) && s'.fibres == s.fibres
            && x'.cbFibre == s.workers[w].cbFibre && x'.tid == s.workers[w].tid
            && (if i.Some? then TakesUp(s, s', w, i.value) && Takeable(x'.pc.entry, x'.tid, s.fibres) else Stays(s, s', w))
  {
  }

  lemma SwapInFibreShape(s: State, w: nat, newId: FibreId, f: FibreId)
    requires w < |s.workers| && s.workers[w].pc.Hand? && s.workers[w].pc.entry.task == FibreTask(f)
    requires f in s.fibres && s.fibres[f] != EXEC
    ensures DoSwapIn(s, w, newId).Ok?
    ensures var s' := DoSwapIn(s, w, newId).s; var x' := s'.workers[w];
            && Starts(s, s', w) && OnlyWorker(s, s', w, Some(f)) && OnlyFibre(s, s', Some(f)) && f in s'.fibres
            && x'.cbFibre == s.workers[w].cbFibre
            && (if Dead(s.fibres[f]) then x'.pc.Top? && s'.fibres == s.fibres && s'.executed == s.executed
                else x'.pc == Running(f, false) && s'.fibres[f] == EXEC && s'.skipped == s.skipped)
  {
  }

  lemma SwapInCallbackShape(s: State, w: nat, newId: FibreId, g: FibreId)
    requires w < |s.workers| && s.workers[w].pc.Hand? && s.workers[w].pc.entry.task.CbTask?
    requires if s.workers[w].cbFibre.Some? then s.workers[w].cbFibre == Some(g) && g in s.fibres && s.fibres[g] == INIT
             else g == newId && newId !in s.fibres
    ensures DoSwapIn(s, w, newId).Ok?
    ensures var s' := DoSwapIn(s, w, newId).s; var x' := s'.workers[w];
            && Starts(s, s', w) && OnlyWorker(s, s', w, Some(g)) && OnlyFibre(s, s', Some(g))
            && g in s'.fibres && s'.fibres[g] == EXEC && x'.cbFibre == Some(g) && x'.pc == Running(g, true)
  {
  }

  /** What the three ways a fibre gives its worker back have in common. */
  predicate GivesBack(s: State, s': State, w: nat, f: FibreId) {
    && w < |s.workers| && |s'.workers| == |s.workers| && s.workers[w].pc.Running? && s.workers[w].pc.fibre == f
    && s'.workers[w].pc.Top? && f in s'.fibres && s'.fibres[f] != EXEC
    && (if !s.workers[w].pc.viaCb then s'.workers[w].cbFibre == s.workers[w].cbFibre
        else s'.workers[w].cbFibre.None? || (s'.workers[w].cbFibre == Some(f) && s'.fibres[f] == INIT))
  }

  lemma YieldHoldShape(s: State, w: nat, f: FibreId)
    requires w < |s.workers| && s.workers[w].pc.Running? && f == s.workers[w].pc.fibre && f in s.fibres && s.fibres[f] == EXEC
    requires s.workers[w].pc.viaCb ==> s.workers[w].cbFibre == Some(f)
    ensures DoYieldHold(s, w).Ok?
    ensures var s' := DoYieldHold(s, w).s;
            && Stays(s, s', w) && OnlyWorker(s, s', w, Some(f)) && OnlyFibre(s, s', Some(f)) && GivesBack(s, s', w, f)
            && (s.workers[w].pc.viaCb ==> s'.workers[w].cbFibre.None?)
  {
  }

  lemma YieldReadyShape(s: State, w: nat, f: FibreId)
    requires w < |s.workers| && s.workers[w].pc.Running? && f == s.workers[w].pc.fibre && f in s.fibres && s.fibres[f] == EXEC
    requires s.workers[w].pc.viaCb ==> s.workers[w].cbFibre == Some(f)
    ensures DoYieldReady(s, w).Ok?
    ensures var s' := DoYieldReady(s, w).s;
            && Requeues(s, s', w, FibreTask(f)) && OnlyWorker(s, s', w, Some(f)) && OnlyFibre(s, s', Some(f)) && GivesBack(s, s', w, f)
            && (s.workers[w].pc.viaCb ==> s'.workers[w].cbFibre.None?)
  {
  }

  lemma FinishShape(s: State, w: nat, ok: bool, f: FibreId)
    requires w < |s.workers| && s.workers[w].pc.Running? && f == s.workers[w].pc.fibre && f in s.fibres && s.fibres[f] == EXEC
    requires s.workers[w].pc.viaCb ==> s.workers[w].cbFibre == Some(f)
    ensures DoFinish(s, w, ok).Ok?
    ensures var s' := DoFinish(s, w, ok).s;
            && Stays(s, s', w) && OnlyWorker(s, s', w, Some(f)) && OnlyFibre(s, s', Some(f)) && GivesBack(s, s', w, f)
  {
  }

  lemma IdleEvalShape(s: State, w: nat)
    requires w < |s.workers| && s.workers[w].pc.IdleCheck?
    ensures DoIdleEval(s, w).Ok?
    ensures var s' := DoIdleEval(s, w).s;
            && Stays(s, s', w) && OnlyWorker(s, s', w, None) && s'.fibres == s.fibres
            && s'.workers[w].cbFibre == s.workers[w].cbFibre
  {
  }

  lemma IdlePassShape(s: State, w: nat, probe: nat, reports: seq<(Io.Ready, bool)>)
    requires w < |s.workers| && s.workers[w].pc.IdleWait? && DoIdlePass(s, w, probe, reports).Ok?
    ensures var s' := DoIdlePass(s, w, probe, reports).s;
            && OnlyWorker(s, s', w, None) && s'.fibres == s.fibres && s'.workers[w] == s.workers[w].(pc := Top)
  {
  }

  // What each kind of effect does to the invariant.

  lemma TakesUpKeepsControl(s: State, s': State, w: nat, i: nat)
    requires Control(s) && OnlyWorker(s, s', w, None) && s'.fibres == s.fibres && NoMorePlaces(s, s', None)
    requires TakesUp(s, s', w, i) && Takeable(s'.workers[w].pc.entry, s'.workers[w].tid, s.fibres)
    requires s'.workers[w].cbFibre == s.workers[w].cbFibre && s.workers[w].pc.Top?
    ensures Control(s')
  {
    HandHeld(s', w);
    SpareStays(s, s', w);
    var t := s'.workers[w].pc.entry.task;
    if t.FibreTask? {
      assert Places(s', FibreTask(t.fibre)) <= Places(s, FibreTask(t.fibre));
    }
    WorkerKeepsControl(s, s', w, None);
  }

  /** A worker that keeps its spare fibre keeps it unused. */
  lemma SpareStays(s: State, s': State, w: nat)
    requires WorkersOk(s) && w < |s.workers| && w < |s'.workers| && s'.fibres == s.fibres && NoMorePlaces(s, s', None)
    requires s'.workers[w].cbFibre == s.workers[w].cbFibre && !s.workers[w].pc.Running?
    ensures s'.workers[w].cbFibre.Some? ==>
              var g := s'.workers[w].cbFibre.value; g in s'.fibres && s'.fibres[g] == INIT && Places(s', FibreTask(g)) == 0
  {
    assert WorkerOk(s, s.workers[w]);
    if s'.workers[w].cbFibre.Some? {
      assert Places(s', FibreTask(s'.workers[w].cbFibre.value)) <= Places(s, FibreTask(s'.workers[w].cbFibre.value));
    }
  }

  lemma FibreStartKeepsControl(s: State, s': State, w: nat, f: FibreId)
    requires Control(s) && OnlyWorker(s, s', w, Some(f)) && OnlyFibre(s, s', Some(f)) && NoMorePlaces(s, s', None)
    requires s.workers[w].pc.Hand? && s.workers[w].pc.entry.task == FibreTask(f) && f in s'.fibres
    requires s'.workers[w].cbFibre == s.workers[w].cbFibre
    requires s'.workers[w].pc.Top? || (s'.workers[w].pc == Running(f, false) && s'.fibres[f] == EXEC)
    ensures Control(s')
  {
    HandIsExclusive(s, w, f);
    var x := s.workers[w];
    assert WorkerOk(s, x);
    assert x.cbFibre.Some? ==> Places(s', FibreTask(x.cbFibre.value)) <= Places(s, FibreTask(x.cbFibre.value));
    assert Places(s', FibreTask(f)) <= Places(s, FibreTask(f));
    WorkerKeepsControl(s, s', w, Some(f));
  }

  lemma CallbackStartKeepsControl(s: State, s': State, w: nat, g: FibreId)
    requires Control(s) && OnlyWorker(s, s', w, Some(g)) && OnlyFibre(s, s', Some(g)) && NoMorePlaces(s, s', None)
    requires s.workers[w].pc.Hand? && (s.workers[w].cbFibre == Some(g) || g !in s.fibres)
    requires g in s'.fibres && s'.fibres[g] == EXEC && s'.workers[w].cbFibre == Some(g) && s'.workers[w].pc == Running(g, true)
    ensures Control(s')
  {
    CallbackFibreIsExclusive(s, w, g);
    assert Places(s', FibreTask(g)) <= Places(s, FibreTask(g));
    WorkerKeepsControl(s, s', w, Some(g));
  }

  lemma GivesBackKeepsControl(s: State, s': State, w: nat, f: FibreId)
    requires Control(s) && OnlyWorker(s, s', w, Some(f)) && OnlyFibre(s, s', Some(f)) && GivesBack(s, s', w, f)
    requires NoMorePlaces(s, s', Some(FibreTask(f))) && Places(s', FibreTask(f)) <= 1
    requires s'.workers[w].cbFibre == Some(f) ==> Places(s', FibreTask(f)) == 0
    ensures Control(s')
  {
    RunningIsExclusive(s, w);
    var x := s.workers[w];
    assert WorkerOk(s, x);
    assert x.cbFibre.Some? && !x.pc.viaCb ==> Places(s', FibreTask(x.cbFibre.value)) <= Places(s, FibreTask(x.cbFibre.value));
    WorkerKeepsControl(s, s', w, Some(f));
  }

  lemma IdleKeepsControl(s: State, s': State, w: nat)
    requires Control(s) && w < |s.workers| && !s.workers[w].pc.Running?
    requires s'.fibres == s.fibres && OnlyWorker(s, s', w, None) && NoMorePlaces(s, s', None)
    requires !s'.workers[w].pc.Hand? && s'.workers[w].cbFibre == s.workers[w].cbFibre
    ensures Control(s')
  {
    SpareStays(s, s', w);
    WorkerKeepsControl(s, s', w, None);
  }

  // ---- One step ----

  /** A step that moves tasks legally keeps the account. */
  lemma MovesConserve(s: State, r: Result, t: Option<Task>)
    requires Conserved(s) && Moves(s, r, t)
    ensures Conserved(r.s)
  {
  }

  lemma PopKeeps(s: State, w: nat)
    requires Inv(s) && w < |s.workers| && s.workers[w].pc.Top?
    ensures DoPop(s, w).Ok? && Inv(DoPop(s, w).s)
  {
    PopShape(s, w);
    var s' := DoPop(s, w).s;
    var i := Scan(s.io.queue, s.workers[w].tid, s.fibres);
    if i.Some? {
      TakesUpMoves(s, s', w, i.value);
      TakesUpKeepsControl(s, s', w, i.value);
    } else {
      StaysMoves(s, s', w);
      IdleKeepsControl(s, s', w);
    }
  }

  lemma SwapInFibreKeeps(s: State, w: nat, newId: FibreId, f: FibreId)
    requires Inv(s) && w < |s.workers| && s.workers[w].pc.Hand? && s.workers[w].pc.entry.task == FibreTask(f)
    ensures DoSwapIn(s, w, newId).Ok? && Inv(DoSwapIn(s, w, newId).s)
  {
    HandIsExclusive(s, w, f);
    SwapInFibreShape(s, w, newId, f);
    var s' := DoSwapIn(s, w, newId).s;
    StartsMoves(s, s', w);
    FibreStartKeepsControl(s, s', w, f);
  }

  lemma SwapInCallbackKeeps(s: State, w: nat, newId: FibreId)
    requires Inv(s) && w < |s.workers| && s.workers[w].pc.Hand? && s.workers[w].pc.entry.task.CbTask? && newId !in s.fibres
    ensures DoSwapIn(s, w, newId).Ok? && Inv(DoSwapIn(s, w, newId).s)
  {
    assert WorkerOk(s, s.workers[w]);
    var g := if s.workers[w].cbFibre.Some? then s.workers[w].cbFibre.value else newId;
    SwapInCallbackShape(s, w, newId, g);
    var s' := DoSwapIn(s, w, newId).s;
    StartsMoves(s, s', w);
    CallbackStartKeepsControl(s, s', w, g);
  }

  lemma YieldReadyKeeps(s: State, w: nat)
    requires Inv(s) && w < |s.workers| && s.workers[w].pc.Running? && Places(s, FibreTask(s.workers[w].pc.fibre)) == 0
    ensures DoYieldReady(s, w).Ok? && Inv(DoYieldReady(s, w).s)
  {
    var f := s.workers[w].pc.fibre;
    RunningIsExclusive(s, w);
    YieldReadyShape(s, w, f);
    var s' := DoYieldReady(s, w).s;
    RequeuesMoves(s, s', w, FibreTask(f));
    GivesBackKeepsControl(s, s', w, f);
  }

  lemma YieldHoldKeeps(s: State, w: nat)
    requires Inv(s) && w < |s.workers| && s.workers[w].pc.Running?
    ensures DoYieldHold(s, w).Ok? && Inv(DoYieldHold(s, w).s)
  {
    var f := s.workers[w].pc.fibre;
    RunningIsExclusive(s, w);
    YieldHoldShape(s, w, f);
    var s' := DoYieldHold(s, w).s;
    StaysMoves(s, s', w);
    assert Places(s', FibreTask(f)) <= Places(s, FibreTask(f)) <= 1;
    GivesBackKeepsControl(s, s', w, f);
  }

  lemma FinishKeeps(s: State, w: nat, ok: bool)
    requires Inv(s) && w < |s.workers| && s.workers[w].pc.Running?
    requires s.workers[w].pc.viaCb ==> Places(s, FibreTask(s.workers[w].pc.fibre)) == 0
    ensures DoFinish(s, w, ok).Ok? && Inv(DoFinish(s, w, ok).s)
  {
    var f := s.workers[w].pc.fibre;
    RunningIsExclusive(s, w);
    FinishShape(s, w, ok, f);
    var s' := DoFinish(s, w, ok).s;
    StaysMoves(s, s', w);
    assert Places(s', FibreTask(f)) <= Places(s, FibreTask(f)) <= 1;
    GivesBackKeepsControl(s, s', w, f);
  }

  lemma IdleEvalKeeps(s: State, w: nat)
    requires Inv(s) && w < |s.workers| && s.workers[w].pc.IdleCheck?
    ensures DoIdleEval(s, w).Ok? && Inv(DoIdleEval(s, w).s)
  {
    IdleEvalShape(s, w);
    StaysMoves(s, DoIdleEval(s, w).s, w);
    IdleKeepsControl(s, DoIdleEval(s, w).s, w);
  }

  lemma IdlePassKeeps(s: State, w: nat, probe: nat, reports: seq<(Io.Ready, bool)>)
    requires Inv(s) && w < |s.workers| && s.workers[w].pc.IdleWait? && P.GoodReports(s.io, reports)
    ensures DoIdlePass(s, w, probe, reports).Ok? && Inv(DoIdlePass(s, w, probe, reports).s)
  {
    IdlePassMoves(s, w, probe, reports);
    IdlePassShape(s, w, probe, reports);
    IdleKeepsControl(s, DoIdlePass(s, w, probe, reports).s, w);
  }

  /** A client operation that moves tasks as stated keeps the invariant. */
  lemma AsideKeeps(s: State, s': State, t: Option<Task>)
    requires Inv(s) && SameWorkers(s, s') && Moves(s, Ok(s'), t)
    requires t.Some? && t.value.FibreTask? ==>
               Places(s', t.value) <= 1 && t.value.fibre in s.fibres && !Spare(s, t.value.fibre)
    ensures Inv(s')
  {
    AsideKeepsControl(s, s', t);
    MovesConserve(s, Ok(s'), t);
  }

  lemma SubmitKeeps(s: State, who: Option<nat>, task: Task, thread: int)
    requires Inv(s) && ClientOk(s, who, Submit(task, thread))
    ensures DoClient(s, Submit(task, thread)).Ok? && Inv(DoClient(s, Submit(task, thread)).s)
  {
    SubmitMoves(s, task, thread);
    AsideKeeps(s, DoClient(s, Submit(task, thread)).s, Some(task));
  }

  lemma AddFdKeeps(s: State, who: Option<nat>, fd: Io.Fd, e: Io.Event, task: Task, fault: bool)
    requires Inv(s) && ClientOk(s, who, AddFd(fd, e, task, fault))
    ensures DoClient(s, AddFd(fd, e, task, fault)).Ok? && Inv(DoClient(s, AddFd(fd, e, task, fault)).s)
  {
    if task.FibreTask? {
      RunningNotSpare(s, who.value);
    }
    AddFdMoves(s, fd, e, task, fault);
    AsideKeeps(s, DoClient(s, AddFd(fd, e, task, fault)).s, Some(task));
  }

  lemma IoOpKeeps(s: State, op: Client)
    requires Inv(s) && (op.DelFd? || op.CancelFd? || op.CancelAllFd?)
    ensures DoClient(s, op).Ok? && Inv(DoClient(s, op).s)
  {
    match op {
      case DelFd(fd, e, fault) => DelFdMoves(s, fd, e, fault);
      case CancelFd(fd, e, fault) => CancelFdMoves(s, fd, e, fault);
      case CancelAllFd(fd, fault) => CancelAllFdMoves(s, fd, fault);
    }
    AsideKeeps(s, DoClient(s, op).s, None);
  }

  lemma TimerOpKeeps(s: State, who: Option<nat>, op: Client)
    requires Inv(s) && ClientOk(s, who, op) && (op.AddTimer? || op.CancelTimer? || op.RefreshTimer? || op.ResetTimer?)
    ensures DoClient(s, op).Ok? && Inv(DoClient(s, op).s)
  {
    match op {
      case AddTimer(addr, ms, cb, recurring) => AddTimerMoves(s, addr, ms, cb, recurring);
      case CancelTimer(addr) => CancelTimerMoves(s, addr);
      case RefreshTimer(_) => RetimeMoves(s, op);
      case ResetTimer(_, _, _) => RetimeMoves(s, op);
    }
    AsideKeeps(s, DoClient(s, op).s, None);
  }

  lemma NewFibreKeeps(s: State, f: FibreId)
    requires Inv(s) && f !in s.fibres
    ensures Inv(DoClient(s, NewFibre(f)).s)
  {
    NewFibreKeepsControl(s, f);
    forall t ensures Places(DoClient(s, NewFibre(f)).s, t) == Places(s, t) {}
  }

  lemma ClientKeeps(s: State, who: Option<nat>, op: Client)
    requires Inv(s) && ClientOk(s, who, op)
    ensures DoClient(s, op).Ok? && Inv(DoClient(s, op).s)
  {
    match op
    case NewFibre(f) => NewFibreKeeps(s, f);
    case Submit(task, thread) => SubmitKeeps(s, who, task, thread);
    case AddFd(fd, e, task, fault) => AddFdKeeps(s, who, fd, e, task, fault);
    case DelFd(_, _, _) => IoOpKeeps(s, op);
    case CancelFd(_, _, _) => IoOpKeeps(s, op);
    case CancelAllFd(_, _) => IoOpKeeps(s, op);
    case AddTimer(_, _, _, _) => TimerOpKeeps(s, who, op);
    case CancelTimer(_) => TimerOpKeeps(s, who, op);
    case RefreshTimer(_) => TimerOpKeeps(s, who, op);
    case ResetTimer(_, _, _) => TimerOpKeeps(s, who, op);
  }

  /** The clock and the stop flags do not matter to the invariant. */
  lemma FlagKeeps(s: State, s': State)
    requires Inv(s) && SameWorkers(s, s') && s'.io == s.io && s'.tm == s.tm
    requires s'.submitted == s.submitted && s'.executed == s.executed && s'.skipped == s.skipped && s'.dropped == s.dropped
    ensures Inv(s')
  {
    forall t ensures Places(s', t) == Places(s, t) {}
    AsideKeeps(s, s', None);
  }

  /** No step allowed in a state satisfying the invariant fails an assertion, and it keeps the invariant. */
  lemma StepKeepsInv(s: State, a: Action)
    requires Inv(s) && Enabled(s, a)
    ensures Step(s, a).Ok? && Inv(Step(s, a).s)
  {
    match a
    case Pop(w) => PopKeeps(s, w);
    case SwapIn(w, newId) =>
      if s.workers[w].pc.entry.task.FibreTask? {
        SwapInFibreKeeps(s, w, newId, s.workers[w].pc.entry.task.fibre);
      } else {
        SwapInCallbackKeeps(s, w, newId);
      }
    case YieldReady(w) => YieldReadyKeeps(s, w);
    case YieldHold(w) => YieldHoldKeeps(s, w);
    case Finish(w, ok) => FinishKeeps(s, w, ok);
    case IdleEval(w) => IdleEvalKeeps(s, w);
    case IdlePass(w, probe, reports) => IdlePassKeeps(s, w, probe, reports);
    case Do(who, op) => ClientKeeps(s, who, op);
    case Tick(d) => FlagKeeps(s, Step(s, a).s);
    case SetAutoStop => FlagKeeps(s, Step(s, a).s);
    case SetStopping => FlagKeeps(s, Step(s, a).s);
  }
}
