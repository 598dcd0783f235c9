/**
 Whole runs of the timed I/O protocol: a timeout is never early; when a parked call can be woken, and that it
 always can be with one worker; what a callback can still do after its call has returned, and when.
 */
module TimedIoTheorems {
  import opened Wrappers
  import opened Tasks
  import opened TimedIo
  import Q = TimedIoProofs
  import Io = IoSpec
  import P = IoProofs

  /** The steps `actions`, each allowed where it happens, lead from `s` to `s'` without a failed assertion. */
  ghost predicate Run(s: State, actions: seq<Action>, s': State)
    decreases |actions|
  {
    if actions == [] then s' == s
    else Enabled(s, actions[0]) && Next(s, actions[0]).Some? && Run(Next(s, actions[0]).value, actions[1..], s')
  }

  /** A run and one more step. */
  lemma {:induction false} RunSnoc(s: State, actions: seq<Action>, s1: State, a: Action)
    requires Run(s, actions, s1) && Enabled(s1, a) && Next(s1, a).Some?
    ensures Run(s, actions + [a], Next(s1, a).value)
    decreases |actions|
  {
    if actions == [] {
      assert [a][1..] == [] && Run(Next(s1, a).value, [], Next(s1, a).value);
    } else {
      RunSnoc(Next(s, actions[0]).value, actions[1..], s1, a);
      assert (actions + [a])[1..] == actions[1..] + [a];
    }
  }

  ghost predicate Init(s: State) {
    && s.io == Io.Initial(|s.io.fds|) && |s.io.fds| >= 32
    && s.tm.armed == [] && s.tm.previous <= s.now
    && s.calls == map[] && s.owner == map[] && s.acting == []
  }

  lemma InitIsSafe(s: State)
    requires Init(s)
    ensures Inv(s)
  {
    P.InitialInv(|s.io.fds|);
  }

  lemma {:induction false} EveryRunIsSafe(s: State, actions: seq<Action>, s': State)
    requires Inv(s) && Run(s, actions, s')
    ensures Inv(s')
    ensures forall a | Enabled(s', a) :: Next(s', a).Some?
    decreases |actions|
  {
    if actions != [] {
      Q.StepKeepsInv(s, actions[0]);
      EveryRunIsSafe(Next(s, actions[0]).value, actions[1..], s');
    } else {
      forall a | Enabled(s', a) ensures Next(s', a).Some? {
        Q.StepKeepsInv(s', a);
      }
    }
  }

  /** A call that waits, however often it retried, reports ETIMEDOUT only `to` milliseconds after its first wait. */
  lemma TimeoutIsNeverEarly(s0: State, actions: seq<Action>, s: State, a: Action, k: nat)
    requires Init(s0) && Run(s0, actions, s) && Enabled(s, a) && Next(s, a).Some?
    requires k in s.calls && !s.calls[k].phase.Returned? && k in Next(s, a).value.calls
    requires Next(s, a).value.calls[k].phase == Returned(true)
    ensures s.calls[k].to.Some? && s.calls[k].firstWait.Some? && s.calls[k].firstWait.value + s.calls[k].to.value <= s.now
  {
    InitIsSafe(s0);
    EveryRunIsSafe(s0, actions, s);
    assert CallOk(s, k);
    var calls' := Next(s, a).value.calls;
    assert a.Resume? && a.k == k by {
      if !(a.Resume? && a.k == k) {
        OnlyResumeTimesOut(s, a, k);
      }
    }
  }

  lemma OnlyResumeTimesOut(s: State, a: Action, k: nat)
    requires Enabled(s, a) && Next(s, a).Some? && k in s.calls && !(a.Resume? && a.k == k)
    requires k in Next(s, a).value.calls && !s.calls[k].phase.Returned?
    ensures Next(s, a).value.calls[k].phase != Returned(true)
  {
  }

  /** A timeout callback that would still act for the call: in a timer, queued, or being run and not done. */
  ghost predicate LiveTimeout(s: State, k: nat)
    requires k in s.calls
  {
    || (!s.calls[k].cancelled && exists c :: c in s.owner && s.owner[c] == k && CbCount(s, c) >= 1)
    || Pending(s.acting, s.owner, k)
  }

  /**
   A parked call is queued already or registered for its event. One registered with a finite timeout has a live
   timeout callback, unless its callbacks all acted at the wrong moment (`missed`); then it has none.
   */
  lemma ParkedCallCanBeWoken(s0: State, actions: seq<Action>, s: State, k: nat)
    requires Init(s0) && Run(s0, actions, s) && k in s.calls && s.calls[k].phase.Waiting?
    ensures Queued(s, k) || Registered(s, k)
    ensures s.calls[k].to.Some? && !Queued(s, k) ==> (LiveTimeout(s, k) <==> !s.calls[k].missed)
  {
    InitIsSafe(s0);
    EveryRunIsSafe(s0, actions, s);
    assert CallOk(s, k);
    var c := s.calls[k].cb;
    if s.calls[k].to.Some? && !Queued(s, k) && !s.calls[k].missed && !s.calls[k].cancelled {
      assert c.value in s.owner && s.owner[c.value] == k && CbCount(s, c.value) >= 1;
    }
  }

  /** The call is queued, and ETIMEDOUT is what it will report. */
  ghost predicate TimedOut(s: State, k: nat) {
    k in s.calls && Queued(s, k) && forall j | Enabled(s, Resume(k, j)) :: Next(s, Resume(k, j)).value.calls[k].phase == Returned(true)
  }

  /** A callback that has set the flag of a parked call wakes it, unless the kernel refuses. */
  lemma WithdrawWakes(s: State, h: nat, k: nat)
    requires Inv(s) && Enabled(s, Withdraw(h, false)) && s.acting[h].cb in s.owner && s.owner[s.acting[h].cb] == k
    requires k in s.calls && s.calls[k].phase.Waiting?
    ensures Next(s, Withdraw(h, false)).Some? && TimedOut(Next(s, Withdraw(h, false)).value, k)
  {
    Q.StepKeepsInv(s, Withdraw(h, false));
    var s1 := Next(s, Withdraw(h, false)).value;
    assert s.acting[h] in s.acting && HalfOk(s, s.acting[h]);
    assert CallOk(s, k) && CallOk(s1, k);
    P.CancelEventMeaning(s.io, s.calls[k].fd, s.calls[k].event, false);
    assert !Registered(s1, k) || s1.io == s.io;
  }

  /** Taken from the queue, the callback of a parked call goes on and sets the flag. */
  lemma CallbackTaken(s: State, i: nat, k: nat)
    requires Inv(s) && Enabled(s, RunCb(i)) && s.owner[s.io.queue[i].task.cb] == k
    requires k in s.calls && s.calls[k].phase.Waiting? && !s.calls[k].cancelled
    ensures Q.Keeps(s, RunCb(i))
    ensures var s1 := Next(s, RunCb(i)).value;
            s1.calls == s.calls && s1.owner == s.owner && s1.acting == s.acting + [Half(s.io.queue[i].task.cb, false)]
  {
    Q.RunCbKeeps(s, i);
  }

  lemma CallbackSetsFlag(s: State, h: nat, k: nat)
    requires Inv(s) && Enabled(s, SetFlag(h)) && s.acting[h].cb in s.owner && s.owner[s.acting[h].cb] == k
    requires k in s.calls && s.calls[k].phase.Waiting?
    ensures Q.Keeps(s, SetFlag(h))
    ensures var s1 := Next(s, SetFlag(h)).value;
            && k in s1.calls && s1.calls[k].phase.Waiting? && s1.owner == s.owner
            && h < |s1.acting| && s1.acting[h] == Half(s.acting[h].cb, true)
  {
    Q.SetFlagKeeps(s, h);
  }

  /** A live timeout callback, once taken from the queue, wakes the parked call, which then reports ETIMEDOUT. */
  lemma LiveTimeoutWakes(s: State, k: nat, i: nat) returns (s1: State)
    requires Inv(s) && k in s.calls && s.calls[k].phase.Waiting? && !s.calls[k].cancelled
    requires Enabled(s, RunCb(i)) && s.owner[s.io.queue[i].task.cb] == k
    ensures Run(s, [RunCb(i), SetFlag(|s.acting|), Withdraw(|s.acting|, false)], s1) && TimedOut(s1, k)
  {
    var h := |s.acting|;
    CallbackTaken(s, i, k);
    var a := Next(s, RunCb(i)).value;
    CallbackSetsFlag(a, h, k);
    var b := Next(a, SetFlag(h)).value;
    WithdrawWakes(b, h, k);
    s1 := Next(b, Withdraw(h, false)).value;
    ThreeSteps(s, RunCb(i), a, SetFlag(h), b, Withdraw(h, false), s1);
  }

  lemma ThreeSteps(s: State, a: Action, s1: State, b: Action, s2: State, c: Action, s3: State)
    requires Enabled(s, a) && Next(s, a) == Some(s1)
    requires Enabled(s1, b) && Next(s1, b) == Some(s2)
    requires Enabled(s2, c) && Next(s2, c) == Some(s3)
    ensures Run(s, [a, b, c], s3)
  {
    assert [a, b, c][1..] == [b, c] && [b, c][1..] == [c] && [c][1..] == [];
    assert Run(s3, [], s3);
    assert Run(s2, [c], s3);
    assert Run(s1, [b, c], s3);
  }

  // ---- When no timeout is missed ----

  /** The flag of this call is stale: it is set, and no callback is left that would wake the call. */
  ghost predicate Stale(s: State, k: nat)
    requires k in s.calls
  {
    if s.calls[k].phase.Waiting? then s.calls[k].missed else s.calls[k].cancelled && !Pending(s.acting, s.owner, k)
  }

  /** No call in progress has a stale flag. */
  ghost predicate Calm(s: State) {
    forall k | Active(s, k) :: !Stale(s, k)
  }

  /** The last callback of a call withdraws its event while it is not parked, or the kernel refuses. */
  ghost predicate Untimely(s: State, a: Action)
    requires Enabled(s, a)
  {
    a.Withdraw? && s.acting[a.h].cb in s.owner &&
    var k := s.owner[s.acting[a.h].cb];
    Active(s, k) && !Pending(Without(s.acting, a.h), s.owner, k) && (a.fault || !s.calls[k].phase.Waiting?)
  }

  /** These steps, and only these, make a flag stale. */
  lemma CalmStep(s: State, a: Action)
    requires Inv(s) && Enabled(s, a) && Calm(s)
    ensures Next(s, a).Some? && (Calm(Next(s, a).value) <==> !Untimely(s, a))
  {
    Q.StepKeepsInv(s, a);
    var s' := Next(s, a).value;
    if a.Withdraw? {
      CalmWithdraw(s, a);
    } else {
      forall k | Active(s', k) ensures !Stale(s', k) {
        CalmCall(s, a, k);
      }
    }
  }

  lemma CalmWithdraw(s: State, a: Action)
    requires Inv(s) && Enabled(s, a) && a.Withdraw? && Calm(s) && Next(s, a).Some?
    ensures Calm(Next(s, a).value) <==> !Untimely(s, a)
  {
    var x := s.acting[a.h];
    assert x in s.acting && HalfOk(s, x);
    var k := s.owner[x.cb];
    var s' := Next(s, a).value;
    if Untimely(s, a) {
      assert Active(s', k);
    } else {
      forall j | Active(s', j) ensures !Stale(s', j) {
        assert Active(s, j);
        if j != k {
          Q.LeavePending(s, a.h, j);
        }
      }
    }
  }

  lemma CalmCall(s: State, a: Action, k: nat)
    requires Inv(s) && Enabled(s, a) && !a.Withdraw? && Calm(s) && Next(s, a).Some? && Active(Next(s, a).value, k)
    ensures !Stale(Next(s, a).value, k)
  {
    if k in s.calls {
      assert Active(s, k);
      PendingStays(s, a, k);
      CalmOwn(s, a, k);
    }
  }

  lemma CalmOwn(s: State, a: Action, k: nat)
    requires Enabled(s, a) && !a.Withdraw? && Next(s, a).Some? && Active(s, k) && !Stale(s, k) && Active(Next(s, a).value, k)
    requires var s' := Next(s, a).value;
             && (Pending(s.acting, s.owner, k) ==> Pending(s'.acting, s'.owner, k))
             && (!s.calls[k].cancelled && s'.calls[k].cancelled ==> Pending(s'.acting, s'.owner, k))
    ensures !Stale(Next(s, a).value, k)
  {
  }

  /** Until it withdraws the event a callback being run stays so; and the flag is set only by one. */
  lemma PendingStays(s: State, a: Action, k: nat)
    requires (forall x | x in s.acting :: HalfOk(s, x)) && Enabled(s, a) && !a.Withdraw? && Next(s, a).Some?
    ensures var s' := Next(s, a).value;
            && (Pending(s.acting, s.owner, k) ==> Pending(s'.acting, s'.owner, k))
            && (k in s.calls && k in s'.calls && !s.calls[k].cancelled && s'.calls[k].cancelled ==> Pending(s'.acting, s'.owner, k))
  {
    if a.SetFlag? {
      Q.SetPending(s, a.h, k);
      assert s.acting[a.h] in s.acting;
    } else {
      HalvesStay(s, a);
    }
  }

  lemma HalvesStay(s: State, a: Action)
    requires (forall x | x in s.acting :: HalfOk(s, x)) && Enabled(s, a) && !a.Withdraw? && !a.SetFlag? && Next(s, a).Some?
    ensures var s' := Next(s, a).value;
            && (forall x | x in s.acting :: x in s'.acting && x.cb in s.owner && x.cb in s'.owner && s'.owner[x.cb] == s.owner[x.cb])
            && (forall k | k in s.calls && k in s'.calls :: s'.calls[k].cancelled == s.calls[k].cancelled)
  {
    assert forall x | x in s.acting :: HalfOk(s, x);
  }

  /** In this run no callback withdraws its call's event in vain. */
  ghost predicate Timely(s: State, actions: seq<Action>)
    decreases |actions|
  {
    actions == [] ||
    (Enabled(s, actions[0]) && !Untimely(s, actions[0]) &&
     (Next(s, actions[0]).Some? ==> Timely(Next(s, actions[0]).value, actions[1..])))
  }

  /** Every parked call with a finite timeout is queued or has a live timeout callback. */
  ghost predicate AllCanWake(s: State) {
    forall k | Active(s, k) && s.calls[k].phase.Waiting? && s.calls[k].to.Some? :: Queued(s, k) || LiveTimeout(s, k)
  }

  lemma CalmCanWake(s: State)
    requires Inv(s) && Calm(s)
    ensures AllCanWake(s)
  {
    forall k | Active(s, k) && s.calls[k].phase.Waiting? && s.calls[k].to.Some?
      ensures Queued(s, k) || LiveTimeout(s, k)
    {
      assert CallOk(s, k);
      var c := s.calls[k].cb;
      assert Registered(s, k) && !s.calls[k].cancelled ==> c.value in s.owner && CbCount(s, c.value) >= 1;
    }
  }

  lemma {:induction false} TimelyRunsMissNothing(s: State, actions: seq<Action>, s': State)
    requires Inv(s) && Calm(s) && Run(s, actions, s') && Timely(s, actions)
    ensures Inv(s') && Calm(s') && AllCanWake(s')
    decreases |actions|
  {
    if actions != [] {
      CalmStep(s, actions[0]);
      Q.StepKeepsInv(s, actions[0]);
      TimelyRunsMissNothing(Next(s, actions[0]).value, actions[1..], s');
    } else {
      CalmCanWake(s');
    }
  }

  // ---- One worker ----

  /** The worker is between two tasks: it runs no callback, and no call's fibre, since all are parked. */
  ghost predicate WorkerFree(s: State) {
    s.acting == [] && forall k | Active(s, k) :: s.calls[k].phase.Waiting?
  }

  /** The one worker takes up a fibre or a callback when it has parked or finished the last; the kernel accepts its calls. */
  ghost predicate ByOneWorker(s: State, a: Action) {
    (a.Enter? || a.Resume? || a.RunCb? ==> WorkerFree(s)) && (a.Withdraw? ==> !a.fault)
  }

  ghost predicate OneWorker(s: State, actions: seq<Action>)
    decreases |actions|
  {
    actions == [] ||
    (Enabled(s, actions[0]) && ByOneWorker(s, actions[0]) &&
     (Next(s, actions[0]).Some? ==> OneWorker(Next(s, actions[0]).value, actions[1..])))
  }

  /** A run of one worker and one more step of it. */
  lemma {:induction false} OneWorkerSnoc(s: State, actions: seq<Action>, s1: State, a: Action)
    requires Run(s, actions, s1) && OneWorker(s, actions) && Enabled(s1, a) && ByOneWorker(s1, a)
    ensures OneWorker(s, actions + [a])
    decreases |actions|
  {
    if actions == [] {
      assert [a][1..] == [];
    } else {
      OneWorkerSnoc(Next(s, actions[0]).value, actions[1..], s1, a);
      assert (actions + [a])[1..] == actions[1..] + [a];
    }
  }

  /** The worker is with one fibre, or with one callback of a call that is parked, or with none. */
  ghost predicate Solo(s: State) {
    && |s.acting| <= 1
    && (forall x | x in s.acting :: x.cb in s.owner && Active(s, s.owner[x.cb]))
    && (s.acting != [] ==> forall k | Active(s, k) :: s.calls[k].phase.Waiting?)
    && (forall j, k | Active(s, j) && Active(s, k) && j != k :: s.calls[j].phase.Waiting? || s.calls[k].phase.Waiting?)
  }

  lemma SoloStep(s: State, a: Action)
    requires Inv(s) && Solo(s) && Enabled(s, a) && ByOneWorker(s, a) && Next(s, a).Some?
    ensures Solo(Next(s, a).value) && !Untimely(s, a)
  {
    var s' := Next(s, a).value;
    forall k | Active(s', k) && !s'.calls[k].phase.Waiting?
      ensures s'.acting == [] && forall j | Active(s', j) && j != k :: s'.calls[j].phase.Waiting?
    {
      SoloRunner(s, a, k);
    }
    forall x | x in s'.acting ensures x.cb in s'.owner && Active(s', s'.owner[x.cb]) {
      SoloCallback(s, a, x);
    }
  }

  /** Who is not parked after the step was not parked before it, or has just been taken up. */
  lemma SoloRunner(s: State, a: Action, k: nat)
    requires Solo(s) && Enabled(s, a) && ByOneWorker(s, a) && Next(s, a).Some?
    requires Active(Next(s, a).value, k) && !Next(s, a).value.calls[k].phase.Waiting?
    ensures var s' := Next(s, a).value; s'.acting == [] && forall j | Active(s', j) && j != k :: s'.calls[j].phase.Waiting?
  {
    var s' := Next(s, a).value;
    assert WorkerFree(s) || (Active(s, k) && !s.calls[k].phase.Waiting?);
    assert s.acting == [];
    forall j | Active(s', j) && j != k ensures s'.calls[j].phase.Waiting? {
      assert Active(s, j);
    }
  }

  /** A callback being run after the step has just been taken up, or was being run before; its call is parked. */
  lemma SoloCallback(s: State, a: Action, x: Half)
    requires Inv(s) && Solo(s) && Enabled(s, a) && ByOneWorker(s, a) && Next(s, a).Some? && x in Next(s, a).value.acting
    ensures var s' := Next(s, a).value; |s'.acting| == 1 && x.cb in s'.owner && Active(s', s'.owner[x.cb])
  {
    if a.RunCb? {
      assert CbOk(s, s.io.queue[a.i].task.cb);
      SoloTaken(s, a, x);
    } else {
      assert s.acting != [] && s.acting[0] in s.acting && HalfOk(s, s.acting[0]);
      SoloGoesOn(s, a, x);
    }
  }

  lemma SoloTaken(s: State, a: Action, x: Half)
    requires Enabled(s, a) && a.RunCb? && WorkerFree(s) && x in DoRunCb(s, a.i).acting
    requires s.owner[s.io.queue[a.i].task.cb] in s.calls
    ensures var s' := DoRunCb(s, a.i); |s'.acting| == 1 && x.cb in s'.owner && Active(s', s'.owner[x.cb])
  {
  }

  lemma SoloGoesOn(s: State, a: Action, x: Half)
    requires Enabled(s, a) && !a.RunCb? && ByOneWorker(s, a) && Next(s, a).Some? && x in Next(s, a).value.acting
    requires |s.acting| == 1 && s.acting[0].cb in s.owner && Active(s, s.owner[s.acting[0].cb])
    requires forall k | Active(s, k) :: s.calls[k].phase.Waiting?
    ensures var s' := Next(s, a).value; |s'.acting| == 1 && x.cb in s'.owner && Active(s', s'.owner[x.cb])
  {
  }

  /**
   With one worker no timeout is missed: a parked call with a finite timeout always has a live wake source. And
   no callback of a call that has returned is ever halfway.
   */
  lemma {:induction false} OneWorkerMissesNothing(s: State, actions: seq<Action>, s': State)
    requires Inv(s) && Calm(s) && Solo(s) && Run(s, actions, s') && OneWorker(s, actions)
    ensures Timely(s, actions) && AllCanWake(s')
    ensures Inv(s') && Calm(s') && Solo(s')
    ensures forall k | k in s'.calls && s'.calls[k].phase.Returned? :: !Pending(s'.acting, s'.owner, k)
    decreases |actions|
  {
    if actions != [] {
      SoloStep(s, actions[0]);
      CalmStep(s, actions[0]);
      Q.StepKeepsInv(s, actions[0]);
      OneWorkerMissesNothing(Next(s, actions[0]).value, actions[1..], s');
    } else {
      CalmCanWake(s');
    }
  }

  /** So it is in every run of one worker from the beginning. */
  lemma OneWorkerFromTheStart(s: State, actions: seq<Action>, s': State)
    requires Init(s) && Run(s, actions, s') && OneWorker(s, actions)
    ensures AllCanWake(s')
    ensures forall k | k in s'.calls && s'.calls[k].phase.Returned? :: !Pending(s'.acting, s'.owner, k)
  {
    InitIsSafe(s);
    OneWorkerMissesNothing(s, actions, s');
  }
}
