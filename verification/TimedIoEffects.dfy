/**
 What the steps of a timed call and of its callbacks do, in every state a run can reach; and how a call ends.
 */
module TimedIoEffects {
  import opened Words
  import opened Wrappers
  import opened Tasks
  import opened TimerTasks
  import opened TimedIo
  import opened TimedIoTheorems
  import Q = TimedIoProofs
  import L = TimedIoLeftovers
  import Io = IoSpec
  import E = IoEffects
  import P = IoProofs
  import T = TimerSpec
  import TE = TimerEffects

  /** The call's timer is out of the set, and no other. */
  ghost predicate Disarmed(s: State, k: nat, tm': T.Timers)
    requires k in s.calls
  {
    match s.calls[k].timer
    case None => tm' == s.tm
    case Some(addr) => TE.Only(s.tm.armed, addr, None, tm'.armed)
  }

  lemma CancelOwnMeans(s: State, k: nat)
    requires k in s.calls && T.Ordered(s.tm.armed)
    ensures Disarmed(s, k, CancelOwn(s.tm, s.calls[k].timer))
  {
    if s.calls[k].timer.Some? {
      TE.CancelMeans(s.tm, s.calls[k].timer.value);
    }
  }

  /** The call starts to wait: it has a new one-shot timer due its timeout from now, unless the timeout is infinite. */
  lemma ArmMeans(s: State, k: nat, addr: nat, cb: CbId)
    requires Inv(s) && Enabled(s, Arm(k, addr, cb))
    ensures Next(s, Arm(k, addr, cb)).Some?
    ensures var c, s' := s.calls[k], Next(s, Arm(k, addr, cb)).value;
            && k in s'.calls && s'.calls[k].phase == Armed && s'.calls[k].cancelled == c.cancelled
            && s'.calls[k].firstWait == (if c.firstWait.None? then Some(s.now) else c.firstWait)
            && s'.io == s.io && s'.acting == s.acting
            && (c.to.None? ==> s'.tm == s.tm && s'.calls[k].timer.None?)
            && (c.to.Some? ==>
                  && s'.calls[k].timer == Some(addr) && s'.owner == s.owner[cb := k] && s.now + c.to.value < TWO64
                  && TE.Only(s.tm.armed, addr, Some(T.Timer(addr, s.now + c.to.value, c.to.value, false, cb)), s'.tm.armed))
  {
    var c := s.calls[k];
    if c.to.Some? {
      T.NoWrap(s.now, c.to.value);
      TE.PutMeans(s.tm, T.NewTimer(addr, c.to.value, cb, false, s.now));
    }
  }

  /** It parks at its event, or, when addEvent fails, returns with its timer cancelled. */
  lemma RegisterMeans(s: State, k: nat, fault: bool)
    requires Inv(s) && Enabled(s, Register(k, fault))
    ensures Next(s, Register(k, fault)).Some?
    ensures var c, s' := s.calls[k], Next(s, Register(k, fault)).value;
            && k in s'.calls && s'.calls[k].cancelled == c.cancelled && s'.owner == s.owner && s'.acting == s.acting
            && (!fault ==> s'.calls[k].phase == Waiting && E.Joined(s.io, c.fd, c.event, FibreTask(c.fibre), s'.io) && s'.tm == s.tm)
            && (fault ==> s'.calls[k].phase == Returned(false) && s'.io == s.io.(fds := s'.io.fds) && Disarmed(s, k, s'.tm))
  {
    var c := s.calls[k];
    Q.RegisterKeeps(s, k, fault);
    E.AddEventMeans(s.io, c.fd, c.event, FibreTask(c.fibre), fault);
    CancelOwnMeans(s, k);
  }

  /**
   Woken, the call cancels its timer; then it goes on to try again if and only if the flag is clear, and returns
   with ETIMEDOUT if and only if it is set.
   */
  lemma ResumeMeans(s: State, k: nat, i: nat)
    requires Inv(s) && Enabled(s, Resume(k, i))
    ensures Next(s, Resume(k, i)).Some?
    ensures var c, s' := s.calls[k], Next(s, Resume(k, i)).value;
            && k in s'.calls
            && (s'.calls[k].phase == Running <==> !c.cancelled)
            && (s'.calls[k].phase == Returned(true) <==> c.cancelled)
            && s'.calls[k].firstWait == c.firstWait && s'.calls[k].to == c.to && s'.calls[k].cancelled == c.cancelled
            && s'.io == s.io.(queue := Without(s.io.queue, i))
            && Disarmed(s, k, s'.tm) && (forall t | t in s'.tm.armed && t.cb in s'.owner :: s'.owner[t.cb] != k)
  {
    CancelOwnMeans(s, k);
    Q.CancelOwnMoves(s, k);
  }

  /** Taken from the queue, a callback goes on if and only if its call has not returned and the flag is clear. */
  lemma RunCbMeans(s: State, i: nat)
    requires Inv(s) && Enabled(s, RunCb(i))
    ensures Next(s, RunCb(i)).Some?
    ensures var s', cb := Next(s, RunCb(i)).value, s.io.queue[i].task.cb;
            && s.owner[cb] in s.calls && s' == s.(io := s.io.(queue := Without(s.io.queue, i)), acting := s'.acting)
            && (s'.acting == s.acting + [Half(cb, false)] <==> Active(s, s.owner[cb]) && !s.calls[s.owner[cb]].cancelled)
            && (s'.acting == s.acting <==> !Active(s, s.owner[cb]) || s.calls[s.owner[cb]].cancelled)
  {
    assert CbOk(s, s.io.queue[i].task.cb);
    assert |s.acting + [Half(s.io.queue[i].task.cb, false)]| == |s.acting| + 1;
  }

  /** It sets the flag of its call, if that is still in progress, and of no other. */
  lemma SetFlagMeans(s: State, h: nat)
    requires Inv(s) && Enabled(s, SetFlag(h))
    ensures Next(s, SetFlag(h)).Some? && s.acting[h].cb in s.owner && s.owner[s.acting[h].cb] in s.calls
    ensures var s', k := Next(s, SetFlag(h)).value, s.owner[s.acting[h].cb];
            && s'.io == s.io && s'.tm == s.tm && s'.owner == s.owner && s'.acting == s.acting[h := Half(s.acting[h].cb, true)]
            && (forall j | j in s.calls && j != k :: j in s'.calls && s'.calls[j] == s.calls[j])
            && k in s'.calls && s'.calls[k] == if Active(s, k) then s.calls[k].(cancelled := true) else s.calls[k]
  {
    assert s.acting[h] in s.acting && HalfOk(s, s.acting[h]);
  }

  /** It withdraws the registration for its call's fd and event, whosever it is, and is done. */
  lemma WithdrawMeans(s: State, h: nat, fault: bool)
    requires Inv(s) && Enabled(s, Withdraw(h, fault))
    ensures Next(s, Withdraw(h, fault)).Some? && s.acting[h].cb in s.owner && s.owner[s.acting[h].cb] in s.calls
    ensures var s', c := Next(s, Withdraw(h, fault)).value, s.calls[s.owner[s.acting[h].cb]];
            && s'.acting == Without(s.acting, h) && s'.tm == s.tm && s'.owner == s.owner
            && if E.Has(s.io, c.fd, c.event) && !fault
               then Io.ContextOk(s.io.fds[c.fd]) && E.Woke(s.io, c.fd, c.event == Io.READ, c.event == Io.WRITE, s'.io)
               else s'.io == s.io
  {
    assert s.acting[h] in s.acting && HalfOk(s, s.acting[h]);
    var c := s.calls[s.owner[s.acting[h].cb]];
    E.CancelEventMeans(s.io, c.fd, c.event, fault);
  }

  /** An expiry pass puts the callbacks of all due timers at the end of the queue. */
  lemma ExpireMeans(s: State, probe: nat)
    requires Inv(s)
    ensures Next(s, Expire(probe)).Some?
    ensures var s' := Next(s, Expire(probe)).value;
            && s'.io == s.io.(queue := s.io.queue + CbEntries(T.Callbacks(s.tm.armed[..T.Taken(s.tm, s.now)])))
            && s'.calls == s.calls && s'.acting == s.acting && s'.owner == s.owner
  {
    T.ExpiryMeaning(s.tm, s.now, probe);
  }

  // ---- How a call ends ----

  /** The call returns without ETIMEDOUT: what it was to do was done or failed, or it could not register. */
  ghost predicate GivesUp(s: State, a: Action, k: nat) {
    || (a == Complete(k) && k in s.calls && s.calls[k].phase == Running)
    || (a == Register(k, true) && k in s.calls && s.calls[k].phase == Armed)
  }

  /** A step that belongs to call `k` itself. */
  predicate Own(a: Action, k: nat) {
    match a
    case Arm(j, _, _) => j == k
    case Register(j, _) => j == k
    case Resume(j, _) => j == k
    case Complete(j) => j == k
    case _ => false
  }

  /** Every other step leaves the call as it is, but for the flag and the note on it. */
  ghost predicate LeavesCall(s: State, s': State, k: nat)
    requires k in s.calls
  {
    k in s'.calls && s'.calls[k].phase == s.calls[k].phase && s'.calls[k].firstWait == s.calls[k].firstWait
  }

  lemma OtherStep(s: State, a: Action, k: nat)
    requires Enabled(s, a) && Next(s, a).Some? && k in s.calls && !Own(a, k)
    ensures LeavesCall(s, Next(s, a).value, k)
  {
    match a
    case Arm(j, addr, cb) => ArmLeaves(s, j, addr, cb, k);
    case Register(j, fault) => RegisterLeaves(s, j, fault, k);
    case Resume(j, i) => ResumeLeaves(s, j, i, k);
    case RunCb(_) => CallbackLeaves(s, a, k);
    case SetFlag(_) => CallbackLeaves(s, a, k);
    case Withdraw(_, _) => CallbackLeaves(s, a, k);
    case _ => RestLeaves(s, a, k);
  }

  lemma ArmLeaves(s: State, j: nat, addr: nat, cb: CbId, k: nat)
    requires j in s.calls && k in s.calls && j != k
    ensures LeavesCall(s, DoArm(s, j, addr, cb), k)
  {
  }

  lemma RegisterLeaves(s: State, j: nat, fault: bool, k: nat)
    requires j in s.calls && k in s.calls && j != k && DoRegister(s, j, fault).Some?
    ensures LeavesCall(s, DoRegister(s, j, fault).value, k)
  {
  }

  lemma ResumeLeaves(s: State, j: nat, i: nat, k: nat)
    requires j in s.calls && k in s.calls && j != k && i < |s.io.queue|
    ensures LeavesCall(s, DoResume(s, j, i), k)
  {
  }

  lemma CallbackLeaves(s: State, a: Action, k: nat)
    requires Enabled(s, a) && Next(s, a).Some? && k in s.calls && (a.RunCb? || a.SetFlag? || a.Withdraw?)
    ensures LeavesCall(s, Next(s, a).value, k)
  {
  }

  lemma RestLeaves(s: State, a: Action, k: nat)
    requires Enabled(s, a) && Next(s, a).Some? && k in s.calls && !Own(a, k)
    requires !a.Arm? && !a.Register? && !a.Resume? && !a.RunCb? && !a.SetFlag? && !a.Withdraw?
    ensures LeavesCall(s, Next(s, a).value, k)
  {
  }

  lemma ReturnStep(s: State, a: Action, k: nat)
    requires Inv(s) && Enabled(s, a) && Next(s, a).Some? && Active(s, k)
    ensures k in Next(s, a).value.calls
    ensures Next(s, a).value.calls[k].phase == Returned(false) <==> GivesUp(s, a, k)
    ensures Next(s, a).value.calls[k].phase == Returned(true) ==> a.Resume? && a.k == k && s.calls[k].cancelled
  {
    if !Own(a, k) {
      OtherStep(s, a, k);
    } else {
      match a
      case Arm(_, addr, cb) => ArmMeans(s, k, addr, cb);
      case Register(_, fault) => RegisterMeans(s, k, fault);
      case Resume(_, i) => ResumeMeans(s, k, i);
      case Complete(_) =>
    }
  }

  /** In every run a call that has returned without ETIMEDOUT did so in one of these two ways. */
  lemma {:induction false} ReturnedHow(s: State, actions: seq<Action>, s': State, k: nat) returns (j: nat, s1: State)
    requires Inv(s) && Run(s, actions, s') && Active(s, k) && k in s'.calls && s'.calls[k].phase == Returned(false)
    ensures j < |actions| && Run(s, actions[..j], s1) && GivesUp(s1, actions[j], k)
    decreases |actions|
  {
    var a := actions[0];
    ReturnStep(s, a, k);
    Q.StepKeepsInv(s, a);
    var s2 := Next(s, a).value;
    if s2.calls[k].phase.Returned? {
      if s2.calls[k].phase == Returned(true) {
        L.LeftoversAreHarmless(s2, actions[1..], s', k);
      }
      j, s1 := 0, s;
      assert Run(s, actions[..0], s);
    } else {
      var i;
      i, s1 := ReturnedHow(s2, actions[1..], s', k);
      j := i + 1;
      assert actions[..j][1..] == actions[1..][..i];
    }
  }

  /** The instant of the first wait is noted when the call first adds its timer, and never changed. */
  lemma FirstWaitStep(s: State, a: Action, k: nat)
    requires Inv(s) && Enabled(s, a) && Next(s, a).Some? && k in s.calls
    ensures k in Next(s, a).value.calls
    ensures Next(s, a).value.calls[k].firstWait ==
            if a.Arm? && a.k == k && s.calls[k].firstWait.None? then Some(s.now) else s.calls[k].firstWait
  {
    if !Own(a, k) {
      OtherStep(s, a, k);
    } else {
      match a
      case Arm(_, addr, cb) => ArmMeans(s, k, addr, cb);
      case Register(_, fault) => RegisterFirstWait(s, k, fault);
      case Resume(_, i) => ResumeMeans(s, k, i);
      case Complete(_) =>
    }
  }

  lemma RegisterFirstWait(s: State, k: nat, fault: bool)
    requires k in s.calls && DoRegister(s, k, fault).Some?
    ensures var s' := DoRegister(s, k, fault).value; k in s'.calls && s'.calls[k].firstWait == s.calls[k].firstWait
  {
  }
}
