/**
 What a timeout callback can still do when its call has returned. If it was not being run past its look at the
 flag, nothing ever; otherwise it may withdraw an event that by then is somebody else's.
 */
module TimedIoLeftovers {
  import opened Wrappers
  import opened Tasks
  import opened TimedIo
  import opened TimedIoTheorems
  import Q = TimedIoProofs
  import Io = IoSpec
  import P = IoProofs

  ghost predicate Over(s: State, k: nat) {
    k in s.calls && s.calls[k].phase.Returned?
  }

  /** The call has returned, and none of its callbacks is being run past its look at the flag. */
  ghost predicate Done(s: State, k: nat) {
    Over(s, k) && !Pending(s.acting, s.owner, k)
  }

  lemma OverStays(s: State, a: Action, k: nat)
    requires Enabled(s, a) && Next(s, a).Some? && Over(s, k)
    ensures k in Next(s, a).value.calls && Next(s, a).value.calls[k] == s.calls[k]
  {
  }

  lemma DoneStays(s: State, a: Action, k: nat)
    requires Inv(s) && Enabled(s, a) && Next(s, a).Some? && Done(s, k)
    ensures Done(Next(s, a).value, k)
  {
    OverStays(s, a, k);
    assert forall x | x in s.acting :: HalfOk(s, x);
    if a.SetFlag? || a.Withdraw? {
      NoneComesBack(s, a, k);
    } else {
      NoneGetsHalfway(s, a, k);
    }
  }

  lemma NoneComesBack(s: State, a: Action, k: nat)
    requires Enabled(s, a) && Next(s, a).Some? && (a.SetFlag? || a.Withdraw?) && !Pending(s.acting, s.owner, k)
    ensures var s' := Next(s, a).value; !Pending(s'.acting, s'.owner, k)
  {
    if a.SetFlag? { Q.SetPending(s, a.h, k); } else { Q.WithoutMembers(s.acting, a.h); }
  }

  lemma NoneGetsHalfway(s: State, a: Action, k: nat)
    requires Enabled(s, a) && Next(s, a).Some? && !a.SetFlag? && !a.Withdraw? && Done(s, k)
    requires forall x | x in s.acting :: x.cb in s.owner
    ensures var s' := Next(s, a).value; !Pending(s'.acting, s'.owner, k)
  {
  }

  /**
   What a call returned is final. Once it is done no timer of it is armed, none of its callbacks gets past its
   look at the flag, and those still queued do nothing but leave the queue.
   */
  lemma {:induction false} LeftoversAreHarmless(s: State, actions: seq<Action>, s': State, k: nat)
    requires Inv(s) && Run(s, actions, s') && Over(s, k)
    ensures Inv(s') && k in s'.calls && s'.calls[k] == s.calls[k]
    ensures forall t | t in s'.tm.armed && t.cb in s'.owner :: s'.owner[t.cb] != k
    ensures Done(s, k) ==> Done(s', k)
    ensures forall i: nat | Enabled(s', RunCb(i)) && s'.owner[s'.io.queue[i].task.cb] == k ::
              Next(s', RunCb(i)) == Some(s'.(io := s'.io.(queue := Without(s'.io.queue, i))))
    decreases |actions|
  {
    if actions != [] {
      Q.StepKeepsInv(s, actions[0]);
      OverStays(s, actions[0], k);
      if Done(s, k) { DoneStays(s, actions[0], k); }
      LeftoversAreHarmless(Next(s, actions[0]).value, actions[1..], s', k);
    } else {
      forall t | t in s.tm.armed && t.cb in s.owner ensures s.owner[t.cb] != k {
        assert TimerOk(s, t);
      }
    }
  }

  // ---- The callback that was halfway ----

  /** A step of one of the call's callbacks. */
  ghost predicate OwnStep(s: State, a: Action, k: nat)
    requires Enabled(s, a)
  {
    match a
    case RunCb(i) => s.owner[s.io.queue[i].task.cb] == k
    case SetFlag(h) => s.acting[h].cb in s.owner && s.owner[s.acting[h].cb] == k
    case Withdraw(h, _) => s.acting[h].cb in s.owner && s.owner[s.acting[h].cb] == k
    case _ => false
  }

  /** More has changed than the queue and how far callbacks have got. */
  ghost predicate Changed(s: State, s': State) {
    s'.(io := s'.io.(queue := s.io.queue), acting := s.acting) != s
  }

  /**
   A single step: the callback of a returned call changes more exactly when it withdraws an event for which
   somebody is registered now; it wakes that one.
   */
  lemma LeftoverStep(s: State, a: Action, k: nat)
    requires Inv(s) && Enabled(s, a) && Over(s, k) && OwnStep(s, a, k)
    ensures Next(s, a).Some?
    ensures Changed(s, Next(s, a).value) <==> a.Withdraw? && !a.fault && !Io.SlotFree(s.io, s.calls[k].fd, s.calls[k].event)
    ensures Changed(s, Next(s, a).value) ==>
              Next(s, a).value == s.(io := Io.Wake(s.io, s.calls[k].fd, Io.Only(s.calls[k].event)), acting := Without(s.acting, a.h))
  {
    Q.StepKeepsInv(s, a);
    if a.Withdraw? {
      P.CancelEventMeaning(s.io, s.calls[k].fd, s.calls[k].event, a.fault);
    }
  }

  /** The run `actions` leads to a state in which a step of a callback of `k` changes more than that. */
  ghost predicate Hurts(s: State, actions: seq<Action>, s1: State, a: Action, k: nat) {
    Run(s, actions, s1) && Enabled(s1, a) && OwnStep(s1, a, k) && Next(s1, a).Some? && Changed(s1, Next(s1, a).value)
  }

  /** There is always another callback. */
  lemma FreshCb(s: set<CbId>) returns (c: CbId)
    ensures c !in s && forall x | x in s :: x < c
    decreases s
  {
    if s == {} {
      c := 0;
    } else {
      var y :| y in s;
      var c' := FreshCb(s - {y});
      c := if y < c' then c' else y + 1;
      forall x | x in s ensures x < c {
        assert x == y || x in s - {y};
      }
    }
  }

  /** With its flag set the callback only needs somebody registered for the same event. */
  lemma FlaggedCanHurt(s: State, k: nat, h: nat) returns (actions: seq<Action>, s1: State)
    requires Inv(s) && Over(s, k) && Enabled(s, Withdraw(h, false)) && OwnStep(s, Withdraw(h, false), k)
    ensures Hurts(s, actions, s1, Withdraw(h, false), k)
  {
    var fd, e := s.calls[k].fd, s.calls[k].event;
    if Io.SlotFree(s.io, fd, e) {
      var x := FreshCb(s.owner.Keys);
      var other := OtherIo(AddFd(fd, e, CbTask(x), false));
      assert !Ours(s, CbTask(x));
      Q.StepKeepsInv(s, other);
      Q.AddEventPlaces(s.io, fd, e, CbTask(x));
      s1 := Next(s, other).value;
      actions := [other];
      assert Run(s, [], s);
      RunSnoc(s, [], s, other);
      assert [] + [other] == actions;
    } else {
      actions, s1 := [], s;
    }
    LeftoverStep(s1, Withdraw(h, false), k);
  }

  lemma HalfwayCanHurt(s: State, k: nat) returns (actions: seq<Action>, s1: State, a: Action)
    requires Inv(s) && Over(s, k) && Pending(s.acting, s.owner, k)
    ensures Hurts(s, actions, s1, a, k)
  {
    var x :| x in s.acting && x.cb in s.owner && s.owner[x.cb] == k;
    var h :| 0 <= h < |s.acting| && s.acting[h] == x;
    a := Withdraw(h, false);
    if x.flagged {
      actions, s1 := FlaggedCanHurt(s, k, h);
    } else {
      Q.StepKeepsInv(s, SetFlag(h));
      var s2 := Next(s, SetFlag(h)).value;
      var more;
      more, s1 := FlaggedCanHurt(s2, k, h);
      actions := [SetFlag(h)] + more;
      assert actions[1..] == more;
    }
  }

  /**
   A returned call's callbacks change more than the queue in some later run if and only if one of them is halfway:
   being run, past its look at the flag. None gets there after the return, so it was halfway then.
   */
  lemma LeftoversIff(s: State, k: nat)
    requires Inv(s) && Over(s, k)
    ensures (exists actions, s1, a :: Hurts(s, actions, s1, a, k)) <==> Pending(s.acting, s.owner, k)
  {
    if Pending(s.acting, s.owner, k) {
      var actions, s1, a := HalfwayCanHurt(s, k);
    } else {
      forall actions, s1, a ensures !Hurts(s, actions, s1, a, k) {
        if Hurts(s, actions, s1, a, k) {
          NeverHurts(s, actions, s1, a, k);
        }
      }
    }
  }

  lemma NeverHurts(s: State, actions: seq<Action>, s1: State, a: Action, k: nat)
    requires Inv(s) && Done(s, k) && Run(s, actions, s1) && Enabled(s1, a) && OwnStep(s1, a, k)
    ensures Next(s1, a).Some? && !Changed(s1, Next(s1, a).value)
  {
    LeftoversAreHarmless(s, actions, s1, k);
    LeftoverStep(s1, a, k);
    if a.SetFlag? || a.Withdraw? {
      assert s1.acting[a.h] in s1.acting;
    }
  }
}
