/**
 A worker's loop as the program has it: the scheduler's queue and counters, the states of the fibres, and the
 worker's own variables are changed in place, up to and after each switch of fibres. Every method is proved to
 do to them what the step of the same name in `Runtime` does, so that what holds in every run of the runtime
 holds of the loop; in particular none of the assertions on fibre states fails.
 */
module Workers {
  import opened Wrappers
  import opened Tasks
  import S = Schedulers
  import R = Runtime

  /** The fibres there are, with their states. */
  class Fibres {
    var states: map<FibreId, R.FibreState>

    /** Fibre::swapIn up to the switch. */
    method SwapIn(f: FibreId)
      requires f in states && states[f] != R.EXEC
      modifies this
      ensures states == old(states)[f := R.EXEC]
    {
      states := states[f := R.EXEC];
    }

    /** Fibre::reset. */
    method Reset(f: FibreId)
      requires f in states && (states[f] == R.TERM || states[f] == R.EXCEPT || states[f] == R.INIT)
      modifies this
      ensures states == old(states)[f := R.INIT]
    {
      states := states[f := R.INIT];
    }

    /** The way out of a fibre: YieldToReady, YieldToHold, or the end of its function. */
    method Leave(f: FibreId, st: R.FibreState)
      requires f in states && states[f] == R.EXEC
      modifies this
      ensures states == old(states)[f := st]
    {
      states := states[f := st];
    }

    method SetState(f: FibreId, st: R.FibreState)
      modifies this
      ensures states == old(states)[f := st]
    {
      states := states[f := st];
    }
  }

  /** What the loop relies on. */
  ghost predicate Fit(s: R.State, w: nat) {
    && w < |s.workers| && s.active == R.BusyCount(s.workers)
    && var x := s.workers[w];
       && (x.pc.Hand? && x.pc.entry.task.FibreTask? ==> x.pc.entry.task.fibre in s.fibres && s.fibres[x.pc.entry.task.fibre] != R.EXEC)
       && (x.pc.Hand? && x.cbFibre.Some? ==> x.cbFibre.value in s.fibres && s.fibres[x.cbFibre.value] == R.INIT)
       && (x.pc.Running? ==> x.pc.fibre in s.fibres && s.fibres[x.pc.fibre] == R.EXEC)
  }

  /** It holds in every reachable state. */
  lemma ReachableIsFit(s: R.State, w: nat)
    requires R.Inv(s) && w < |s.workers|
    ensures Fit(s, w)
  {
    assert R.WorkerOk(s, s.workers[w]);
  }

  class Worker {
    const tid: int
    const scheduler: S.Scheduler
    const fibres: Fibres
    var pc: R.Pc
    var cbFibre: Option<FibreId>
    var idleDone: bool

    constructor (tid: int, scheduler: S.Scheduler, fibres: Fibres)
      ensures this.tid == tid && this.scheduler == scheduler && this.fibres == fibres
      ensures View() == R.Worker(tid, R.Top, None, false)
    {
      this.tid, this.scheduler, this.fibres := tid, scheduler, fibres;
      pc, cbFibre, idleDone := R.Top, None, false;
    }

    function View(): R.Worker
      reads this
    {
      R.Worker(tid, pc, cbFibre, idleDone)
    }

    /** This worker is worker `w` of the state `s`, and what it shares with the others is as in `s`. */
    ghost predicate Shows(s: R.State, w: nat)
      reads this, scheduler, fibres
    {
      && w < |s.workers| && s.workers[w] == View() && s.io.queue == scheduler.fibres && s.fibres == fibres.states
      && s.active == scheduler.activeThreadCount && s.idle == scheduler.idleThreadCount
    }

    /** The top of the loop: take a task, or go to the idle fibre, or leave when that one has ended. */
    method Pop(ghost s: R.State, ghost w: nat) returns (tickleMe: bool)
      requires Shows(s, w) && pc.Top?
      modifies `pc, scheduler`fibres, scheduler`activeThreadCount, scheduler`idleThreadCount
      ensures R.DoPop(s, w).Ok? && Shows(R.DoPop(s, w).s, w)
    {
      var taken;
      taken, tickleMe := scheduler.Take(tid, fibres.states);
      if taken.Some? {
        pc := R.Hand(taken.value);
      } else if idleDone {
        pc := R.Exited;
      } else {
        scheduler.idleThreadCount := scheduler.idleThreadCount + 1;
        pc := R.IdleCheck;
      }
    }

    /** With a task in hand: a live fibre is resumed, a dead one dropped; a callback gets a fibre of its own. */
    method SwapIn(ghost s: R.State, ghost w: nat, newId: FibreId)
      requires Shows(s, w) && Fit(s, w) && pc.Hand? && newId !in s.fibres
      modifies `pc, `cbFibre, scheduler`activeThreadCount, fibres
      ensures R.DoSwapIn(s, w, newId).Ok? && Shows(R.DoSwapIn(s, w, newId).s, w)
      ensures old(pc).entry.task.FibreTask? ==>
                var f := old(pc).entry.task.fibre;
                f in old(fibres.states) && f in fibres.states &&
                var st := old(fibres.states)[f];
                && (pc == R.Running(f, false) && fibres.states[f] == R.EXEC <==> st == R.INIT || st == R.HOLD || st == R.READY)
                && (pc == R.Top && fibres.states == old(fibres.states) <==> st == R.TERM || st == R.EXCEPT)
    {
      match pc.entry.task {
        case FibreTask(f) =>
          if fibres.states[f] == R.TERM || fibres.states[f] == R.EXCEPT {
            scheduler.activeThreadCount := Less(s, w, scheduler.activeThreadCount);
            pc := R.Top;
          } else {
            fibres.SwapIn(f);
            pc := R.Running(f, false);
          }
        case CbTask(_) =>
          if cbFibre.Some? {
            fibres.Reset(cbFibre.value);
          } else {
            fibres.SetState(newId, R.INIT);
            cbFibre := Some(newId);
          }
          fibres.SwapIn(cbFibre.value);
          pc := R.Running(cbFibre.value, true);
      }
    }

    /** The fibre yielded to be resumed: it goes to the end of the queue. */
    method YieldReady(ghost s: R.State, ghost w: nat) returns (needTickle: bool)
      requires Shows(s, w) && Fit(s, w) && pc.Running?
      modifies `pc, `cbFibre, scheduler`activeThreadCount, scheduler`fibres, fibres
      ensures R.DoYieldReady(s, w).Ok? && Shows(R.DoYieldReady(s, w).s, w)
    {
      var f := pc.fibre;
      fibres.Leave(f, R.READY);
      scheduler.activeThreadCount := Less(s, w, scheduler.activeThreadCount);
      needTickle := scheduler.ScheduleNoLock(Some(FibreTask(f)), -1);
      if pc.viaCb {
        cbFibre := None;
      }
      pc := R.Top;
    }

    /** The fibre yielded until somebody wakes it. */
    method YieldHold(ghost s: R.State, ghost w: nat)
      requires Shows(s, w) && Fit(s, w) && pc.Running?
      modifies `pc, `cbFibre, scheduler`activeThreadCount, fibres
      ensures R.DoYieldHold(s, w).Ok? && Shows(R.DoYieldHold(s, w).s, w)
    {
      var f := pc.fibre;
      fibres.Leave(f, R.HOLD);
      scheduler.activeThreadCount := Less(s, w, scheduler.activeThreadCount);
      fibres.SetState(f, R.HOLD);
      if pc.viaCb {
        cbFibre := None;
      }
      pc := R.Top;
    }

    /** The fibre's function returned or threw; a callback's fibre is reset and kept. */
    method Finish(ghost s: R.State, ghost w: nat, ok: bool)
      requires Shows(s, w) && Fit(s, w) && pc.Running?
      modifies `pc, scheduler`activeThreadCount, fibres
      ensures R.DoFinish(s, w, ok).Ok? && Shows(R.DoFinish(s, w, ok).s, w)
    {
      var f := pc.fibre;
      fibres.Leave(f, if ok then R.TERM else R.EXCEPT);
      scheduler.activeThreadCount := Less(s, w, scheduler.activeThreadCount);
      if pc.viaCb {
        fibres.Reset(f);
      }
      pc := R.Top;
    }

    /** One less than the count, which this worker is part of. */
    method Less(ghost s: R.State, ghost w: nat, count: nat) returns (less: nat)
      requires Fit(s, w) && R.Busy(s.workers[w]) == 1 && s.active == count
      ensures less == count - 1
    {
      Counted(s.workers, w);
      less := count - 1;
    }
  }

  lemma {:induction false} Counted(ws: seq<R.Worker>, w: nat)
    requires w < |ws|
    ensures R.Busy(ws[w]) <= R.BusyCount(ws)
  {
    if w > 0 {
      Counted(ws[1..], w - 1);
    }
  }
}
