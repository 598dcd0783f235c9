/**
 The tasks held by timers: how often a callback sits in one-shot timers, and what an expiry pass does to that.
 */
module TimerTasks {
  import opened Tasks
  import T = TimerSpec

  function CbEntries(cbs: seq<CbId>): (es: seq<Entry>)
    ensures |es| == |cbs|
  {
    if cbs == [] then [] else [Entry(CbTask(cbs[0]), -1)] + CbEntries(cbs[1..])
  }

  function OneShot(t: T.Timer, task: Task): nat {
    if !t.recurring && CbTask(t.cb) == task then 1 else 0
  }

  ghost function TimerCount(ts: seq<T.Timer>, task: Task): nat {
    if ts == [] then 0 else OneShot(ts[0], task) + TimerCount(ts[1..], task)
  }

  /** The recurring timers among the expired ones: each firing hands a new copy of the callback over. */
  function FiredAgain(ts: seq<T.Timer>): multiset<Task> {
    if ts == [] then multiset{}
    else FiredAgain(ts[1..]) + (if ts[0].recurring then multiset{CbTask(ts[0].cb)} else multiset{})
  }

  /** The timers taken by the expiry pass. */
  function Gone(tm: T.Timers, now: T.U64, probe: nat): seq<T.Timer> {
    var rollover := T.Rollover(tm.previous, now);
    if tm.armed == [] || (!rollover && tm.armed[0].next > now) then []
    else tm.armed[..T.Cut(tm.armed, now, probe, rollover)]
  }

  lemma {:induction false} TimerConcat(a: seq<T.Timer>, b: seq<T.Timer>, t: Task)
    ensures TimerCount(a + b, t) == TimerCount(a, t) + TimerCount(b, t)
  {
    if a == [] {
      assert a + b == b;
    } else {
      TimerConcat(a[1..], b, t);
      assert (a + b)[1..] == a[1..] + b;
    }
  }

  lemma TimerSpliceCount(ts: seq<T.Timer>, k: nat, u: T.Timer, t: Task)
    requires k <= |ts|
    ensures TimerCount(ts[..k] + [u] + ts[k..], t) == TimerCount(ts, t) + OneShot(u, t)
  {
    TimerConcat(ts[..k], ts[k..], t);
    assert ts == ts[..k] + ts[k..];
    TimerConcat(ts[..k], [u] + ts[k..], t);
    assert ts[..k] + [u] + ts[k..] == ts[..k] + ([u] + ts[k..]);
  }

  lemma TimerInsertCount(ts: seq<T.Timer>, u: T.Timer, t: Task)
    requires T.Ordered(ts) && T.Absent(ts, u.addr)
    ensures TimerCount(T.Insert(ts, u), t) == TimerCount(ts, t) + OneShot(u, t)
  {
    T.InsertFresh(ts, u);
    TimerSpliceCount(ts, T.LowerBound(ts, u), u, t);
  }

  lemma TimerEraseCount(ts: seq<T.Timer>, i: nat, t: Task)
    requires i < |ts|
    ensures TimerCount(ts, t) == TimerCount(T.Erase(ts, i), t) + OneShot(ts[i], t)
  {
    TimerConcat(ts[..i], ts[i + 1..], t);
    TimerConcat(ts[..i], [ts[i]] + ts[i + 1..], t);
    assert ts == ts[..i] + ([ts[i]] + ts[i + 1..]);
  }

  /** Re-arming recurring timers does not change what one-shot timers hold. */
  lemma {:induction false} RearmCount(rest: seq<T.Timer>, expired: seq<T.Timer>, now: T.U64, t: Task)
    requires T.Ordered(rest) && T.DistinctAddrs(expired) && T.DisjointAddrs(rest, expired)
    ensures TimerCount(T.Rearm(rest, expired, now), t) == TimerCount(rest, t)
    decreases |expired|
  {
    if expired != [] {
      var u := expired[0];
      assert T.Absent(expired[1..], u.addr) && T.DistinctAddrs(expired[1..]) && T.DisjointAddrs(rest, expired[1..]);
      if u.recurring {
        var u' := u.(next := T.Add64(now, u.ms));
        assert T.Absent(rest, u'.addr);
        T.InsertFresh(rest, u');
        T.InsertKeepsDisjoint(rest, u', expired[1..]);
        TimerInsertCount(rest, u', t);
        RearmCount(T.Insert(rest, u'), expired[1..], now, t);
      } else {
        RearmCount(rest, expired[1..], now, t);
      }
    }
  }

  /** The callbacks of expired timers: those of the one-shots leave their timers, the recurring ones are copies. */
  lemma {:induction false} FiredCount(gone: seq<T.Timer>, t: Task)
    ensures QueueCount(CbEntries(T.Callbacks(gone)), t) == TimerCount(gone, t) + FiredAgain(gone)[t]
  {
    if gone != [] {
      FiredCount(gone[1..], t);
      var cbs := T.Callbacks(gone);
      assert cbs[1..] == T.Callbacks(gone[1..]) && cbs[0] == gone[0].cb;
      assert CbEntries(cbs)[1..] == CbEntries(cbs[1..]);
    }
  }

  /** What an expiry pass hands over and what stays armed add up to what was armed, plus the recurring copies. */
  lemma ExpireCount(tm: T.Timers, now: T.U64, probe: nat, t: Task)
    requires T.Ordered(tm.armed)
    ensures var (cbs, tm') := T.ListExpired(tm, now, probe);
            QueueCount(CbEntries(cbs), t) + TimerCount(tm'.armed, t) == TimerCount(tm.armed, t) + FiredAgain(Gone(tm, now, probe))[t]
  {
    var ts := tm.armed;
    var rollover := T.Rollover(tm.previous, now);
    if !(ts == [] || (!rollover && ts[0].next > now)) {
      var k := T.Cut(ts, now, probe, rollover);
      FiredCount(ts[..k], t);
      T.OrderedDrop(ts, k);
      T.DistinctSplit(ts, k);
      RearmCount(ts[k..], ts[..k], now, t);
      TimerConcat(ts[..k], ts[k..], t);
      assert ts == ts[..k] + ts[k..];
    } else {
      FiredCount([], t);
    }
  }

  lemma {:induction false} FiredAgainCallbacks(ts: seq<T.Timer>, f: FibreId)
    ensures FiredAgain(ts)[FibreTask(f)] == 0
  {
    if ts != [] {
      FiredAgainCallbacks(ts[1..], f);
    }
  }

  lemma {:induction false} NoFibreInTimers(ts: seq<T.Timer>, f: FibreId)
    ensures TimerCount(ts, FibreTask(f)) == 0
  {
    if ts != [] {
      NoFibreInTimers(ts[1..], f);
    }
  }

  lemma RetimeCount(ts: seq<T.Timer>, i: nat, u: T.Timer)
    requires T.Ordered(ts) && i < |ts| && u.addr == ts[i].addr && u.recurring == ts[i].recurring && u.cb == ts[i].cb
    ensures T.Ordered(T.Insert(T.Erase(ts, i), u))
    ensures forall t :: TimerCount(T.Insert(T.Erase(ts, i), u), t) == TimerCount(ts, t)
  {
    T.EraseOrdered(ts, i);
    T.InsertFresh(T.Erase(ts, i), u);
    forall t ensures TimerCount(T.Insert(T.Erase(ts, i), u), t) == TimerCount(ts, t) {
      TimerEraseCount(ts, i, t);
      TimerInsertCount(T.Erase(ts, i), u, t);
    }
  }
}
