/**
 What each operation on timers does, in terms of which timers are in the set afterwards and with which deadlines.
 Sums and differences are those of 64-bit words.
 */
module TimerEffects {
  import opened Words
  import opened Wrappers
  import opened Tasks
  import opened TimerSpec
  import TR = TimerRuns

  /** The set is as before, but for what is at this address: there it is `t`, or nothing. */
  ghost predicate Only(ts: seq<Timer>, addr: nat, t: Option<Timer>, ts': seq<Timer>) {
    Ordered(ts') && forall u :: u in ts' <==> (u in ts && u.addr != addr) || t == Some(u)
  }

  /** No timer of the set, other than the one at this address, comes before `t`. */
  ghost predicate First(ts: seq<Timer>, t: Timer) {
    forall u | u in ts && u.addr != t.addr :: t.next < u.next || (t.next == u.next && t.addr < u.addr)
  }

  /** `t` is put in its address's place; the idle loop is notified if it is first and was not already. */
  ghost predicate Puts(tm: Timers, t: Timer, r: Added) {
    && Only(tm.armed, t.addr, Some(t), r.timers.armed) && r.timers.previous == tm.previous
    && (r.notify <==> First(tm.armed, t) && !tm.tickled)
    && (r.timers.tickled <==> tm.tickled || First(tm.armed, t))
  }

  lemma IndexIs(ts: seq<Timer>, t: Timer)
    requires Ordered(ts) && t in ts
    ensures Index(ts, t.addr).Some? && ts[Index(ts, t.addr).value] == t
  {
    var i :| 0 <= i < |ts| && ts[i] == t;
  }

  lemma EraseIsOnly(ts: seq<Timer>, t: Timer)
    requires Ordered(ts) && t in ts
    ensures Index(ts, t.addr).Some? && Only(ts, t.addr, None, Erase(ts, Index(ts, t.addr).value)) && Absent(Erase(ts, Index(ts, t.addr).value), t.addr)
  {
    IndexIs(ts, t);
    var i := Index(ts, t.addr).value;
    TR.EraseKeeps(ts, i);
    forall u ensures u in Erase(ts, i) <==> u in ts && u.addr != t.addr {
      if u in Erase(ts, i) {
        var j :| 0 <= j < |Erase(ts, i)| && Erase(ts, i)[j] == u;
      }
    }
  }

  /** The new timer is due its period from now. */
  lemma AddMeans(tm: Timers, addr: nat, ms: U64, cb: CbId, recurring: bool, now: U64)
    requires Ordered(tm.armed) && Absent(tm.armed, addr)
    ensures Puts(tm, Timer(addr, (now + ms) % TWO64, ms, recurring, cb), AddTimer(tm, NewTimer(addr, ms, cb, recurring, now)))
  {
    PutMeans(tm, NewTimer(addr, ms, cb, recurring, now));
  }

  lemma PutMeans(tm: Timers, t: Timer)
    requires Ordered(tm.armed) && Absent(tm.armed, t.addr)
    ensures Puts(tm, t, AddTimer(tm, t))
  {
    TR.AddKeeps(tm, t);
    InsertionPoint(tm.armed, t);
    if tm.armed != [] && LowerBound(tm.armed, t) > 0 {
      assert tm.armed[0] in tm.armed && Less(tm.armed[0], t);
    }
  }

  /** True exactly for a timer of the set, which is then gone. */
  lemma CancelMeans(tm: Timers, addr: nat)
    requires Ordered(tm.armed)
    ensures var (ok, tm') := Cancel(tm, addr);
            && (ok <==> exists t :: t in tm.armed && t.addr == addr)
            && Only(tm.armed, addr, None, tm'.armed) && tm' == tm.(armed := tm'.armed) && (!ok ==> tm' == tm)
  {
    var i := Index(tm.armed, addr);
    if i.Some? {
      assert tm.armed[i.value] in tm.armed;
      EraseIsOnly(tm.armed, tm.armed[i.value]);
    }
  }

  /** The set after taking a timer out and putting `t` in its place. */
  function Replaced(tm: Timers, t: Timer): Added {
    var i := Index(tm.armed, t.addr);
    if i.None? then Added(tm, false) else AddTimer(tm.(armed := Erase(tm.armed, i.value)), t)
  }

  lemma RetimeMeans(tm: Timers, t: Timer, t': Timer)
    requires Ordered(tm.armed) && t in tm.armed && t'.addr == t.addr
    ensures Puts(tm, t', Replaced(tm, t'))
  {
    IndexIs(tm.armed, t);
    EraseIsOnly(tm.armed, t);
    var tm1 := tm.(armed := Erase(tm.armed, Index(tm.armed, t.addr).value));
    PutMeans(tm1, t');
    assert First(tm1.armed, t') <==> First(tm.armed, t');
  }

  lemma RefreshReplaces(tm: Timers, t: Timer, now: U64)
    requires Index(tm.armed, t.addr).Some? && tm.armed[Index(tm.armed, t.addr).value] == t
    ensures Refresh(tm, t.addr, now) == (true, tm.(armed := Replaced(tm, t.(next := (now + t.ms) % TWO64)).timers.armed))
  {
  }

  lemma ResetReplaces(tm: Timers, t: Timer, ms: U64, fromNow: bool, now: U64)
    requires Index(tm.armed, t.addr).Some? && tm.armed[Index(tm.armed, t.addr).value] == t
    ensures Reset(tm, t.addr, ms, fromNow, now) ==
            (true, if ms == t.ms && !fromNow then Added(tm, false)
                   else Replaced(tm, Timer(t.addr, (if fromNow then now + ms else t.next - t.ms + ms) % TWO64, ms, t.recurring, t.cb)))
  {
    WrapTwice(t.next, t.ms, ms);
  }

  /** A timer of the set is due its whole period from now on; the others stay, and nobody is notified. */
  lemma RefreshMeans(tm: Timers, t: Timer, now: U64)
    requires Ordered(tm.armed) && t in tm.armed
    ensures var (ok, tm') := Refresh(tm, t.addr, now);
            ok && tm' == tm.(armed := tm'.armed) && Only(tm.armed, t.addr, Some(t.(next := (now + t.ms) % TWO64)), tm'.armed)
  {
    IndexIs(tm.armed, t);
    RefreshReplaces(tm, t, now);
    RetimeMeans(tm, t, t.(next := (now + t.ms) % TWO64));
  }

  /**
   A timer of the set gets the new period, from now on or from when its old one began; the others stay. Nothing
   happens if the period is the old one and not to begin now.
   */
  lemma ResetMeans(tm: Timers, t: Timer, ms: U64, fromNow: bool, now: U64)
    requires Ordered(tm.armed) && t in tm.armed
    ensures var (ok, r) := Reset(tm, t.addr, ms, fromNow, now);
            ok && if ms == t.ms && !fromNow then r == Added(tm, false)
                  else Puts(tm, Timer(t.addr, (if fromNow then now + ms else t.next - t.ms + ms) % TWO64, ms, t.recurring, t.cb), r)
  {
    IndexIs(tm.armed, t);
    ResetReplaces(tm, t, ms, fromNow, now);
    RetimeMeans(tm, t, Timer(t.addr, (if fromNow then now + ms else t.next - t.ms + ms) % TWO64, ms, t.recurring, t.cb));
  }

  lemma WrapTwice(a: U64, b: U64, c: U64)
    ensures Add64(Sub64(a, b), c) == (a - b + c) % TWO64
  {
  }

  /** For a timer that is not in the set both fail and do nothing. */
  lemma NoneToRetime(tm: Timers, addr: nat, ms: U64, fromNow: bool, now: U64)
    requires Absent(tm.armed, addr)
    ensures Refresh(tm, addr, now) == (false, tm) && Reset(tm, addr, ms, fromNow, now) == (false, Added(tm, false))
  {
  }

  /** The answer to the idle loop: how long until the earliest deadline, all ones if there is none. */
  lemma NextMeans(tm: Timers, now: U64)
    requires Ordered(tm.armed)
    ensures var r := NextTimer(tm, now);
            && (tm.armed == [] ==> r == 0xFFFF_FFFF_FFFF_FFFF)
            && (tm.armed != [] ==> exists t :: t in tm.armed && r == if t.next > now then t.next - now else 0)
            && (forall t | t in tm.armed :: r <= if t.next > now then t.next - now else 0)
  {
    TR.FrontIsLeast(tm.armed);
    if tm.armed != [] {
      assert tm.armed[0] in tm.armed;
    }
  }
}
