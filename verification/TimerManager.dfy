/**
 The timer manager as the program has it: timer objects whose deadline changes in place, and a set ordered by
 that deadline. Every method is proved to do what the operation of the same name in `TimerSpec` does to the
 abstract set `View()`; `Valid()` is why looking a timer up by its current deadline always succeeds.
 */
module TimerManagers {
  import opened Words
  import opened Wrappers
  import opened Tasks
  import T = TimerSpec

  class TimerObject {
    const addr: nat
    var recurring: bool
    var ms: T.U64
    var next: T.U64
    var cb: Option<CbId>

    constructor (addr: nat, ms: T.U64, cb: CbId, recurring: bool, now: T.U64)
      ensures this.addr == addr && this.cb == Some(cb)
      ensures View() == T.NewTimer(addr, ms, cb, recurring, now)
    {
      this.addr := addr;
      this.recurring := recurring;
      this.ms := ms;
      this.next := T.Add64(now, ms);
      this.cb := Some(cb);
    }

    function View(): T.Timer
      reads this
    {
      T.Timer(addr, next, ms, recurring, if cb.Some? then cb.value else 0)
    }
  }

  function Views(ts: seq<TimerObject>): (vs: seq<T.Timer>)
    reads set t | t in ts
    ensures |vs| == |ts|
    ensures forall i | 0 <= i < |ts| :: vs[i] == ts[i].View()
  {
    seq(|ts|, i requires 0 <= i < |ts| reads set t | t in ts => ts[i].View())
  }

  /** Splicing the objects splices their views. */
  lemma ViewsSplice(ts: seq<TimerObject>, at: nat, t: TimerObject)
    requires at <= |ts|
    ensures Views(ts[..at] + [t] + ts[at..]) == Views(ts)[..at] + [t.View()] + Views(ts)[at..]
  {
  }

  lemma ViewsDrop(ts: seq<TimerObject>, k: nat)
    requires k <= |ts|
    ensures Views(ts[k..]) == Views(ts)[k..] && Views(ts[..k]) == Views(ts)[..k]
  {
  }

  lemma ViewsErase(ts: seq<TimerObject>, i: nat)
    requires i < |ts|
    ensures Views(ts[..i] + ts[i + 1..]) == T.Erase(Views(ts), i)
  {
  }

  lemma TakeNext<T>(s: seq<T>, i: nat)
    requires i < |s|
    ensures s[..i + 1] == s[..i] + [s[i]]
  {
  }

  lemma MembersAfterErase(ts: seq<TimerObject>, i: nat)
    requires i < |ts| && forall j | 0 <= j < |ts| && j != i :: ts[j] != ts[i]
    ensures forall x :: x in ts[..i] + ts[i + 1..] <==> x in ts && x != ts[i]
  {
  }

  lemma MembersAfterSplice(ts: seq<TimerObject>, at: nat, t: TimerObject)
    requires at <= |ts|
    ensures forall x :: x in ts[..at] + [t] + ts[at..] <==> x in ts || x == t
  {
    assert ts == ts[..at] + ts[at..];
  }

  class TimerManager {
    var timers: seq<TimerObject>
    var tickled: bool
    var previousTime: T.U64
    // Every timer ever handed to a client.
    ghost var published: set<TimerObject>

    ghost function View(): T.Timers
      reads this, set t | t in timers
    {
      T.Timers(Views(timers), tickled, previousTime)
    }

    /** A published timer is in the set exactly while it has a callback, and no two share an address. */
    ghost predicate Members()
      reads this, published
    {
      && (forall t | t in timers :: t in published)
      && (forall t | t in published :: t in timers <==> t.cb.Some?)
      && (forall t, u | t in published && u in published && t.addr == u.addr :: t == u)
    }

    ghost predicate Valid()
      reads this, published, set t | t in timers
    {
      T.Ordered(Views(timers)) && Members()
    }

    constructor (now: T.U64)
      ensures Valid() && View() == T.Timers([], false, now) && published == {}
    {
      timers, tickled, previousTime := [], false, now;
      published := {};
    }

    /** A timer of the set is found at the one position where it is; one that is not there has no position. */
    lemma Position(t: TimerObject) returns (i: Option<nat>)
      requires Valid() && t in published
      ensures T.Index(Views(timers), t.addr) == i
      ensures i.None? <==> t.cb.None?
      ensures i.Some? ==>
                && i.value < |timers| && timers[i.value] == t
                && T.Find(Views(timers), t.View()) == i
                && (forall j | 0 <= j < |timers| && j != i.value :: timers[j] != t)
    {
      i := T.Index(Views(timers), t.addr);
      if i.Some? {
        assert timers[i.value].addr == t.addr;
        T.FindSelf(Views(timers), i.value);
        assert forall j | 0 <= j < |timers| && j != i.value :: Views(timers)[j].addr != t.addr;
      } else {
        assert forall j | 0 <= j < |timers| :: Views(timers)[j].addr != t.addr;
      }
    }

    method EraseAt(i: nat)
      requires i < |timers|
      modifies this`timers
      ensures timers == old(timers[..i] + timers[i + 1..])
      ensures Views(timers) == T.Erase(old(Views(timers)), i)
    {
      ViewsErase(timers, i);
      timers := timers[..i] + timers[i + 1..];
    }

    /** std::set::insert of a timer whose address is not in the set; the position says where it went. */
    method SetInsert(t: TimerObject) returns (at: nat)
      requires T.Ordered(Views(timers)) && T.Absent(Views(timers), t.addr)
      modifies this`timers
      ensures at == T.LowerBound(old(Views(timers)), t.View())
      ensures Views(timers) == T.Insert(old(Views(timers)), t.View())
      ensures T.Ordered(Views(timers)) && forall x :: x in timers <==> x in old(timers) || x == t
    {
      T.InsertFresh(Views(timers), t.View());
      at := T.LowerBound(Views(timers), t.View());
      ViewsSplice(timers, at, t);
      MembersAfterSplice(timers, at, t);
      timers := timers[..at] + [t] + timers[at..];
    }

    /** The search of `cancel` comes after the callback was dropped, which the ordering does not look at. */
    method Drop(t: TimerObject, ghost i: nat)
      requires Valid() && t in published && i < |timers| && timers[i] == t
      requires forall j | 0 <= j < |timers| && j != i :: timers[j] != t
      modifies this`timers, t`cb
      ensures Views(timers) == T.Erase(old(Views(timers)), i) && T.Ordered(Views(timers))
      ensures t.cb.None? && forall x :: x in timers <==> x in old(timers) && x != t
    {
      ghost var before := Views(timers);
      T.EraseOrdered(before, i);
      MembersAfterErase(timers, i);
      t.cb := None;
      FindIgnoresCallback(before, Views(timers), i);
      var it := T.Find(Views(timers), t.View());
      EraseAt(it.value);
      assert Views(timers) == T.Erase(before, i);
    }

    method Cancel(t: TimerObject) returns (ok: bool)
      requires Valid() && t in published
      modifies this`timers, t`cb
      ensures Valid() && published == old(published)
      ensures ok == old(t.cb.Some?) && t.cb.None?
      ensures (ok, View()) == T.Cancel(old(View()), t.addr)
    {
      ghost var i := Position(t);
      if t.cb.Some? {
        Drop(t, i.value);
        return true;
      }
      return false;
    }

    /** Take `t` out, give it a new deadline and period, leave it out. */
    method Unlink(t: TimerObject, ghost i: nat, ms: T.U64, next: T.U64)
      requires Valid() && t in published && i < |timers| && timers[i] == t
      requires T.Find(Views(timers), t.View()) == Some(i) && forall j | 0 <= j < |timers| && j != i :: timers[j] != t
      modifies this`timers, t`ms, t`next
      ensures Views(timers) == T.Erase(old(Views(timers)), i) && T.Ordered(Views(timers))
      ensures t.View() == old(t.View()).(ms := ms, next := next)
      ensures T.Absent(Views(timers), t.addr) && forall x :: x in timers <==> x in old(timers) && x != t
    {
      T.EraseOrdered(Views(timers), i);
      MembersAfterErase(timers, i);
      var it := T.Find(Views(timers), t.View());
      EraseAt(it.value);
      ghost var erased := Views(timers);
      t.ms, t.next := ms, next;
      assert Views(timers) == erased;
    }

    method Refresh(t: TimerObject, now: T.U64) returns (ok: bool)
      requires Valid() && t in published
      modifies this`timers, t`ms, t`next
      ensures Valid() && published == old(published)
      ensures ok == old(t.cb.Some?)
      ensures (ok, View()) == T.Refresh(old(View()), t.addr, now)
      ensures t.ms == old(t.ms) && t.next == if ok then T.Add64(now, t.ms) else old(t.next)
      ensures forall x :: x in timers <==> x in old(timers)
    {
      ghost var i := Position(t);
      if t.cb.None? {
        return false;
      }
      if T.Find(Views(timers), t.View()).None? {
        return false;
      }
      Retime(t, i.value, t.ms, T.Add64(now, t.ms));
      return true;
    }

    /** Take `t` out, give it a new deadline and period, and put it back. */
    method Retime(t: TimerObject, ghost i: nat, ms: T.U64, next: T.U64)
      requires Valid() && t in published && i < |timers| && timers[i] == t
      requires T.Find(Views(timers), t.View()) == Some(i) && forall j | 0 <= j < |timers| && j != i :: timers[j] != t
      modifies this`timers, t`ms, t`next
      ensures T.Ordered(Views(timers)) && forall x :: x in timers <==> x in old(timers)
      ensures Views(timers) == T.Insert(T.Erase(old(Views(timers)), i), old(t.View()).(ms := ms, next := next))
      ensures t.ms == ms && t.next == next
    {
      Unlink(t, i, ms, next);
      var at := SetInsert(t);
    }

    method Reset(t: TimerObject, ms: T.U64, fromNow: bool, now: T.U64) returns (ok: bool, notify: bool)
      requires Valid() && t in published
      modifies this`timers, this`tickled, t`ms, t`next
      ensures Valid() && published == old(published)
      ensures ok == (old(t.cb.Some?) || (ms == old(t.ms) && !fromNow))
      ensures if old(t.cb.Some?) then (ok, T.Added(View(), notify)) == T.Reset(old(View()), t.addr, ms, fromNow, now)
              else View() == old(View()) && !notify
      ensures if old(t.cb.Some?) && (ms != old(t.ms) || fromNow)
              then t.ms == ms && t.next == T.Add64(if fromNow then now else T.Sub64(old(t.next), old(t.ms)), ms)
              else t.ms == old(t.ms) && t.next == old(t.next)
      ensures forall x :: x in timers <==> x in old(timers)
    {
      ghost var i := Position(t);
      if ms == t.ms && !fromNow {
        return true, false;
      }
      if t.cb.None? {
        return false, false;
      }
      if T.Find(Views(timers), t.View()).None? {
        return false, false;
      }
      var start: T.U64 := if fromNow then now else T.Sub64(t.next, t.ms);
      notify := Relink(t, i.value, ms, T.Add64(start, ms));
      return true, notify;
    }

    method Relink(t: TimerObject, ghost i: nat, ms: T.U64, next: T.U64) returns (notify: bool)
      requires Valid() && t in published && i < |timers| && timers[i] == t
      requires T.Find(Views(timers), t.View()) == Some(i) && forall j | 0 <= j < |timers| && j != i :: timers[j] != t
      modifies this`timers, this`tickled, t`ms, t`next
      ensures T.Ordered(Views(timers)) && forall x :: x in timers <==> x in old(timers)
      ensures T.Added(View(), notify) ==
              T.AddTimer(old(View()).(armed := T.Erase(old(View()).armed, i)), old(t.View()).(ms := ms, next := next))
      ensures t.ms == ms && t.next == next
    {
      Unlink(t, i, ms, next);
      notify := Link(t);
    }

    /** addTimer with the lock held: the part shared by a new timer and a reset one. */
    method Link(t: TimerObject) returns (notify: bool)
      requires T.Ordered(Views(timers)) && T.Absent(Views(timers), t.addr)
      modifies this`timers, this`tickled
      ensures T.Ordered(Views(timers)) && forall x :: x in timers <==> x in old(timers) || x == t
      ensures T.Added(View(), notify) == T.AddTimer(old(View()), t.View())
    {
      var at := SetInsert(t);
      notify := at == 0 && !tickled;
      if notify {
        tickled := true;
      }
    }

    method AddTimer(addr: nat, ms: T.U64, cb: CbId, recurring: bool, now: T.U64) returns (t: TimerObject, notify: bool)
      requires Valid() && forall u | u in published :: u.addr != addr
      modifies this
      ensures Valid() && fresh(t) && t.addr == addr && published == old(published) + {t}
      ensures T.Added(View(), notify) == T.AddTimer(old(View()), T.NewTimer(addr, ms, cb, recurring, now))
    {
      t := new TimerObject(addr, ms, cb, recurring, now);
      assert forall j | 0 <= j < |timers| :: timers[j] in published && Views(timers)[j].addr != addr;
      notify := Link(t);
      published := published + {t};
    }

    method GetNextTimer(now: T.U64) returns (timeout: T.U64)
      requires Valid()
      modifies this`tickled
      ensures Valid() && View() == old(View()).(tickled := false)
      ensures timeout == T.NextTimer(old(View()), now)
    {
      tickled := false;
      if timers == [] {
        return TWO64 - 1;
      }
      var next := timers[0];
      if now >= next.next {
        return 0;
      }
      return next.next - now;
    }

    /** lower_bound of a key made for `now`, then past the elements with that very deadline. */
    method CutPosition(now: T.U64, probe: nat, rollover: bool) returns (k: nat)
      ensures k == T.Cut(Views(timers), now, probe, rollover) && k <= |timers|
    {
      k := if rollover then |timers| else T.LowerBound(Views(timers), T.Timer(probe, now, 0, false, 0));
      while k < |timers| && timers[k].next == now
        invariant k <= |timers|
        invariant T.SkipEqual(Views(timers), k, now) == T.Cut(Views(timers), now, probe, rollover)
      {
        k := k + 1;
      }
    }

    /** Take the due timers out, hand over their callbacks, and put the recurring ones back. */
    method ListExpiredCb(now: T.U64, probe: nat) returns (cbs: seq<CbId>)
      requires Valid()
      modifies this`timers, this`previousTime, set t | t in timers
      ensures Valid() && published == old(published)
      ensures (cbs, View()) == T.ListExpired(old(View()), now, probe)
    {
      cbs := [];
      if timers == [] {
        return;
      }
      var rollover := T.Rollover(previousTime, now);
      previousTime := now;
      if !rollover && timers[0].next > now {
        return;
      }
      cbs := ExpireDue(now, probe, rollover);
    }

    method ExpireDue(now: T.U64, probe: nat, rollover: bool) returns (cbs: seq<CbId>)
      requires Valid()
      modifies this`timers, set t | t in timers
      ensures Valid()
      ensures var k := T.Cut(old(Views(timers)), now, probe, rollover);
              && cbs == T.Callbacks(old(Views(timers))[..k])
              && Views(timers) == T.Rearm(old(Views(timers))[k..], old(Views(timers))[..k], now)
    {
      var k := CutPosition(now, probe, rollover);
      ghost var before := Views(timers);
      ghost var all := set t | t in timers;
      var expired := TakeFirst(k);
      cbs := FireAll(all, expired, before[..k], now);
      MembersAfterExpiry(all);
    }

    twostate lemma MembersAfterExpiry(all: set<TimerObject>)
      requires old(Members()) && (forall t | t in all :: t in old(timers)) && (forall t | t in old(timers) :: t in all)
      requires published == old(published) && forall t | t in published && t !in all :: t.cb == old(t.cb)
      requires forall t | t in timers :: t in all && t.cb.Some?
      requires forall t | t in all && t.cb.Some? :: t in timers
      ensures Members()
    {
    }

    /**
     Half-way through the expiry loop: of the timers `all`, the set holds those that still have a callback and
     are not `pending`; the pending ones still look like `views`.
     */
    ghost predicate Midway(all: set<TimerObject>, pending: seq<TimerObject>, views: seq<T.Timer>)
      reads this, all, set t | t in timers, set t | t in pending
    {
      && T.Ordered(Views(timers))
      && (forall x | x in timers :: x in all && x !in pending && x.cb.Some?)
      && (forall x | x in all && x !in pending && x.cb.Some? :: x in timers)
      && (forall x, y | x in all && y in all && x.addr == y.addr :: x == y)
      && |views| == |pending|
      && (forall j | 0 <= j < |pending| :: pending[j] in all && pending[j].View() == views[j] && pending[j].cb.Some?)
      && (forall i, j | 0 <= i < j < |pending| :: pending[i] != pending[j])
    }

    /** One turn of the expiry loop. */
    method Turn(ghost all: set<TimerObject>, ghost pending: seq<TimerObject>, ghost views: seq<T.Timer>,
        t: TimerObject, now: T.U64) returns (cb: CbId)
      requires Midway(all, pending, views) && pending != [] && t == pending[0]
      modifies this`timers, t`next, t`cb
      ensures Midway(all, pending[1..], views[1..])
      ensures cb == views[0].cb
      ensures Views(timers) == T.Rearm(old(Views(timers)), views[..1], now)
    {
      assert T.Absent(Views(timers), t.addr) by {
        assert forall j | 0 <= j < |timers| :: timers[j] in all && timers[j] != t;
      }
      assert pending == [t] + pending[1..];
      assert views[..1] == [views[0]] && views[..1][1..] == [];
      cb := FireOne(t, now);
    }

    /** Erase the first `k` timers, already decided to be the expired ones. */
    method TakeFirst(k: nat) returns (expired: seq<TimerObject>)
      requires Valid() && k <= |timers|
      modifies this`timers
      ensures expired == old(timers)[..k] && Views(timers) == old(Views(timers))[k..]
      ensures Midway(old(set t | t in timers), expired, old(Views(timers))[..k])
    {
      DistinctObjects();
      ghost var before := timers;
      assert forall i, j | 0 <= i < k <= j < |before| :: before[i] != before[j];
      T.OrderedDrop(Views(before), k);
      expired := timers[..k];
      timers := timers[k..];
      ViewsDrop(before, k);
      assert before == expired + timers;
    }

    /** The loop over the expired timers. */
    method FireAll(ghost all: set<TimerObject>, expired: seq<TimerObject>, ghost views: seq<T.Timer>, now: T.U64)
      returns (cbs: seq<CbId>)
      requires Midway(all, expired, views)
      modifies this`timers, set t | t in expired
      ensures Midway(all, [], [])
      ensures cbs == T.Callbacks(views)
      ensures Views(timers) == T.Rearm(old(Views(timers)), views, now)
    {
      cbs := [];
      ghost var out := T.Callbacks(views);
      for i := 0 to |expired|
        invariant Midway(all, expired[i..], views[i..])
        invariant cbs == out[..i]
        invariant T.Rearm(Views(timers), views[i..], now) == T.Rearm(old(Views(timers)), views, now)
      {
        assert expired[i..][1..] == expired[i + 1..] && views[i..][1..] == views[i + 1..];
        T.RearmSplit(Views(timers), views[i..], 1, now);
        var cb := Turn(all, expired[i..], views[i..], expired[i], now);
        cbs := cbs + [cb];
        TakeNext(out, i);
      }
    }

    lemma DistinctObjects()
      requires Valid()
      ensures forall i, j | 0 <= i < j < |timers| :: timers[i] != timers[j]
    {
      forall i, j | 0 <= i < j < |timers| ensures timers[i] != timers[j] {
        assert Views(timers)[i].addr != Views(timers)[j].addr;
      }
    }

    /** Hand over the callback; put the timer back or retire it. */
    method FireOne(t: TimerObject, now: T.U64) returns (cb: CbId)
      requires T.Ordered(Views(timers)) && T.Absent(Views(timers), t.addr) && t.cb.Some?
      modifies this`timers, t`next, t`cb
      ensures cb == old(t.cb.value) && (t.cb.Some? <==> t.recurring)
      ensures T.Ordered(Views(timers))
      ensures Views(timers) == if t.recurring then T.Insert(old(Views(timers)), old(t.View()).(next := T.Add64(now, t.ms)))
                               else old(Views(timers))
      ensures forall x :: x in timers <==> x in old(timers) || (x == t && t.recurring)
    {
      ghost var views := Views(timers);
      assert forall j | 0 <= j < |timers| :: views[j].addr != t.addr;
      cb := t.cb.value;
      if t.recurring {
        t.next := T.Add64(now, t.ms);
        assert Views(timers) == views;
        var at := SetInsert(t);
      } else {
        t.cb := None;
        assert Views(timers) == views;
      }
    }
  }

  /** Dropping a timer's callback does not change where the set has it. */
  lemma FindIgnoresCallback(before: seq<T.Timer>, after: seq<T.Timer>, i: nat)
    requires T.Sorted(before) && i < |before| && |after| == |before|
    requires forall j | 0 <= j < |before| :: after[j].addr == before[j].addr && after[j].next == before[j].next
    ensures T.Find(after, after[i]) == Some(i)
  {
    assert T.Sorted(after) by {
      forall j, h | 0 <= j < h < |after| ensures T.Less(after[j], after[h]) {
        assert T.Less(before[j], before[h]);
      }
    }
    T.FindSelf(after, i);
  }
}
