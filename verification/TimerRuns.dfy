/**
 Whole runs of the timer manager under a clock that never goes back: what every sequence of its operations
 keeps. The state carries a history (how often each timer fired or was cancelled, which deadline the idle
 loop was last told) that the operations only write.
 */
module TimerRuns {
  import opened Words
  import opened Wrappers
  import opened Tasks
  import opened TimerSpec

  /**
   The life of one timer so far. `start` is when its current period began: when it was added, last fired, was
   refreshed, or was reset from now; a reset of another kind changes only the `period`.
   */
  datatype Life = Life(recurring: bool, fired: nat, cancels: nat, lastFire: Option<U64>, start: U64, period: U64)

  /** `asked`: the earliest deadline at the last query, if there was one; `notified`: called back since then. */
  datatype State = State(tm: Timers, now: U64, lives: map<nat, Life>, asked: Option<U64>, notified: bool)

  datatype Action =
    | AddT(addr: nat, ms: U64, cb: CbId, recurring: bool)
    | CancelT(addr: nat)
    | RefreshT(addr: nat)
    | ResetT(addr: nat, ms: U64, fromNow: bool)
    | AskNext
    | Expire(probe: nat)
    | Tick(d: nat)

  ghost predicate Live(tm: Timers, addr: nat) {
    !Absent(tm.armed, addr)
  }

  ghost predicate Init(s: State) {
    s.tm == Timers([], false, s.now) && s.lives == map[] && s.asked.None? && !s.notified
  }

  /** New timers are new objects, and deadlines stay below 2^64. */
  ghost predicate Enabled(s: State, a: Action) {
    match a
    case AddT(addr, ms, _, _) => addr !in s.lives && s.now + ms < TWO64
    case CancelT(_) => true
    case RefreshT(addr) => forall t | t in s.tm.armed && t.addr == addr :: s.now + t.ms < TWO64
    case ResetT(_, ms, _) => s.now + ms < TWO64
    case AskNext => true
    case Expire(_) => forall t | t in s.tm.armed && t.recurring :: s.now + t.ms < TWO64
    case Tick(d) => s.now + d < TWO64
  }

  ghost function Expiring(s: State): seq<Timer> {
    s.tm.armed[..Due(s.tm.armed, s.now)]
  }

  ghost function Next(s: State, a: Action): State {
    match a
    case AddT(addr, ms, cb, recurring) =>
      var added := AddTimer(s.tm, NewTimer(addr, ms, cb, recurring, s.now));
      s.(tm := added.timers, notified := s.notified || added.notify, lives := s.lives[addr := Life(recurring, 0, 0, None, s.now, ms)])
    case CancelT(addr) =>
      var (ok, tm) := Cancel(s.tm, addr);
      s.(tm := tm,
      lives := if ok && addr in s.lives then s.lives[addr := s.lives[addr].(cancels := s.lives[addr].cancels + 1)] else s.lives)
    case RefreshT(addr) =>
      s.(tm := Refresh(s.tm, addr, s.now).1,
      lives := if Live(s.tm, addr) && addr in s.lives then s.lives[addr := s.lives[addr].(start := s.now)] else s.lives)
    case ResetT(addr, ms, fromNow) =>
      var added := Reset(s.tm, addr, ms, fromNow, s.now).1;
      s.(tm := added.timers, notified := s.notified || added.notify,
      lives := if Live(s.tm, addr) && addr in s.lives
      then s.lives[addr := s.lives[addr].(start := if fromNow then s.now else s.lives[addr].start, period := ms)] else s.lives)
    case AskNext =>
      s.(tm := s.tm.(tickled := false), notified := false,
      asked := if s.tm.armed == [] then None else Some(s.tm.armed[0].next))
    case Expire(probe) =>
      var gone := Expiring(s);
      s.(tm := ListExpired(s.tm, s.now, probe).1,
      lives := map a | a in s.lives ::
        if !Absent(gone, a) then s.lives[a].(fired := s.lives[a].fired + 1, lastFire := Some(s.now), start := s.now)
        else s.lives[a])
    case Tick(d) =>
      if s.now + d < TWO64 then s.(now := s.now + d) else s
  }

  // ---- What every reachable state satisfies ----

  /** Each armed timer is due exactly one period after its start, which was not before it last fired. */
  ghost predicate TimerOk(s: State, t: Timer) {
    && t.addr in s.lives
    && s.lives[t.addr].recurring == t.recurring
    && t.ms == s.lives[t.addr].period
    && s.lives[t.addr].start <= s.now
    && t.next == s.lives[t.addr].start + t.ms
    && (s.lives[t.addr].lastFire.Some? ==> s.lives[t.addr].lastFire.value <= s.lives[t.addr].start)
  }

  /** A one-shot timer is armed, or fired once, or was cancelled once; a recurring one ends only by a cancel. */
  ghost predicate LifeOk(s: State, addr: nat)
    requires addr in s.lives
  {
    var l := s.lives[addr];
    var armed := if Live(s.tm, addr) then 1 else 0;
    if l.recurring then l.cancels + armed == 1 else l.fired + l.cancels + armed == 1
  }

  /** Either the early wake-up was sent since the last query, or nothing is due earlier than the answer given. */
  ghost predicate NoMissedWakeup(s: State) {
    && (s.tm.tickled ==> s.notified)
    && (s.tm.tickled || forall t | t in s.tm.armed :: s.asked.Some? && s.asked.value <= t.next)
  }

  ghost predicate Inv(s: State) {
    && Ordered(s.tm.armed)
    && s.tm.previous <= s.now
    && (forall t | t in s.tm.armed :: TimerOk(s, t))
    && (forall a | a in s.lives :: LifeOk(s, a))
    && NoMissedWakeup(s)
  }

  lemma FrontIsLeast(ts: seq<Timer>)
    requires Sorted(ts)
    ensures forall t | t in ts :: ts[0].next <= t.next
  {
    forall t | t in ts ensures ts[0].next <= t.next {
      var i :| 0 <= i < |ts| && ts[i] == t;
      assert i == 0 || Less(ts[0], ts[i]);
    }
  }

  lemma MultisetMember<T>(s: seq<T>, x: T)
    ensures x in s <==> x in multiset(s)
  {
  }

  /** What inserting a new deadline does to the set, its front and the notification. */
  lemma AddKeeps(tm: Timers, t: Timer)
    requires Ordered(tm.armed) && Absent(tm.armed, t.addr)
    ensures var r := AddTimer(tm, t);
            && Ordered(r.timers.armed)
            && (forall u :: u in r.timers.armed <==> u in tm.armed || u == t)
            && (forall a :: Absent(r.timers.armed, a) <==> Absent(tm.armed, a) && a != t.addr)
            && r.timers.tickled == (tm.tickled || r.notify)
            && (!r.timers.tickled ==> tm.armed != [] && tm.armed[0].next <= t.next)
  {
    InsertFresh(tm.armed, t);
    var k := LowerBound(tm.armed, t);
    var r := AddTimer(tm, t).timers.armed;
    forall u ensures u in r <==> u in tm.armed || u == t {
      MultisetMember(r, u); MultisetMember(tm.armed, u);
    }
    if k > 0 {
      assert Less(tm.armed[0], t);
    }
    AbsentByMembers(r, tm.armed, t);
  }

  lemma AbsentByMembers(r: seq<Timer>, ts: seq<Timer>, t: Timer)
    requires forall u :: u in r <==> u in ts || u == t
    ensures forall a :: Absent(r, a) <==> Absent(ts, a) && a != t.addr
  {
    forall a ensures Absent(r, a) <==> Absent(ts, a) && a != t.addr {
      if Absent(r, a) {
        assert t in r;
        assert forall i | 0 <= i < |ts| :: ts[i] in r;
      }
      if Absent(ts, a) && a != t.addr {
        assert forall i | 0 <= i < |r| :: r[i] in ts || r[i] == t;
      }
    }
  }

  /** What removing one timer does. */
  lemma EraseKeeps(ts: seq<Timer>, i: nat)
    requires Ordered(ts) && i < |ts|
    ensures Ordered(Erase(ts, i)) && Absent(Erase(ts, i), ts[i].addr)
    ensures forall u :: u in ts <==> u in Erase(ts, i) || u == ts[i]
    ensures forall a :: Absent(ts, a) <==> Absent(Erase(ts, i), a) && a != ts[i].addr
  {
    EraseOrdered(ts, i);
    var r := Erase(ts, i);
    forall u ensures u in ts <==> u in r || u == ts[i] {
      MultisetMember(r, u); MultisetMember(ts, u);
    }
    AbsentByMembers(ts, r, ts[i]);
  }

  lemma AddStep(s: State, a: Action)
    requires Inv(s) && Enabled(s, a) && a.AddT?
    ensures Inv(Next(s, a))
  {
    var t := NewTimer(a.addr, a.ms, a.cb, a.recurring, s.now);
    assert Absent(s.tm.armed, a.addr) by {
      assert forall i | 0 <= i < |s.tm.armed| :: s.tm.armed[i] in s.tm.armed;
    }
    AddKeeps(s.tm, t);
    FrontIsLeast(s.tm.armed);
    var s' := Next(s, a);
    assert forall x | x in s.lives :: x in s'.lives && s'.lives[x] == s.lives[x];
    forall u | u in s'.tm.armed ensures TimerOk(s', u) {}
    forall x | x in s'.lives ensures LifeOk(s', x) { if x != a.addr { assert LifeOk(s, x); } }
  }

  lemma CancelStep(s: State, a: Action)
    requires Inv(s) && Enabled(s, a) && a.CancelT?
    ensures Inv(Next(s, a))
  {
    var i := Index(s.tm.armed, a.addr);
    if i.Some? {
      EraseKeeps(s.tm.armed, i.value);
      var s' := Next(s, a);
      assert s.tm.armed[i.value] in s.tm.armed;
      assert Live(s.tm, a.addr);
      assert LifeOk(s, a.addr);
      forall u | u in s'.tm.armed ensures TimerOk(s', u) { assert TimerOk(s, u); }
      forall x | x in s'.lives ensures LifeOk(s', x) { assert LifeOk(s, x); }
    }
  }

  /** Taking a timer out and putting it back with another deadline. */
  lemma RetimeKeeps(s: State, i: nat, t': Timer, tm': Timers)
    requires Inv(s) && i < |s.tm.armed|
    requires t'.addr == s.tm.armed[i].addr && t'.recurring == s.tm.armed[i].recurring
    requires tm'.armed == Insert(Erase(s.tm.armed, i), t')
    ensures Ordered(tm'.armed)
    ensures forall u :: u in tm'.armed <==> u in Erase(s.tm.armed, i) || u == t'
    ensures forall a :: Live(tm', a) <==> Live(s.tm, a)
  {
    EraseKeeps(s.tm.armed, i);
    AddKeeps(s.tm.(armed := Erase(s.tm.armed, i)), t');
  }

  lemma RefreshStep(s: State, a: Action)
    requires Inv(s) && Enabled(s, a) && a.RefreshT?
    ensures Inv(Next(s, a))
  {
    var i := Index(s.tm.armed, a.addr);
    if i.Some? {
      var s' := Next(s, a);
      RetimeKeeps(s, i.value, s.tm.armed[i.value].(next := Add64(s.now, s.tm.armed[i.value].ms)), s'.tm);
      RefreshWakeup(s, a, i.value);
      forall u | u in s'.tm.armed ensures TimerOk(s', u) { RefreshTimer(s, a, i.value, u); }
      forall x | x in s'.lives ensures LifeOk(s', x) { assert LifeOk(s, x); }
    }
  }

  lemma RefreshTimer(s: State, a: Action, i: nat, u: Timer)
    requires Ordered(s.tm.armed) && Enabled(s, a) && a.RefreshT? && Index(s.tm.armed, a.addr) == Some(i)
    requires forall t | t in s.tm.armed :: TimerOk(s, t)
    requires u in Erase(s.tm.armed, i) || u == s.tm.armed[i].(next := Add64(s.now, s.tm.armed[i].ms))
    ensures TimerOk(Next(s, a), u)
  {
    var t := s.tm.armed[i];
    assert t in s.tm.armed && TimerOk(s, t);
    assert Live(s.tm, a.addr);
    var lives' := Next(s, a).lives;
    assert lives' == s.lives[a.addr := s.lives[a.addr].(start := s.now)] && Next(s, a).now == s.now;
    if u in Erase(s.tm.armed, i) {
      EraseKeeps(s.tm.armed, i);
      assert u in s.tm.armed && TimerOk(s, u);
      var j :| 0 <= j < |Erase(s.tm.armed, i)| && Erase(s.tm.armed, i)[j] == u;
      assert u.addr != t.addr;
    } else {
      NoWrap(s.now, t.ms);
    }
  }

  /** A refreshed timer moves back, so nothing is due earlier than before. */
  lemma RefreshWakeup(s: State, a: Action, i: nat)
    requires Inv(s) && Enabled(s, a) && a.RefreshT? && Index(s.tm.armed, a.addr) == Some(i)
    ensures NoMissedWakeup(Next(s, a))
  {
    var t := s.tm.armed[i];
    assert t in s.tm.armed && TimerOk(s, t);
    var t' := t.(next := Add64(s.now, t.ms));
    NoWrap(s.now, t.ms);
    RetimeKeeps(s, i, t', Next(s, a).tm);
    EraseKeeps(s.tm.armed, i);
    forall u | u in Next(s, a).tm.armed ensures exists x :: x in s.tm.armed && x.next <= u.next {
      assert if u == t' then t.next <= u.next else u in s.tm.armed;
    }
  }

  lemma ResetStep(s: State, a: Action)
    requires Inv(s) && Enabled(s, a) && a.ResetT?
    ensures Inv(Next(s, a))
  {
    var i := Index(s.tm.armed, a.addr);
    if i.Some? && !(a.ms == s.tm.armed[i.value].ms && !a.fromNow) {
      var s' := Next(s, a);
      var t' := Retimed(s.tm.armed[i.value], a.ms, a.fromNow, s.now);
      RetimeKeeps(s, i.value, t', s'.tm);
      ResetWakeup(s, a, i.value);
      forall u | u in s'.tm.armed ensures TimerOk(s', u) { ResetTimer(s, a, i.value, u); }
      forall x | x in s'.lives ensures LifeOk(s', x) { assert LifeOk(s, x); }
    }
  }

  lemma ResetTimer(s: State, a: Action, i: nat, u: Timer)
    requires Ordered(s.tm.armed) && Enabled(s, a) && a.ResetT? && Index(s.tm.armed, a.addr) == Some(i)
    requires forall t | t in s.tm.armed :: TimerOk(s, t)
    requires !(a.ms == s.tm.armed[i].ms && !a.fromNow)
    requires u in Erase(s.tm.armed, i) || u == Retimed(s.tm.armed[i], a.ms, a.fromNow, s.now)
    ensures TimerOk(Next(s, a), u)
  {
    var t := s.tm.armed[i];
    assert t in s.tm.armed && TimerOk(s, t);
    var lives' := Next(s, a).lives;
    assert Live(s.tm, a.addr);
    assert forall x | x in s.lives && x != a.addr :: lives'[x] == s.lives[x];
    assert Next(s, a).now == s.now;
    if u in Erase(s.tm.armed, i) {
      EraseKeeps(s.tm.armed, i);
      assert u in s.tm.armed && TimerOk(s, u);
      assert u.addr != t.addr by {
        var j :| 0 <= j < |Erase(s.tm.armed, i)| && Erase(s.tm.armed, i)[j] == u;
      }
    } else {
      var start := if a.fromNow then s.now else t.next - t.ms;
      NoWrap(t.next, t.ms);
      NoWrap(start, a.ms);
      assert u.next == start + a.ms;
    }
  }

  lemma ResetWakeup(s: State, a: Action, i: nat)
    requires Ordered(s.tm.armed) && NoMissedWakeup(s) && a.ResetT? && Index(s.tm.armed, a.addr) == Some(i)
    requires !(a.ms == s.tm.armed[i].ms && !a.fromNow)
    ensures NoMissedWakeup(Next(s, a))
  {
    var t' := Retimed(s.tm.armed[i], a.ms, a.fromNow, s.now);
    var tm0 := s.tm.(armed := Erase(s.tm.armed, i));
    EraseKeeps(s.tm.armed, i);
    AddKeeps(tm0, t');
    FrontIsLeast(tm0.armed);
    if tm0.armed != [] {
      assert tm0.armed[0] in s.tm.armed;
    }
  }

  lemma AskStep(s: State, a: Action)
    requires Inv(s) && a.AskNext?
    ensures Inv(Next(s, a))
  {
    var s' := Next(s, a);
    FrontIsLeast(s.tm.armed);
    forall u | u in s'.tm.armed ensures TimerOk(s', u) { assert TimerOk(s, u); }
    forall x | x in s'.lives ensures LifeOk(s', x) { assert LifeOk(s, x); }
  }

  /** Under a clock that did not go back, the expiry pass takes the due timers and re-arms the recurring ones. */
  lemma ExpireShape(s: State, probe: nat)
    requires Ordered(s.tm.armed) && s.tm.previous <= s.now
    ensures var tm' := ListExpired(s.tm, s.now, probe).1;
            var k := Due(s.tm.armed, s.now);
            && ListExpired(s.tm, s.now, probe).0 == Callbacks(Expiring(s))
            && Ordered(tm'.armed)
            && tm'.previous <= s.now && tm'.tickled == s.tm.tickled
            && multiset(tm'.armed) == multiset(s.tm.armed[k..]) + Rearmed(s.tm.armed[..k], s.now)
            && (forall i | 0 <= i < k :: s.tm.armed[i].next <= s.now)
            && (forall i | k <= i < |s.tm.armed| :: s.tm.armed[i].next > s.now)
  {
    ExpiryMeaning(s.tm, s.now, probe);
    CutIsExact(s.tm.armed, s.now, probe);
  }

  /** Who is armed after an expiry pass: a timer that was not due, or a recurring one that was. */
  lemma ExpireSource(s: State, probe: nat, u: Timer) returns (i: nat)
    requires Ordered(s.tm.armed) && s.tm.previous <= s.now
    requires u in ListExpired(s.tm, s.now, probe).1.armed
    ensures i < |s.tm.armed|
    ensures var t := s.tm.armed[i];
            if i < Due(s.tm.armed, s.now) then t.recurring && t.next <= s.now && u == t.(next := Add64(s.now, t.ms))
            else u == t && t.next > s.now
  {
    ExpireShape(s, probe);
    var armed' := ListExpired(s.tm, s.now, probe).1.armed;
    var k := Due(s.tm.armed, s.now);
    MultisetMember(armed', u);
    MultisetMember(s.tm.armed[k..], u);
    if u in s.tm.armed[k..] {
      var j :| 0 <= j < |s.tm.armed[k..]| && s.tm.armed[k..][j] == u;
      i := k + j;
    } else {
      i := RearmedSource(s.tm.armed[..k], s.now, u);
    }
  }

  /** Conversely: the undue timers stay, the due recurring ones come back, the due one-shots are gone. */
  lemma ExpireKept(s: State, probe: nat, i: nat)
    requires Ordered(s.tm.armed) && s.tm.previous <= s.now && i < |s.tm.armed|
    ensures Live(ListExpired(s.tm, s.now, probe).1, s.tm.armed[i].addr) <==>
            (Due(s.tm.armed, s.now) <= i || s.tm.armed[i].recurring)
    ensures Absent(Expiring(s), s.tm.armed[i].addr) <==> Due(s.tm.armed, s.now) <= i
  {
    ExpireShape(s, probe);
    var armed' := ListExpired(s.tm, s.now, probe).1.armed;
    var k := Due(s.tm.armed, s.now);
    var t := s.tm.armed[i];
    if k <= i {
      assert s.tm.armed[k..][i - k] == t;
      MultisetMember(armed', t);
    } else {
      assert Expiring(s)[i] == t;
      if t.recurring {
        RearmedHas(Expiring(s), s.now, i);
        MultisetMember(armed', t.(next := Add64(s.now, t.ms)));
      }
    }
    if !Absent(armed', t.addr) {
      var j :| 0 <= j < |armed'| && armed'[j].addr == t.addr;
      var h := ExpireSource(s, probe, armed'[j]);
      assert h == i;
    }
  }

  lemma {:induction false} RearmedHas(ts: seq<Timer>, now: U64, i: nat)
    requires i < |ts| && ts[i].recurring
    ensures ts[i].(next := Add64(now, ts[i].ms)) in Rearmed(ts, now)
  {
    if i > 0 {
      RearmedHas(ts[1..], now, i - 1);
    }
  }

  lemma ExpireTimers(s: State, a: Action)
    requires Inv(s) && Enabled(s, a) && a.Expire?
    ensures var s' := Next(s, a);
            && (forall u | u in s'.tm.armed :: TimerOk(s', u))
            && NoMissedWakeup(s')
  {
    var s' := Next(s, a);
    ExpireShape(s, a.probe);
    forall u | u in s'.tm.armed ensures TimerOk(s', u) && (!s.tm.tickled ==> s.asked.Some? && s.asked.value <= u.next) {
      var i := ExpireSource(s, a.probe, u);
      ExpireTimer(s, a, i, u);
    }
  }

  lemma ExpireTimer(s: State, a: Action, i: nat, u: Timer)
    requires Ordered(s.tm.armed) && s.tm.previous <= s.now && NoMissedWakeup(s)
    requires Enabled(s, a) && a.Expire? && i < |s.tm.armed| && TimerOk(s, s.tm.armed[i])
    requires var t := s.tm.armed[i];
             if i < Due(s.tm.armed, s.now) then t.recurring && t.next <= s.now && u == t.(next := Add64(s.now, t.ms))
             else u == t && t.next > s.now
    ensures TimerOk(Next(s, a), u) && (!s.tm.tickled ==> s.asked.Some? && s.asked.value <= u.next)
  {
    var t := s.tm.armed[i];
    assert t in s.tm.armed;
    ExpireLife(s, a, i);
    NoWrap(s.now, t.ms);
  }

  lemma ExpireLife(s: State, a: Action, i: nat)
    requires Ordered(s.tm.armed) && s.tm.previous <= s.now && a.Expire? && i < |s.tm.armed| && s.tm.armed[i].addr in s.lives
    ensures var l := s.lives[s.tm.armed[i].addr];
            && Next(s, a).now == s.now && s.tm.armed[i].addr in Next(s, a).lives
            && Next(s, a).lives[s.tm.armed[i].addr] ==
               if i < Due(s.tm.armed, s.now) then l.(fired := l.fired + 1, lastFire := Some(s.now), start := s.now) else l
  {
    ExpireKept(s, a.probe, i);
  }

  lemma ExpireLives(s: State, a: Action, x: nat)
    requires Inv(s) && Enabled(s, a) && a.Expire? && x in s.lives
    ensures LifeOk(Next(s, a), x)
  {
    assert LifeOk(s, x);
    var s' := Next(s, a);
    if Live(s.tm, x) {
      var i :| 0 <= i < |s.tm.armed| && s.tm.armed[i].addr == x;
      assert s.tm.armed[i] in s.tm.armed && TimerOk(s, s.tm.armed[i]);
      ExpireKept(s, a.probe, i);
    } else {
      assert Absent(Expiring(s), x);
      if Live(s'.tm, x) {
        var j :| 0 <= j < |s'.tm.armed| && s'.tm.armed[j].addr == x;
        var i := ExpireSource(s, a.probe, s'.tm.armed[j]);
      }
    }
  }

  lemma ExpireStep(s: State, a: Action)
    requires Inv(s) && Enabled(s, a) && a.Expire?
    ensures Inv(Next(s, a))
  {
    ExpireShape(s, a.probe);
    ExpireTimers(s, a);
    forall x | x in s.lives ensures LifeOk(Next(s, a), x) {
      ExpireLives(s, a, x);
    }
  }

  /** One operation keeps the invariant. */
  lemma StepKeepsInv(s: State, a: Action)
    requires Inv(s) && Enabled(s, a)
    ensures Inv(Next(s, a))
  {
    match a
    case AddT(_, _, _, _) => AddStep(s, a);
    case CancelT(_) => CancelStep(s, a);
    case RefreshT(_) => RefreshStep(s, a);
    case ResetT(_, _, _) => ResetStep(s, a);
    case AskNext => AskStep(s, a);
    case Expire(_) => ExpireStep(s, a);
    case Tick(d) =>
      var s' := Next(s, a);
      forall u | u in s'.tm.armed ensures TimerOk(s', u) { assert TimerOk(s, u); }
      forall x | x in s'.lives ensures LifeOk(s', x) { assert LifeOk(s, x); }
  }

  /** The state after a list of operations, each allowed where it happens. */
  ghost predicate Runs(s: State, actions: seq<Action>, s': State)
    decreases |actions|
  {
    if actions == [] then s' == s else Enabled(s, actions[0]) && Runs(Next(s, actions[0]), actions[1..], s')
  }

  /**
   In every run: the set stays ordered, no early wake-up is missed, and every timer's history adds up
   (see `NoMissedWakeup`, `LifeOk`, `TimerOk`).
   */
  lemma {:induction false} EveryRunIsSafe(s: State, actions: seq<Action>, s': State)
    requires Inv(s) && Runs(s, actions, s')
    ensures Inv(s')
    decreases |actions|
  {
    if actions != [] {
      StepKeepsInv(s, actions[0]);
      EveryRunIsSafe(Next(s, actions[0]), actions[1..], s');
    }
  }

  lemma InitIsSafe(s: State)
    requires Init(s)
    ensures Inv(s)
  {
  }

  /**
   What an expiry pass hands over, in any reachable state: only callbacks of timers whose deadline has come;
   and a timer that fired before fires again no sooner than its period later, unless it was given another one.
   */
  lemma FiringsKeepTheirDistance(s0: State, actions: seq<Action>, s: State, probe: nat)
    requires Init(s0) && Runs(s0, actions, s) && Enabled(s, Expire(probe))
    ensures ListExpired(s.tm, s.now, probe).0 == Callbacks(Expiring(s))
    ensures forall t | t in Expiring(s) ::
              && t.next <= s.now
              && t.addr in s.lives
              && (!t.recurring ==> s.lives[t.addr].fired == 0 && s.lives[t.addr].cancels == 0)
              && (s.lives[t.addr].lastFire.Some? ==> s.lives[t.addr].lastFire.value + t.ms <= s.now)
  {
    EveryRunIsSafe(s0, actions, s);
    ExpireShape(s, probe);
    forall t | t in Expiring(s)
      ensures && t.next <= s.now && t.addr in s.lives
              && (!t.recurring ==> s.lives[t.addr].fired == 0 && s.lives[t.addr].cancels == 0)
              && (s.lives[t.addr].lastFire.Some? ==> s.lives[t.addr].lastFire.value + t.ms <= s.now)
    {
      var i :| 0 <= i < |Expiring(s)| && Expiring(s)[i] == t;
      ExpiringIsAlive(s, i);
    }
  }

  lemma ExpiringIsAlive(s: State, i: nat)
    requires Inv(s) && i < |Expiring(s)|
    ensures Expiring(s)[i] == s.tm.armed[i] && TimerOk(s, s.tm.armed[i]) && LifeOk(s, s.tm.armed[i].addr)
    ensures Live(s.tm, s.tm.armed[i].addr)
  {
    assert s.tm.armed[i] in s.tm.armed;
  }

  /** A timer is handed over exactly when it is armed and its period has passed since its start. */
  lemma FiresOnTime(s0: State, actions: seq<Action>, s: State, addr: nat)
    requires Init(s0) && Runs(s0, actions, s) && addr in s.lives
    ensures !Absent(Expiring(s), addr) <==> Live(s.tm, addr) && s.lives[addr].start + s.lives[addr].period <= s.now
  {
    EveryRunIsSafe(s0, actions, s);
    var k := Due(s.tm.armed, s.now);
    CutIsExact(s.tm.armed, s.now, 0);
    if Live(s.tm, addr) {
      var i :| 0 <= i < |s.tm.armed| && s.tm.armed[i].addr == addr;
      assert s.tm.armed[i] in s.tm.armed && TimerOk(s, s.tm.armed[i]);
      ExpireKept(s, 0, i);
    }
  }

  /** The timer's period has not changed since it was `ms`, and began no earlier than at `from`. */
  ghost predicate Since(s: State, addr: nat, from: U64, ms: U64) {
    addr in s.lives && from <= s.lives[addr].start && s.lives[addr].period == ms
  }

  lemma SinceStays(s: State, a: Action, addr: nat, from: U64, ms: U64)
    requires Inv(s) && Enabled(s, a) && Since(s, addr, from, ms) && !(a.ResetT? && a.addr == addr) && from <= s.now
    ensures Since(Next(s, a), addr, from, ms) && from <= Next(s, a).now
  {
  }

  /** Until its period is changed no pass hands over the timer earlier than that period after `from`. */
  lemma {:induction false} NotBefore(s: State, actions: seq<Action>, s': State, addr: nat, from: U64, ms: U64)
    requires Inv(s) && Runs(s, actions, s') && Since(s, addr, from, ms) && from <= s.now
    requires forall i | 0 <= i < |actions| :: !(actions[i].ResetT? && actions[i].addr == addr)
    ensures forall t | t in Expiring(s') && t.addr == addr :: from + ms <= s'.now
    decreases |actions|
  {
    if actions != [] {
      assert !(actions[0].ResetT? && actions[0].addr == addr);
      SinceStays(s, actions[0], addr, from, ms);
      StepKeepsInv(s, actions[0]);
      assert forall i | 0 <= i < |actions[1..]| :: actions[1..][i] == actions[i + 1];
      NotBefore(Next(s, actions[0]), actions[1..], s', addr, from, ms);
    } else {
      forall t | t in Expiring(s) && t.addr == addr ensures from + ms <= s.now {
        var i :| 0 <= i < |Expiring(s)| && Expiring(s)[i] == t;
        ExpiringIsAlive(s, i);
      }
    }
  }

  /** After a refresh the timer is not handed over before its whole period has passed again. */
  lemma RefreshDelays(s: State, t: Timer, actions: seq<Action>, s': State)
    requires Inv(s) && t in s.tm.armed && Enabled(s, RefreshT(t.addr)) && Runs(Next(s, RefreshT(t.addr)), actions, s')
    requires forall i | 0 <= i < |actions| :: !(actions[i].ResetT? && actions[i].addr == t.addr)
    ensures forall u | u in Expiring(s') && u.addr == t.addr :: s.now + t.ms <= s'.now
  {
    var i :| 0 <= i < |s.tm.armed| && s.tm.armed[i] == t;
    assert Live(s.tm, t.addr) && TimerOk(s, t);
    StepKeepsInv(s, RefreshT(t.addr));
    NotBefore(Next(s, RefreshT(t.addr)), actions, s', t.addr, s.now, t.ms);
  }

  /** After a reset not before the new period has passed since then, or since the start of the old one. */
  lemma ResetDelays(s: State, t: Timer, ms: U64, fromNow: bool, actions: seq<Action>, s': State)
    requires Inv(s) && t in s.tm.armed && Enabled(s, ResetT(t.addr, ms, fromNow)) && Runs(Next(s, ResetT(t.addr, ms, fromNow)), actions, s')
    requires forall i | 0 <= i < |actions| :: !(actions[i].ResetT? && actions[i].addr == t.addr)
    ensures forall u | u in Expiring(s') && u.addr == t.addr :: (if fromNow then s.now else t.next - t.ms) + ms <= s'.now
  {
    var i :| 0 <= i < |s.tm.armed| && s.tm.armed[i] == t;
    assert Live(s.tm, t.addr) && TimerOk(s, t);
    StepKeepsInv(s, ResetT(t.addr, ms, fromNow));
    NotBefore(Next(s, ResetT(t.addr, ms, fromNow)), actions, s', t.addr, if fromNow then s.now else t.next - t.ms, ms);
  }

  /** Changing the period without `fromNow` keeps the instant the timer was armed, even where the sum wraps. */
  lemma ResetKeepsArmingInstant(t: Timer, ms: U64, now: U64)
    ensures Sub64(Retimed(t, ms, false, now).next, ms) == Sub64(t.next, t.ms)
  {
  }

  /**
   Only adding and resetting can bring the front of the set forward, and each says so or was preceded by a
   wake-up that is still pending.
   */
  lemma OnlyAddAndResetLowerTheFront(s: State, a: Action)
    requires Inv(s) && Enabled(s, a) && Next(s, a).tm.armed != [] && !a.AskNext?
    requires s.tm.armed == [] || Next(s, a).tm.armed[0].next < s.tm.armed[0].next
    ensures (a.AddT? || a.ResetT?) && Next(s, a).tm.tickled
  {
    var f := Next(s, a).tm.armed[0];
    StepKeepsInv(s, a);
    FrontIsLeast(s.tm.armed);
    // The same step from the same set, with the front itself as the last answer.
    var q := Next(s, AskNext);
    AskStep(s, AskNext);
    assert Inv(q);
    StepKeepsInv(q, a);
    assert f in Next(q, a).tm.armed;
  }
}
