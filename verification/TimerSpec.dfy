/**
 The ordered timer set and the operations on it, on values. A timer is identified by its address, which is
 also the tie-breaker of the ordering; the sequence `armed` is the std::set in iteration order.
 */
module TimerSpec {
  import opened Words
  import opened Wrappers
  import opened Tasks

  const HOUR_MS: int := 60 * 60 * 1000

  type U64 = x: int | 0 <= x < TWO64

  /** Unsigned 64-bit addition and subtraction, wrapping around. */
  function Add64(a: U64, b: U64): U64 {
    (a + b) % TWO64
  }

  function Sub64(a: U64, b: U64): U64 {
    (a - b) % TWO64
  }

  /** Where nothing wraps these are the ordinary sum and difference. */
  lemma NoWrap(a: U64, b: U64)
    ensures a + b < TWO64 ==> Add64(a, b) == a + b
    ensures b <= a ==> Sub64(a, b) == a - b
  {
  }

  datatype Timer = Timer(addr: nat, next: U64, ms: U64, recurring: bool, cb: CbId)

  datatype Timers = Timers(armed: seq<Timer>, tickled: bool, previous: U64)

  /** The ordering of the set on live timers: by deadline, then by address. */
  predicate Less(a: Timer, b: Timer) {
    a.next < b.next || (a.next == b.next && a.addr < b.addr)
  }

  /** The comparison functor, with its branches for null pointers. */
  predicate Comparator(lhs: Option<Timer>, rhs: Option<Timer>) {
    if lhs.None? && rhs.None? then false
    else if lhs.None? then true
    else if rhs.None? then false
    else if lhs.value.next < rhs.value.next then true
    else if rhs.value.next < lhs.value.next then false
    else lhs.value.addr < rhs.value.addr
  }

  /** The functor is a strict order, total on pointers to different timers: what std::set needs. */
  lemma ComparatorIsStrictTotalOrder(a: Option<Timer>, b: Option<Timer>, c: Option<Timer>)
    ensures !Comparator(a, a)
    ensures Comparator(a, b) && Comparator(b, c) ==> Comparator(a, c)
    ensures !Comparator(a, b) && !Comparator(b, a) <==>
            (a.None? && b.None?) || (a.Some? && b.Some? && a.value.next == b.value.next && a.value.addr == b.value.addr)
    ensures a.Some? && b.Some? ==> (Comparator(a, b) <==> Less(a.value, b.value))
  {
  }

  ghost predicate Sorted(ts: seq<Timer>) {
    forall i, j | 0 <= i < j < |ts| :: Less(ts[i], ts[j])
  }

  ghost predicate DistinctAddrs(ts: seq<Timer>) {
    forall i, j | 0 <= i < j < |ts| :: ts[i].addr != ts[j].addr
  }

  /** No timer of the set lives at this address. */
  ghost predicate Absent(ts: seq<Timer>, addr: nat) {
    forall i | 0 <= i < |ts| :: ts[i].addr != addr
  }

  /** A legal state of the set: ordered, one element per timer. */
  ghost predicate Ordered(ts: seq<Timer>) {
    Sorted(ts) && DistinctAddrs(ts)
  }

  /** std::set::lower_bound: the first position whose element is not less than `t`. */
  function LowerBound(ts: seq<Timer>, t: Timer): (k: nat)
    ensures k <= |ts|
    ensures forall i | 0 <= i < k :: Less(ts[i], t)
    ensures k < |ts| ==> !Less(ts[k], t)
  {
    if ts == [] then 0
    else if Less(ts[0], t) then
      var k := LowerBound(ts[1..], t);
      assert forall i | 0 < i < k + 1 :: ts[i] == ts[1..][i - 1];
      k + 1
    else 0
  }

  /** std::set::insert: nothing happens when an equivalent element is there. */
  function Insert(ts: seq<Timer>, t: Timer): seq<Timer> {
    var k := LowerBound(ts, t);
    if k < |ts| && !Less(t, ts[k]) then ts else ts[..k] + [t] + ts[k..]
  }

  /** std::set::find: the position of an element equivalent to `t`. */
  function Find(ts: seq<Timer>, t: Timer): Option<nat> {
    var k := LowerBound(ts, t);
    if k < |ts| && !Less(t, ts[k]) then Some(k) else None
  }

  /** Erase by position. */
  function Erase(ts: seq<Timer>, i: nat): seq<Timer>
    requires i < |ts|
  {
    ts[..i] + ts[i + 1..]
  }

  /** Which element, if any, is the timer at this address. */
  function Index(ts: seq<Timer>, addr: nat): (r: Option<nat>)
    ensures r.None? ==> Absent(ts, addr)
    ensures r.Some? ==> r.value < |ts| && ts[r.value].addr == addr
  {
    if ts == [] then None
    else if ts[0].addr == addr then Some(0)
    else
      match Index(ts[1..], addr)
      case None => (assert forall i | 0 < i < |ts| :: ts[i] == ts[1..][i - 1]; None)
      case Some(i) => Some(i + 1)
  }

  /** Searching the set for one of its own elements finds that element: the order is strict. */
  lemma FindSelf(ts: seq<Timer>, i: nat)
    requires Sorted(ts) && i < |ts|
    ensures Find(ts, ts[i]) == Some(i)
  {
    assert forall j | 0 <= j < i :: Less(ts[j], ts[i]);
  }

  /** The insertion point separates the smaller elements from the larger ones. */
  lemma InsertionPoint(ts: seq<Timer>, t: Timer)
    requires Sorted(ts) && Absent(ts, t.addr)
    ensures var k := LowerBound(ts, t);
            && (forall i | 0 <= i < k :: Less(ts[i], t))
            && (forall i | k <= i < |ts| :: Less(t, ts[i]))
  {
    var k := LowerBound(ts, t);
    forall i | k <= i < |ts| ensures Less(t, ts[i]) {
      assert ts[k].addr != t.addr;
      assert k == i || Less(ts[k], ts[i]);
    }
  }

  lemma SpliceSorted(ts: seq<Timer>, t: Timer, k: nat)
    requires Sorted(ts) && k <= |ts|
    requires forall i | 0 <= i < k :: Less(ts[i], t)
    requires forall i | k <= i < |ts| :: Less(t, ts[i])
    ensures Sorted(ts[..k] + [t] + ts[k..])
  {
    var u := ts[..k] + [t] + ts[k..];
    forall i, j | 0 <= i < j < |u| ensures Less(u[i], u[j]) {
      assert u[i] == if i < k then ts[i] else if i == k then t else ts[i - 1];
      assert u[j] == if j < k then ts[j] else if j == k then t else ts[j - 1];
    }
  }

  lemma SpliceDistinct(ts: seq<Timer>, t: Timer, k: nat)
    requires DistinctAddrs(ts) && k <= |ts| && Absent(ts, t.addr)
    ensures DistinctAddrs(ts[..k] + [t] + ts[k..])
  {
    var u := ts[..k] + [t] + ts[k..];
    forall i, j | 0 <= i < j < |u| ensures u[i].addr != u[j].addr {
      assert u[i] == if i < k then ts[i] else if i == k then t else ts[i - 1];
      assert u[j] == if j < k then ts[j] else if j == k then t else ts[j - 1];
    }
  }

  lemma SpliceMultiset(ts: seq<Timer>, t: Timer, k: nat)
    requires k <= |ts|
    ensures multiset(ts[..k] + [t] + ts[k..]) == multiset(ts) + multiset{t}
  {
    assert ts == ts[..k] + ts[k..];
  }

  /** A timer whose address is not in the set is inserted, and the set stays legal. */
  lemma InsertFresh(ts: seq<Timer>, t: Timer)
    requires Ordered(ts) && Absent(ts, t.addr)
    ensures Ordered(Insert(ts, t))
    ensures multiset(Insert(ts, t)) == multiset(ts) + multiset{t}
    ensures var k := LowerBound(ts, t); Insert(ts, t) == ts[..k] + [t] + ts[k..]
  {
    var k := LowerBound(ts, t);
    InsertionPoint(ts, t);
    SpliceSorted(ts, t, k);
    SpliceDistinct(ts, t, k);
    SpliceMultiset(ts, t, k);
  }

  lemma EraseOrdered(ts: seq<Timer>, i: nat)
    requires Ordered(ts) && i < |ts|
    ensures Ordered(Erase(ts, i)) && Absent(Erase(ts, i), ts[i].addr)
    ensures multiset(ts) == multiset(Erase(ts, i)) + multiset{ts[i]}
  {
    assert ts == ts[..i] + [ts[i]] + ts[i + 1..];
  }

  lemma OrderedDrop(ts: seq<Timer>, k: nat)
    requires Ordered(ts) && k <= |ts|
    ensures Ordered(ts[k..])
  {
  }

  // ---- The operations of TimerManager and Timer ----

  /** The result of inserting: the new set, and whether the insert-at-front callback must be made. */
  datatype Added = Added(timers: Timers, notify: bool)

  function AddTimer(tm: Timers, t: Timer): Added {
    var armed := Insert(tm.armed, t);
    var at := LowerBound(tm.armed, t);
    var atFront := at == 0 && !tm.tickled;
    Added(tm.(armed := armed, tickled := tm.tickled || atFront), atFront)
  }

  /** A freshly constructed timer: its deadline is `ms` from now. */
  function NewTimer(addr: nat, ms: U64, cb: CbId, recurring: bool, now: U64): Timer {
    Timer(addr, Add64(now, ms), ms, recurring, cb)
  }

  function Cancel(tm: Timers, addr: nat): (bool, Timers) {
    match Index(tm.armed, addr)
    case None => (false, tm)
    case Some(i) => (true, tm.(armed := Erase(tm.armed, i)))
  }

  function Refresh(tm: Timers, addr: nat, now: U64): (bool, Timers) {
    match Index(tm.armed, addr)
    case None => (false, tm)
    case Some(i) =>
      var t := tm.armed[i];
      (true, tm.(armed := Insert(Erase(tm.armed, i), t.(next := Add64(now, t.ms)))))
  }

  /** The timer with its period changed; without `fromNow` it keeps the instant it was armed. */
  function Retimed(t: Timer, ms: U64, fromNow: bool, now: U64): Timer {
    var start := if fromNow then now else Sub64(t.next, t.ms);
    t.(ms := ms, next := Add64(start, ms))
  }

  /** Reset of an armed timer; the caller's shortcut for an unchanged period is part of it. */
  function Reset(tm: Timers, addr: nat, ms: U64, fromNow: bool, now: U64): (bool, Added) {
    match Index(tm.armed, addr)
    case None => (false, Added(tm, false))
    case Some(i) =>
      var t := tm.armed[i];
      if ms == t.ms && !fromNow then (true, Added(tm, false))
      else (true, AddTimer(tm.(armed := Erase(tm.armed, i)), Retimed(t, ms, fromNow, now)))
  }

  /** Milliseconds until the earliest deadline, or all ones when the set is empty. */
  function NextTimer(tm: Timers, now: U64): U64 {
    if tm.armed == [] then TWO64 - 1
    else if now >= tm.armed[0].next then 0
    else tm.armed[0].next - now
  }

  /** The clock went back by more than an hour, in the source's wrapping arithmetic. */
  predicate Rollover(previous: U64, now: U64) {
    now < previous && now < Sub64(previous, HOUR_MS)
  }

  /**
   What the wrapping test says: the clock went back by more than an hour; or, with the last time in the first
   hour after the epoch, it went back at all.
   */
  lemma RolloverMeans(previous: U64, now: U64)
    ensures Rollover(previous, now) <==> now < previous && (previous >= 3_600_000 ==> previous - now > 3_600_000)
  {
    if previous < HOUR_MS {
      assert Sub64(previous, HOUR_MS) == previous - HOUR_MS + TWO64;
    }
  }

  /** Step over the elements whose deadline is exactly `now`. */
  function SkipEqual(ts: seq<Timer>, it: nat, now: U64): (k: nat)
    requires it <= |ts|
    ensures it <= k <= |ts|
    ensures forall i | it <= i < k :: ts[i].next == now
    ensures k < |ts| ==> ts[k].next != now
    decreases |ts| - it
  {
    if it < |ts| && ts[it].next == now then SkipEqual(ts, it + 1, now) else it
  }

  /** How many elements at the front expire; `probe` is the address the search key happens to get. */
  function Cut(ts: seq<Timer>, now: U64, probe: nat, rollover: bool): (k: nat)
    ensures k <= |ts|
  {
    var it := if rollover then |ts| else LowerBound(ts, Timer(probe, now, 0, false, 0));
    SkipEqual(ts, it, now)
  }

  /** Put the recurring ones of the expired timers back, one period from now. */
  function Rearm(rest: seq<Timer>, expired: seq<Timer>, now: U64): seq<Timer>
    decreases |expired|
  {
    if expired == [] then rest
    else
      var t := expired[0];
      Rearm(if t.recurring then Insert(rest, t.(next := Add64(now, t.ms))) else rest, expired[1..], now)
  }

  /** Re-arming can be done in two goes. */
  lemma {:induction false} RearmSplit(rest: seq<Timer>, expired: seq<Timer>, i: nat, now: U64)
    requires i <= |expired|
    ensures Rearm(rest, expired, now) == Rearm(Rearm(rest, expired[..i], now), expired[i..], now)
    decreases i
  {
    if i == 0 {
      assert expired[..0] == [] && expired[0..] == expired;
    } else {
      var t := expired[0];
      var rest' := if t.recurring then Insert(rest, t.(next := Add64(now, t.ms))) else rest;
      assert expired[..i][1..] == expired[1..][..i - 1] && expired[1..][i - 1..] == expired[i..];
      RearmSplit(rest', expired[1..], i - 1, now);
    }
  }

  function Callbacks(ts: seq<Timer>): (cbs: seq<CbId>)
    ensures |cbs| == |ts|
    ensures forall i | 0 <= i < |ts| :: cbs[i] == ts[i].cb
  {
    if ts == [] then [] else [ts[0].cb] + Callbacks(ts[1..])
  }

  function ListExpired(tm: Timers, now: U64, probe: nat): (seq<CbId>, Timers) {
    var ts := tm.armed;
    if ts == [] then ([], tm)
    else
      var rollover := Rollover(tm.previous, now);
      var tm1 := tm.(previous := now);
      if !rollover && ts[0].next > now then ([], tm1)
      else
        var k := Cut(ts, now, probe, rollover);
        (Callbacks(ts[..k]), tm1.(armed := Rearm(ts[k..], ts[..k], now)))
  }

  // ---- What the expiry pass means ----

  /** How many timers, from the front, are due. */
  ghost function Due(ts: seq<Timer>, now: U64): (k: nat)
    ensures k <= |ts|
    ensures forall i | 0 <= i < k :: ts[i].next <= now
    ensures k < |ts| ==> ts[k].next > now
  {
    if ts == [] || ts[0].next > now then 0
    else
      var k := Due(ts[1..], now);
      assert forall i | 0 < i < k + 1 :: ts[i] == ts[1..][i - 1];
      k + 1
  }

  /** The search for the cut finds exactly the due timers, whatever the address of the search key. */
  lemma CutIsExact(ts: seq<Timer>, now: U64, probe: nat)
    requires Sorted(ts)
    ensures var k := Cut(ts, now, probe, false);
            && k == Due(ts, now)
            && (forall i | 0 <= i < k :: ts[i].next <= now)
            && (forall i | k <= i < |ts| :: ts[i].next > now)
    ensures Cut(ts, now, probe, true) == |ts|
  {
    var key := Timer(probe, now, 0, false, 0);
    var it := LowerBound(ts, key);
    var k := SkipEqual(ts, it, now);
    forall i | k <= i < |ts| ensures ts[i].next > now {
      assert !Less(ts[it], key);
      if it < k { assert Less(ts[it], ts[k]); }
      if k < i { assert Less(ts[k], ts[i]); }
    }
    assert forall i | 0 <= i < it :: Less(ts[i], key);
    var d := Due(ts, now);
  }

  /** The recurring members of `ts`, each re-armed one period from now. */
  ghost function Rearmed(ts: seq<Timer>, now: U64): multiset<Timer> {
    if ts == [] then multiset{}
    else (if ts[0].recurring then multiset{ts[0].(next := Add64(now, ts[0].ms))} else multiset{}) + Rearmed(ts[1..], now)
  }

  lemma {:induction false} RearmedSource(ts: seq<Timer>, now: U64, t: Timer) returns (i: nat)
    requires t in Rearmed(ts, now)
    ensures i < |ts| && ts[i].recurring && t == ts[i].(next := Add64(now, ts[i].ms))
  {
    if ts[0].recurring && t == ts[0].(next := Add64(now, ts[0].ms)) {
      i := 0;
    } else {
      var k := RearmedSource(ts[1..], now, t);
      i := k + 1;
    }
  }

  ghost predicate DisjointAddrs(a: seq<Timer>, b: seq<Timer>) {
    forall i, j | 0 <= i < |a| && 0 <= j < |b| :: a[i].addr != b[j].addr
  }

  lemma InsertKeepsDisjoint(rest: seq<Timer>, t: Timer, others: seq<Timer>)
    requires DisjointAddrs(rest, others) && Absent(others, t.addr) && Absent(rest, t.addr) && Ordered(rest)
    ensures DisjointAddrs(Insert(rest, t), others)
  {
    InsertFresh(rest, t);
  }

  /** Re-arming keeps the set legal and adds exactly the re-armed timers. */
  lemma {:induction false} RearmMeaning(rest: seq<Timer>, expired: seq<Timer>, now: U64)
    requires Ordered(rest) && DistinctAddrs(expired) && DisjointAddrs(rest, expired)
    ensures Ordered(Rearm(rest, expired, now))
    ensures multiset(Rearm(rest, expired, now)) == multiset(rest) + Rearmed(expired, now)
    decreases |expired|
  {
    if expired != [] {
      var t := expired[0];
      assert Absent(expired[1..], t.addr) && DistinctAddrs(expired[1..]) && DisjointAddrs(rest, expired[1..]);
      if t.recurring {
        var t' := t.(next := Add64(now, t.ms));
        assert Absent(rest, t'.addr);
        InsertFresh(rest, t');
        InsertKeepsDisjoint(rest, t', expired[1..]);
        RearmMeaning(Insert(rest, t'), expired[1..], now);
      } else {
        RearmMeaning(rest, expired[1..], now);
      }
    }
  }

  lemma DistinctSplit(ts: seq<Timer>, k: nat)
    requires DistinctAddrs(ts) && k <= |ts|
    ensures DistinctAddrs(ts[..k]) && DisjointAddrs(ts[k..], ts[..k])
  {
  }

  /**
   The expiry pass: the callbacks handed over are those of the due timers, in comparator order (of all
   timers after a clock rollover), and what stays armed is the others plus the recurring ones, one period on.
   */
  lemma ExpiryMeaning(tm: Timers, now: U64, probe: nat)
    requires Ordered(tm.armed)
    ensures var (cbs, tm') := ListExpired(tm, now, probe);
            var k := if Rollover(tm.previous, now) then |tm.armed| else Due(tm.armed, now);
            && cbs == Callbacks(tm.armed[..k])
            && (tm.armed != [] ==> tm'.previous == now)
            && tm'.tickled == tm.tickled
            && Ordered(tm'.armed)
            && multiset(tm'.armed) == multiset(tm.armed[k..]) + Rearmed(tm.armed[..k], now)
            && (k == 0 ==> tm'.armed == tm.armed)
  {
    CutIsExact(tm.armed, now, probe);
    var k := if Rollover(tm.previous, now) then |tm.armed| else Due(tm.armed, now);
    if tm.armed != [] {
      OrderedDrop(tm.armed, k);
      DistinctSplit(tm.armed, k);
      RearmMeaning(tm.armed[k..], tm.armed[..k], now);
      if k == 0 {
        assert tm.armed[..k] == [] && tm.armed[k..] == tm.armed;
      }
    }
  }

  lemma {:induction false} NothingRearmed(ts: seq<Timer>, now: U64)
    ensures Rearmed(ts, now) == multiset{} <==> forall t | t in ts :: !t.recurring
  {
    if ts != [] {
      NothingRearmed(ts[1..], now);
      assert forall t | t in ts :: t == ts[0] || t in ts[1..];
      assert ts[0] in ts;
    }
  }

  predicate Expires(tm: Timers, now: U64, t: Timer) {
    Rollover(tm.previous, now) || t.next <= now
  }

  lemma EmptyBag(ts: seq<Timer>)
    ensures ts == [] <==> multiset(ts) == multiset{}
  {
    if ts != [] {
      assert ts[0] in multiset(ts);
    }
  }

  lemma SumEmpty(a: multiset<Timer>, b: multiset<Timer>)
    ensures a + b == multiset{} <==> a == multiset{} && b == multiset{}
  {
    if a + b == multiset{} {
      assert forall t :: (a + b)[t] == 0;
    }
  }

  /** The number of timers an expiry pass takes. */
  ghost function Taken(tm: Timers, now: U64): (k: nat)
    ensures k <= |tm.armed|
  {
    if Rollover(tm.previous, now) then |tm.armed| else Due(tm.armed, now)
  }

  lemma TakenAreExpired(tm: Timers, now: U64, i: nat)
    requires Sorted(tm.armed) && i < |tm.armed|
    ensures i < Taken(tm, now) <==> Expires(tm, now, tm.armed[i])
  {
    CutIsExact(tm.armed, now, 0);
  }

  /** The pass leaves no timer armed exactly when all are due and none recurs. */
  lemma ExpiryEmpties(tm: Timers, now: U64, probe: nat)
    requires Ordered(tm.armed)
    ensures ListExpired(tm, now, probe).1.armed == [] <==> forall t | t in tm.armed :: !t.recurring && Expires(tm, now, t)
    ensures (exists t :: t in tm.armed && Expires(tm, now, t)) ==> ListExpired(tm, now, probe).0 != []
  {
    var ts, k := tm.armed, Taken(tm, now);
    ExpiryMeaning(tm, now, probe);
    EmptyBag(ListExpired(tm, now, probe).1.armed);
    EmptyBag(ts[k..]);
    SumEmpty(multiset(ts[k..]), Rearmed(ts[..k], now));
    NothingRearmed(ts[..k], now);
    forall i | 0 <= i < |ts| ensures i < k <==> Expires(tm, now, ts[i]) {
      TakenAreExpired(tm, now, i);
    }
    if k == |ts| {
      assert ts[..k] == ts;
    } else {
      assert ts[k] in ts;
    }
  }
}
