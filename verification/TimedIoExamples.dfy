/**
 Two runs of several workers, each from the beginning. The timeout callback of a call runs after the call has
 added its timer and before it parks: in the first run the timeout is lost, in the second the callback outlives
 its call and wakes the next one.
 */
module TimedIoExamples {
  import opened Wrappers
  import opened Tasks
  import opened TimerTasks
  import opened TimedIo
  import opened TimedIoTheorems
  import Q = TimedIoProofs
  import Io = IoSpec
  import P = IoProofs
  import T = TimerSpec

  /** A call of fibre 1 on fd 5 with a timeout of 10 ms, before it has armed its timer, and after. */
  const CALL := Call(1, 5, Io.READ, Some(10), Running, false, None, None, None, false)
  const PARKING := CALL.(phase := Armed, timer := Some(100), cb := Some(7), firstWait := Some(0))
  const TIMER := T.Timer(100, 10, 10, false, 7)

  ghost function Start(size: nat): State {
    State(Io.Initial(size), T.Timers([], false, 0), 0, map[], map[], [])
  }

  /** A state of the first call, when its timer is out and the clock shows 10. */
  ghost function After(io: Io.Io, c: Call, acting: seq<Half>): State {
    State(io, T.Timers([], true, 10), 10, map[0 := c], map[7 := 0], acting)
  }

  lemma ExpiresAlone(tm: T.Timers, t: T.Timer)
    requires tm.armed == [t] && t.next == 10 && !t.recurring && tm.previous == 0
    ensures T.ListExpired(tm, 10, 0) == ([t.cb], tm.(armed := [], previous := 10))
    ensures CbEntries([t.cb]) == [Entry(CbTask(t.cb), -1)]
  {
    T.ExpiryMeaning(tm, 10, 0);
    T.CutIsExact(tm.armed, 10, 0);
    assert tm.armed[..1] == [t] && tm.armed[1..] == [] && [t][1..] == [];
    assert T.Due([t], 10) == 1;
    assert T.Callbacks([t]) == [t.cb] && T.Rearm([], [t], 10) == [];
  }

  /** The call adds its timer, and 10 ms pass. */
  lemma TimerOut(size: nat) returns (actions: seq<Action>)
    requires size >= 32
    ensures Init(Start(size))
    ensures Run(Start(size), actions, State(Io.Initial(size), T.Timers([TIMER], true, 0), 10, map[0 := PARKING], map[7 := 0], []))
  {
    var s0 := Start(size);
    var io := Io.Initial(size);
    P.InitialInv(size);
    assert Io.Held(io, FibreTask(1)) == 0 && Io.Held(io, CbTask(7)) == 0;
    var s1 := s0.(calls := map[0 := CALL]);
    assert Run(s0, [], s0);
    RunSnoc(s0, [], s0, Enter(0, 1, 5, Io.READ, Some(10)));
    assert T.Insert([], TIMER) == [TIMER] && T.NewTimer(100, 10, 7, false, 0) == TIMER;
    var s2 := State(io, T.Timers([TIMER], true, 0), 0, map[0 := PARKING], map[7 := 0], []);
    assert s1.calls[0 := PARKING] == s2.calls && s1.owner[7 := 0] == s2.owner;
    assert Next(s1, Arm(0, 100, 7)) == Some(s2);
    RunSnoc(s0, [] + [Enter(0, 1, 5, Io.READ, Some(10))], s1, Arm(0, 100, 7));
    actions := [] + [Enter(0, 1, 5, Io.READ, Some(10))] + [Arm(0, 100, 7)];
    RunSnoc(s0, actions, s2, Tick(10));
    actions := actions + [Tick(10)];
  }

  /** Then its callback is queued and taken, and goes on because the flag is clear. */
  lemma CallbackOut(size: nat) returns (actions: seq<Action>)
    requires size >= 32
    ensures Init(Start(size))
    ensures Run(Start(size), actions, After(Io.Initial(size), PARKING, [Half(7, false)]))
  {
    var s0, io := Start(size), Io.Initial(size);
    actions := TimerOut(size);
    var s3 := State(io, T.Timers([TIMER], true, 0), 10, map[0 := PARKING], map[7 := 0], []);
    ExpiresAlone(s3.tm, TIMER);
    var s4 := After(io.(queue := [Entry(CbTask(7), -1)]), PARKING, []);
    assert [] + [Entry(CbTask(7), -1)] == [Entry(CbTask(7), -1)];
    assert Next(s3, Expire(0)) == Some(s4);
    RunSnoc(s0, actions, s3, Expire(0));
    actions := actions + [Expire(0)];
    var s5 := After(io, PARKING, [Half(7, false)]);
    assert Without(s4.io.queue, 0) == [] && s4.io.(queue := []) == io && [] + [Half(7, false)] == [Half(7, false)];
    assert Next(s4, RunCb(0)) == Some(s5);
    RunSnoc(s0, actions, s4, RunCb(0));
    actions := actions + [RunCb(0)];
  }

  /** It sets the flag, but is stopped before it withdraws the event. */
  lemma FlagOut(size: nat) returns (actions: seq<Action>)
    requires size >= 32
    ensures Init(Start(size))
    ensures Run(Start(size), actions, After(Io.Initial(size), PARKING.(cancelled := true), [Half(7, true)]))
  {
    actions := CallbackOut(size);
    var s5 := After(Io.Initial(size), PARKING, [Half(7, false)]);
    var s6 := After(Io.Initial(size), PARKING.(cancelled := true), [Half(7, true)]);
    assert s5.calls[0 := s6.calls[0]] == s6.calls && [Half(7, false)][0 := Half(7, true)] == [Half(7, true)];
    assert Next(s5, SetFlag(0)) == Some(s6);
    RunSnoc(Start(size), actions, s5, SetFlag(0));
    actions := actions + [SetFlag(0)];
  }

  /**
   With several workers a timeout can be lost: the callback has run when the call parks. The call is then parked
   with no callback left to wake it.
   */
  lemma TimeoutCanBeLost(size: nat) returns (s0: State, actions: seq<Action>, s: State)
    requires size >= 32
    ensures Init(s0) && Run(s0, actions, s)
    ensures 0 in s.calls && s.calls[0].phase.Waiting? && TimeReached(s, s.calls[0])
    ensures !Queued(s, 0) && !LiveTimeout(s, 0) && s.tm.armed == [] && s.io.queue == [] && s.acting == []
  {
    s0 := Start(size);
    var io := Io.Initial(size);
    P.InitialInv(size);
    actions := FlagOut(size);
    var flagged := PARKING.(cancelled := true);
    var s1 := After(io, flagged, [Half(7, true)]);
    P.CancelEventMeaning(io, 5, Io.READ, false);
    assert Without([Half(7, true)], 0) == [];
    var s2 := After(io, flagged, []);
    assert Next(s1, Withdraw(0, false)) == Some(s2);
    RunSnoc(s0, actions, s1, Withdraw(0, false));
    actions := actions + [Withdraw(0, false)];
    Q.AddEventPlaces(io, 5, Io.READ, FibreTask(1));
    RunSnoc(s0, actions, s2, Register(0, false));
    actions := actions + [Register(0, false)];
    s := Next(s2, Register(0, false)).value;
  }

  // ---- A callback that outlives its call ----

  /** Fibre 1 is registered for reading fd 5. */
  ghost function Reading(io: Io.Io): Io.Io
    requires |io.fds| > 5
  {
    io.(fds := io.fds[5 := Io.FdContext(Io.Only(Io.READ), Io.EventContext(true, Some(1), None), Io.EMPTY)],
        pending := 1, kernel := map[5 := Io.Only(Io.READ)])
  }

  /** Registering for it, and being woken by withdrawing it or by a report. */
  lemma ReadAndWoken(size: nat)
    requires size >= 32
    ensures var io := Io.Initial(size);
            && Io.AddEvent(io, 5, Io.READ, FibreTask(1), false) == Io.Done(true, Reading(io))
            && Io.CancelEvent(Reading(io), 5, Io.READ, false) == Io.Done(true, io.(queue := [Entry(FibreTask(1), -1)]))
            && Io.HandleAll(Reading(io), [(Io.Ready(5, true, false, false), false)]) == Io.Done(true, io.(queue := [Entry(FibreTask(1), -1)]))
            && P.GoodReports(Reading(io), [(Io.Ready(5, true, false, false), false)])
  {
    var io := Io.Initial(size);
    var report := (Io.Ready(5, true, false, false), false);
    var woken := io.(queue := [Entry(FibreTask(1), -1)]);
    assert Reading(io).fds[5 := Io.NOTHING] == io.fds;
    assert Reading(io).kernel - {5} == map[];
    assert [] + [Entry(FibreTask(1), -1)] == [Entry(FibreTask(1), -1)];
    assert Io.HandleReady(Reading(io), report.0, false) == Io.Done(true, woken);
    assert [report][1..] == [];
  }

  /** The call parks after all, and its fd becomes ready. */
  lemma CallIsReady(size: nat) returns (actions: seq<Action>)
    requires size >= 32
    ensures Init(Start(size))
    ensures Run(Start(size), actions,
                After(Io.Initial(size).(queue := [Entry(FibreTask(1), -1)]), PARKING.(cancelled := true, phase := Waiting), [Half(7, true)]))
  {
    var s0, io := Start(size), Io.Initial(size);
    var half := [Half(7, true)];
    var flagged := PARKING.(cancelled := true);
    var reports := [(Io.Ready(5, true, false, false), false)];
    ReadAndWoken(size);
    actions := FlagOut(size);
    var s6 := After(io, flagged, half);
    var s7 := After(Reading(io), flagged.(phase := Waiting), half);
    assert half[0] in half && Pending(half, s6.owner, 0);
    assert s6.calls[0 := s7.calls[0]] == s7.calls && Next(s6, Register(0, false)) == Some(s7);
    RunSnoc(s0, actions, s6, Register(0, false));
    actions := actions + [Register(0, false)];
    var s8 := After(io.(queue := [Entry(FibreTask(1), -1)]), flagged.(phase := Waiting), half);
    assert Next(s7, Ready(reports)) == Some(s8);
    RunSnoc(s0, actions, s7, Ready(reports));
    actions := actions + [Ready(reports)];
  }

  /** It returns ETIMEDOUT; its callback is still being run. */
  lemma CallReturns(size: nat) returns (actions: seq<Action>)
    requires size >= 32
    ensures Init(Start(size))
    ensures Run(Start(size), actions, After(Io.Initial(size), PARKING.(cancelled := true, phase := Returned(true)), [Half(7, true)]))
  {
    actions := CallIsReady(size);
    var io, flagged := Io.Initial(size), PARKING.(cancelled := true);
    var s8 := After(io.(queue := [Entry(FibreTask(1), -1)]), flagged.(phase := Waiting), [Half(7, true)]);
    var s9 := After(io, flagged.(phase := Returned(true)), [Half(7, true)]);
    assert Without(s8.io.queue, 0) == [] && s8.calls[0 := s9.calls[0]] == s9.calls;
    assert Next(s8, Resume(0, 0)) == Some(s9);
    RunSnoc(Start(size), actions, s8, Resume(0, 0));
    actions := actions + [Resume(0, 0)];
  }

  /** The same fibre's next call, on the same fd, without a timeout. */
  const NEXT := Call(1, 5, Io.READ, None, Running, false, None, None, None, false)

  ghost function Then(io: Io.Io, c: Call, acting: seq<Half>): State {
    After(io, PARKING, acting).(calls := map[0 := PARKING.(cancelled := true, phase := Returned(true)), 1 := c])
  }

  lemma NextCallArms(size: nat) returns (actions: seq<Action>)
    requires size >= 32
    ensures Init(Start(size))
    ensures Run(Start(size), actions, Then(Io.Initial(size), NEXT.(phase := Armed, firstWait := Some(10)), [Half(7, true)]))
  {
    var s0, io := Start(size), Io.Initial(size);
    var half := [Half(7, true)];
    P.InitialInv(size);
    actions := CallReturns(size);
    var s9 := After(io, PARKING.(cancelled := true, phase := Returned(true)), half);
    var s10 := Then(io, NEXT, half);
    assert Io.Held(io, FibreTask(1)) == 0 && Io.Held(io, CbTask(8)) == 0;
    assert s9.calls[1 := NEXT] == s10.calls && Next(s9, Enter(1, 1, 5, Io.READ, None)) == Some(s10);
    RunSnoc(s0, actions, s9, Enter(1, 1, 5, Io.READ, None));
    actions := actions + [Enter(1, 1, 5, Io.READ, None)];
    var s11 := Then(io, NEXT.(phase := Armed, firstWait := Some(10)), half);
    assert s10.calls[1 := s11.calls[1]] == s11.calls && Next(s10, Arm(1, 101, 8)) == Some(s11);
    RunSnoc(s0, actions, s10, Arm(1, 101, 8));
    actions := actions + [Arm(1, 101, 8)];
  }

  lemma NextCallParks(size: nat) returns (actions: seq<Action>)
    requires size >= 32
    ensures Init(Start(size))
    ensures Run(Start(size), actions, Then(Reading(Io.Initial(size)), NEXT.(phase := Waiting, firstWait := Some(10)), [Half(7, true)]))
  {
    actions := NextCallArms(size);
    ReadAndWoken(size);
    var io := Io.Initial(size);
    var s11 := Then(io, NEXT.(phase := Armed, firstWait := Some(10)), [Half(7, true)]);
    var s12 := Then(Reading(io), NEXT.(phase := Waiting, firstWait := Some(10)), [Half(7, true)]);
    assert s11.calls[1 := s12.calls[1]] == s12.calls && Next(s11, Register(1, false)) == Some(s12);
    RunSnoc(Start(size), actions, s11, Register(1, false));
    actions := actions + [Register(1, false)];
  }

  /**
   With several workers the callback of a call that has returned can wake a later call: that one waits without a
   timeout, nothing was reported for its fd, and the callback withdraws its registration and queues its fibre.
   */
  lemma LeftoverCanHurt(size: nat) returns (s0: State, actions: seq<Action>, s: State)
    requires size >= 32
    ensures Init(s0) && Run(s0, actions, s)
    ensures 0 in s.calls && s.calls[0].phase == Returned(true)
    ensures 1 in s.calls && s.calls[1].phase.Waiting? && s.calls[1].to.None? && Registered(s, 1) && s.io.queue == []
    ensures Enabled(s, Withdraw(0, false)) && s.acting[0].cb in s.owner && s.owner[s.acting[0].cb] == 0
    ensures Next(s, Withdraw(0, false)).Some?
    ensures var s' := Next(s, Withdraw(0, false)).value;
            1 in s'.calls && !Registered(s', 1) && s'.io.queue == [Entry(FibreTask(1), -1)]
  {
    s0 := Start(size);
    actions := NextCallParks(size);
    s := Then(Reading(Io.Initial(size)), NEXT.(phase := Waiting, firstWait := Some(10)), [Half(7, true)]);
    ReadAndWoken(size);
  }
  // ---- A call that waits twice ----

  /** A run of one worker from the beginning. */
  ghost predicate Serial(size: nat, actions: seq<Action>, s: State) {
    Init(Start(size)) && Run(Start(size), actions, s) && OneWorker(Start(size), actions)
  }

  lemma Onward(size: nat, actions: seq<Action>, s: State, a: Action, s1: State)
    requires Serial(size, actions, s) && Enabled(s, a) && ByOneWorker(s, a) && Next(s, a) == Some(s1)
    ensures Serial(size, actions + [a], s1)
  {
    RunSnoc(Start(size), actions, s, a);
    OneWorkerSnoc(Start(size), actions, s, a);
  }

  const WAITING := PARKING.(phase := Waiting)

  /** The call adds its timer, which is due at 10, and parks. */
  lemma FirstWait(size: nat) returns (actions: seq<Action>)
    requires size >= 32
    ensures Serial(size, actions, State(Reading(Io.Initial(size)), T.Timers([TIMER], true, 0), 0, map[0 := WAITING], map[7 := 0], []))
    ensures |actions| == 3 && actions[1] == Arm(0, 100, 7)
  {
    FirstArm(size);
    actions := [Enter(0, 1, 5, Io.READ, Some(10)), Arm(0, 100, 7)];
    FirstPark(size, actions);
    actions := actions + [Register(0, false)];
  }

  lemma FirstArm(size: nat)
    requires size >= 32
    ensures Serial(size, [Enter(0, 1, 5, Io.READ, Some(10)), Arm(0, 100, 7)],
                   State(Io.Initial(size), T.Timers([TIMER], true, 0), 0, map[0 := PARKING], map[7 := 0], []))
  {
    P.InitialInv(size);
    assert Io.Held(Io.Initial(size), FibreTask(1)) == 0 && Io.Held(Io.Initial(size), CbTask(7)) == 0;
    var s0 := Start(size);
    var s1 := s0.(calls := map[0 := CALL]);
    assert Run(s0, [], s0) && Serial(size, [], s0);
    Onward(size, [], s0, Enter(0, 1, 5, Io.READ, Some(10)), s1);
    assert T.Insert([], TIMER) == [TIMER] && T.NewTimer(100, 10, 7, false, 0) == TIMER;
    var s2 := State(Io.Initial(size), T.Timers([TIMER], true, 0), 0, map[0 := PARKING], map[7 := 0], []);
    assert s1.calls[0 := PARKING] == s2.calls && s1.owner[7 := 0] == s2.owner;
    Onward(size, [] + [Enter(0, 1, 5, Io.READ, Some(10))], s1, Arm(0, 100, 7), s2);
    assert [] + [Enter(0, 1, 5, Io.READ, Some(10))] + [Arm(0, 100, 7)] == [Enter(0, 1, 5, Io.READ, Some(10)), Arm(0, 100, 7)];
  }

  lemma FirstPark(size: nat, actions: seq<Action>)
    requires size >= 32
    requires Serial(size, actions, State(Io.Initial(size), T.Timers([TIMER], true, 0), 0, map[0 := PARKING], map[7 := 0], []))
    ensures Serial(size, actions + [Register(0, false)],
                   State(Reading(Io.Initial(size)), T.Timers([TIMER], true, 0), 0, map[0 := WAITING], map[7 := 0], []))
  {
    ReadAndWoken(size);
    var s2 := State(Io.Initial(size), T.Timers([TIMER], true, 0), 0, map[0 := PARKING], map[7 := 0], []);
    var s3 := State(Reading(Io.Initial(size)), T.Timers([TIMER], true, 0), 0, map[0 := WAITING], map[7 := 0], []);
    assert s2.calls[0 := WAITING] == s3.calls;
    Onward(size, actions, s2, Register(0, false), s3);
  }

  const CB_ENTRY := Entry(CbTask(7), -1)
  const FIBRE_ENTRY := Entry(FibreTask(1), -1)

  /** At 10 the timer expires; in the same pass the fd is reported ready: callback and fibre are queued, in that order. */
  lemma BothQueued(size: nat) returns (actions: seq<Action>)
    requires size >= 32
    ensures Serial(size, actions, After(Io.Initial(size).(queue := [CB_ENTRY, FIBRE_ENTRY]), WAITING, []))
    ensures |actions| == 6 && actions[1] == Arm(0, 100, 7)
  {
    actions := FirstWait(size);
    var io := Io.Initial(size);
    var s3 := State(Reading(io), T.Timers([TIMER], true, 0), 0, map[0 := WAITING], map[7 := 0], []);
    var s4 := s3.(now := 10);
    Onward(size, actions, s3, Tick(10), s4);
    ExpiresAlone(s4.tm, TIMER);
    var s5 := After(Reading(io).(queue := [CB_ENTRY]), WAITING, []);
    assert [] + [CB_ENTRY] == [CB_ENTRY];
    Onward(size, actions + [Tick(10)], s4, Expire(0), s5);
    ReadyBehind(size);
    var reports := [(Io.Ready(5, true, false, false), false)];
    var s6 := After(io.(queue := [CB_ENTRY, FIBRE_ENTRY]), WAITING, []);
    assert Next(s5, Ready(reports)) == Some(s6);
    Onward(size, actions + [Tick(10)] + [Expire(0)], s5, Ready(reports), s6);
    actions := actions + [Tick(10)] + [Expire(0)] + [Ready(reports)];
  }

  lemma ReadyBehind(size: nat)
    requires size >= 32
    ensures var io, reports := Reading(Io.Initial(size)).(queue := [CB_ENTRY]), [(Io.Ready(5, true, false, false), false)];
            && P.GoodReports(io, reports)
            && Io.HandleAll(io, reports) == Io.Done(true, Io.Initial(size).(queue := [CB_ENTRY, FIBRE_ENTRY]))
  {
    var io := Reading(Io.Initial(size)).(queue := [CB_ENTRY]);
    var report := (Io.Ready(5, true, false, false), false);
    assert io.fds[5 := Io.NOTHING] == Io.Initial(size).fds && io.kernel - {5} == map[];
    assert [CB_ENTRY] + [FIBRE_ENTRY] == [CB_ENTRY, FIBRE_ENTRY];
    assert Io.HandleReady(io, report.0, false) == Io.Done(true, Io.Initial(size).(queue := [CB_ENTRY, FIBRE_ENTRY]));
    assert [report][1..] == [];
  }

  /** The second wait's timer, due at 20. */
  const AGAIN := T.Timer(101, 20, 10, false, 8)
  const WAITING_AGAIN := WAITING.(timer := Some(101), cb := Some(8))

  /** States after the call has added its second timer; the clock shows 10 throughout. */
  ghost function Second(io: Io.Io, c: Call, acting: seq<Half>): State {
    State(io, T.Timers([AGAIN], true, 10), 10, map[0 := c], map[7 := 0, 8 := 0], acting)
  }

  /** The fibre is taken up first: the flag is clear, so the call tries again, and waits a second time. */
  lemma SecondWait(size: nat) returns (actions: seq<Action>)
    requires size >= 32
    ensures Serial(size, actions, Second(Reading(Io.Initial(size)).(queue := [CB_ENTRY]), WAITING_AGAIN, []))
    ensures |actions| == 9 && actions[1] == Arm(0, 100, 7) && actions[7] == Arm(0, 101, 8)
  {
    actions := BothQueued(size);
    var io := Io.Initial(size);
    var s6 := After(io.(queue := [CB_ENTRY, FIBRE_ENTRY]), WAITING, []);
    var s7 := After(io.(queue := [CB_ENTRY]), WAITING.(phase := Running), []);
    assert Without([CB_ENTRY, FIBRE_ENTRY], 1) == [CB_ENTRY] && s6.calls[0 := s7.calls[0]] == s7.calls;
    assert forall k | Active(s6, k) :: s6.calls[k].phase.Waiting?;
    Onward(size, actions, s6, Resume(0, 1), s7);
    actions := actions + [Resume(0, 1)];
    var s8 := Second(io.(queue := [CB_ENTRY]), WAITING_AGAIN.(phase := Armed), []);
    SecondArm(size, s7, s8);
    Onward(size, actions, s7, Arm(0, 101, 8), s8);
    actions := actions + [Arm(0, 101, 8)];
    SecondPark(size, actions);
    actions := actions + [Register(0, false)];
  }

  lemma SecondArm(size: nat, s7: State, s8: State)
    requires size >= 32
    requires s7 == After(Io.Initial(size).(queue := [CB_ENTRY]), WAITING.(phase := Running), [])
    requires s8 == Second(Io.Initial(size).(queue := [CB_ENTRY]), WAITING_AGAIN.(phase := Armed), [])
    ensures Enabled(s7, Arm(0, 101, 8)) && Next(s7, Arm(0, 101, 8)) == Some(s8)
  {
    P.InitialInv(size);
    assert Io.Held(Io.Initial(size), CbTask(8)) == 0 && QueueCount([CB_ENTRY], CbTask(8)) == 0;
    assert T.Insert([], AGAIN) == [AGAIN] && T.NewTimer(101, 10, 8, false, 10) == AGAIN;
    assert s7.calls[0 := s8.calls[0]] == s8.calls && s7.owner[8 := 0] == s8.owner;
  }

  lemma SecondPark(size: nat, actions: seq<Action>)
    requires size >= 32 && Serial(size, actions, Second(Io.Initial(size).(queue := [CB_ENTRY]), WAITING_AGAIN.(phase := Armed), []))
    ensures Serial(size, actions + [Register(0, false)], Second(Reading(Io.Initial(size)).(queue := [CB_ENTRY]), WAITING_AGAIN, []))
  {
    var io := Io.Initial(size).(queue := [CB_ENTRY]);
    var s8 := Second(io, WAITING_AGAIN.(phase := Armed), []);
    var s9 := Second(Reading(Io.Initial(size)).(queue := [CB_ENTRY]), WAITING_AGAIN, []);
    assert s8.calls[0 := WAITING_AGAIN] == s9.calls;
    assert Io.AddEvent(io, 5, Io.READ, FibreTask(1), false) == Io.Done(true, s9.io);
    Onward(size, actions, s8, Register(0, false), s9);
  }

  /** Now the first wait's callback is taken up, and sets the flag. */
  lemma FlaggedByTheFirst(size: nat) returns (actions: seq<Action>)
    requires size >= 32
    ensures Serial(size, actions, Second(Reading(Io.Initial(size)), WAITING_AGAIN.(cancelled := true), [Half(7, true)]))
    ensures |actions| == 11 && actions[1] == Arm(0, 100, 7) && actions[7] == Arm(0, 101, 8)
  {
    actions := SecondWait(size);
    var io, flagged := Io.Initial(size), WAITING_AGAIN.(cancelled := true);
    var s9 := Second(Reading(io).(queue := [CB_ENTRY]), WAITING_AGAIN, []);
    var s10 := Second(Reading(io), WAITING_AGAIN, [Half(7, false)]);
    assert Without([CB_ENTRY], 0) == [] && [] + [Half(7, false)] == [Half(7, false)] && s9.io.(queue := []) == Reading(io);
    assert forall k | Active(s9, k) :: s9.calls[k].phase.Waiting?;
    Onward(size, actions, s9, RunCb(0), s10);
    actions := actions + [RunCb(0)];
    var s11 := Second(Reading(io), flagged, [Half(7, true)]);
    assert s10.calls[0 := flagged] == s11.calls && [Half(7, false)][0 := Half(7, true)] == [Half(7, true)];
    Onward(size, actions, s10, SetFlag(0), s11);
    actions := actions + [SetFlag(0)];
  }

  /** It wakes the call from its second wait. */
  lemma WokenByTheFirst(size: nat) returns (actions: seq<Action>)
    requires size >= 32
    ensures Serial(size, actions, Second(Io.Initial(size).(queue := [FIBRE_ENTRY]), WAITING_AGAIN.(cancelled := true), []))
    ensures |actions| == 12 && actions[1] == Arm(0, 100, 7) && actions[7] == Arm(0, 101, 8)
  {
    actions := FlaggedByTheFirst(size);
    var io, flagged := Io.Initial(size), WAITING_AGAIN.(cancelled := true);
    var s11 := Second(Reading(io), flagged, [Half(7, true)]);
    ReadAndWoken(size);
    var s12 := Second(io.(queue := [FIBRE_ENTRY]), flagged, []);
    assert Without([Half(7, true)], 0) == [] && s11.calls[0 := flagged] == s12.calls;
    Onward(size, actions, s11, Withdraw(0, false), s12);
    actions := actions + [Withdraw(0, false)];
  }

  /**
   Even with one worker a call can wait twice and then report ETIMEDOUT before its second timer is due: the first
   wait's callback was queued before the call woke and cancelled its timer. The timeout has passed since the
   first wait, but not since the second: here that began in the same millisecond.
   */
  lemma RetryTimesOut(size: nat) returns (s0: State, actions: seq<Action>, s: State)
    requires size >= 32
    ensures Init(s0) && Run(s0, actions, s) && OneWorker(s0, actions)
    ensures |actions| == 13 && actions[1] == Arm(0, 100, 7) && actions[7] == Arm(0, 101, 8)
    ensures 0 in s.calls && s.calls[0].phase == Returned(true) && s.calls[0].to == Some(10)
    ensures s.calls[0].firstWait == Some(0) && s.now == 10
  {
    s0 := Start(size);
    actions := WokenByTheFirst(size);
    var flagged := WAITING_AGAIN.(cancelled := true);
    var s12 := Second(Io.Initial(size).(queue := [FIBRE_ENTRY]), flagged, []);
    s := Second(Io.Initial(size), flagged.(phase := Returned(true)), []).(tm := T.Timers([], true, 10));
    assert Without([FIBRE_ENTRY], 0) == [] && s12.calls[0 := s.calls[0]] == s.calls;
    assert T.Erase([AGAIN], 0) == [];
    assert forall k | Active(s12, k) :: s12.calls[k].phase.Waiting?;
    Onward(size, actions, s12, Resume(0, 0), s);
    actions := actions + [Resume(0, 0)];
  }
}
