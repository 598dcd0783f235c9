/**
 The scheduler's queue as the program has it: a list that `schedule` appends to and a worker's scan takes from,
 and the counters of busy and idle workers.
 */
module Schedulers {
  import opened Wrappers
  import opened Tasks
  import Io = IoSpec
  import R = Runtime

  /** What a callback slot, and a list of them, adds to the queue; empty slots add nothing. */
  function SlotEntry(slot: Option<CbId>): seq<Entry> {
    if slot.Some? then [Entry(CbTask(slot.value), -1)] else []
  }

  function SlotEntries(slots: seq<Option<CbId>>): seq<Entry> {
    if slots == [] then [] else SlotEntry(slots[0]) + SlotEntries(slots[1..])
  }

  lemma {:induction false} SlotEntriesAppend(slots: seq<Option<CbId>>, slot: Option<CbId>)
    ensures SlotEntries(slots + [slot]) == SlotEntries(slots) + SlotEntry(slot)
  {
    if slots == [] {
      assert [] + [slot] == [slot];
    } else {
      SlotEntriesAppend(slots[1..], slot);
      assert (slots + [slot])[1..] == slots[1..] + [slot];
      Assoc(SlotEntry(slots[0]), SlotEntries(slots[1..]), SlotEntry(slot));
    }
  }

  lemma Assoc<X>(a: seq<X>, b: seq<X>, c: seq<X>)
    ensures a + b + c == a + (b + c)
  {
  }

  /** An entry of the queue that only another thread may take. */
  predicate Pinned(e: Entry, tid: int) {
    e.thread != -1 && e.thread != tid
  }

  class Scheduler {
    var fibres: seq<Entry>
    var activeThreadCount: nat
    var idleThreadCount: nat
    var stopFlag: bool
    var autoStop: bool

    constructor ()
      ensures fibres == [] && activeThreadCount == 0 && idleThreadCount == 0 && stopFlag && !autoStop
    {
      fibres, activeThreadCount, idleThreadCount, stopFlag, autoStop := [], 0, 0, true, false;
    }

    /** scheduleNoLock: the wake-up is asked for when the queue was empty, even if nothing gets queued. */
    method ScheduleNoLock(task: Option<Task>, thread: int) returns (needTickle: bool)
      modifies this`fibres
      ensures fibres == Io.Push(old(fibres), task, thread)
      ensures needTickle == (old(fibres) == [])
    {
      needTickle := fibres == [];
      if task.Some? {
        fibres := fibres + [Entry(task.value, thread)];
      }
    }

    /** The batch form: each slot is moved into the queue and left empty, in order. */
    method ScheduleAll(slots: array<Option<CbId>>) returns (needTickle: bool)
      modifies this`fibres, slots
      ensures fibres == old(fibres) + SlotEntries(old(slots[..]))
      ensures forall i | 0 <= i < slots.Length :: slots[i].None?
      ensures needTickle == (old(fibres) == [] && slots.Length > 0)
    {
      needTickle := false;
      ghost var before := slots[..];
      for i := 0 to slots.Length
        invariant forall j | 0 <= j < i :: slots[j].None?
        invariant forall j | i <= j < slots.Length :: slots[j] == before[j]
        invariant fibres == old(fibres) + SlotEntries(before[..i])
        invariant needTickle == (old(fibres) == [] && i > 0)
      {
        SlotEntriesAppend(before[..i], before[i]);
        assert before[..i + 1] == before[..i] + [before[i]];
        var cb := slots[i];
        slots[i] := None;
        var empty := ScheduleNoLock(if cb.Some? then Some(CbTask(cb.value)) else None, -1);
        needTickle := empty || needTickle;
      }
      assert before[..slots.Length] == before;
    }

    /**
     A worker's scan: it takes the first entry that is not pinned to another thread and not a fibre still
     executing. `tickleMe` says that others should look: a pinned entry was passed over, or entries follow.
     */
    method Take(tid: int, states: map<FibreId, R.FibreState>) returns (taken: Option<Entry>, tickleMe: bool)
      modifies this`fibres, this`activeThreadCount
      ensures var i := R.Scan(old(fibres), tid, states);
              match i
              case Some(k) =>
                && taken == Some(old(fibres)[k]) && fibres == Without(old(fibres), k)
                && activeThreadCount == old(activeThreadCount) + 1
                && (tickleMe <==> k + 1 < |old(fibres)| || exists j :: 0 <= j < k && Pinned(old(fibres)[j], tid))
              case None =>
                && taken.None? && fibres == old(fibres) && activeThreadCount == old(activeThreadCount)
                && (tickleMe <==> exists j :: 0 <= j < |old(fibres)| && Pinned(old(fibres)[j], tid))
    {
      taken, tickleMe := None, false;
      var i := 0;
      while i < |fibres|
        invariant i <= |fibres| && fibres == old(fibres) && activeThreadCount == old(activeThreadCount) && taken.None?
        invariant forall j | 0 <= j < i :: !R.Takeable(fibres[j], tid, states)
        invariant tickleMe <==> exists j :: 0 <= j < i && Pinned(fibres[j], tid)
      {
        var e := fibres[i];
        if e.thread != -1 && e.thread != tid {
          tickleMe := true;
          i := i + 1;
        } else if e.task.FibreTask? && e.task.fibre in states && states[e.task.fibre] == R.EXEC {
          i := i + 1;
        } else {
          taken := Some(e);
          fibres := fibres[..i] + fibres[i + 1..];
          activeThreadCount := activeThreadCount + 1;
          tickleMe := tickleMe || i != |fibres|;
          return;
        }
      }
    }

    /** The scheduler's own stop condition. */
    method Stopping() returns (stop: bool)
      ensures stop == (autoStop && stopFlag && fibres == [] && activeThreadCount == 0)
    {
      stop := autoStop && stopFlag && fibres == [] && activeThreadCount == 0;
    }
  }
}
