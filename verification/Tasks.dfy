/**
 What the scheduler queues. A fibre or callback is named by a number: the object itself never matters to
 the scheduler, only which one it is.
 */
module Tasks {
  type FibreId = nat
  type CbId = nat

  /** A queued piece of work: resume a fibre, or run a callback on a fibre of the worker's own. */
  datatype Task = FibreTask(fibre: FibreId) | CbTask(cb: CbId)

  /** A queue element; `thread` is the thread allowed to take it, or -1 for any. */
  datatype Entry = Entry(task: Task, thread: int)

  /** A sequence without its element `i`. */
  function Without<X>(q: seq<X>, i: nat): seq<X>
    requires i < |q|
  {
    q[..i] + q[i + 1..]
  }

  /** How often a task is in a queue. */
  ghost function QueueCount(q: seq<Entry>, t: Task): nat {
    if q == [] then 0 else (if q[0].task == t then 1 else 0) + QueueCount(q[1..], t)
  }

  lemma {:induction false} QueueConcat(a: seq<Entry>, b: seq<Entry>, t: Task)
    ensures QueueCount(a + b, t) == QueueCount(a, t) + QueueCount(b, t)
  {
    if a == [] {
      assert a + b == b;
    } else {
      QueueConcat(a[1..], b, t);
      assert (a + b)[1..] == a[1..] + b;
    }
  }

  lemma QueueAppend(q: seq<Entry>, e: Entry, t: Task)
    ensures QueueCount(q + [e], t) == QueueCount(q, t) + (if e.task == t then 1 else 0)
  {
    QueueConcat(q, [e], t);
  }

  /** Taking element `i` out takes exactly its task out. */
  lemma {:induction false} QueueErase(q: seq<Entry>, i: nat, t: Task)
    requires i < |q|
    ensures QueueCount(q, t) == QueueCount(Without(q, i), t) + (if q[i].task == t then 1 else 0)
  {
    if i == 0 {
      assert q[..0] + q[1..] == q[1..];
    } else {
      QueueErase(q[1..], i - 1, t);
      assert (q[..i] + q[i + 1..])[1..] == q[1..][..i - 1] + q[1..][i..];
    }
  }
}
