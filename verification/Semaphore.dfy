/** One abstract FIFO semaphore and the two hand-written ones that implement it. */
module Semaphore {
  import opened Seqs

  /** `waiting` holds the identities of the queued tasks, first come first. */
  datatype Semaphore = Semaphore(limit: nat, active: int, waiting: seq<nat>)

  /** No slot is over-committed, and nobody waits while a slot is free. */
  ghost predicate Sound(s: Semaphore) {
    s.limit >= 1 && s.active <= s.limit && (s.waiting != [] ==> s.active == s.limit)
  }

  /** Whether an acquiring task gets its slot at once. */
  predicate Free(s: Semaphore) { s.active < s.limit }

  /** Taking a slot or joining the queue keeps the semaphore sound. */
  function Acquired(s: Semaphore, task: nat): (r: Semaphore)
    ensures Sound(s) ==> Sound(r)
  {
    if Free(s) then s.(active := s.active + 1) else s.(waiting := s.waiting + [task])
  }

  /** The task a release wakes. */
  function Woken(s: Semaphore): Option<nat> { if s.waiting == [] then None else Some(s.waiting[0]) }

  /** Giving a slot back keeps the semaphore sound: with a waiter the slot goes to it, so no wakeup is lost. */
  function Released(s: Semaphore): (r: Semaphore)
    ensures Sound(s) ==> Sound(r)
  {
    if s.waiting == [] then s.(active := s.active - 1) else s.(waiting := s.waiting[1..])
  }

  /** The executor's inline semaphore: an ever-growing queue with a head index; a release gives the slot
      up and takes it again for the waiter. */
  class InlineSemaphore {
    const limit: nat
    var active: int
    var queueHead: nat
    var queue: seq<nat>

    ghost predicate Valid() reads this { queueHead <= |queue| }

    ghost function Abs(): Semaphore
      requires Valid()
      reads this
    {
      Semaphore(limit, active, queue[queueHead..])
    }

    constructor (concurrency: int)
      ensures Valid() && Abs() == Semaphore(if concurrency < 1 then 1 else concurrency, 0, [])
    {
      limit := if concurrency < 1 then 1 else concurrency;
      active, queueHead, queue := 0, 0, [];
    }

    method Acquire(task: nat) returns (immediate: bool)
      requires Valid()
      modifies this
      ensures Valid() && Abs() == Acquired(old(Abs()), task) && immediate == Free(old(Abs()))
    {
      if active < limit {
        active := active + 1;
        return true;
      }
      queue := queue + [task];
      assert queue[queueHead..] == old(queue)[queueHead..] + [task];
      return false;
    }

    method Release() returns (woken: Option<nat>)
      requires Valid()
      modifies this
      ensures Valid() && Abs() == Released(old(Abs())) && woken == Woken(old(Abs()))
    {
      active := active - 1;
      if queueHead < |queue| {
        var next := queue[queueHead];
        queueHead := queueHead + 1;
        active := active + 1;
        return Some(next);
      }
      return None;
    }
  }

  /** The limiter of the RPC package: a shifted queue; a release hands its slot straight over. */
  class ConcurrencyLimiter {
    const maxConcurrent: nat
    var active: int
    var queue: seq<nat>

    ghost function Abs(): Semaphore reads this { Semaphore(maxConcurrent, active, queue) }

    constructor (maxConcurrent: nat)
      requires maxConcurrent >= 1
      ensures Abs() == Semaphore(maxConcurrent, 0, [])
    {
      this.maxConcurrent, active, queue := maxConcurrent, 0, [];
    }

    method Acquire(task: nat) returns (immediate: bool)
      modifies this
      ensures Abs() == Acquired(old(Abs()), task) && immediate == Free(old(Abs()))
    {
      if active < maxConcurrent {
        active := active + 1;
        return true;
      }
      queue := queue + [task];
      return false;
    }

    method Release() returns (woken: Option<nat>)
      modifies this
      ensures Abs() == Released(old(Abs())) && woken == Woken(old(Abs()))
    {
      if |queue| > 0 {
        var next := queue[0];
        queue := queue[1..];
        return Some(next);
      }
      active := active - 1;
      return None;
    }
  }
}
