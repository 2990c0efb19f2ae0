/**
 The host program's hand-built synchronisation: counting semaphores kept in
 `uint32_t` words and updated by LR/SC retry loops, and a barrier built from
 a lock semaphore, a release semaphore and an arrival counter.

 Interleaving is abstracted away: each operation is one sequential step on
 the words it is given. A `sem_wait` spins until the count is non-zero, so a
 step that completes requires a non-zero count.
 */
module HostSync {
  import opened Platform

  /** A `uint32_t` in shared memory, reached through a pointer. */
  class Cell {
    var value: UInt32

    constructor (v: UInt32)
      ensures value == v
    {
      value := v;
    }
  }

  /** The count after one `sem_post`: `addi value, value, 1` on a 32-bit register. */
  function Post(v: UInt32): (r: UInt32)
    ensures v < WORD_SPAN - 1 ==> r == v + 1
    ensures v == WORD_SPAN - 1 ==> r == 0
  {
    (v + 1) % WORD_SPAN
  }

  /** The count after one completed `sem_wait`. */
  function Wait(v: UInt32): (r: UInt32)
    requires v > 0
    ensures r < v && Post(r) == v
  {
    v - 1
  }

  /** The count after `n` posts. */
  function Posts(v: UInt32, n: nat): UInt32
  {
    if n == 0 then v else Post(Posts(v, n - 1))
  }

  /** The count after `n` completed waits (each one needs a non-zero count). */
  function Waits(v: UInt32, n: nat): UInt32
    requires n <= v
  {
    if n == 0 then v else Waits(Wait(v), n - 1)
  }

  /** Without wrap-around, `n` posts add exactly `n`. */
  lemma {:induction false} PostsAdd(v: UInt32, n: nat)
    requires v + n < WORD_SPAN
    ensures Posts(v, n) == v + n
  {
    if n > 0 {
      PostsAdd(v, n - 1);
    }
  }

  /** `n` completed waits subtract exactly `n`: the count never underflows. */
  lemma {:induction false} WaitsSubtract(v: UInt32, n: nat)
    requires n <= v
    ensures Waits(v, n) == v - n
  {
    if n > 0 {
      WaitsSubtract(Wait(v), n - 1);
    }
  }

  /** `n` posts followed by `n` waits leave the count as it was, while the posts do not wrap. */
  lemma PostsThenWaits(v: UInt32, n: nat)
    requires v + n < WORD_SPAN
    ensures n <= Posts(v, n) && Waits(Posts(v, n), n) == v
  {
    PostsAdd(v, n);
    WaitsSubtract(v + n, n);
  }

  /** `sem_init`: store the initial count. */
  method SemInit(sem: Cell, count: UInt32)
    modifies sem
    ensures sem.value == count
  {
    sem.value := count;
  }

  /** `sem_wait`: the retry loop exits once it sees a non-zero count and decrements it. */
  method SemWait(sem: Cell)
    requires sem.value > 0
    modifies sem
    ensures sem.value == Wait(old(sem.value))
  {
    sem.value := sem.value - 1;
  }

  /** `sem_post`: increment the count. */
  method SemPost(sem: Cell)
    modifies sem
    ensures sem.value == Post(old(sem.value))
  {
    sem.value := (sem.value + 1) % WORD_SPAN;
  }

  /**
   The release loop of the last arrival at a barrier:
   `for (j = 0; j < thread_count - 1; ++j) sem_post(sem)`, where the bound is
   computed in `uint32_t`.
   */
  method PostMany(sem: Cell, n: UInt32)
    modifies sem
    ensures sem.value == Posts(old(sem.value), n)
  {
    var j := 0;
    while j < n
      invariant 0 <= j <= n
      invariant sem.value == Posts(old(sem.value), j)
    {
      SemPost(sem);
      j := j + 1;
    }
  }

  /** The state of a barrier between calls: the arrival counter is below the capacity. */
  predicate BarrierInvariant(counter: UInt32, threadCount: UInt32)
  {
    counter < threadCount
  }

  /**
   `barrier` up to, but not including, the final `sem_wait(sem)` of an arrival
   that is not the last: take the lock, then either (last arrival) reset the
   counter, give back the lock and post the release semaphore
   `thread_count - 1` times, or count the arrival and give back the lock.
   `mustWait` tells the caller that it still owes a `sem_wait(sem)`.
   */
  method BarrierArrive(sem: Cell, lock: Cell, counter: Cell, threadCount: UInt32) returns (mustWait: bool)
    requires sem != lock && sem != counter && lock != counter
    requires lock.value > 0
    modifies sem, lock, counter
    ensures lock.value == old(lock.value)
    ensures mustWait <==> old(counter.value) != (threadCount - 1) % WORD_SPAN
    ensures !mustWait ==> counter.value == 0 && sem.value == Posts(old(sem.value), (threadCount - 1) % WORD_SPAN)
    ensures mustWait ==> counter.value == Post(old(counter.value)) && sem.value == old(sem.value)
    ensures BarrierInvariant(old(counter.value), threadCount) ==> BarrierInvariant(counter.value, threadCount)
  {
    SemWait(lock);
    var last := (threadCount - 1) % WORD_SPAN;
    if counter.value == last {
      counter.value := 0;
      SemPost(lock);
      PostMany(sem, last);
      mustWait := false;
    } else {
      counter.value := (counter.value + 1) % WORD_SPAN;
      SemPost(lock);
      mustWait := true;
    }
  }

  /**
   A whole barrier round for two harts, with the harts' steps interleaved in
   the only order that completes: the first arrival counts itself and must
   wait, the second arrival resets the counter and posts once, then the
   first arrival's wait completes. `firstWaits` and `secondWaits` are the
   two arrivals' `mustWait`, and `semAfterFirst` is the release semaphore
   when the first arrival starts waiting: it is zero, so the first arrival
   cannot pass before the second arrives. At the end every word is back
   where it started.
   */
  method BarrierRound(sem: Cell, lock: Cell, counter: Cell) returns (firstWaits: bool, semAfterFirst: UInt32, secondWaits: bool)
    requires sem != lock && sem != counter && lock != counter
    requires lock.value == 1 && sem.value == 0 && counter.value == 0
    modifies sem, lock, counter
    ensures firstWaits && semAfterFirst == 0 && !secondWaits
    ensures lock.value == 1 && sem.value == 0 && counter.value == 0
  {
    firstWaits := BarrierArrive(sem, lock, counter, PROCESSORS);
    semAfterFirst := sem.value;
    secondWaits := BarrierArrive(sem, lock, counter, PROCESSORS);
    SemWait(sem);
  }

  /**
   The synchronisation words of the host program. `barrier_counter` starts
   at zero; the others are set by hart 0.
   */
  class SyncState {
    const barrierCounter: Cell
    const barrierLock: Cell
    const barrierSem: Cell
    const lock: Cell
    const printSem: seq<Cell>

    /** The globals before `main` runs: distinct words, all zero as C zero-initialises them. */
    constructor ()
      ensures fresh(barrierCounter) && fresh(barrierLock) && fresh(barrierSem) && fresh(lock)
      ensures |printSem| == PROCESSORS && forall i :: 0 <= i < |printSem| ==> fresh(printSem[i])
      ensures Separate()
      ensures barrierCounter.value == 0 && barrierLock.value == 0 && barrierSem.value == 0 && lock.value == 0
      ensures forall i :: 0 <= i < |printSem| ==> printSem[i].value == 0
    {
      barrierCounter := new Cell(0);
      barrierLock := new Cell(0);
      barrierSem := new Cell(0);
      lock := new Cell(0);
      var p0 := new Cell(0);
      var p1 := new Cell(0);
      printSem := [p0, p1];
    }

    /** The words are distinct, as distinct globals are. */
    predicate Separate()
      reads this
    {
      && |printSem| == PROCESSORS
      && barrierCounter != barrierLock && barrierCounter != barrierSem && barrierCounter != lock
      && barrierLock != barrierSem && barrierLock != lock && barrierSem != lock
      && printSem[0] != printSem[1]
      && forall i :: 0 <= i < |printSem| ==> printSem[i] !in {barrierCounter, barrierLock, barrierSem, lock}
    }

    /**
     Hart 0's set-up: the barrier lock opens with 1, the release semaphore and
     every print semaphore start closed, the mutex opens with 1.
     */
    method Init()
      requires Separate()
      modifies barrierLock, barrierSem, lock, printSem
      ensures barrierLock.value == 1 && barrierSem.value == 0 && lock.value == 1
      ensures forall i :: 0 <= i < |printSem| ==> printSem[i].value == 0
    {
      SemInit(barrierLock, 1);
      SemInit(barrierSem, 0);
      for i := 0 to PROCESSORS
        modifies printSem
        invariant barrierLock.value == 1 && barrierSem.value == 0
        invariant forall k :: 0 <= k < i ==> printSem[k].value == 0
      {
        SemInit(printSem[i], 0);
      }
      SemInit(lock, 1);
    }
  }

  /**
   The start of `main`: the zero-initialised globals, hart 0's set-up, then the
   first barrier, `barrier(&barrier_sem, &barrier_lock, &barrier_counter,
   PROCESSORS)`, at which the first arrival waits on a closed semaphore until
   the second arrives; afterwards the barrier is ready for its next use.
   */
  method StartUp() returns (state: SyncState, firstWaits: bool, semAfterFirst: UInt32)
    ensures firstWaits && semAfterFirst == 0
    ensures state.Separate() && state.lock.value == 1
    ensures state.barrierLock.value == 1 && state.barrierSem.value == 0 && state.barrierCounter.value == 0
  {
    state := new SyncState();
    state.Init();
    var secondWaits;
    firstWaits, semAfterFirst, secondWaits := BarrierRound(state.barrierSem, state.barrierLock, state.barrierCounter);
  }
}
