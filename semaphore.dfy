/**
 * The counting semaphore `g_TickSemaphore` and its operations `OS_Semaphore_Init`,
 * `OS_Signal` (from the timer interrupt) and `OS_Wait` (from the control loop).
 * The model is sequential: the spin of `OS_Wait` until the count is positive
 * is its precondition.
 */
module Semaphore {

  class Semaphore {
    var count: int

    /** `OS_Semaphore_Init(&sema, initialValue)`. */
    constructor Init(initialValue: int)
      ensures count == initialValue
    {
      count := initialValue;
    }

    /** `OS_Signal`: one more sample is available. */
    method Signal()
      modifies this
      ensures count == old(count) + 1
    {
      count := count + 1;
    }

    /** `OS_Wait`: consumes one available sample; it cannot return while none is available. */
    method Wait()
      requires count > 0
      modifies this
      ensures count == old(count) - 1
    {
      count := count - 1;
    }
  }

  /** One tick's handshake: a signal followed by a wait leaves a non-negative count as it was. */
  method SignalThenWait(s: Semaphore)
    requires s.count >= 0
    modifies s
    ensures s.count == old(s.count)
  {
    s.Signal();
    s.Wait();
  }
}
