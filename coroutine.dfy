/** A coroutine that yields 1, 2 and 3, resumed by hand until it completes. */
module Coroutines {

  datatype CoroutineState = Yielded(value: int) | Complete

  /** The values the coroutine body yields, in the order of its `yield` statements. */
  const Yields: seq<int> := [1, 2, 3]

  /**
   * The compiled state machine: `resumed` is how far the body has run
   * (0 = not started, 1-3 = suspended at that `yield`, 4 = returned).
   */
  class Coroutine {
    var resumed: nat

    constructor ()
      ensures resumed == 0
    {
      resumed := 0;
    }

    /** `resume(())`. Resuming a coroutine that has returned panics. */
    method Resume() returns (st: CoroutineState)
      requires resumed <= |Yields|
      modifies this
      ensures resumed == old(resumed) + 1
      ensures old(resumed) < |Yields| ==> st == Yielded(Yields[old(resumed)])
      ensures old(resumed) == |Yields| ==> st == Complete
    {
      if resumed == 0 {
        st := Yielded(1);
      } else if resumed == 1 {
        st := Yielded(2);
      } else if resumed == 2 {
        st := Yielded(3);
      } else {
        st := Complete;
      }
      resumed := resumed + 1;
    }
  }

  /** `main`: four resumes give Yielded(1), Yielded(2), Yielded(3), Complete(()). */
  method ResumeFourTimes() returns (states: seq<CoroutineState>)
    ensures states == [Yielded(1), Yielded(2), Yielded(3), Complete]
  {
    var co := new Coroutine();
    var first := co.Resume();
    var second := co.Resume();
    var third := co.Resume();
    var fourth := co.Resume();
    states := [first, second, third, fourth];
  }
}
