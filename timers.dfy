/** The CTimer abstraction used by the control layer, counted in milliseconds.
    A timer with a zero timeout never runs and never expires. */
module Timers {

  class Timer {
    const timeout: nat
    var running: bool
    var elapsed: nat

    ghost predicate Valid()
      reads this
    {
      (running ==> timeout > 0) && (!running ==> elapsed == 0)
    }

    constructor (timeout: nat)
      ensures Valid() && this.timeout == timeout
      ensures !running && elapsed == 0
    {
      this.timeout := timeout;
      running := false;
      elapsed := 0;
    }

    predicate IsRunning()
      reads this
    {
      running
    }

    /** Expiry is only ever reported for a running timer with a timeout. */
    predicate HasExpired()
      reads this
      ensures HasExpired() ==> IsRunning() && 0 < timeout <= elapsed
    {
      timeout > 0 && running && elapsed >= timeout
    }

    method Start()
      requires Valid()
      modifies this
      ensures Valid()
      ensures running == (timeout > 0) && elapsed == 0
      ensures !HasExpired()
    {
      if timeout > 0 {
        running := true;
      }
      elapsed := 0;
    }

    method Stop()
      modifies this
      ensures Valid()
      ensures !running && elapsed == 0
    {
      running := false;
      elapsed := 0;
    }

    method Clock(ms: nat)
      requires Valid()
      modifies this
      ensures Valid()
      ensures running == old(running)
      ensures elapsed == if running then old(elapsed) + ms else old(elapsed)
    {
      if running {
        elapsed := elapsed + ms;
      }
    }
  }
}
