/** The two result shapes used throughout: a value that may be absent, and a
    kernel call that either returns or ends in the panic handler. */
module Wrappers {

  datatype Option<+T> = None | Some(value: T)

  /** Why the kernel stopped. Every `panic!`, `expect` and overflow of the
      source that the model can reach has one of these. */
  datatype Panic =
    | TimedOut           // idle_tick found its deadline in the past
    | ProtocolError      // the frame decoder or the upgrade was rejected
    | PeerClosed         // a close frame arrived mid-session
    | BadUtf8            // a text message was not UTF-8
    | NoSessionInit      // the first text message was not a session_init
    | ClockOverrun       // the 64-bit tick counter ran out
    | ArenaExhausted     // no DMA pages left
    | ArithmeticOverflow // a checked build caught a wrapped sum

  /** A panic never unwinds past the reporting handler, so a call that panics
      ends the run; callers pass it straight up. */
  datatype Outcome<+T> = Returned(value: T) | Panicked(why: Panic) {

    predicate IsFailure() {
      Panicked?
    }

    function PropagateFailure<U>(): Outcome<U>
      requires Panicked?
    {
      Panicked(why)
    }

    function Extract(): T
      requires Returned?
    {
      value
    }
  }
}
