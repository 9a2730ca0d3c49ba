/** The phases of `shutdown`, which all the pools go through in the same order. */
module ClosingDown {

  /** The progress of the call of `shutdown` that won the stop flag. */
  datatype Closing = Open | Asking(asked: nat) | Adding(ctx: nat) | Notifying(ctx: nat) | Joining

  /** A stop has been requested of worker `w`. */
  predicate StopAsked(closing: Closing, w: nat) {
    match closing
    case Open => false
    case Asking(asked) => w < asked
    case _ => true
  }

  /** Shutdown has raised the notifier of context `c`. */
  predicate Raised(closing: Closing, c: nat) {
    match closing
    case Adding(k) => c < k
    case Notifying(k) => c <= k
    case Joining => true
    case _ => false
  }

  /** Shutdown has also notified everybody waiting on it. */
  predicate Roused(closing: Closing, c: nat) {
    match closing
    case Adding(k) => c < k
    case Notifying(k) => c < k
    case Joining => true
    case _ => false
  }
}
