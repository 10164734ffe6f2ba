/** How awaitables end, as src/aiodrive/modules/future_state.py tells the cases apart. */
module Futures {

  /** A finished future. An error stands for one exception object. */
  datatype Outcome<+T> = Success(value: T) | Failure(error: nat) | Cancelled

  datatype Future<+T> = Pending | Done(outcome: Outcome<T>)
}
