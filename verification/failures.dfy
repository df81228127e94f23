/** The errors that end the game. */
module Failures {

  /** Each one is fatal in the program: it is returned from `main`. */
  datatype Failure =
    | EmptyRange        // the configured note range has min above max
    | CannotPlayNote    // a send to the output port failed
    | ChannelClosed     // the input callback's sender is gone and nothing is left to receive
}
