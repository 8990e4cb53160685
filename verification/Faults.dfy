/** How a call to the outside ends. */
module Faults {
  /** What a call did: took effect; failed without effect; or took effect although its caller saw
      an error. */
  datatype Outcome = Done | Lost | Unsure
}
