/** How a table call can fail. */
module Faults {

  /** `Lost`: not applied.  `Unacked`: applied, but the caller sees an error. */
  datatype Fault = NoFault | Lost | Unacked
}
