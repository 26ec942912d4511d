/** How calls to the outside end. */
module Outcomes {
  /** Unacked: the call took effect and only its reply was lost. */
  datatype Outcome = Acked | Lost | Unacked
}
