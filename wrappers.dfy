/** Small shared datatypes: optional references and the outcome of a step that may raise. */
module Wrappers {

  /** An optional reference (Python's `None` or an object), here an index into a table. */
  datatype Option<+T> = None | Some(value: T)

  /** The exceptions the modelled code can raise. */
  datatype Error =
    | DestinationIsNone            // `heuristic(start, None)` reads `None.x` (AttributeError)
    | GridKeyMissing(x: int, y: int) // `self.waypoint_grid[(x, y)]` with no such key (KeyError)

  /** The outcome of an operation: normal return, or an exception that aborts the program. */
  datatype Outcome = Ok | Raised(error: Error)
}
