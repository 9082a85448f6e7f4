/** The categories of error the scalar shapes report; messages and positions are not modelled. */
module Errors {
  import opened Nodes

  /** The facet whose narrowing check failed. */
  datatype Facet = Minimum | Maximum | MinLength | MaxLength | Enum

  /** A facet value reported by a constraint violation. */
  datatype Bound =
    | IntBound(i: int)
    | NumberBound(r: real)
    | LengthBound(n: uint64)
    | EnumBound(nodes: seq<Node>)

  datatype Error =
      /** Inherit from an ancestor of another variant: the ancestor's and the receiver's type names. */
    | TypeMismatch(sourceType: string, targetType: string)
      /** A child facet looser than its ancestor's: the ancestor's value, then the child's. */
    | Violation(facet: Facet, source: Bound, target: Bound)
      /** A facet value of the wrong kind or tag, or an unparsable integer bound. */
    | Invalid(message: string)
      /** A failure of a conversion, wrapped with what was being decoded. */
    | Wrapped(message: string, cause: Error)
      /** The message of a failing library conversion. */
    | Foreign(message: string)
}

/** What a step-by-step operation leaves behind: the receiver's state, and the error it returned. */
module Outcomes {
  import opened Wrappers
  import opened Errors

  datatype Outcome<T> = Outcome(state: T, error: Option<Error>)
}
