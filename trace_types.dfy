/** The transaction-type discriminants of the trace variants, shared through
    the `Trace` interface. That interface is not part of this model; the
    model fixes the two codes it needs as distinct constants. */
module TraceTypes {

  const READ_ZERO_TRACE_CODE: int := 1
  const INSERTION_TRACE_CODE: int := 2
}
