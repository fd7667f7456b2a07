/** The failures a create request can end in. */
module Errors {

  /** One entry of a ValidationError: attached to a field, or not. */
  datatype Problem =
    | FieldProblem(field: string, message: string)
    | GeneralProblem(message: string)

  datatype Error =
      /** rest_framework's ValidationError (HTTP 400), with every problem found */
    | ValidationError(problems: seq<Problem>)
      /** the provider refused or failed (HTTP 503) */
    | ServiceUnavailable
      /** the provider's JSON is not an object, so `.get` raises AttributeError (uncaught) */
    | ProviderBodyNotObject
      /** the provider's payload lacks a coordinate, so indexing raises KeyError (uncaught) */
    | ProviderKeyMissing(key: string)
}
