/** The part of `absl::Status` that the binding generator uses: a code, a message and payloads. */
module Statuses {

  datatype StatusCode = Unimplemented | InvalidArgument

  /** A failed status; `payloads` maps a type URL to the payload set with `SetPayload`. */
  datatype Status = Status(code: StatusCode, message: string, payloads: map<string, string>)

  /** `absl::InvalidArgumentError(message)`. */
  function InvalidArgumentError(message: string): Status
  {
    Status(InvalidArgument, message, map[])
  }
}
