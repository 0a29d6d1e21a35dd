/** Shapes shared by every request handler: optional request fields and the
    status-plus-body reply a handler sends back. */
module Http {

  datatype Option<+T> = None | Some(value: T)

  /** A handler's reply: a success status with its JSON payload, or an error
      status with the `{error: message}` body. */
  datatype Outcome<+T> = Ok(status: nat, value: T) | Error(status: nat, message: string)

  /** JavaScript truthiness of an optional string field of a request: an
      absent field and the empty string are both falsy. */
  predicate Truthy(s: Option<string>) {
    s.Some? && s.value != []
  }
}
