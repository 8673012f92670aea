/**
 * The response envelope every handler answers with (`{message, data}` plus an
 * HTTP status), and the JavaScript truthiness tests the handlers apply to the
 * fields of a request body.
 */
module Http {
  import opened Wrappers

  /** The status and message of a response; the `data` payload of route replies is not modelled. */
  datatype Reply = Reply(status: nat, message: string)

  const Ok := Reply(200, "OK")
  const Created := Reply(201, "Created")
  const InvalidIdFormat := Reply(400, "Invalid ID format")

  /** `!!field` for a body field holding a string: present and not the empty string. */
  predicate Truthy(field: Option<string>) {
    field.Some? && field.value != ""
  }

  /** `field || ''`: the field when it is truthy, otherwise the empty string. */
  function OrEmpty(field: Option<string>): (s: string)
    ensures Truthy(field) <==> s != ""
    ensures s != "" ==> field == Some(s)
  {
    if Truthy(field) then field.value else ""
  }
}
