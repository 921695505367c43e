/** The error answers of the server: an `HTTPException` with its status code and detail. */
module Http {
  import opened Wrappers
  import Text

  datatype Failure = Failure(status: int, detail: string)

  /** The answer of request validation for a body that breaks a field constraint. */
  const Unprocessable: Failure := Failure(422, "validation error")

  /** An uploaded file: the size of its content, and its name and content type as sent. */
  datatype Upload = Upload(size: nat, filename: Option<string>, contentType: Option<string>)

  /** An optional form field as the handler receives it: FastAPI hands a field sent
      empty to the handler as missing, so a declared default applies to it too. */
  function FormField(raw: Option<string>): (r: Option<string>)
    ensures r.Some? <==> Text.Truthy(raw)
    ensures r.Some? ==> r == raw
  {
    if raw == Some("") then None else raw
  }
}
