/** Shared vocabulary of the validator model: optional values, results,
    what an outbound request delivers, check verdicts and handler responses. */
module Common {

  datatype Option<+T> = None | Some(value: T)

  /** The value of an operation, or the message of the Error it throws. */
  datatype Result<+T> = Ok(value: T) | Err(error: string)

  /** What an outbound request delivers to its caller: the decoded reply, or
      the message of the exception raised while fetching or decoding it. */
  datatype Fetched<+T> = Got(value: T) | Failed(reason: string)

  /** Outcome of one validation check: it resolves, or rejects with a message. */
  datatype Verdict = Pass | Fail(message: string)

  /** What a request handler produces: a response with a status and a text
      body, or an exception that escapes the handler. */
  datatype Response = Respond(status: int, body: string) | Thrown(message: string)

  /** `Response.ok` of the Fetch API: the status lies in 200..299. */
  predicate IsOk(status: int) {
    200 <= status <= 299
  }

  /** Status of `new Response(body)` when no status is given. */
  const DefaultStatus: int := 200
}
