/** The HTTP requests the tool servers send and what comes back, with the network left abstract. */
module Http {
  import opened Wrappers
  import opened JsValue

  datatype HttpMethod = GET | POST | PUT | DELETE

  /** A JSON request body: field name to value. */
  type Body = map<string, Value>

  /** An API call: method, path relative to the base URL, and body (none for calls without one). */
  datatype ApiRequest = ApiRequest(verb: HttpMethod, path: string, body: Option<Body>)

  /**
   * What the API call did: the response data as JSON text, or an HTTP client
   * error with the response status (none without a response), the response
   * data's `message` and the error's own message.
   */
  datatype ApiOutcome =
    | Responded(json: string)
    | Failed(status: Option<nat>, dataMessage: Value, message: string)
}
