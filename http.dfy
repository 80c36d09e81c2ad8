/** The parts of a web `Response` the handlers set. */
module Http {
  import opened Wrappers

  /** A response: status code, body text, and the Content-Type header when the handler sets one
      (None leaves the platform's default for a text body). */
  datatype Response = Response(status: nat, body: string, contentType: Option<string>)

  const JsonContentType := "application/json"

  /** A JSON response, with the header the handlers add to their JSON bodies. */
  function JsonResponse(status: nat, body: string): Response {
    Response(status, body, Some(JsonContentType))
  }

  /** `new Response(text, { status })`. */
  function TextResponse(status: nat, text: string): Response {
    Response(status, text, None)
  }
}
