/**
 * `call_gemini`, reduced to what it does with the HTTP reply. The POST
 * itself, its JSON body, the API key and the 90-second timeout are the
 * network's business; the reply is a parameter.
 */
module Gemini {
  import opened Wrappers
  import opened PyStr

  /** An HTTP reply: status code, the first candidate's text part, and the raw body. */
  datatype HttpReply = HttpReply(status: int, candidateText: string, body: string)

  /** The `RuntimeError("Gemini error {status}: {body}")` raised on any status other than 200. */
  datatype GeminiError = GeminiError(status: int, body: string)

  /** Status 200 yields the candidate text stripped; any other status is an error carrying status and body. */
  function CallGemini(reply: HttpReply): (r: Result<string, GeminiError>)
    ensures r.Success? <==> reply.status == 200
    ensures r.Failure? ==> r.error == GeminiError(reply.status, reply.body)
    ensures r.Success? ==> r.value == Strip(reply.candidateText) && Strip(r.value) == r.value
  {
    if reply.status == 200 then
      StripIdempotent(reply.candidateText);
      Success(Strip(reply.candidateText))
    else
      Failure(GeminiError(reply.status, reply.body))
  }
}
