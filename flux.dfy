/**
 * `FluxService.handleError`: the exception the image service throws for a failed upstream
 * call. The function's result is the thrown exception; there is no normal return.
 */
module Flux {
  import opened Wrappers
  import opened Http

  /** The upstream answer of a failed call: its status and `data.error.message`, if any. */
  datatype UpstreamResponse = UpstreamResponse(status: int, dataErrorMessage: Option<string>)

  /** A failed call: an HTTP answer, or none at all (network and other errors), and the error's own message. */
  datatype UpstreamError = UpstreamError(response: Option<UpstreamResponse>, message: string)

  const InvalidKeyMessage := "Clé API invalide ou expirée"
  const NotFoundMessage := "Ressource non trouvée - vérifiez l'endpoint et le nom du déploiement"
  const RateLimitMessage := "Limite de taux atteinte - réessayez plus tard"
  const GenerationFailedMessage := "Erreur lors de la génération d'image"

  /** `data?.error?.message || error.message`. */
  function DetailOf(e: UpstreamError): string
    requires e.response.Some?
  {
    var d := e.response.value.dataErrorMessage;
    if d.Some? && d.value != "" then d.value else e.message
  }

  /**
   * The exception: 401, 404 and 429 pass through with their own messages, any other upstream
   * status is a 500 carrying the upstream detail, and a failure without an answer is a 500.
   */
  function HandleError(e: UpstreamError): (thrown: HttpError)
    ensures thrown.status in {Unauthorized, NotFound, TooManyRequests, InternalServerError}
    ensures e.response.Some? && e.response.value.status == 401 <==> thrown.status == Unauthorized
    ensures e.response.Some? && e.response.value.status == 404 <==> thrown.status == NotFound
    ensures e.response.Some? && e.response.value.status == 429 <==> thrown.status == TooManyRequests
    ensures thrown.status == Unauthorized ==> thrown.message == InvalidKeyMessage
    ensures thrown.status == NotFound ==> thrown.message == NotFoundMessage
    ensures thrown.status == TooManyRequests ==> thrown.message == RateLimitMessage
    ensures e.response.None? ==> thrown == HttpError(InternalServerError, GenerationFailedMessage)
    ensures e.response.Some? && e.response.value.status !in {401, 404, 429} ==>
              thrown == HttpError(InternalServerError, "Erreur Azure: " + DetailOf(e))
  {
    match e.response
    case None => HttpError(InternalServerError, GenerationFailedMessage)
    case Some(r) =>
      if r.status == 401 then HttpError(Unauthorized, InvalidKeyMessage)
      else if r.status == 404 then HttpError(NotFound, NotFoundMessage)
      else if r.status == 429 then HttpError(TooManyRequests, RateLimitMessage)
      else HttpError(InternalServerError, "Erreur Azure: " + DetailOf(e))
  }
}
