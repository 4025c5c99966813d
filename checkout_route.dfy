/**
  The checkout-creation endpoint (`POST /api/checkout`): it logs a truncated
  description, checks its configuration, builds the return URL and the
  processor request from the client's body, and relays the processor's
  answer.

  `urlOrigin(base)` stands for the URL parser: the scheme, userinfo, host and
  port of an absolute URL, or None when `base` does not parse. An absolute
  path resolved against a base keeps exactly these parts of it.
*/
module CheckoutRoute {
  import opened Common

  const ProcessorUrl := "https://api.sumup.com/v0.1/checkouts"
  const ReturnPath := "/checkout/complete"
  const MissingApiKey := "La clé API SumUp n'est pas configurée"
  const MissingBaseUrl := "L'URL de base n'est pas configurée"
  const DefaultProcessorError := "Erreur lors de la création du checkout"
  const InvalidUrl := "Invalid URL"

  /** The environment variables the route reads. */
  datatype Env = Env(apiKey: Option<string>, baseUrl: Option<string>, merchantCode: Option<string>)

  /** The processor call the route makes. */
  datatype Outbound = Outbound(url: string, authorization: string, body: JsonObject)

  /** The body members forwarded to the processor unchanged. */
  const Forwarded: set<string> := {"amount", "currency", "description", "checkout_reference"}

  /** The `TypeError` raised by `body.description.substring(0, 20)`, if any. */
  function DescriptionError(body: JsonObject): (r: Option<string>)
    ensures r.None? <==> "description" in body && body["description"].JString?
  {
    if "description" !in body then Some("Cannot read properties of undefined (reading 'substring')")
    else match body["description"]
      case JString(_) => None
      case JNull => Some("Cannot read properties of null (reading 'substring')")
      case _ => Some("body.description.substring is not a function")
  }

  /** The request body sent to the processor. `JSON.stringify` drops members whose
      value is `undefined`, so an absent member stays absent. */
  function OutboundBody(body: JsonObject, merchantCode: Option<string>, returnUrl: string): (out: JsonObject)
    ensures forall k :: k in Forwarded ==> (k in out <==> k in body)
    ensures forall k :: k in Forwarded && k in body ==> out[k] == body[k]
    ensures ("merchant_code" in out <==> merchantCode.Some?)
    ensures merchantCode.Some? ==> out["merchant_code"] == JString(merchantCode.value)
    ensures "return_url" in out && out["return_url"] == JString(returnUrl)
    ensures out.Keys <= Forwarded + {"merchant_code", "return_url"}
  {
    var picked := map k | k in Forwarded && k in body :: body[k];
    var withCode := if merchantCode.Some? then picked["merchant_code" := JString(merchantCode.value)] else picked;
    withCode["return_url" := JString(returnUrl)]
  }

  /** The response and the processor call (if one is made) for a parsed request body,
      the environment and the processor's answer. Every thrown error is answered
      500 with its message. */
  function Post(request: Parse<JsonObject>, env: Env, urlOrigin: string -> Option<string>, reply: Fetched)
    : (r: (Reply, Option<Outbound>))
    ensures request.Unparsable? ==> r == (ErrorReply(500, request.message), None)
    ensures request.Parsed? && DescriptionError(request.value).Some? ==>
              r == (ErrorReply(500, DescriptionError(request.value).value), None)
    ensures request.Parsed? && DescriptionError(request.value).None? && !Present(env.apiKey) ==>
              r == (ErrorReply(500, MissingApiKey), None)
    ensures (request.Parsed? && DescriptionError(request.value).None? && Present(env.apiKey)
             && !Present(env.baseUrl)) ==> r == (ErrorReply(500, MissingBaseUrl), None)
    ensures r.1.Some? <==> (request.Parsed? && DescriptionError(request.value).None? && Present(env.apiKey)
                           && Present(env.baseUrl) && urlOrigin(env.baseUrl.value).Some?)
    ensures r.1.Some? ==>
              r.1.value == Outbound(ProcessorUrl, "Bearer " + env.apiKey.value,
                                    OutboundBody(request.value, env.merchantCode,
                                                 urlOrigin(env.baseUrl.value).value + ReturnPath))
    ensures r.1.Some? && reply.Answered? && reply.ok && reply.body.Parsed? ==> r.0 == Reply(200, reply.body.value)
    ensures r.1.Some? && reply.Answered? && !reply.ok && reply.body.Parsed? ==>
              r.0 == ErrorReply(500, OrElse(StringMember(reply.body.value, "message"), DefaultProcessorError))
    ensures r.0.status == 200 || r.0.status == 500
  {
    if request.Unparsable? then (ErrorReply(500, request.message), None)
    else
      var body := request.value;
      var descriptionError := DescriptionError(body);
      if descriptionError.Some? then (ErrorReply(500, descriptionError.value), None)
      else if !Present(env.apiKey) then (ErrorReply(500, MissingApiKey), None)
      else if !Present(env.baseUrl) then (ErrorReply(500, MissingBaseUrl), None)
      else
        var origin := urlOrigin(env.baseUrl.value);
        if origin.None? then (ErrorReply(500, InvalidUrl), None)
        else
          var call := Outbound(ProcessorUrl, "Bearer " + env.apiKey.value,
                               OutboundBody(body, env.merchantCode, origin.value + ReturnPath));
          match reply
          case Unreachable(m) => (ErrorReply(500, m), Some(call))
          case Answered(ok, _, parsed) =>
            if parsed.Unparsable? then (ErrorReply(500, parsed.message), Some(call))
            else if !ok then
              (ErrorReply(500, OrElse(StringMember(parsed.value, "message"), DefaultProcessorError)), Some(call))
            else (Reply(200, parsed.value), Some(call))
  }
}
