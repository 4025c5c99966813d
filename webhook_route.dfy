/**
  The second webhook endpoint (`POST /api/webhook`): it checks the signature
  through the API client, dispatches on the event type, and its handlers only
  log, so the route's whole effect is its response.
*/
module WebhookRoute {
  import opened Common
  import SumUpApi

  const MissingSignature := "Missing webhook signature"
  const InvalidSignature := "Invalid webhook signature"
  const ProcessingFailed := "Webhook processing failed"
  const CheckoutPaid := "CHECKOUT.PAID"
  const CheckoutFailed := "CHECKOUT.FAILED"

  /** The members of the payload that are read: the event type, and whether `checkout`
      is neither null nor absent (the handlers read `payload.checkout.id`, which throws
      only on a missing or null `checkout`). */
  datatype WebhookPayload = WebhookPayload(eventType: string, hasCheckout: bool)

  predicate Handled(p: WebhookPayload) {
    p.eventType == CheckoutPaid || p.eventType == CheckoutFailed
  }

  /** The response to a request with a signature header, a raw body, the configured
      secret and the parse of the body. */
  function Post(header: Option<string>, rawBody: string, secret: Option<string>,
                hmacHex: (string, string) -> string, payload: Parse<WebhookPayload>): (r: Reply)
    ensures r.status == 400 <==> !Present(header)
    ensures r.status == 400 ==> r == ErrorReply(400, MissingSignature)
    ensures r.status == 401 <==> Present(header) && Present(secret)
                                 && header.value != hmacHex(secret.value, rawBody)
    ensures r.status == 401 ==> r == ErrorReply(401, InvalidSignature)
    ensures r == Received <==> Present(header) && Present(secret) && header.value == hmacHex(secret.value, rawBody)
                               && payload.Parsed? && (Handled(payload.value) ==> payload.value.hasCheckout)
    ensures r.status !in {200, 400, 401} ==> r == ErrorReply(500, ProcessingFailed)
  {
    if !Present(header) then ErrorReply(400, MissingSignature)
    else
      var isValid := SumUpApi.VerifyWebhookSignature(secret, hmacHex, header.value, rawBody);
      if isValid.Err? then ErrorReply(500, ProcessingFailed)
      else if !isValid.value then ErrorReply(401, InvalidSignature)
      else if payload.Unparsable? then ErrorReply(500, ProcessingFailed)
      else if Handled(payload.value) && !payload.value.hasCheckout then ErrorReply(500, ProcessingFailed)
      else Received
  }

  /** A signature that does not verify is refused before the body is looked at: the
      answer does not depend on the parse. */
  lemma RejectedBeforeParsing(header: Option<string>, rawBody: string, secret: Option<string>,
                              hmacHex: (string, string) -> string, p1: Parse<WebhookPayload>,
                              p2: Parse<WebhookPayload>)
    requires Present(header) && Present(secret) && header.value != hmacHex(secret.value, rawBody)
    ensures Post(header, rawBody, secret, hmacHex, p1) == Post(header, rawBody, secret, hmacHex, p2)
  {
  }
}
