/**
  The payment processor's API client (`SumUpAPI`): configuration from the
  environment, the request helper and its error path, checkout creation with
  its validation, checkout lookup, and webhook signature verification.

  The client's three fields are assigned once, by the constructor, and never
  written again, so a configured client is a value here (`Client`).
  The HTTP exchange is a parameter (`Fetched`); the HMAC-SHA-256 hex digest
  is the function parameter `hmacHex(secret, body)`.
*/
module SumUpApi {
  import opened Common

  const DefaultApiUrl := "https://api.sumup.com/v0.1"

  /** The environment variables the client reads. */
  datatype Env = Env(apiKey: Option<string>, apiUrl: Option<string>, merchantCode: Option<string>,
                     webhookSecret: Option<string>)

  /** A constructed client. */
  datatype Client = Client(apiKey: string, apiUrl: string, merchantCode: string)

  /** `new SumUpAPI()`: the API key and merchant code must be set (non-empty); the URL
      falls back to the public endpoint. */
  function NewClient(env: Env): (r: Result<Client>)
    ensures !Present(env.apiKey) ==> r == Err("SUMUP_API_KEY is not configured")
    ensures Present(env.apiKey) && !Present(env.merchantCode) ==> r == Err("MERCHANT_CODE is not configured")
    ensures r.Ok? <==> Present(env.apiKey) && Present(env.merchantCode)
    ensures r.Ok? ==> r.value.apiKey == env.apiKey.value && r.value.merchantCode == env.merchantCode.value
    ensures r.Ok? ==> r.value.apiUrl == OrElse(env.apiUrl, DefaultApiUrl)
  {
    if !Present(env.apiKey) then Err("SUMUP_API_KEY is not configured")
    else if !Present(env.merchantCode) then Err("MERCHANT_CODE is not configured")
    else Ok(Client(env.apiKey.value, OrElse(env.apiUrl, DefaultApiUrl), env.merchantCode.value))
  }

  /** The data a caller passes to `createCheckout` (everything but the merchant code). */
  datatype CheckoutData = CheckoutData(amount: real, currency: string, checkoutReference: string,
                                       returnUrl: string, description: Option<string>)

  /** The body actually sent: the caller's data with the client's merchant code added. */
  datatype CheckoutRequest = CheckoutRequest(data: CheckoutData, merchantCode: string)

  /** An HTTP request the client issues. */
  datatype Outgoing = Outgoing(verb: string, url: string, authorization: string, body: Option<CheckoutRequest>)

  const RequiredFields: seq<string> := ["amount", "currency", "checkout_reference", "return_url"]

  /** JavaScript truthiness of a required field of the request (0 and "" are falsy). */
  predicate FieldPresent(req: CheckoutRequest, field: string) {
    if field == "amount" then req.data.amount != 0.0
    else if field == "currency" then req.data.currency != ""
    else if field == "checkout_reference" then req.data.checkoutReference != ""
    else if field == "return_url" then req.data.returnUrl != ""
    else false
  }

  predicate AllRequiredPresent(req: CheckoutRequest) {
    forall k :: 0 <= k < |RequiredFields| ==> FieldPresent(req, RequiredFields[k])
  }

  /** The loop over `requiredFields`: the name of the first falsy field, if any. */
  method FirstMissingField(req: CheckoutRequest) returns (missing: Option<string>)
    ensures missing.None? <==> AllRequiredPresent(req)
    ensures missing.Some? ==>
      exists k :: 0 <= k < |RequiredFields| && missing.value == RequiredFields[k]
        && !FieldPresent(req, RequiredFields[k])
        && forall m :: 0 <= m < k ==> FieldPresent(req, RequiredFields[m])
  {
    var k := 0;
    while k < |RequiredFields|
      invariant 0 <= k <= |RequiredFields|
      invariant forall m :: 0 <= m < k ==> FieldPresent(req, RequiredFields[m])
    {
      if !FieldPresent(req, RequiredFields[k]) {
        return Some(RequiredFields[k]);
      }
      k := k + 1;
    }
    return None;
  }

  /** `request(endpoint, options)`: the URL is the API URL followed by the endpoint; the
      body is parsed before the status is looked at; a non-ok status throws with the
      status and the serialised body (`stringify` stands for `JSON.stringify`). */
  function Request(client: Client, verb: string, endpoint: string, body: Option<CheckoutRequest>,
                   reply: Fetched, stringify: JsonObject -> string): (r: (Outgoing, Result<JsonObject>))
    ensures r.0 == Outgoing(verb, client.apiUrl + endpoint, "Bearer " + client.apiKey, body)
    ensures r.1.Ok? <==> reply.Answered? && reply.ok && reply.body.Parsed?
    ensures r.1.Ok? ==> r.1.value == reply.body.value
    ensures reply.Answered? && !reply.ok && reply.body.Parsed? ==>
              r.1 == Err("SumUp API Error: " + NatToString(reply.status) + " - " + stringify(reply.body.value))
  {
    var sent := Outgoing(verb, client.apiUrl + endpoint, "Bearer " + client.apiKey, body);
    match reply
    case Unreachable(m) => (sent, Err(m))
    case Answered(ok, status, parsed) =>
      match parsed
      case Unparsable(m) => (sent, Err(m))
      case Parsed(data) =>
        if !ok then (sent, Err("SumUp API Error: " + NatToString(status) + " - " + stringify(data)))
        else (sent, Ok(data))
  }

  const InvalidAmount := "Invalid amount: must be a positive number"
  const InvalidCurrency := "Invalid currency: must be a 3-letter ISO code"

  /** `createCheckout(data)`: every check runs before any request; a request is issued
      exactly when all pass, and it carries the client's merchant code. */
  method CreateCheckout(client: Client, data: CheckoutData, reply: Fetched, stringify: JsonObject -> string)
    returns (sent: Option<Outgoing>, r: Result<JsonObject>)
    ensures sent.Some? <==> AllRequiredPresent(CheckoutRequest(data, client.merchantCode))
                             && data.amount > 0.0 && Utf16Length(data.currency) == 3
    ensures sent.Some? ==> sent.value.verb == "POST" && sent.value.url == client.apiUrl + "/checkouts"
                           && sent.value.body == Some(CheckoutRequest(data, client.merchantCode))
    ensures sent.Some? ==> r == Request(client, "POST", "/checkouts", Some(CheckoutRequest(data, client.merchantCode)), reply, stringify).1
    ensures !AllRequiredPresent(CheckoutRequest(data, client.merchantCode)) ==>
      exists k :: 0 <= k < |RequiredFields| && r == Err("Missing required field: " + RequiredFields[k])
        && !FieldPresent(CheckoutRequest(data, client.merchantCode), RequiredFields[k])
        && forall m :: 0 <= m < k ==> FieldPresent(CheckoutRequest(data, client.merchantCode), RequiredFields[m])
    ensures data.amount == 0.0 ==> r == Err("Missing required field: amount")
    ensures data.amount != 0.0 && data.currency == "" ==> r == Err("Missing required field: currency")
    ensures AllRequiredPresent(CheckoutRequest(data, client.merchantCode)) && data.amount < 0.0 ==> r == Err(InvalidAmount)
    ensures (AllRequiredPresent(CheckoutRequest(data, client.merchantCode)) && data.amount > 0.0
             && Utf16Length(data.currency) != 3) ==> r == Err(InvalidCurrency)
  {
    var req := CheckoutRequest(data, client.merchantCode);
    var missing := FirstMissingField(req);
    if missing.Some? {
      if data.amount == 0.0 {
        assert !FieldPresent(req, RequiredFields[0]);
      } else if data.currency == "" {
        assert FieldPresent(req, RequiredFields[0]) && !FieldPresent(req, RequiredFields[1]);
      }
      return None, Err("Missing required field: " + missing.value);
    }
    assert FieldPresent(req, RequiredFields[0]) && FieldPresent(req, RequiredFields[1]);
    if data.amount <= 0.0 {
      return None, Err(InvalidAmount);
    }
    if Utf16Length(data.currency) != 3 {
      return None, Err(InvalidCurrency);
    }
    var exchange := Request(client, "POST", "/checkouts", Some(req), reply, stringify);
    return Some(exchange.0), exchange.1;
  }

  /** `getCheckout(id)`: an empty id is refused without a request; otherwise the
      checkout is fetched from `/checkouts/<id>`. */
  function GetCheckout(client: Client, checkoutId: string, reply: Fetched, stringify: JsonObject -> string)
    : (r: (Option<Outgoing>, Result<JsonObject>))
    ensures checkoutId == "" <==> r.0.None?
    ensures checkoutId == "" ==> r.1 == Err("Checkout ID is required")
    ensures r.0.Some? ==> r.0.value == Outgoing("GET", client.apiUrl + "/checkouts/" + checkoutId,
                                                "Bearer " + client.apiKey, None)
    ensures r.0.Some? ==> r.1 == Request(client, "GET", "/checkouts/" + checkoutId, None, reply, stringify).1
  {
    if checkoutId == "" then (None, Err("Checkout ID is required"))
    else
      var exchange := Request(client, "GET", "/checkouts/" + checkoutId, None, reply, stringify);
      assert client.apiUrl + ("/checkouts/" + checkoutId) == client.apiUrl + "/checkouts/" + checkoutId;
      (Some(exchange.0), exchange.1)
  }

  /** `verifyWebhookSignature(signature, body)`: fails when the secret is unset or empty,
      otherwise accepts exactly the hex HMAC of the body under the secret. */
  function VerifyWebhookSignature(secret: Option<string>, hmacHex: (string, string) -> string,
                                  signature: string, body: string): (r: Result<bool>)
    ensures r.Err? <==> !Present(secret)
    ensures r.Err? ==> r.message == "SUMUP_WEBHOOK_SECRET is not configured"
    ensures r.Ok? ==> (r.value <==> signature == hmacHex(secret.value, body))
  {
    if !Present(secret) then Err("SUMUP_WEBHOOK_SECRET is not configured")
    else Ok(signature == hmacHex(secret.value, body))
  }
}
