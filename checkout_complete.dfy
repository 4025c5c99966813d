/**
  The payment return page (`/checkout/complete`): one status check for the
  `checkout_id` of the query string, through the checkout-status route, then
  a success or a failure screen. The status route is not part of this model;
  its answer is the parameter `reply`.
*/
module CheckoutComplete {
  import opened Common

  const MissingCheckoutId := "ID de paiement manquant"
  const DefaultCheckError := "Erreur lors de la vérification du paiement"
  const DefaultFailureText := "Une erreur est survenue lors du paiement."
  const ShopLink := "/oeuvres"

  /** The status the page shows for a failure with a message. */
  function Failed(message: string): (s: JsonObject)
    ensures StringMember(s, "status") == Some("FAILED") && StringMember(s, "error_message") == Some(message)
  {
    map["status" := JString("FAILED"), "error_message" := JString(message)]
  }

  /** `checkStatus`: no id means no fetch and a failure; an ok answer is the status
      verbatim; anything thrown becomes a failure carrying its message. */
  function ResolveStatus(checkoutId: Option<string>, reply: Fetched): (s: JsonObject)
    ensures !Present(checkoutId) ==> s == Failed(MissingCheckoutId)
    ensures Present(checkoutId) && reply.Answered? && reply.ok && reply.body.Parsed? ==> s == reply.body.value
    ensures Present(checkoutId) && reply.Answered? && !reply.ok && reply.body.Parsed? ==>
              s == Failed(OrElse(StringMember(reply.body.value, "error"), DefaultCheckError))
    ensures Present(checkoutId) && reply.Unreachable? ==> s == Failed(reply.message)
    ensures Present(checkoutId) && reply.Answered? && reply.body.Unparsable? ==> s == Failed(reply.body.message)
  {
    if !Present(checkoutId) then Failed(MissingCheckoutId)
    else match reply
      case Unreachable(m) => Failed(m)
      case Answered(ok, _, body) =>
        if body.Unparsable? then Failed(body.message)
        else if !ok then Failed(OrElse(StringMember(body.value, "error"), DefaultCheckError))
        else body.value
  }

  /** What the page shows. */
  datatype Screen = Loading | PaidScreen(transactionRef: Option<string>) | FailedScreen(message: string, link: string)

  /** The render decision: the success screen exactly for status 'PAID', the failure
      screen for every other status, PENDING included. */
  function Render(isLoading: bool, status: Option<JsonObject>): (v: Screen)
    ensures isLoading <==> v == Loading
    ensures v.PaidScreen? <==> !isLoading && status.Some? && StringMember(status.value, "status") == Some("PAID")
    ensures v.PaidScreen? ==> (v.transactionRef.Some? <==> Present(StringMember(status.value, "transaction_id")))
    ensures v.PaidScreen? && v.transactionRef.Some? ==> v.transactionRef == StringMember(status.value, "transaction_id")
    ensures v.FailedScreen? ==> v.link == ShopLink
    ensures v.FailedScreen? && status.Some? ==>
              v.message == OrElse(StringMember(status.value, "error_message"), DefaultFailureText)
    ensures v.FailedScreen? && status.None? ==> v.message == DefaultFailureText
  {
    if isLoading then Loading
    else if status.Some? && StringMember(status.value, "status") == Some("PAID") then
      var ref := StringMember(status.value, "transaction_id");
      PaidScreen(if Present(ref) then ref else None)
    else
      FailedScreen(if status.Some? then OrElse(StringMember(status.value, "error_message"), DefaultFailureText)
                   else DefaultFailureText, ShopLink)
  }

  /** A missing id always ends on the failure screen with its message. */
  lemma MissingIdShowsFailure(checkoutId: Option<string>, reply: Fetched)
    requires !Present(checkoutId)
    ensures Render(false, Some(ResolveStatus(checkoutId, reply))) == FailedScreen(MissingCheckoutId, ShopLink)
  {
  }

  /** The page's state. */
  class CheckoutStatusView {
    var status: Option<JsonObject>
    var isLoading: bool

    constructor ()
      ensures isLoading && status == None
      ensures Render(isLoading, status) == Loading
    {
      status := None;
      isLoading := true;
    }

    /** The one status check: it fetches `/api/checkout/<id>` only when the id is present,
        and ends with loading off. Returns the path fetched, if any. */
    method CheckStatus(checkoutId: Option<string>, reply: Fetched) returns (fetched: Option<string>)
      modifies this
      ensures fetched.None? <==> !Present(checkoutId)
      ensures fetched.Some? ==> fetched.value == "/api/checkout/" + checkoutId.value
      ensures status == Some(ResolveStatus(checkoutId, reply)) && !isLoading
      ensures Render(isLoading, status) != Loading
    {
      if !Present(checkoutId) {
        status := Some(Failed(MissingCheckoutId));
        isLoading := false;
        return None;
      }
      fetched := Some("/api/checkout/" + checkoutId.value);
      status := Some(ResolveStatus(checkoutId, reply));
      isLoading := false;
    }
  }
}
