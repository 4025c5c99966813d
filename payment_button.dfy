/**
  The direct payment button (`PaymentButton`): it asks `/api/checkout` for a
  checkout and sends the browser to the processor's hosted page for it.
*/
module PaymentButton {
  import opened Common

  const DefaultCheckoutError := "Erreur lors de la création du paiement"
  const MissingCheckoutId := "ID de checkout manquant dans la réponse"
  const HostedCheckout := "https://checkout.sumup.com/fr-FR/"

  /** The body posted to `/api/checkout`; an absent reference is dropped by `JSON.stringify`. */
  datatype CheckoutCall = CheckoutCall(amount: real, currency: string, description: string,
                                       checkoutReference: Option<string>)

  /** The outcome of the call: the checkout id to redirect to, or the error message. */
  function CheckoutTarget(reply: Fetched): (r: Result<string>)
    ensures reply.Answered? && reply.body.Parsed? && !reply.ok ==>
              r == Err(OrElse(StringMember(reply.body.value, "error"), DefaultCheckoutError))
    ensures reply.Answered? && reply.body.Parsed? && reply.ok && !Present(StringMember(reply.body.value, "id")) ==>
              r == Err(MissingCheckoutId)
    ensures r.Ok? <==> reply.Answered? && reply.body.Parsed? && reply.ok && Present(StringMember(reply.body.value, "id"))
    ensures r.Ok? ==> r.value == reply.body.value["id"].str
  {
    match reply
    case Unreachable(m) => Err(m)
    case Answered(ok, _, body) =>
      if body.Unparsable? then Err(body.message)
      else if !ok then Err(OrElse(StringMember(body.value, "error"), DefaultCheckoutError))
      else if !Present(StringMember(body.value, "id")) then Err(MissingCheckoutId)
      else Ok(body.value["id"].str)
  }

  class PaymentButton {
    var isLoading: bool
    var error: Option<string>
    /** The last value assigned to `window.location.href`, if any. */
    var location: Option<string>

    constructor ()
      ensures !isLoading && error == None && location == None
    {
      isLoading := false;
      error := None;
      location := None;
    }

    /** `handlePayment`: the browser leaves for exactly the hosted page of the returned
        id, or `error` is set and `onError` receives the same message; loading is off
        afterwards either way. */
    method HandlePayment(amount: real, currency: string, description: string, checkoutReference: Option<string>,
                         reply: Fetched)
      returns (sent: CheckoutCall, onError: Option<string>)
      modifies this
      ensures sent == CheckoutCall(amount, currency, description, checkoutReference)
      ensures !isLoading
      ensures CheckoutTarget(reply).Ok? ==>
                location == Some(HostedCheckout + CheckoutTarget(reply).value) && error == None && onError == None
      ensures CheckoutTarget(reply).Err? ==>
                location == old(location) && error == Some(CheckoutTarget(reply).message) && onError == error
    {
      isLoading := true;
      error := None;
      sent := CheckoutCall(amount, currency, description, checkoutReference);
      var target := CheckoutTarget(reply);
      if target.Err? {
        error := Some(target.message);
        onError := error;
      } else {
        location := Some(HostedCheckout + target.value);
        onError := None;
      }
      isLoading := false;
    }
  }
}
