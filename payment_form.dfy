/**
  The product payment form (`PaymentForm`): on submit it finds the client by
  e-mail or creates one, asks `/api/create-checkout` for a checkout, records a
  PENDING payment under the reference the route returns, and reports the
  outcome through `onSuccess` or `onError`.

  The backend's errors are plain objects, not `Error` instances, so a
  rethrown backend error reaches `onError` as the generic message.
*/
module PaymentForm {
  import opened Common
  import opened Ledger
  import opened Payments

  const GenericError := "An error occurred"
  const NullClientError := "Cannot read properties of null (reading 'id')"

  datatype FormData = FormData(name: string, email: string, address: string)

  /** Which callback the submission ends with. */
  datatype Callback = OnSuccess | OnError(message: string)

  /** The body of the `/api/create-checkout` request. */
  datatype CheckoutCall = CheckoutCall(amount: real, clientId: string, productId: string)

  /** `existingClient`: the row `.single()` gives. A failed lookup's error is not looked
      at, so its `data` is null, as when no row or several rows have the e-mail. */
  function ExistingClient(clients: seq<Client>, email: string, lookup: Outcome): (r: Option<Client>)
    ensures lookup.Failure? ==> r == None
    ensures lookup.Success? ==> r == SingleByEmail(clients, email)
  {
    if lookup.Success? then SingleByEmail(clients, email) else None
  }

  /** The client id a submission uses, if the client step succeeds: the existing
      client's, or the new row's. */
  function ResolvedClient(clients: seq<Client>, email: string, lookup: Outcome, insert: RowAnswer)
    : (r: Option<string>)
    ensures ExistingClient(clients, email, lookup).Some? ==>
              r == Some(ExistingClient(clients, email, lookup).value.id)
    ensures ExistingClient(clients, email, lookup).None? ==> (r.Some? <==> insert.Row?)
    ensures ExistingClient(clients, email, lookup).None? && insert.Row? ==> r == Some(insert.id)
  {
    var existing := ExistingClient(clients, email, lookup);
    if existing.Some? then Some(existing.value.id)
    else if insert.Row? then Some(insert.id)
    else None
  }

  /** A failed lookup inserts a new client even when one already has the e-mail. */
  lemma FailedLookupInsertsDuplicate(clients: seq<Client>, email: string, message: string, id: string)
    requires SingleByEmail(clients, email).Some?
    ensures ResolvedClient(clients, email, Failure(message), Row(id)) == Some(id)
  {
  }

  class PaymentForm {
    var isLoading: bool

    constructor ()
      ensures !isLoading
    {
      isLoading := false;
    }

    /** `handleSubmit`. Each step runs only when the one before it succeeded, and
        `isLoading` is false again on every path. `lookup` is the client lookup's
        answer; the checkout call made, if any, is returned. */
    method HandleSubmit(productId: string, amount: real, form: FormData, createdAt: int,
                        clients: ClientsTable, payments: PaymentsTable, lookup: Outcome,
                        insert: RowAnswer, answer: CheckoutAnswer, paymentBackend: Outcome)
      returns (checkoutCall: Option<CheckoutCall>, callback: Callback)
      modifies this, clients, payments
      ensures !isLoading
      ensures ExistingClient(old(clients.rows), form.email, lookup).Some? ==> clients.rows == old(clients.rows)
      ensures ExistingClient(old(clients.rows), form.email, lookup).None? && insert.Row? ==>
                clients.rows == old(clients.rows) + [Client(insert.id, form.email, FormClient(form.name, form.address))]
      ensures ExistingClient(old(clients.rows), form.email, lookup).None? && !insert.Row? ==>
                clients.rows == old(clients.rows) && payments.rows == old(payments.rows)
                && callback == OnError(if insert.RowError? then GenericError else NullClientError)
      ensures checkoutCall.Some? <==> ResolvedClient(old(clients.rows), form.email, lookup, insert).Some?
      ensures checkoutCall.Some? ==>
                checkoutCall.value
                == CheckoutCall(amount, ResolvedClient(old(clients.rows), form.email, lookup, insert).value, productId)
      ensures !answer.Created? ==> payments.rows == old(payments.rows) && callback.OnError?
      ensures ResolvedClient(old(clients.rows), form.email, lookup, insert).Some? && answer.NotOk? ==>
                callback == OnError(CheckoutFailed)
      ensures ResolvedClient(old(clients.rows), form.email, lookup, insert).Some? && answer.Created? ==>
                var clientId := ResolvedClient(old(clients.rows), form.email, lookup, insert).value;
                if paymentBackend.Success? then
                  payments.rows == old(payments.rows)
                                   + [NewPayment(answer.checkoutRef, StatusPending, amount, productId, clientId, createdAt)]
                  && callback == OnSuccess
                else payments.rows == old(payments.rows) && callback == OnError(GenericError)
      ensures callback == OnSuccess ==> checkoutCall.Some? && answer.Created? && paymentBackend.Success?
    {
      isLoading := true;
      var clientId: string;
      checkoutCall := None;
      var existing := ExistingClient(clients.rows, form.email, lookup);
      if existing.Some? {
        clientId := existing.value.id;
      } else {
        match insert {
          case RowError(m) =>
            var _ := clients.Insert("", form.email, FormClient(form.name, form.address), Failure(m));
            isLoading := false;
            return None, OnError(GenericError);
          case NoRow =>
            isLoading := false;
            return None, OnError(NullClientError);
          case Row(id) =>
            var _ := clients.Insert(id, form.email, FormClient(form.name, form.address), Success);
            clientId := id;
        }
      }

      checkoutCall := Some(CheckoutCall(amount, clientId, productId));
      match answer {
        case NoAnswer(m) =>
          isLoading := false;
          return checkoutCall, OnError(m);
        case NotOk =>
          isLoading := false;
          return checkoutCall, OnError(CheckoutFailed);
        case BadBody(m) =>
          isLoading := false;
          return checkoutCall, OnError(m);
        case Created(_, checkoutRef) =>
          var row := NewPayment(checkoutRef, StatusPending, amount, productId, clientId, createdAt);
          var paymentError := payments.Insert(row, paymentBackend);
          isLoading := false;
          if paymentError.Some? {
            return checkoutCall, OnError(GenericError);
          }
          return checkoutCall, OnSuccess;
      }
    }
  }
}
