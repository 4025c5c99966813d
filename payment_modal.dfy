/**
  The purchase dialog for a book (`PaymentModal`): submitting the client form
  creates the client row, asks `/api/checkout` for a checkout, records a
  pending payment and moves to the payment step; the payment widget's success
  callback completes the payment row and leaves for the return page; its
  error callback and the cancel button only change the dialog's state.

  The component state is the class's fields; the two tables are passed in and
  changed in place. The float parsing of the book's price is left to the
  caller (`amount`).
*/
module PaymentModal {
  import opened Common
  import opened Ledger

  const ClientCreationError := "Erreur lors de la création du client"
  const DefaultCheckoutError := "Erreur lors de la création du paiement"
  const MissingClientId := "Client ID manquant"
  const MissingReference := "Référence de paiement manquante"
  const MissingTransactionId := "ID de transaction manquant"
  const DefaultPaymentError := "Le paiement a échoué. Veuillez réessayer."
  const CompletePage := "/checkout/complete?checkout_id="

  datatype Step = FormStep | PaymentStep

  datatype Book = Book(id: nat, title: string)

  /** The fields of the client form. */
  datatype ClientForm = ClientForm(firstName: string, lastName: string, email: string, phone: string, address: string)

  /** The body posted to `/api/checkout`. */
  datatype CheckoutCall = CheckoutCall(amount: real, currency: string, description: string, checkoutReference: string)

  /** What the payment widget passes to its success and error callbacks. */
  datatype WidgetResponse = WidgetResponse(transactionId: Option<string>, id: Option<string>,
                                           transactionCode: Option<string>, errorMessage: Option<string>)

  /** What the error callback receives: a thrown `Error`, or the widget's response. */
  datatype WidgetError = Thrown(message: string) | Answer(response: WidgetResponse)

  /** The reference minted for a purchase: `BOOK-<book id>-<milliseconds>`. */
  function Reference(bookId: nat, now: nat): (r: string)
    ensures |r| > 5 && r[..5] == "BOOK-"
  {
    "BOOK-" + NatToString(bookId) + "-" + NatToString(now)
  }

  /** The first '-' of a digit string followed by '-' is the one after the digits. */
  lemma DashAfterDigits(a: string, b: string)
    requires forall i :: 0 <= i < |a| ==> IsDigit(a[i])
    ensures '-' in a + "-" + b && FirstIndex(a + "-" + b, '-') == |a|
  {
    var s := a + "-" + b;
    assert s[|a|] == '-';
    var i := FirstIndex(s, '-');
  }

  /** A digit string followed by '-' splits uniquely. */
  lemma SplitAtDash(a: string, b: string, c: string, d: string)
    requires forall i :: 0 <= i < |a| ==> IsDigit(a[i])
    requires forall i :: 0 <= i < |c| ==> IsDigit(c[i])
    requires a + "-" + b == c + "-" + d
    ensures a == c && b == d
  {
    var s := a + "-" + b;
    DashAfterDigits(a, b);
    DashAfterDigits(c, d);
    assert a == s[..|a|] == c;
    assert b == s[|a| + 1..] == d;
  }

  /** Distinct purchases get distinct references: the reference determines both the
      book id and the time. */
  lemma ReferenceInjective(book1: nat, now1: nat, book2: nat, now2: nat)
    requires Reference(book1, now1) == Reference(book2, now2)
    ensures book1 == book2 && now1 == now2
  {
    var r1 := Reference(book1, now1);
    assert r1[5..] == NatToString(book1) + "-" + NatToString(now1);
    assert Reference(book2, now2)[5..] == NatToString(book2) + "-" + NatToString(now2);
    SplitAtDash(NatToString(book1), NatToString(now1), NatToString(book2), NatToString(now2));
    NatToStringInjective(book1, book2);
    NatToStringInjective(now1, now2);
  }

  function Description(title: string): string {
    "Achat du livre \"" + title + "\""
  }

  /** The checkout call succeeded: the body parsed and the status is ok. */
  predicate CheckoutAccepted(reply: Fetched) {
    reply.Answered? && reply.body.Parsed? && reply.ok
  }

  /** The message thrown when the checkout call did not succeed. */
  function CheckoutFailure(reply: Fetched): (m: string)
    requires !CheckoutAccepted(reply)
    ensures reply.Answered? && reply.body.Parsed? ==>
              m == OrElse(StringMember(reply.body.value, "error"), DefaultCheckoutError)
  {
    match reply
    case Unreachable(m) => m
    case Answered(_, _, body) =>
      if body.Unparsable? then body.message
      else OrElse(StringMember(body.value, "error"), DefaultCheckoutError)
  }

  /** The message thrown when the client row was not created. */
  function ClientFailure(answer: RowAnswer): string
    requires !answer.Row?
  {
    if answer.RowError? then answer.message else ClientCreationError
  }

  /** The transaction id the success callback records: `transaction_id || id`. */
  function TransactionId(response: WidgetResponse): (r: Option<string>)
    ensures Present(response.transactionId) ==> r == response.transactionId
    ensures !Present(response.transactionId) ==> r == response.id
  {
    if Present(response.transactionId) then response.transactionId else response.id
  }

  /** The update the success callback issues: status 'completed', the transaction id,
      and the transaction code or null. */
  function CompletionPatch(transactionId: string, response: WidgetResponse): (p: Patch)
    ensures p.status == Put(StatusCompleted) && p.transactionId == Put(Some(transactionId))
    ensures p.transactionCode == Put(if Present(response.transactionCode) then response.transactionCode else None)
    ensures p.paymentMethod.Keep? && p.errorMessage.Keep? && p.updatedAt.Keep?
  {
    Patch(Put(StatusCompleted), Put(Some(transactionId)),
          Put(if Present(response.transactionCode) then response.transactionCode else None), Keep, Keep, Keep)
  }

  /** The message `handlePaymentError` shows. */
  function WidgetFailure(e: WidgetError): (m: string)
    ensures e.Thrown? ==> m == e.message
    ensures e.Answer? && Present(e.response.errorMessage) ==> m == e.response.errorMessage.value
    ensures e.Answer? && !Present(e.response.errorMessage) ==> m == DefaultPaymentError
  {
    if e.Thrown? then e.message else OrElse(e.response.errorMessage, DefaultPaymentError)
  }

  class PaymentModal {
    var step: Step
    var checkoutId: Option<string>
    var checkoutReference: Option<string>
    var error: Option<string>
    var clientId: Option<string>
    /** The last value assigned to `window.location.href`, if any. */
    var location: Option<string>

    constructor ()
      ensures step == FormStep && checkoutId == None && checkoutReference == None
      ensures error == None && clientId == None && location == None
    {
      step := FormStep;
      checkoutId := None;
      checkoutReference := None;
      error := None;
      clientId := None;
      location := None;
    }

    /** `onSubmit`: the reference is minted first; each later step runs only when the
        one before it succeeded; any failure sets `error` and leaves the step and the
        checkout id as they were. Returns the checkout call made, if any. */
    method OnSubmit(book: Book, form: ClientForm, amount: real, now: nat, createdAt: int,
                    clients: ClientsTable, payments: PaymentsTable,
                    clientAnswer: RowAnswer, checkoutReply: Fetched, paymentBackend: Outcome)
      returns (checkoutCall: Option<CheckoutCall>)
      modifies this, clients, payments
      ensures checkoutReference == Some(Reference(book.id, now)) && location == old(location)
      ensures !clientAnswer.Row? ==>
                clients.rows == old(clients.rows) && payments.rows == old(payments.rows)
                && checkoutCall == None && clientId == old(clientId)
                && step == old(step) && checkoutId == old(checkoutId)
                && error == Some(ClientFailure(clientAnswer))
      ensures clientAnswer.Row? ==>
                clients.rows == old(clients.rows) + [Client(clientAnswer.id, form.email,
                                  DialogClient(form.firstName, form.lastName, form.phone, form.address))]
                && clientId == Some(clientAnswer.id)
                && checkoutCall == Some(CheckoutCall(amount, "EUR", Description(book.title), Reference(book.id, now)))
      ensures clientAnswer.Row? && !CheckoutAccepted(checkoutReply) ==>
                payments.rows == old(payments.rows) && step == old(step) && checkoutId == old(checkoutId)
                && error == Some(CheckoutFailure(checkoutReply))
      ensures clientAnswer.Row? && CheckoutAccepted(checkoutReply) && paymentBackend.Failure? ==>
                payments.rows == old(payments.rows) && step == old(step) && checkoutId == old(checkoutId)
                && error == Some(paymentBackend.message)
      ensures clientAnswer.Row? && CheckoutAccepted(checkoutReply) && paymentBackend.Success? ==>
                payments.rows == old(payments.rows) + [NewPayment(Reference(book.id, now), StatusPendingLower, amount,
                                                                  NatToString(book.id), clientAnswer.id, createdAt)]
                && step == PaymentStep && checkoutId == StringMember(checkoutReply.body.value, "id")
                && error == None
    {
      error := None;
      var reference := Reference(book.id, now);
      checkoutReference := Some(reference);
      checkoutCall := None;

      var columns := DialogClient(form.firstName, form.lastName, form.phone, form.address);
      match clientAnswer {
        case RowError(m) =>
          var _ := clients.Insert("", form.email, columns, Failure(m));
          error := Some(m);
          return;
        case NoRow =>
          error := Some(ClientCreationError);
          return;
        case Row(id) =>
          var _ := clients.Insert(id, form.email, columns, Success);
          clientId := Some(id);
      }

      checkoutCall := Some(CheckoutCall(amount, "EUR", Description(book.title), reference));
      if !CheckoutAccepted(checkoutReply) {
        error := Some(CheckoutFailure(checkoutReply));
        return;
      }
      var checkoutData := checkoutReply.body.value;

      var row := NewPayment(reference, StatusPendingLower, amount, NatToString(book.id), clientAnswer.id, createdAt);
      var paymentError := payments.Insert(row, paymentBackend);
      if paymentError.Some? {
        error := paymentError;
        return;
      }
      checkoutId := StringMember(checkoutData, "id");
      step := PaymentStep;
    }

    /** `handlePaymentSuccess`: nothing is written unless the client id, the reference and
        a transaction id are all present; then the row with the reference is completed
        (only if exactly one row matches) and the page leaves for the return page. */
    method HandlePaymentSuccess(response: WidgetResponse, payments: PaymentsTable, backend: Outcome)
      modifies this, payments
      ensures step == old(step) && checkoutId == old(checkoutId) && checkoutReference == old(checkoutReference)
      ensures clientId == old(clientId)
      ensures !Present(old(clientId)) ==>
                payments.rows == old(payments.rows) && error == Some(MissingClientId) && location == old(location)
      ensures Present(old(clientId)) && !Present(old(checkoutReference)) ==>
                payments.rows == old(payments.rows) && error == Some(MissingReference) && location == old(location)
      ensures Present(old(clientId)) && Present(old(checkoutReference)) && !Present(TransactionId(response)) ==>
                payments.rows == old(payments.rows) && error == Some(MissingTransactionId) && location == old(location)
      ensures Present(old(clientId)) && Present(old(checkoutReference)) && Present(TransactionId(response)) ==>
                var ref := old(checkoutReference).value;
                var patch := CompletionPatch(TransactionId(response).value, response);
                if backend.Success? && MatchCount(old(payments.rows), ref) == 1 then
                  payments.rows == UpdatedWhereReference(old(payments.rows), ref, patch)
                  && error == old(error)
                  && location == Some(CompletePage + (if old(checkoutId).Some? then old(checkoutId).value else "null"))
                else
                  payments.rows == old(payments.rows) && location == old(location)
                  && error == Some(if backend.Failure? then backend.message else SingleRowError)
    {
      if !Present(clientId) {
        error := Some(MissingClientId);
        return;
      }
      if !Present(checkoutReference) {
        error := Some(MissingReference);
        return;
      }
      var transactionId := TransactionId(response);
      if !Present(transactionId) {
        error := Some(MissingTransactionId);
        return;
      }
      var updateError := payments.UpdateSingleReference(checkoutReference.value,
                                                        CompletionPatch(transactionId.value, response), backend);
      if updateError.Some? {
        error := updateError;
        return;
      }
      location := Some(CompletePage + (if checkoutId.Some? then checkoutId.value else "null"));
    }

    /** `handlePaymentError`: only the error message changes. */
    method HandlePaymentError(e: WidgetError)
      modifies this
      ensures error == Some(WidgetFailure(e))
      ensures step == old(step) && checkoutId == old(checkoutId) && checkoutReference == old(checkoutReference)
      ensures clientId == old(clientId) && location == old(location)
    {
      error := Some(WidgetFailure(e));
    }

    /** The widget's cancel button: back to the form, everything else kept. */
    method Cancel()
      modifies this
      ensures step == FormStep
      ensures checkoutId == old(checkoutId) && checkoutReference == old(checkoutReference)
      ensures error == old(error) && clientId == old(clientId) && location == old(location)
    {
      step := FormStep;
    }
  }
}
