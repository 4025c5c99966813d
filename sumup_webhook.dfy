/**
  The signed payment webhook (`POST /api/sumup/webhook`): the signature
  check, the classification of the request into its responses, and the two
  handlers that update every `payments` row carrying the event's reference.

  The handlers write unconditionally: a row's earlier status is never read,
  so a terminal status can be overwritten by a later event.
*/
module SumUpWebhook {
  import opened Common
  import opened Ledger

  const MissingSignature := "Signature manquante"
  const InvalidSignature := "Signature invalide"
  const InternalError := "Erreur interne du serveur"
  const DefaultFailureReason := "Paiement échoué"
  const EventSuccessful := "payment.successful"
  const EventFailed := "payment.failed"

  /** The members of the event the handlers read; an absent optional member is None. */
  datatype SumUpEvent = SumUpEvent(eventType: string, checkoutReference: string,
                                   transactionId: Option<string>, paymentMethod: Option<string>,
                                   failureReason: Option<string>)

  /** `verifySignature(payload, signature)`: `createHmac` throws without a secret, and
      `timingSafeEqual` throws when the two buffers differ in byte length; otherwise the
      signature is accepted exactly when it equals the hex HMAC of the payload. */
  function VerifySignature(secret: Option<string>, hmacHex: (string, string) -> string,
                           payload: string, signature: string): (r: Result<bool>)
    ensures r.Err? <==> secret.None? || Utf8Length(signature) != Utf8Length(hmacHex(secret.value, payload))
    ensures r.Ok? ==> (r.value <==> signature == hmacHex(secret.value, payload))
  {
    if secret.None? then Err("The \"key\" argument must be of type string")
    else
      var digest := hmacHex(secret.value, payload);
      if Utf8Length(signature) != Utf8Length(digest) then Err("Input buffers must have the same byte length")
      else Ok(signature == digest)
  }

  /** An optional member written as a column: an absent member is dropped from the
      update, so the column keeps its value. */
  function Column(v: Option<string>): (w: Write<Option<string>>)
    ensures v.None? <==> w.Keep?
    ensures w.Put? ==> w.value == v
  {
    if v.Some? then Put(v) else Keep
  }

  /** The update `handleSuccessfulPayment` issues. */
  function SuccessPatch(e: SumUpEvent, now: string): (p: Patch)
    ensures p.status == Put(StatusSuccessful) && p.updatedAt == Put(Some(now))
    ensures p.transactionId == Column(e.transactionId) && p.paymentMethod == Column(e.paymentMethod)
    ensures p.transactionCode.Keep? && p.errorMessage.Keep?
  {
    Patch(Put(StatusSuccessful), Column(e.transactionId), Keep, Column(e.paymentMethod), Keep, Put(Some(now)))
  }

  /** The update `handleFailedPayment` issues: an absent or empty reason is replaced
      by the default text. */
  function FailurePatch(e: SumUpEvent, now: string): (p: Patch)
    ensures p.status == Put(StatusFailed) && p.updatedAt == Put(Some(now))
    ensures p.errorMessage == Put(Some(OrElse(e.failureReason, DefaultFailureReason)))
    ensures p.transactionId.Keep? && p.transactionCode.Keep? && p.paymentMethod.Keep?
  {
    Patch(Put(StatusFailed), Keep, Keep, Keep, Put(Some(OrElse(e.failureReason, DefaultFailureReason))), Put(Some(now)))
  }

  /** The `switch` on the event type: the update a recognised event issues. */
  function EventPatch(e: SumUpEvent, now: string): (r: Option<Patch>)
    ensures r.Some? <==> e.eventType == EventSuccessful || e.eventType == EventFailed
    ensures e.eventType == EventSuccessful ==> r == Some(SuccessPatch(e, now))
    ensures e.eventType == EventFailed ==> r == Some(FailurePatch(e, now))
  {
    if e.eventType == EventSuccessful then Some(SuccessPatch(e, now))
    else if e.eventType == EventFailed then Some(FailurePatch(e, now))
    else None
  }

  /** What `POST` answers and what the table holds afterwards, for a signature header,
      a raw body, the configured secret, the body's parse, the time of the update and
      the backend's answer to it. */
  function Handle(rows: seq<Payment>, header: Option<string>, payload: string, secret: Option<string>,
                  hmacHex: (string, string) -> string, event: Parse<SumUpEvent>, now: string,
                  backend: Outcome): (r: (Reply, seq<Payment>))
    ensures r.0 != Received ==> r.1 == rows
    ensures r.0.status in {200, 401, 500}
  {
    var signature := OrElse(header, "");
    if signature == "" then (ErrorReply(401, MissingSignature), rows)
    else
      var verified := VerifySignature(secret, hmacHex, payload, signature);
      if verified.Err? then (ErrorReply(500, InternalError), rows)
      else if !verified.value then (ErrorReply(401, InvalidSignature), rows)
      else if event.Unparsable? then (ErrorReply(500, InternalError), rows)
      else
        var patch := EventPatch(event.value, now);
        if patch.None? then (Received, rows)
        else if backend.Failure? then (ErrorReply(500, InternalError), rows)
        else (Received, UpdatedWhereReference(rows, event.value.checkoutReference, patch.value))
  }

  /** The route handler, run against the table. */
  method Post(table: PaymentsTable, header: Option<string>, payload: string, secret: Option<string>,
              hmacHex: (string, string) -> string, event: Parse<SumUpEvent>, now: string, backend: Outcome)
    returns (reply: Reply)
    modifies table
    ensures (reply, table.rows) == Handle(old(table.rows), header, payload, secret, hmacHex, event, now, backend)
  {
    var signature := OrElse(header, "");
    if signature == "" {
      return ErrorReply(401, MissingSignature);
    }
    var verified := VerifySignature(secret, hmacHex, payload, signature);
    if verified.Err? {
      return ErrorReply(500, InternalError);
    }
    if !verified.value {
      return ErrorReply(401, InvalidSignature);
    }
    if event.Unparsable? {
      return ErrorReply(500, InternalError);
    }
    var e := event.value;
    var patch := EventPatch(e, now);
    if patch.Some? {
      var error := table.UpdateWhereReference(e.checkoutReference, patch.value, backend);
      if error.Some? {
        return ErrorReply(500, InternalError);
      }
    }
    return Received;
  }

  /** A header carrying the hex HMAC of the payload under a configured secret. */
  predicate Authentic(header: Option<string>, payload: string, secret: Option<string>,
                      hmacHex: (string, string) -> string) {
    secret.Some? && Present(header) && header.value == hmacHex(secret.value, payload)
  }

  /** An absent or empty signature header is answered 401 and nothing is written. */
  lemma MissingSignatureRejected(rows: seq<Payment>, header: Option<string>, payload: string,
                                 secret: Option<string>, hmacHex: (string, string) -> string,
                                 event: Parse<SumUpEvent>, now: string, backend: Outcome)
    requires !Present(header)
    ensures Handle(rows, header, payload, secret, hmacHex, event, now, backend)
         == (ErrorReply(401, MissingSignature), rows)
  {
  }

  /** A signature of the digest's byte length but another value is answered 401 and
      nothing is written. */
  lemma ForgedSignatureRejected(rows: seq<Payment>, header: Option<string>, payload: string,
                                secret: Option<string>, hmacHex: (string, string) -> string,
                                event: Parse<SumUpEvent>, now: string, backend: Outcome)
    requires secret.Some? && Present(header)
    requires Utf8Length(header.value) == Utf8Length(hmacHex(secret.value, payload))
    requires header.value != hmacHex(secret.value, payload)
    ensures Handle(rows, header, payload, secret, hmacHex, event, now, backend)
         == (ErrorReply(401, InvalidSignature), rows)
  {
  }

  /** A signature whose byte length differs from the digest's makes the comparison throw:
      the answer is 500, not 401, and nothing is written. */
  lemma SignatureLengthMismatchIsServerError(rows: seq<Payment>, header: Option<string>, payload: string,
                                             secret: Option<string>, hmacHex: (string, string) -> string,
                                             event: Parse<SumUpEvent>, now: string, backend: Outcome)
    requires secret.Some? && Present(header)
    requires Utf8Length(header.value) != Utf8Length(hmacHex(secret.value, payload))
    ensures Handle(rows, header, payload, secret, hmacHex, event, now, backend)
         == (ErrorReply(500, InternalError), rows)
  {
  }

  /** An authentic `payment.successful` sets SUCCESSFUL, the transaction id and payment
      method (when given) and the update time on every row with the reference; every
      other row and every other column is unchanged. */
  lemma SuccessfulPaymentRecorded(rows: seq<Payment>, header: Option<string>, payload: string,
                                  secret: Option<string>, hmacHex: (string, string) -> string,
                                  e: SumUpEvent, now: string)
    requires Authentic(header, payload, secret, hmacHex) && e.eventType == EventSuccessful
    ensures var r := Handle(rows, header, payload, secret, hmacHex, Parsed(e), now, Success);
      r.0 == Received && |r.1| == |rows|
      && (forall i :: 0 <= i < |rows| && rows[i].reference != e.checkoutReference ==> r.1[i] == rows[i])
      && (forall i :: 0 <= i < |rows| && rows[i].reference == e.checkoutReference ==>
            r.1[i] == rows[i].(status := StatusSuccessful,
                               transactionId := if e.transactionId.Some? then e.transactionId else rows[i].transactionId,
                               paymentMethod := if e.paymentMethod.Some? then e.paymentMethod else rows[i].paymentMethod,
                               updatedAt := Some(now)))
  {
  }

  /** An authentic `payment.failed` sets FAILED, the failure reason (or the default text)
      and the update time on every row with the reference; nothing else changes. */
  lemma FailedPaymentRecorded(rows: seq<Payment>, header: Option<string>, payload: string,
                              secret: Option<string>, hmacHex: (string, string) -> string,
                              e: SumUpEvent, now: string)
    requires Authentic(header, payload, secret, hmacHex) && e.eventType == EventFailed
    ensures var r := Handle(rows, header, payload, secret, hmacHex, Parsed(e), now, Success);
      r.0 == Received && |r.1| == |rows|
      && (forall i :: 0 <= i < |rows| && rows[i].reference != e.checkoutReference ==> r.1[i] == rows[i])
      && (forall i :: 0 <= i < |rows| && rows[i].reference == e.checkoutReference ==>
            r.1[i] == rows[i].(status := StatusFailed,
                               errorMessage := Some(if Present(e.failureReason) then e.failureReason.value
                                                    else DefaultFailureReason),
                               updatedAt := Some(now)))
  {
  }

  /** An event type the switch does not name is acknowledged and writes nothing. */
  lemma UnknownEventIgnored(rows: seq<Payment>, header: Option<string>, payload: string,
                            secret: Option<string>, hmacHex: (string, string) -> string,
                            e: SumUpEvent, now: string, backend: Outcome)
    requires Authentic(header, payload, secret, hmacHex)
    requires e.eventType != EventSuccessful && e.eventType != EventFailed
    ensures Handle(rows, header, payload, secret, hmacHex, Parsed(e), now, backend) == (Received, rows)
  {
  }

  /** An event whose reference matches no row is acknowledged and leaves the table as it was. */
  lemma UnknownReferenceIgnored(rows: seq<Payment>, header: Option<string>, payload: string,
                                secret: Option<string>, hmacHex: (string, string) -> string,
                                e: SumUpEvent, now: string, backend: Outcome)
    requires Authentic(header, payload, secret, hmacHex)
    requires forall i :: 0 <= i < |rows| ==> rows[i].reference != e.checkoutReference
    requires backend.Success?
    ensures Handle(rows, header, payload, secret, hmacHex, Parsed(e), now, backend) == (Received, rows)
  {
    var patch := EventPatch(e, now);
    if patch.Some? {
      UpdateOfUnknownReference(rows, e.checkoutReference, patch.value);
    }
  }

  /** A rejected write is rethrown: the answer is 500 and the table is unchanged. */
  lemma WriteErrorIsServerError(rows: seq<Payment>, header: Option<string>, payload: string,
                                secret: Option<string>, hmacHex: (string, string) -> string,
                                e: SumUpEvent, now: string, message: string)
    requires Authentic(header, payload, secret, hmacHex)
    requires e.eventType == EventSuccessful || e.eventType == EventFailed
    ensures Handle(rows, header, payload, secret, hmacHex, Parsed(e), now, Failure(message))
         == (ErrorReply(500, InternalError), rows)
  {
  }

  /** The table after an authentic event whose write succeeds. */
  function Delivered(rows: seq<Payment>, e: SumUpEvent, now: string): (r: seq<Payment>)
    ensures forall header, payload, secret, hmacHex | Authentic(header, payload, secret, hmacHex) ::
              Handle(rows, header, payload, secret, hmacHex, Parsed(e), now, Success).1 == r
  {
    var patch := EventPatch(e, now);
    if patch.None? then rows else UpdatedWhereReference(rows, e.checkoutReference, patch.value)
  }

  /** The handlers do not read a row's status, so delivering the same event again, at
      any later time, leaves the table as delivering it once at that later time: only
      `updated_at` differs from the first delivery. */
  lemma ReplayIsIdempotent(rows: seq<Payment>, e: SumUpEvent, t1: string, t2: string)
    ensures Delivered(Delivered(rows, e, t1), e, t2) == Delivered(rows, e, t2)
  {
    var p1 := EventPatch(e, t1);
    var p2 := EventPatch(e, t2);
    if p1.Some? {
      UpdateThen(rows, e.checkoutReference, p1.value, p2.value);
      assert p1.value.Then(p2.value) == p2.value;
    }
  }

  /** Terminal statuses are not sticky: a failure delivered after a success for the same
      reference leaves every matching row FAILED, and a success after a failure leaves
      them SUCCESSFUL. */
  lemma LaterEventOverwrites(rows: seq<Payment>, first: SumUpEvent, later: SumUpEvent, t1: string, t2: string)
    requires first.checkoutReference == later.checkoutReference
    requires {first.eventType, later.eventType} == {EventSuccessful, EventFailed}
    ensures var r := Delivered(Delivered(rows, first, t1), later, t2);
      |r| == |rows|
      && forall i :: 0 <= i < |rows| && rows[i].reference == first.checkoutReference ==>
           r[i].status == (if later.eventType == EventFailed then StatusFailed else StatusSuccessful)
  {
    var mid := Delivered(rows, first, t1);
    var r := Delivered(mid, later, t2);
    forall i | 0 <= i < |rows| && rows[i].reference == first.checkoutReference
      ensures r[i].status == (if later.eventType == EventFailed then StatusFailed else StatusSuccessful)
    {
      assert mid[i].reference == rows[i].reference;
    }
  }
}
