/**
  The contact form endpoint (`POST /api/contact`): every field is required, the
  address must pass the e-mail pattern, and a valid request hands exactly one
  notification to the mailer.
*/
module Contact {
  import opened Common
  import opened EmailPattern

  const FieldsRequired := "Tous les champs sont requis"
  const EmailInvalid := "Email invalide"
  const SendFailed := "Une erreur est survenue lors de l'envoi du message"
  const Sent := "Votre message a été envoyé avec succès. Nous vous répondrons dans les plus brefs délais."

  /** The notification handed to the mailer. */
  datatype ContactMessage = ContactMessage(name: JsonValue, email: JsonValue, subject: JsonValue,
                                           message: JsonValue, submittedAt: int)

  /** `name`, `email`, `subject` and `message` are all truthy. */
  predicate AllFieldsGiven(body: JsonObject) {
    TruthyMember(body, "name") && TruthyMember(body, "email") && TruthyMember(body, "subject")
    && TruthyMember(body, "message")
  }

  /** The answer and the notification sent, if any, for the parsed body, the time and
      the mailer's outcome. */
  function Post(request: Parse<JsonObject>, now: int, send: Outcome): (r: (Reply, Option<ContactMessage>))
    ensures request.Parsed? && !AllFieldsGiven(request.value) ==> r == (ErrorReply(400, FieldsRequired), None)
    ensures request.Parsed? && AllFieldsGiven(request.value) && !PassesEmailTest(request.value["email"]) ==>
              r == (ErrorReply(400, EmailInvalid), None)
    ensures r.1.Some? <==> request.Parsed? && AllFieldsGiven(request.value) && PassesEmailTest(request.value["email"])
    ensures r.1.Some? ==> r.1.value == ContactMessage(request.value["name"], request.value["email"],
                                                      request.value["subject"], request.value["message"], now)
    ensures r.1.Some? ==> MatchesPattern(request.value["email"].str)
    ensures r.0.status == 200 <==> r.1.Some? && send.Success?
    ensures r.0.status == 200 ==> StringMember(r.0.body, "message") == Some(Sent)
    ensures r.0.status !in {200, 400} ==> r.0 == ErrorReply(500, SendFailed)
  {
    if request.Unparsable? then (ErrorReply(500, SendFailed), None)
    else
      var body := request.value;
      if !AllFieldsGiven(body) then
        (ErrorReply(400, FieldsRequired), None)
      else if !PassesEmailTest(body["email"]) then (ErrorReply(400, EmailInvalid), None)
      else
        EmailTestMatchesPattern(body["email"].str);
        var notification := ContactMessage(body["name"], body["email"], body["subject"], body["message"], now);
        if send.Failure? then (ErrorReply(500, SendFailed), Some(notification))
        else (Reply(200, map["success" := JBool(true), "message" := JString(Sent)]), Some(notification))
  }
}
