/**
  The mail sender (`sendMail`): the recipient list built from `to` and
  `toName`, the one-message payload for the Mailjet send API v3.1, and the
  check of the answer's status. The send itself is a parameter
  (`SendAnswer`); `Date.now()` is the parameter `now`.
*/
module Mailjet {
  import opened Common

  const DefaultFromEmail := "no-reply@guerirettemoignerensemble.fr"
  const DefaultFromName := "Guérir & Témoigner Ensemble"
  const FailurePrefix := "Échec de l'envoi de l'email: "
  const UnknownError := "Erreur inconnue"
  const UnknownMessageId := "unknown"

  /** `to: string | string[]`. */
  datatype To = OneAddress(email: string) | Addresses(emails: seq<string>)

  /** `toName?: string | string[]`. */
  datatype ToName = NoName | OneName(name: string) | Names(names: seq<string>)

  /** One entry of the message's `To` list; `name` is None when the key is `undefined`. */
  datatype Recipient = Recipient(email: string, name: Option<string>)

  /** The caller's options; `None` is an omitted (undefined) member. */
  datatype SendMailOptions = SendMailOptions(
    to: To, toName: ToName, subject: string, html: string, text: Option<string>,
    fromEmail: Option<string>, fromName: Option<string>)

  /** The one message of the payload. */
  datatype Message = Message(
    fromEmail: string, fromName: string, to: seq<Recipient>, subject: string,
    htmlPart: string, textPart: Option<string>, customId: string)

  datatype Payload = Payload(messages: seq<Message>)

  /** What the send call gives back: it throws (an `Error` with its message, or some
      other value), or it answers with the first message's `Status` and the first
      recipient's `MessageID`, each possibly missing. */
  datatype SendAnswer =
    | ThrownError(message: string)
    | ThrownValue
    | Answer(status: Option<string>, messageId: Option<string>)

  /** The name given to the recipient at position `index` of an array `to`. */
  function NameAt(toName: ToName, index: nat): (r: Option<string>)
    ensures r.Some? <==> toName.Names? && index < |toName.names|
    ensures r.Some? ==> r.value == toName.names[index]
  {
    if toName.Names? && index < |toName.names| then Some(toName.names[index]) else None
  }

  /** `to.map((email, index) => ({ Email: email, Name: ... }))`. */
  function MapRecipients(emails: seq<string>, toName: ToName, from: nat): (r: seq<Recipient>)
    ensures |r| == |emails|
    ensures forall i :: 0 <= i < |r| ==> r[i] == Recipient(emails[i], NameAt(toName, from + i))
  {
    if emails == [] then []
    else [Recipient(emails[0], NameAt(toName, from))] + MapRecipients(emails[1..], toName, from + 1)
  }

  /** The recipient list: one per address of an array, named from an array of names, or
      the single address, named only by a single name. */
  function Recipients(to: To, toName: ToName): (r: seq<Recipient>)
    ensures to.Addresses? ==> |r| == |to.emails|
    ensures to.Addresses? ==> forall i :: 0 <= i < |r| ==> r[i].email == to.emails[i]
    ensures to.Addresses? ==> forall i :: 0 <= i < |r| ==>
              (r[i].name.Some? <==> toName.Names? && i < |toName.names|)
    ensures to.Addresses? ==> forall i :: 0 <= i < |r| ==>
              (r[i].name.Some? ==> r[i].name.value == toName.names[i])
    ensures to.OneAddress? ==> r == [Recipient(to.email, if toName.OneName? then Some(toName.name) else None)]
  {
    match to
    case OneAddress(email) => [Recipient(email, if toName.OneName? then Some(toName.name) else None)]
    case Addresses(emails) => MapRecipients(emails, toName, 0)
  }

  /** An array of addresses with a single name gives recipients without names. */
  lemma SingleNameIgnoredForArray(emails: seq<string>, name: string)
    ensures forall r :: r in Recipients(Addresses(emails), OneName(name)) ==> r.name.None?
  {
  }

  /** The payload: one message, the sender defaulting when omitted, the text part
      dropped when empty, and an id made from the current time. */
  function BuildPayload(opts: SendMailOptions, now: nat): (p: Payload)
    ensures |p.messages| == 1
    ensures p.messages[0].fromEmail == opts.fromEmail.GetOr(DefaultFromEmail)
    ensures p.messages[0].fromName == opts.fromName.GetOr(DefaultFromName)
    ensures p.messages[0].to == Recipients(opts.to, opts.toName)
    ensures p.messages[0].subject == opts.subject && p.messages[0].htmlPart == opts.html
    ensures p.messages[0].textPart.Some? <==> Present(opts.text)
    ensures p.messages[0].textPart.Some? ==> p.messages[0].textPart == opts.text
    ensures p.messages[0].customId == "email-" + NatToString(now)
  {
    Payload([Message(opts.fromEmail.GetOr(DefaultFromEmail), opts.fromName.GetOr(DefaultFromName),
                     Recipients(opts.to, opts.toName), opts.subject, opts.html,
                     if Present(opts.text) then opts.text else None,
                     "email-" + NatToString(now))])
  }

  /** `${status}` of an optional string. */
  function Rendered(s: Option<string>): string {
    if s.Some? then s.value else "undefined"
  }

  /** `sendMail(options)`: the payload sent, and the message id, or the error thrown. */
  function SendMail(opts: SendMailOptions, now: nat, answer: SendAnswer): (r: (Payload, Result<string>))
    ensures r.0 == BuildPayload(opts, now)
    ensures r.1.Ok? <==> answer.Answer? && answer.status == Some("success")
    ensures r.1.Ok? ==> r.1.value == OrElse(answer.messageId, UnknownMessageId)
    ensures answer.Answer? && answer.status != Some("success") ==>
              r.1 == Err(FailurePrefix + "Mailjet status: " + Rendered(answer.status))
    ensures answer.ThrownError? ==> r.1 == Err(FailurePrefix + answer.message)
    ensures answer.ThrownValue? ==> r.1 == Err(FailurePrefix + UnknownError)
  {
    var payload := BuildPayload(opts, now);
    match answer
    case ThrownError(m) => (payload, Err(FailurePrefix + m))
    case ThrownValue => (payload, Err(FailurePrefix + UnknownError))
    case Answer(status, messageId) =>
      if status != Some("success") then (payload, Err(FailurePrefix + "Mailjet status: " + Rendered(status)))
      else (payload, Ok(OrElse(messageId, UnknownMessageId)))
  }

  /** Every failure carries the French prefix. */
  lemma FailuresArePrefixed(opts: SendMailOptions, now: nat, answer: SendAnswer)
    ensures SendMail(opts, now, answer).1.Err? ==>
              FailurePrefix <= SendMail(opts, now, answer).1.message
  {
  }
}
