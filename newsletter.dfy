/**
  Newsletter subscription (`POST /api/newsletter/subscribe`): the table of
  subscribers keyed by e-mail, with the status of each, and the route that
  validates an address and then inserts it, reactivates it, or refuses it as
  already active. The welcome mail is sent afterwards and its outcome does not
  change the answer.
*/
module Newsletter {
  import opened Common
  import opened EmailPattern

  const Active := "active"
  const EmailRequired := "Email requis"
  const EmailInvalid := "Email invalide"
  const AlreadySubscribed := "Cet email est déjà inscrit à notre newsletter"
  const SubscribeFailed := "Une erreur est survenue lors de l'inscription"
  const Subscribed := "Inscription réussie ! Vous recevrez bientôt un email de bienvenue."

  function SuccessReply(): (r: Reply)
    ensures r.status == 200 && "success" in r.body && r.body["success"] == JBool(true) && StringMember(r.body, "message") == Some(Subscribed)
  {
    Reply(200, map["success" := JBool(true), "message" := JString(Subscribed)])
  }

  /** The validated address of a request, or the 400 answer. */
  function ValidatedEmail(body: JsonObject): (r: Result<string>)
    ensures !TruthyMember(body, "email") ==> r == Err(EmailRequired)
    ensures TruthyMember(body, "email") && !PassesEmailTest(body["email"]) ==> r == Err(EmailInvalid)
    ensures r.Ok? <==> TruthyMember(body, "email") && PassesEmailTest(body["email"])
    ensures r.Ok? ==> body["email"] == JString(r.value) && IsEmailAddress(r.value)
  {
    if !TruthyMember(body, "email") then Err(EmailRequired)
    else if !PassesEmailTest(body["email"]) then Err(EmailInvalid)
    else Ok(body["email"].str)
  }

  /** The answer and the table afterwards, for the table before, the parsed body and
      the backend's answer to the one write. */
  function Subscribe(subscribers: map<string, string>, request: Parse<JsonObject>, backend: Outcome)
    : (r: (Reply, map<string, string>))
    ensures r.0.status != 200 ==> r.1 == subscribers
    ensures r.0.status == 200 ==> r.0 == SuccessReply()
  {
    if request.Unparsable? then (ErrorReply(500, SubscribeFailed), subscribers)
    else
      var email := ValidatedEmail(request.value);
      if email.Err? then (ErrorReply(400, email.message), subscribers)
      else if email.value in subscribers && subscribers[email.value] == Active then
        (ErrorReply(409, AlreadySubscribed), subscribers)
      else if backend.Failure? then (ErrorReply(500, SubscribeFailed), subscribers)
      else (SuccessReply(), subscribers[email.value := Active])
  }

  /** The `newsletter_subscribers` table: status by e-mail. */
  class SubscribersTable {
    var statuses: map<string, string>

    constructor (initial: map<string, string>)
      ensures statuses == initial
    {
      statuses := initial;
    }

    /** `.update({ status }).eq('email', email)`. */
    method UpdateStatus(email: string, status: string, backend: Outcome) returns (error: Option<string>)
      modifies this
      ensures backend.Success? ==>
                error == None
                && statuses == (if email in old(statuses) then old(statuses)[email := status] else old(statuses))
      ensures backend.Failure? ==> statuses == old(statuses) && error == Some(backend.message)
    {
      if backend.Failure? {
        return Some(backend.message);
      }
      if email in statuses {
        statuses := statuses[email := status];
      }
      return None;
    }

    /** `.insert([{ email, status }])`. */
    method Insert(email: string, status: string, backend: Outcome) returns (error: Option<string>)
      requires email !in statuses
      modifies this
      ensures backend.Success? ==> statuses == old(statuses)[email := status] && error == None
      ensures backend.Failure? ==> statuses == old(statuses) && error == Some(backend.message)
    {
      if backend.Failure? {
        return Some(backend.message);
      }
      statuses := statuses[email := status];
      return None;
    }
  }

  /** The route handler; `welcomeMail` is the outcome of the welcome mail. */
  method Post(table: SubscribersTable, request: Parse<JsonObject>, backend: Outcome, welcomeMail: Outcome)
    returns (reply: Reply)
    modifies table
    ensures (reply, table.statuses) == Subscribe(old(table.statuses), request, backend)
  {
    if request.Unparsable? {
      return ErrorReply(500, SubscribeFailed);
    }
    var email := ValidatedEmail(request.value);
    if email.Err? {
      return ErrorReply(400, email.message);
    }
    var address := email.value;
    var error: Option<string>;
    if address in table.statuses {
      if table.statuses[address] == Active {
        return ErrorReply(409, AlreadySubscribed);
      }
      error := table.UpdateStatus(address, Active, backend);
    } else {
      error := table.Insert(address, Active, backend);
    }
    if error.Some? {
      return ErrorReply(500, SubscribeFailed);
    }
    // The welcome mail's failure is caught and only logged.
    var _ := welcomeMail;
    return SuccessReply();
  }

  /** A request without a (truthy) e-mail is refused with 400 and changes nothing. */
  lemma MissingEmailRefused(subscribers: map<string, string>, body: JsonObject, backend: Outcome)
    requires !TruthyMember(body, "email")
    ensures Subscribe(subscribers, Parsed(body), backend) == (ErrorReply(400, EmailRequired), subscribers)
  {
  }

  /** An address the pattern rejects is refused with 400 and changes nothing. */
  lemma InvalidEmailRefused(subscribers: map<string, string>, body: JsonObject, backend: Outcome)
    requires TruthyMember(body, "email") && body["email"].JString?
    requires !MatchesPattern(body["email"].str)
    ensures Subscribe(subscribers, Parsed(body), backend) == (ErrorReply(400, EmailInvalid), subscribers)
  {
    EmailTestMatchesPattern(body["email"].str);
  }

  /** Every success leaves the address active, and every other subscriber as it was;
      an address that was not active before is the only one that changes. */
  lemma SuccessActivates(subscribers: map<string, string>, body: JsonObject, backend: Outcome)
    requires Subscribe(subscribers, Parsed(body), backend).0.status == 200
    ensures var email := body["email"].str;
      var after := Subscribe(subscribers, Parsed(body), backend).1;
      MatchesPattern(email) && after == subscribers[email := Active]
      && (email !in subscribers || subscribers[email] != Active)
      && forall other :: other in subscribers && other != email ==> other in after && after[other] == subscribers[other]
  {
    EmailTestMatchesPattern(body["email"].str);
  }

  /** An already active address is refused with 409 and changes nothing. */
  lemma ActiveEmailConflicts(subscribers: map<string, string>, body: JsonObject, backend: Outcome)
    requires ValidatedEmail(body).Ok?
    requires ValidatedEmail(body).value in subscribers && subscribers[ValidatedEmail(body).value] == Active
    ensures Subscribe(subscribers, Parsed(body), backend) == (ErrorReply(409, AlreadySubscribed), subscribers)
  {
  }

  /** Subscribing the same address twice: the second request is a conflict. */
  lemma SecondSubscriptionConflicts(subscribers: map<string, string>, body: JsonObject, b1: Outcome, b2: Outcome)
    requires Subscribe(subscribers, Parsed(body), b1).0.status == 200
    ensures var after := Subscribe(subscribers, Parsed(body), b1).1;
      Subscribe(after, Parsed(body), b2) == (ErrorReply(409, AlreadySubscribed), after)
  {
  }

  /** A rejected write answers 500 and changes nothing. */
  lemma WriteErrorIsServerError(subscribers: map<string, string>, body: JsonObject, message: string)
    requires ValidatedEmail(body).Ok?
    requires ValidatedEmail(body).value !in subscribers || subscribers[ValidatedEmail(body).value] != Active
    ensures Subscribe(subscribers, Parsed(body), Failure(message)) == (ErrorReply(500, SubscribeFailed), subscribers)
  {
  }
}
