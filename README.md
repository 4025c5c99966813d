# Guérir & Témoigner Ensemble: checkout, payment ledger, webhooks and site helpers in Dafny

This project models the core of the Guérir & Témoigner Ensemble web shop and blog.
The central part is the checkout-and-payment workflow:

- a buyer is resolved or created in the `clients` table;
- a checkout is opened with the SumUp payment processor;
- a PENDING row is written to the `payments` table;
- two signed webhook endpoints and the payment widget's callbacks later update that row;
- the return page shows the outcome.

Around the workflow sit the site's smaller server and client helpers:

- the SumUp API client with its validation;
- the checkout-creation route;
- the payment listing queries;
- newsletter subscription;
- the contact form;
- the HTML-to-text converter of the e-mails;
- the Mailjet sender;
- the blog's article operations and the admin list of posts.

One Dafny module models each source file. A few modules are shared:

- `Common`: options, results, JSON values, JavaScript truthiness, the `\s` character set, decimal rendering and string lengths.
- `EmailPattern`: the e-mail regular expression `^[^\s@]+@[^\s@]+\.[^\s@]+$` as a computable test. It is proved equal, on every string, to the reading of the pattern as local `@` domain `.` suffix.
- `Ledger`: the `payments` and `clients` tables and the writes issued against them.

Where the source updates state in place, the model does too:

- the database tables are classes whose methods change a `rows` field;
- the React components are classes whose fields are their `useState` values.

Code made only of decisions is modelled as pure functions.

Every backend write, HTTP call, storage call and mail send is a parameter holding its answer, and so is the payment form's client lookup. The other lookups are computed from the modelled table and cannot fail. Examples are an `Outcome`, a `Fetched` reply or a `RowAnswer`. A rejected statement writes nothing. Three library functions are function-typed parameters:

- HMAC-SHA-256 in hex (`hmacHex(secret, body)`);
- the URL parser (`urlOrigin`);
- `JSON.stringify`.

Four behaviours of the code are worth stating up front:

- **Terminal payment states are not sticky.** SUCCESSFUL and FAILED are not final, because neither webhook handler reads the row's status: both update every row with the event's reference without reading its status (`src/app/api/sumup/webhook/route.ts:78-109`). `SumUpWebhook.LaterEventOverwrites` proves that a later opposite event overwrites an earlier one. `SumUpWebhook.ReplayIsIdempotent` proves that replaying an event, at any later time, leaves the table as one delivery at that time would, because the handlers write the same values again.
- **The payments table is rows, not a map by reference.** Nothing in the code makes `checkout_reference` unique. The webhook updates every matching row, and `.single()` fails unless exactly one row matches. So `Ledger.PaymentsTable` keeps a sequence of rows and counts matches (`Ledger.MatchCount`).
- **No processor session id is stored with the payment.** The PENDING rows hold only the reference, the amount, the product, the client and the status.
- **The dialog writes a lower-case status.** The purchase dialog writes status `pending` and completes with `completed` (`src/components/PaymentModal.tsx`, lines 130 and 174). The payment form and the webhook use `PENDING`, `SUCCESSFUL` and `FAILED`. The model keeps each writer's strings.

## Model

| member | source | states |
|---|---|---|
| Common.NatToStringInjective | src/components/PaymentModal.tsx:65 | Distinct numbers print differently in a template literal, through the decimal value of the printed digits. |
| Common.DecimalValueOfNatToString | src/components/PaymentModal.tsx:65 | Reading back the decimal rendering of a number gives the number. |
| Common.AsciiUtf8Length | src/app/api/sumup/webhook/route.ts:26-29 | An ASCII string, such as a hex digest, has as many UTF-8 bytes as characters. |
| EmailPattern.EmailTestMatchesPattern | src/app/api/contact/route.ts:17-18 | The computable e-mail test accepts a string exactly when the string splits into non-empty local, domain and suffix parts made of non-space, non-`@` characters around one `@` and a later `.`. |
| EmailPattern.EmailTestImpliesPattern | src/app/api/newsletter/subscribe/route.ts:17-18 | Every address the test accepts matches the pattern. |
| EmailPattern.PatternImpliesEmailTest | src/app/api/newsletter/subscribe/route.ts:17-18 | Every string the pattern matches passes the test. |
| Ledger.NewPayment | src/lib/payments.ts:43-51 | An inserted payment row carries the given reference, status, amount, product, client and time, and every other column is null. |
| Ledger.ApplyPatch | src/app/api/sumup/webhook/route.ts:79-87 | An update never writes the reference, amount, product, client or creation time; a written status replaces the old one and an omitted one keeps it. |
| Ledger.ApplyPatchThen | src/app/api/sumup/webhook/route.ts:79-103 | Two updates of a row equal one update in which the later value of each column wins. |
| Ledger.ApplyPatchTwice | src/app/api/sumup/webhook/route.ts:79-87 | Applying the same update twice equals applying it once. |
| Ledger.UpdatedWhereReference | src/app/api/sumup/webhook/route.ts:79-87 | `.update(..).eq('checkout_reference', ref)` patches every row with the reference, keeps every other row and keeps the order. |
| Ledger.UpdateOfUnknownReference | src/app/api/sumup/webhook/route.ts:79-87 | An update whose reference matches no row leaves the table unchanged. |
| Ledger.UpdateThen | src/app/api/sumup/webhook/route.ts:79-103 | Two successive updates of one reference equal a single merged update. |
| Ledger.UpdateIdempotent | src/app/api/sumup/webhook/route.ts:79-87 | Replaying an update of a reference equals applying it once. |
| Ledger.MatchCount | src/components/PaymentModal.tsx:178-180 | The number of rows with a reference is at most the table size, and is zero exactly when no row has it. |
| Ledger.SingleByReference | src/lib/payments.ts:128-132 | `.eq('checkout_reference', ref).single()` yields a row exactly when one row matches; that row is in the table and has the reference; otherwise the result is the backend's error. |
| Ledger.PaymentsTable.Insert | src/lib/payments.ts:43-53 | An accepted insert appends the row; a rejected one changes nothing and returns the error. |
| Ledger.PaymentsTable.UpdateWhereReference | src/app/api/sumup/webhook/route.ts:79-92 | An accepted update patches the matching rows as `UpdatedWhereReference` does; a rejected one changes nothing. |
| Ledger.PaymentsTable.UpdateSingleReference | src/components/PaymentModal.tsx:171-184 | With `.select().single()`, the update commits only when exactly one row matches; otherwise the table is unchanged and the single-row error is returned. |
| Ledger.EmailCount | src/components/PaymentForm.tsx:29-33 | The number of clients with an e-mail is zero exactly when none has it. |
| Ledger.SingleByEmail | src/components/PaymentForm.tsx:29-33 | `.eq('email', email).single()` finds a client exactly when one row has the e-mail, and that client is in the table with that e-mail. |
| Ledger.ClientsTable.Insert | src/components/PaymentForm.tsx:39-49 | An accepted insert appends the client row; a rejected one changes nothing. |
| SumUpApi.NewClient | src/lib/sumup.ts:9-20 | Construction fails with the API-key message when the key is unset or empty, then with the merchant-code message; otherwise the key and merchant code are kept and the URL falls back to the public endpoint. |
| SumUpApi.FirstMissingField | src/lib/sumup.ts:55-61 | The loop over the required fields finds nothing exactly when all are truthy; otherwise it names the first falsy field. |
| SumUpApi.Request | src/lib/sumup.ts:22-45 | The request goes to the API URL plus the endpoint with a bearer key. It succeeds exactly on an ok status with a parsable body, and a non-ok status throws `SumUp API Error: <status> - <body>`. |
| SumUpApi.CreateCheckout | src/lib/sumup.ts:47-76 | A request is sent exactly when every required field is truthy, the amount is positive and the currency has length 3. The request carries the client's merchant code, and the result is the request's. A falsy field gives `Missing required field: <f>` for the first falsy field in the order amount, currency, checkout_reference, return_url; then a non-positive amount and a currency not of length 3 give their own messages. |
| SumUpApi.GetCheckout | src/lib/sumup.ts:78-86 | An empty id is refused without a request; otherwise the request is a GET of `/checkouts/<id>` and the result is that request's. |
| SumUpApi.VerifyWebhookSignature | src/lib/sumup.ts:88-97 | An unset or empty secret throws; otherwise a signature is accepted exactly when it equals the hex HMAC of the body. |
| SumUpWebhook.VerifySignature | src/app/api/sumup/webhook/route.ts:23-30 | The check throws without a secret or when the signature and digest differ in byte length; otherwise it accepts exactly the digest. |
| SumUpWebhook.Column | src/app/api/sumup/webhook/route.ts:83-84 | An absent event member leaves its column as it was; a present one writes its value. |
| SumUpWebhook.SuccessPatch | src/app/api/sumup/webhook/route.ts:78-87 | A success writes SUCCESSFUL, the transaction id and payment method when given, and the update time, and nothing else. |
| SumUpWebhook.FailurePatch | src/app/api/sumup/webhook/route.ts:95-103 | A failure writes FAILED, the reason (or `Paiement échoué` when it is absent or empty) and the update time, and nothing else. |
| SumUpWebhook.EventPatch | src/app/api/sumup/webhook/route.ts:57-66 | Exactly the two known event types issue an update, each its own. |
| SumUpWebhook.Handle | src/app/api/sumup/webhook/route.ts:32-76 | Every answer is 200, 401 or 500, and any answer other than `{ received: true }` leaves the table unchanged. |
| SumUpWebhook.Post | src/app/api/sumup/webhook/route.ts:32-76 | The route run against the table produces exactly the answer and the table that `Handle` gives. |
| SumUpWebhook.MissingSignatureRejected | src/app/api/sumup/webhook/route.ts:34-41 | An absent or empty signature gives 401 `Signature manquante` and no write. |
| SumUpWebhook.ForgedSignatureRejected | src/app/api/sumup/webhook/route.ts:47-52 | A wrong signature of the digest's byte length gives 401 `Signature invalide` and no write. |
| SumUpWebhook.SignatureLengthMismatchIsServerError | src/app/api/sumup/webhook/route.ts:69-75 | A signature of another byte length makes the comparison throw, giving 500 and no write. |
| SumUpWebhook.SuccessfulPaymentRecorded | src/app/api/sumup/webhook/route.ts:78-87 | An authentic success updates every row with the reference as stated, and every other row is unchanged. |
| SumUpWebhook.FailedPaymentRecorded | src/app/api/sumup/webhook/route.ts:95-103 | An authentic failure sets FAILED, the reason or the default, and the time on every matching row, and nothing else. |
| SumUpWebhook.UnknownEventIgnored | src/app/api/sumup/webhook/route.ts:57-68 | An unknown event type is acknowledged and writes nothing. |
| SumUpWebhook.UnknownReferenceIgnored | src/app/api/sumup/webhook/route.ts:64-68 | An event for a reference no row has is acknowledged and leaves the table unchanged. |
| SumUpWebhook.WriteErrorIsServerError | src/app/api/sumup/webhook/route.ts:89-92 | A rejected write is rethrown, giving 500 and no change. |
| SumUpWebhook.Delivered | src/app/api/sumup/webhook/route.ts:57-68 | The table after an authentic, accepted event does not depend on which authentic header and secret carried it. |
| SumUpWebhook.ReplayIsIdempotent | src/app/api/sumup/webhook/route.ts:79-103 | Delivering an event again at a later time equals delivering it once at that time: the two tables differ from a single delivery only in `updated_at`. |
| SumUpWebhook.LaterEventOverwrites | src/app/api/sumup/webhook/route.ts:79-103 | A failure after a success for the same reference leaves every matching row FAILED, and a success after a failure leaves them SUCCESSFUL. |
| WebhookRoute.Post | src/app/api/webhook/route.ts:5-50 | A missing signature gives 400 and a wrong one 401. An authentic, parsable event gives `{ received: true }` unless a handled type lacks its checkout object. Every other case gives 500 `Webhook processing failed`. |
| WebhookRoute.RejectedBeforeParsing | src/app/api/webhook/route.ts:17-25 | An invalid signature is answered the same way whatever the body parses to. |
| CheckoutRoute.DescriptionError | src/app/api/checkout/route.ts:14-16 | Logging `description.substring` throws exactly when the description is absent or not a string. |
| CheckoutRoute.OutboundBody | src/app/api/checkout/route.ts:39-46 | The processor body forwards amount, currency, description and reference as given. It adds the merchant code when set, always adds the return URL, and holds nothing else. |
| CheckoutRoute.Post | src/app/api/checkout/route.ts:10-70 | The configuration checks come in the source's order with their messages. The processor is called exactly when all pass and the base URL parses, with the return URL on the base's origin. The processor's answer is relayed, or its `message` is given as a 500. |
| PaymentModal.Reference | src/components/PaymentModal.tsx:65 | The reference minted for a purchase starts with `BOOK-`. |
| PaymentModal.ReferenceInjective | src/components/PaymentModal.tsx:65 | Two references are equal only for the same book id and the same time. |
| PaymentModal.CheckoutFailure | src/components/PaymentModal.tsx:113-117 | A refused checkout call fails with the answer's `error`, or with the default message. |
| PaymentModal.TransactionId | src/components/PaymentModal.tsx:166 | The recorded transaction id is `transaction_id`, or `id` when the former is absent or empty. |
| PaymentModal.CompletionPatch | src/components/PaymentModal.tsx:173-177 | Completion writes `completed`, the transaction id and the transaction code or null, and nothing else. |
| PaymentModal.WidgetFailure | src/components/PaymentModal.tsx:195-203 | The displayed error is the thrown error's message, else the widget's error message, else the default text. |
| PaymentModal.PaymentModal.OnSubmit | src/components/PaymentModal.tsx:59-152 | The reference is minted first, and each step runs only after the one before succeeds. The steps are: client row, checkout call with EUR and the book's description, lower-case pending row, payment step with the checkout id. Any failure sets `error` and keeps the step and checkout id. |
| PaymentModal.PaymentModal.HandlePaymentSuccess | src/components/PaymentModal.tsx:154-193 | Nothing is written without a client id, a reference and a transaction id, each with its own message. Otherwise the single row with the reference is completed and the page leaves for the return page, or the write's error is shown. |
| PaymentModal.PaymentModal.HandlePaymentError | src/components/PaymentModal.tsx:195-203 | Only the error message changes. |
| PaymentModal.PaymentModal.Cancel | src/components/PaymentModal.tsx:356 | Cancelling returns to the form step and keeps everything else. |
| Payments.CreatePayment | src/lib/payments.ts:23-60 | Nothing is inserted unless the checkout was created. Then exactly one PENDING row with the returned reference is appended, and the ids are returned only when that insert succeeds. |
| Payments.Filtered | src/lib/payments.ts:87-98 | The listing keeps exactly the rows that pass every supplied filter. |
| Payments.FilteredCounts | src/lib/payments.ts:83-98 | Every copy of a passing row is kept and no copy of another, so `total` counts every filtered row. |
| Payments.FilteredAppend | src/lib/payments.ts:87-98 | Filtering a concatenation concatenates the filtered parts, so table order is kept. |
| Payments.InsertByNewest | src/lib/payments.ts:84 | Inserting into a newest-first list keeps it newest first and adds exactly the one row. |
| Payments.SortByNewest | src/lib/payments.ts:84 | The ordering gives the same rows, as a multiset, newest first. |
| Payments.Window | src/lib/payments.ts:101-102 | `.range(start, start + limit - 1)` gives at most `limit` rows, the consecutive ones from `start` that exist. |
| Payments.PageRows | src/lib/payments.ts:81-104 | Every row of a page passes the filters and comes from the table, and the page is newest first. |
| Payments.GetPayments | src/lib/payments.ts:65-121 | Page and limit default to 1 and 10, and the total counts every filtered row. The page is the window at `(page - 1) * limit` of the filtered rows sorted newest first. A backend error is rethrown. |
| Payments.GetPaymentDetails | src/lib/payments.ts:126-144 | Lookup by reference succeeds exactly when one row has it; otherwise the single-row error or the backend's error is thrown. |
| PaymentForm.ExistingClient | src/components/PaymentForm.tsx:29-36 | The lookup gives the client only when it succeeds and exactly one row has the e-mail; its error is ignored. |
| PaymentForm.ResolvedClient | src/components/PaymentForm.tsx:29-51 | The client id is the existing client's when the lookup finds one, otherwise the new row's, and there is none when the insert fails. |
| PaymentForm.FailedLookupInsertsDuplicate | src/components/PaymentForm.tsx:29-51 | A failed lookup takes the id of a newly inserted client even when a client with the e-mail exists. |
| PaymentForm.PaymentForm.HandleSubmit | src/components/PaymentForm.tsx:21-90 | Resolving or creating the client comes first. The `/api/create-checkout` call is made exactly when that succeeds, with the amount, the client id and the product id. The PENDING insert under the returned reference comes last. `onSuccess` is called exactly when all succeed. Backend errors reach `onError` as the generic message, and loading is off on every path. |
| CheckoutComplete.ResolveStatus | src/app/checkout/complete/page.tsx:22-53 | No id gives the missing-id failure. An ok answer is the status as given. A refused answer fails with its `error` or the default, and anything thrown fails with its message. |
| CheckoutComplete.Render | src/app/checkout/complete/page.tsx:55-95 | The success screen is shown exactly for status `PAID`, with the transaction id when present. Every other status, PENDING included, shows the failure screen with its message or the default text. |
| CheckoutComplete.MissingIdShowsFailure | src/app/checkout/complete/page.tsx:24-31 | A return without an id ends on the failure screen with the missing-id message. |
| CheckoutComplete.CheckoutStatusView.CheckStatus | src/app/checkout/complete/page.tsx:22-53 | The status route is fetched only when an id is present. The page then holds the resolved status and stops loading. |
| PaymentButton.CheckoutTarget | src/components/PaymentButton.tsx:42-52 | A refused call fails with its `error` or the default, and an answer without an id fails with the missing-id message. Otherwise the result is the checkout id. |
| PaymentButton.PaymentButton.HandlePayment | src/components/PaymentButton.tsx:23-71 | The browser goes to the hosted page of exactly the returned id. Otherwise `error` is set and `onError` receives the same message. Loading is off either way. |
| Newsletter.ValidatedEmail | src/app/api/newsletter/subscribe/route.ts:9-23 | A missing e-mail gives `Email requis` and one failing the pattern gives `Email invalide`. Otherwise the validated address is the given string. |
| Newsletter.Subscribe | src/app/api/newsletter/subscribe/route.ts:5-76 | Every answer other than 200 leaves the table unchanged, and a 200 is the success message. |
| Newsletter.SubscribersTable.UpdateStatus | src/app/api/newsletter/subscribe/route.ts:40-45 | An accepted update sets the status of the address when it is present; a rejected one changes nothing. |
| Newsletter.SubscribersTable.Insert | src/app/api/newsletter/subscribe/route.ts:49-53 | An accepted insert adds the address with its status; a rejected one changes nothing. |
| Newsletter.Post | src/app/api/newsletter/subscribe/route.ts:5-76 | The route run against the table produces exactly the answer and table that `Subscribe` gives, whatever happens to the welcome mail. |
| Newsletter.MissingEmailRefused | src/app/api/newsletter/subscribe/route.ts:9-14 | A request without an e-mail is refused with 400 and changes nothing. |
| Newsletter.InvalidEmailRefused | src/app/api/newsletter/subscribe/route.ts:17-23 | An address the pattern does not match is refused with 400 and changes nothing. |
| Newsletter.SuccessActivates | src/app/api/newsletter/subscribe/route.ts:32-54 | A success concerns an address matching the pattern that was not active. It leaves that address active and every other subscriber as it was. |
| Newsletter.ActiveEmailConflicts | src/app/api/newsletter/subscribe/route.ts:32-37 | An active address is refused with 409 and changes nothing. |
| Newsletter.SecondSubscriptionConflicts | src/app/api/newsletter/subscribe/route.ts:32-37 | After a successful subscription, the same request is a conflict. |
| Newsletter.WriteErrorIsServerError | src/app/api/newsletter/subscribe/route.ts:45-53 | A rejected write gives 500 and changes nothing. |
| Contact.Post | src/app/api/contact/route.ts:4-46 | A missing field gives 400 and an address failing the pattern gives 400. A valid request hands exactly one notification with its fields and time to the mailer. The answer is 200 exactly when that send succeeds and 500 otherwise. |
| HtmlText.StripTags | src/emails/render.tsx:23 | Removing tags never lengthens the text. |
| HtmlText.StripTagsKeepsCharacters | src/emails/render.tsx:23 | Removing tags only deletes: every character of the result is a character of the input. |
| HtmlText.StripTagsLeavesNoTag | src/emails/render.tsx:23 | After tag removal no `<` has a `>` after it. |
| HtmlText.StripTagsWithoutAngle | src/emails/render.tsx:23 | A text without `<` is unchanged by tag removal. |
| HtmlText.ReplaceAllAbsent | src/emails/render.tsx:24-29 | A text without the entity's first character is unchanged by its replacement. |
| HtmlText.DecodeWithoutAmpersand | src/emails/render.tsx:24-29 | A text without `&` is unchanged by entity decoding. |
| HtmlText.CollapseSpace | src/emails/render.tsx:30 | After `\s+` becomes one space, the only whitespace is the space, never doubled, and the first character is kept or becomes a space. |
| HtmlText.CollapseCollapsed | src/emails/render.tsx:30 | Collapsing already-collapsed text changes nothing. |
| HtmlText.Trim | src/emails/render.tsx:31 | Trimming leaves no whitespace at either end, keeps collapsed text collapsed, and leaves trimmed text unchanged. |
| HtmlText.EmptyInputGivesEmptyText | src/emails/render.tsx:20-31 | An absent or empty input gives the empty text. |
| HtmlText.GenerateTextFromHtml | src/emails/render.tsx:18-31 | For every input, the plain text has no whitespace at either end, its only whitespace is the space, and no two spaces are adjacent. |
| HtmlText.PlainTextUnchanged | src/emails/render.tsx:22-31 | A text without `<` or `&` and already normally spaced is returned unchanged. |
| HtmlText.AmpersandDecodedFirst | src/emails/render.tsx:25-26 | Because `&amp;` is decoded before `&lt;`, `&amp;lt;` comes out as `<`. |
| HtmlText.EscapedTagSurvives | src/emails/render.tsx:23-27 | Because tags are removed before entities are decoded, `&lt;b&gt;` comes out as the text `<b>`. |
| HtmlText.UnclosedAngleKept | src/emails/render.tsx:23 | A `<` with no later `>` is kept with the rest of the text, and what precedes it is stripped as on its own. |
| HtmlText.StripTagsWithoutClose | src/emails/render.tsx:23 | A text without `>` is unchanged by tag removal. |
| Mailjet.Recipients | src/lib/mailjet.ts:52-60 | An array `to` gives one recipient per address, in order, named by the name at the same position of an array `toName`. With a single `toName` those recipients are unnamed. A single `to` gives one recipient, named only by a single `toName`. |
| Mailjet.SingleNameIgnoredForArray | src/lib/mailjet.ts:55 | An array of addresses with one name string gives recipients without names. |
| Mailjet.BuildPayload | src/lib/mailjet.ts:30-77 | The payload holds exactly one message. Its sender defaults to the site's address and name when omitted, the recipients and subject are as given, an empty text part is dropped, and the id is `email-<time>`. |
| Mailjet.SendMail | src/lib/mailjet.ts:30-116 | The result is the message id, or `unknown` when it is missing, exactly when the answer's status is `success`. Otherwise the call throws `Échec de l'envoi de l'email: ` followed by `Mailjet status: <status>`, the thrown message, or `Erreur inconnue`. |
| Mailjet.FailuresArePrefixed | src/lib/mailjet.ts:107-115 | Every failure message starts with the French prefix. |
| Articles.Updated | src/lib/articles.ts:42-53 | An update never writes the id or any column the update type lacks. It writes each supplied column and keeps each omitted one. |
| Articles.EmptyUpdateKeepsRow | src/lib/articles.ts:43-46 | An update that supplies nothing leaves the row unchanged. |
| Articles.WithPublication | src/lib/articles.ts:77-80 | Publication sets status `published` and the publication time, and nothing else. |
| Articles.WithoutPublication | src/lib/articles.ts:92-95 | Withdrawal sets status `draft` and clears the publication time, and nothing else. |
| Articles.LaterPublicationWins | src/lib/articles.ts:74-102 | Withdrawing after publishing equals a plain withdrawal, and publishing after withdrawing equals a plain publication. |
| Articles.SlugIds | src/lib/articles.ts:24 | The rows selected by `.eq('slug', slug)` are exactly those with that slug. |
| Articles.PostsTable.GetArticleBySlug | src/lib/articles.ts:20-29 | The row is returned exactly when one row has the slug; otherwise the single-row error or the backend's error is thrown. |
| Articles.PostsTable.UpdateArticle | src/lib/articles.ts:42-53 | Only the row with the id changes, as `Updated` says. A missing id or a rejected statement changes nothing and throws. |
| Articles.PostsTable.DeleteArticle | src/lib/articles.ts:55-72 | Removal of the cover from `covers` is attempted exactly when a path is given, and its failure is ignored. The row is deleted unless the delete statement fails. |
| Articles.PostsTable.PublishArticle | src/lib/articles.ts:74-87 | Only the row with the id is published. A missing id or a rejected statement changes nothing and throws. |
| Articles.PostsTable.UnpublishArticle | src/lib/articles.ts:89-102 | Only the row with the id is withdrawn. A missing id or a rejected statement changes nothing and throws. |
| AdminPosts.Select | src/app/admin/posts/page.tsx:65 | `filter` keeps exactly the posts that satisfy its test. |
| AdminPosts.SelectAppend | src/app/admin/posts/page.tsx:95-98 | Filtering a concatenation concatenates the filtered parts, so order is kept. |
| AdminPosts.SelectAll | src/app/admin/posts/page.tsx:95-98 | A filter every post passes returns the list unchanged. |
| AdminPosts.FilteredPosts | src/app/admin/posts/page.tsx:95-98 | Filter `all` shows every post. Another filter shows exactly the posts with that status, in list order. |
| AdminPosts.NewStatus | src/app/admin/posts/page.tsx:74 | A published post becomes a draft, and any other post becomes published. |
| AdminPosts.WithStatus | src/app/admin/posts/page.tsx:85-88 | The rebuilt entry has the new status, a publication time exactly when it is published, and every other column unchanged. |
| AdminPosts.Toggled | src/app/admin/posts/page.tsx:74-88 | Toggling a published post makes it a draft with no publication time; toggling any other post publishes it now. |
| AdminPosts.ToggleTwiceRestoresStatus | src/app/admin/posts/page.tsx:74 | Toggling a draft or published post twice restores its status. |
| AdminPosts.ToggledIn | src/app/admin/posts/page.tsx:85-89 | The rebuilt list has the same length and order. Every entry with the id gets the new status, and every other entry is unchanged. |
| AdminPosts.ToggledInHoldsToggle | src/app/admin/posts/page.tsx:85-89 | An entry equal to the clicked post becomes that post's toggle. |
| AdminPosts.Without | src/app/admin/posts/page.tsx:65 | The list after a delete holds exactly the posts with another id, in order. |
| AdminPosts.WithoutAbsent | src/app/admin/posts/page.tsx:65 | Deleting an id that no post has leaves the list unchanged. |
| AdminPosts.PostsPage.SetFilter | src/app/admin/posts/page.tsx:117 | A filter button changes only the filter. |
| AdminPosts.PostsPage.DeletePost | src/app/admin/posts/page.tsx:57-71 | An accepted delete sets the list to the handler's render-time list without the posts with that id, in order, closes the dialog and clears the post to delete. A refused delete changes nothing. |
| AdminPosts.OverlappingDeletesLoseOne | src/app/admin/posts/page.tsx:65 | Of two deletes started from the same render, the list the later one sets still holds the post the earlier one deleted. |
| AdminPosts.PostsPage.TogglePostStatus | src/app/admin/posts/page.tsx:73-93 | The status written comes from the clicked post. An accepted update sets the list to the handler's render-time list rebuilt as `ToggledIn` does, and a refused one changes nothing. |

## Left out

- Network, database, storage and mail I/O: each call is a parameter holding its answer. Concurrency between the two webhook endpoints and the return page is not modelled; each request is one atomic step. The admin list handlers are the exception: each takes the list of the render that created it, so overlapping handlers that start from one render are described (`AdminPosts.OverlappingDeletesLoseOne`).
- The HMAC-SHA-256 digest, URL parsing and `JSON.stringify` are uninterpreted function parameters, because they are library code.
- `timingSafeEqual` is modelled only by its byte-length check.
- Clocks (`Date.now`, `toISOString`) are parameters.
- Non-string JSON values: a member the code reads as a string (`error`, `message`, `id`, `transaction_id`, an event's fields) counts as absent when it holds a truthy non-string value. In JavaScript it would be used as is or printed.
- An e-mail member given as an array or other object is treated as failing the pattern. `RegExp.test` would test its string form.
- `HtmlText.GenerateTextFromHtml`: takes an optional string. A non-string input, which `String(html)` would print, is not modelled.
- Floating point: the book price parsing (`parseFloat`) and the currency formatting are left out. Amounts are real numbers passed in.
- Rendering, toasts, dialogs, script loading of the payment widget, and `console` logging are left out, because they have no state the workflow reads.
- The import-time construction of the shared SumUp client (`sumupApi = new SumUpAPI()`) is left out. A configuration error there would fail the module load; `SumUpApi.NewClient` models the checks themselves.
- The checkout-creation route `/api/create-checkout` and the status route `/api/checkout/[id]` are not part of this model; their answers are parameters.
- `Payments.CreatePayment`: the created checkout's reference is assumed present.
- `PaymentForm.PaymentForm.HandleSubmit`: the created checkout's reference is assumed present. A missing one would insert a row without a reference.
- `Newsletter.Subscribe`: the existing-subscriber lookup is computed from the table, by exact address, and cannot fail. In the code a failed lookup is ignored and leads to an insert; the table keyed by e-mail cannot hold the second row that insert could create.
- `Payments.SortByNewest`: rows with the same `created_at` get one fixed order here. The database promises no order among ties, so which of them fall on a page is more specific in `Payments.GetPayments` than in the source.
- `Payments.GetPayments`: requires a page and limit of at least 1 when given. The source does not reject smaller values; they give a backend range the model does not describe.
- `AdminPosts.PostsPage.TogglePostStatus`: the time sent to the backend and the time shown locally are computed separately in the source. The model gives the local one only.
- `PaymentForm.PaymentForm.HandleSubmit` and `PaymentButton.PaymentButton.HandlePayment`: that `isLoading` is true while the calls are pending is not stated, since the calls are not separate steps here.
- `getArticles`, `createArticle` and the admin page's initial fetch are not modelled: they read all rows or insert a row with backend-generated columns and make no decision.
- The `\s` class is the concrete ECMAScript whitespace set (WhiteSpace and LineTerminator code points), which is also what `trim` removes.
- Webhook events are assumed to have the declared member types.
- The legacy handlers of `/api/webhook` only log. Their effect is modelled only as the throw on a missing `checkout` object.
