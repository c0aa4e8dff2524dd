/** The Clerk user-sync webhook (`POST /webhooks/clerk`): a gate on the
    signing secret, the three svix headers and the signature, then one
    transition of the `users` table chosen by the event type.

    `Webhook` from `@clerk/backend` (`new Webhook(secret)` and
    `wh.verify(payload, headers)`) is an oracle, `Verification`: the caller
    passes what those two calls did with the serialised payload. A failing
    store statement is the oracle `storeFault`. */
module ClerkWebhook {
  import opened Wrappers
  import opened Store

  const SecretNotConfigured := "Webhook secret not configured"
  const MissingSvixHeaders := "Missing svix headers"
  const InvalidSignature := "Invalid webhook signature"
  const ProcessingFailed := "Failed to process webhook"

  /** The `svix-id`, `svix-timestamp` and `svix-signature` request headers. */
  datatype SvixHeaders = SvixHeaders(id: Option<string>, timestamp: Option<string>, signature: Option<string>)

  /** One entry of `data.email_addresses`. */
  datatype EmailAddress = EmailAddress(emailAddress: Option<string>)

  /** The `data` object of a Clerk user event. */
  datatype UserData = UserData(id: string, emailAddresses: Option<seq<EmailAddress>>,
                               firstName: Option<string>, lastName: Option<string>)

  /** A verified event; `data` is `None` when the payload has no `data` object. */
  datatype WebhookEvent = WebhookEvent(eventType: string, data: Option<UserData>)

  /** What `Webhook` from `@clerk/backend` did: the constructor rejected the
      secret (this throws outside the inner `try`, so the outer handler
      answers), `verify` threw, or `verify` returned the event. */
  datatype Verification = KeyRejected | Forged | Verified(event: WebhookEvent)

  /** `{ error }`, or `{ success: true, eventType }`. */
  datatype WebhookBody = Rejected(error: string) | Acknowledged(eventType: string)

  datatype Reply = Reply(status: int, body: WebhookBody)

  /** The reply together with the `users` table after the request. */
  datatype Outcome = Outcome(reply: Reply, users: Users)

  /** The transition an event type selects. */
  datatype Action = Upsert | Delete | Ignore

  /** JavaScript truthiness of an optional string: present and not empty. */
  predicate Truthy(s: Option<string>) {
    s.Some? && s.value != ""
  }

  /** `svixId && svixTimestamp && svixSignature`: fails as soon as one of
      the three is missing or empty. */
  predicate HeadersPresent(h: SvixHeaders)
    ensures !HeadersPresent(h) <==> exists v :: v in [h.id, h.timestamp, h.signature] && !Truthy(v)
  {
    Truthy(h.id) && Truthy(h.timestamp) && Truthy(h.signature)
  }

  /** `email_addresses?.[0]?.email_address || ""`. */
  function DeriveEmail(addresses: Option<seq<EmailAddress>>): (email: string)
    ensures email != "" <==>
      addresses.Some? && |addresses.value| > 0 && Truthy(addresses.value[0].emailAddress)
    ensures email != "" ==> email == addresses.value[0].emailAddress.value
  {
    match addresses
    case None => ""
    case Some(list) =>
      if |list| == 0 then ""
      else match list[0].emailAddress
        case None => ""
        case Some(address) => address
  }

  /** `first && last ? first + " " + last : first || last || null`. */
  function DeriveName(first: Option<string>, last: Option<string>): (name: Option<string>)
    ensures name.None? <==> !Truthy(first) && !Truthy(last)
    ensures name.Some? ==> name.value != ""
    ensures Truthy(first) && Truthy(last) ==> name == Some(first.value + " " + last.value)
    ensures Truthy(first) != Truthy(last) ==> name == (if Truthy(first) then first else last)
  {
    if Truthy(first) && Truthy(last) then Some(first.value + " " + last.value)
    else if Truthy(first) then first
    else if Truthy(last) then last
    else None
  }

  /** The branch of the handler an event type takes: the two user-writing
      types upsert, `user.deleted` deletes, every other type is ignored. */
  function Classify(eventType: string): (action: Action)
    ensures action == Upsert <==> eventType in {"user.created", "user.updated"}
    ensures action == Delete <==> eventType == "user.deleted"
    ensures action == Ignore <==> eventType !in {"user.created", "user.updated", "user.deleted"}
  {
    if eventType == "user.created" || eventType == "user.updated" then Upsert
    else if eventType == "user.deleted" then Delete
    else Ignore
  }

  /** The `users` table after the transition for `data`: an upsert leaves
      exactly the derived row under the Clerk id, a delete leaves no row
      there, and no other row changes. */
  function Transition(users: Users, action: Action, data: UserData): (r: Users)
    ensures AgreeExcept(users, r, data.id)
    ensures action == Upsert ==>
      data.id in r && r[data.id] == UserRow(data.id, DeriveEmail(data.emailAddresses), DeriveName(data.firstName, data.lastName))
    ensures action == Delete ==> data.id !in r
    ensures action == Ignore ==> r == users
    ensures UsersKeyed(users) ==> UsersKeyed(r)
  {
    match action
    case Upsert =>
      users[data.id := UserRow(data.id, DeriveEmail(data.emailAddresses), DeriveName(data.firstName, data.lastName))]
    case Delete => users - {data.id}
    case Ignore => users
  }

  /** The whole handler as a function of the secret, the headers, the
      verification oracle, the store-fault oracle and the table before. */
  function Respond(users: Users, secret: Option<string>, headers: SvixHeaders,
                   verified: Verification, storeFault: bool): (out: Outcome)
    ensures out.reply.status in {200, 400, 500}
    ensures out.reply.status != 200 ==> out.users == users && out.reply.body.Rejected?
    ensures out.reply.status == 200 ==>
      verified.Verified? && out.reply.body == Acknowledged(verified.event.eventType)
  {
    if !Truthy(secret) then Outcome(Reply(500, Rejected(SecretNotConfigured)), users)
    else if !HeadersPresent(headers) then Outcome(Reply(400, Rejected(MissingSvixHeaders)), users)
    else match verified
    case KeyRejected => Outcome(Reply(500, Rejected(ProcessingFailed)), users)
    case Forged => Outcome(Reply(400, Rejected(InvalidSignature)), users)
    case Verified(event) =>
      match event.data
      case None => Outcome(Reply(500, Rejected(ProcessingFailed)), users)
      case Some(data) =>
        var action := Classify(event.eventType);
        if action != Ignore && storeFault then Outcome(Reply(500, Rejected(ProcessingFailed)), users)
        else Outcome(Reply(200, Acknowledged(event.eventType)), Transition(users, action, data))
  }

  /** The handler, step by step: early returns for the gate, then a lookup
      followed by an update or an insert, or a delete. */
  method HandleWebhook(db: Database, secret: Option<string>, headers: SvixHeaders,
                       verified: Verification, storeFault: bool) returns (reply: Reply)
    requires db.Valid()
    modifies db`users
    ensures db.Valid()
    ensures Outcome(reply, db.users) == Respond(old(db.users), secret, headers, verified, storeFault)
  {
    if !Truthy(secret) {
      return Reply(500, Rejected(SecretNotConfigured));
    }
    if !HeadersPresent(headers) {
      return Reply(400, Rejected(MissingSvixHeaders));
    }
    if verified.KeyRejected? {
      return Reply(500, Rejected(ProcessingFailed));
    }
    if verified.Forged? {
      return Reply(400, Rejected(InvalidSignature));
    }
    var event := verified.event;
    if event.data.None? {
      return Reply(500, Rejected(ProcessingFailed));
    }
    var data := event.data.value;
    if event.eventType == "user.created" || event.eventType == "user.updated" {
      if storeFault {
        return Reply(500, Rejected(ProcessingFailed));
      }
      var email := DeriveEmail(data.emailAddresses);
      var name := DeriveName(data.firstName, data.lastName);
      var existing := db.FindUser(data.id);
      if existing.Some? {
        db.UpdateUser(data.id, email, name);
      } else {
        db.InsertUser(UserRow(data.id, email, name));
      }
    } else if event.eventType == "user.deleted" {
      if storeFault {
        return Reply(500, Rejected(ProcessingFailed));
      }
      db.DeleteUser(data.id);
    }
    reply := Reply(200, Acknowledged(event.eventType));
  }

  // ---------------------------------------------------------------------
  // Properties of the handler

  /** A missing or empty secret is a 500 whatever the headers and the
      signature, and the table is untouched. */
  lemma SecretCheckedFirst(users: Users, secret: Option<string>, headers: SvixHeaders,
                           verified: Verification, storeFault: bool)
    requires !Truthy(secret)
    ensures Respond(users, secret, headers, verified, storeFault)
         == Outcome(Reply(500, Rejected(SecretNotConfigured)), users)
  {
  }

  /** With a secret, a missing or empty svix header is a 400 before the
      signature is looked at. */
  lemma MissingHeadersRejected(users: Users, secret: Option<string>, headers: SvixHeaders,
                               verified: Verification, storeFault: bool)
    requires Truthy(secret) && !HeadersPresent(headers)
    ensures Respond(users, secret, headers, verified, storeFault)
         == Outcome(Reply(400, Rejected(MissingSvixHeaders)), users)
  {
  }

  /** A signature that fails verification is a 400 with no store change. */
  lemma BadSignatureRejected(users: Users, secret: Option<string>, headers: SvixHeaders, storeFault: bool)
    requires Truthy(secret) && HeadersPresent(headers)
    ensures Respond(users, secret, headers, Forged, storeFault)
         == Outcome(Reply(400, Rejected(InvalidSignature)), users)
  {
  }

  /** A secret that `new Webhook` refuses makes the constructor throw before
      the inner `try`: the outer handler answers 500, not 400, with no change. */
  lemma RejectedKeyFails(users: Users, secret: Option<string>, headers: SvixHeaders, storeFault: bool)
    requires Truthy(secret) && HeadersPresent(headers)
    ensures Respond(users, secret, headers, KeyRejected, storeFault)
         == Outcome(Reply(500, Rejected(ProcessingFailed)), users)
  {
  }

  /** After a `user.created` or `user.updated` event the row under the Clerk
      id holds exactly the derived email and name, whether or not it existed,
      and every other row is as before. */
  lemma UpsertWritesDerivedRow(users: Users, secret: Option<string>, headers: SvixHeaders,
                               eventType: string, data: UserData)
    requires Truthy(secret) && HeadersPresent(headers)
    requires eventType == "user.created" || eventType == "user.updated"
    ensures var out := Respond(users, secret, headers, Verified(WebhookEvent(eventType, Some(data))), false);
      && out.reply == Reply(200, Acknowledged(eventType))
      && data.id in out.users
      && out.users[data.id].email == DeriveEmail(data.emailAddresses)
      && out.users[data.id].name == DeriveName(data.firstName, data.lastName)
      && out.users[data.id].id == data.id
      && AgreeExcept(users, out.users, data.id)
  {
  }

  /** After a `user.deleted` event there is no row under the Clerk id; when
      there was none before, the table is unchanged and the reply is still 200. */
  lemma DeleteRemovesRow(users: Users, secret: Option<string>, headers: SvixHeaders, data: UserData)
    requires Truthy(secret) && HeadersPresent(headers)
    ensures var out := Respond(users, secret, headers, Verified(WebhookEvent("user.deleted", Some(data))), false);
      && out.reply == Reply(200, Acknowledged("user.deleted"))
      && data.id !in out.users
      && AgreeExcept(users, out.users, data.id)
      && (data.id !in users ==> out.users == users)
  {
  }

  /** Any other event type is acknowledged with 200 and its type, and the
      table is unchanged, even when the store is down. */
  lemma OtherEventsIgnored(users: Users, secret: Option<string>, headers: SvixHeaders,
                           eventType: string, data: UserData, storeFault: bool)
    requires Truthy(secret) && HeadersPresent(headers)
    requires eventType != "user.created" && eventType != "user.updated" && eventType != "user.deleted"
    ensures Respond(users, secret, headers, Verified(WebhookEvent(eventType, Some(data))), storeFault)
         == Outcome(Reply(200, Acknowledged(eventType)), users)
  {
  }

  /** Whatever the request, only the row keyed by the event's Clerk id can
      change; without a verified event carrying `data`, nothing changes. */
  lemma OnlySubjectRowChanges(users: Users, secret: Option<string>, headers: SvixHeaders,
                              verified: Verification, storeFault: bool)
    ensures var out := Respond(users, secret, headers, verified, storeFault);
      if verified.Verified? && verified.event.data.Some?
      then AgreeExcept(users, out.users, verified.event.data.value.id)
      else out.users == users
  {
  }

  /** Delivering the same request twice gives the same reply and the same
      table as delivering it once: upsert, delete and ignore are all
      idempotent, which is what makes provider redelivery safe. */
  lemma RedeliveryIdempotent(users: Users, secret: Option<string>, headers: SvixHeaders,
                             verified: Verification, storeFault: bool)
    ensures var once := Respond(users, secret, headers, verified, storeFault);
      Respond(once.users, secret, headers, verified, storeFault) == once
  {
  }

  /** Applying one transition twice is applying it once. */
  lemma TransitionIdempotent(users: Users, action: Action, data: UserData)
    ensures Transition(Transition(users, action, data), action, data) == Transition(users, action, data)
  {
  }

  /** The name derivation on the examples a reader expects. */
  lemma NameExamples()
    ensures DeriveName(Some("Ada"), Some("Lovelace")) == Some("Ada Lovelace")
    ensures DeriveName(Some("Ada"), None) == Some("Ada")
    ensures DeriveName(Some("Ada"), Some("")) == Some("Ada")
    ensures DeriveName(Some(""), Some("Lovelace")) == Some("Lovelace")
    ensures DeriveName(None, None) == None
    ensures DeriveName(Some(""), Some("")) == None
  {
    assert "Ada" + " " + "Lovelace" == "Ada Lovelace";
  }

  /** A missing list, an empty list, or a first entry without an address all
      give the empty email; there is no placeholder. */
  lemma EmailFallsBackToEmpty(first: string, rest: seq<EmailAddress>)
    ensures DeriveEmail(None) == ""
    ensures DeriveEmail(Some([])) == ""
    ensures DeriveEmail(Some([EmailAddress(None)] + rest)) == ""
    ensures DeriveEmail(Some([EmailAddress(Some(first))] + rest)) == first
  {
  }
}
