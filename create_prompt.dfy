/** The create-prompt handler (`POST /prompts`): body validation, then the
    Bearer header, then Clerk authentication, then the owner lookup, then
    one insert into `prompts`; every exit has its own status.

    Clerk's `authenticateRequest` is an oracle (`AuthResult`); the id the
    database generates for the new row is `newId` and its clock reading is
    `now`; a failing store statement is `storeFault`. */
module CreatePrompt {
  import opened Wrappers
  import opened Text
  import opened Store
  import opened PromptSchema

  const MissingAuthorization := "Missing or invalid authorization header"
  const InvalidToken := "Invalid or expired token"
  const UserNotFound := "User not found. Please ensure you're registered."
  const CreateFailed := "Failed to create prompt"
  const ValidationPrefix := "Validation error: "

  /** What `authenticateRequest` did: threw, or returned a result whose
      `userId` may be missing (a null result is `Returned(None)`). */
  datatype AuthResult = Threw | Returned(userId: Option<string>)

  datatype CreateBody = Rejected(error: string) | Created(prompt: PromptRow)

  datatype Reply = Reply(status: int, body: CreateBody)

  /** The reply together with the `prompts` table after the request. */
  datatype Outcome = Outcome(reply: Reply, prompts: Prompts)

  /** `authHeader && authHeader.startsWith("Bearer ")`: the header is
      present and is `Bearer ` followed by the token. */
  predicate BearerHeader(authHeader: Option<string>)
    ensures BearerHeader(authHeader) <==>
      authHeader.Some? && |authHeader.value| >= 7 && authHeader.value == "Bearer " + authHeader.value[7..]
  {
    authHeader.Some? && StartsWith(authHeader.value, "Bearer ")
  }

  /** The authenticated Clerk id: present only when the call returned a
      non-empty `userId`. */
  function AuthenticatedId(auth: AuthResult): (id: Option<string>)
    ensures id.Some? <==> auth.Returned? && auth.userId.Some? && auth.userId.value != ""
    ensures id.Some? ==> id == auth.userId
  {
    match auth
    case Threw => None
    case Returned(None) => None
    case Returned(Some(userId)) => if userId == "" then None else Some(userId)
  }

  /** `${path.join(".")}: ${message}`: the text splits back into the dotted
      path, the separator ": " and the message; a one-field path is printed
      as the field name alone. */
  function FormatIssue(issue: Issue): (text: string)
    ensures var path := Join(issue.path, ".");
      && |text| == |path| + 2 + |issue.message|
      && text[..|path|] == path
      && text[|path|..|path| + 2] == ": "
      && text[|path| + 2..] == issue.message
    ensures |issue.path| == 1 ==> text == issue.path[0] + ": " + issue.message
  {
    Join(issue.path, ".") + ": " + issue.message
  }

  /** `Validation error: ` followed by the formatted issues joined by ", ". */
  function ValidationMessage(issues: seq<Issue>): (msg: string)
    ensures StartsWith(msg, ValidationPrefix)
    ensures |issues| == 1 ==> msg == ValidationPrefix + FormatIssue(issues[0])
  {
    ValidationPrefix + Join(seq(|issues|, i requires 0 <= i < |issues| => FormatIssue(issues[i])), ", ")
  }

  /** Each further issue adds ", " and its own formatted text at the end, so
      the issues appear in order, separated by ", ". */
  lemma ValidationMessageSnoc(issues: seq<Issue>, issue: Issue)
    requires |issues| > 0
    ensures ValidationMessage(issues + [issue]) == ValidationMessage(issues) + ", " + FormatIssue(issue)
  {
    var parts := seq(|issues|, i requires 0 <= i < |issues| => FormatIssue(issues[i]));
    var more := issues + [issue];
    assert seq(|more|, i requires 0 <= i < |more| => FormatIssue(more[i])) == parts + [FormatIssue(issue)];
    JoinSnoc(parts, FormatIssue(issue), ", ");
  }

  /** The reply to an empty `content`: the path `content`, a colon, then
      the schema's message. */
  lemma EmptyContentMessage()
    ensures ParseContent(Object(Text(""))) == Err([Issue(["content"], ContentEmpty)])
    ensures ValidationMessage([Issue(["content"], ContentEmpty)])
         == ValidationPrefix + "content: " + ContentEmpty
  {
  }

  /** The whole handler as a function of the request, the oracles and the
      tables before. */
  function Respond(users: Users, prompts: Prompts, body: RequestBody, authHeader: Option<string>,
                   auth: AuthResult, storeFault: bool, newId: string, now: Instant): (out: Outcome)
    ensures out.reply.status in {201, 400, 401, 404, 500}
    ensures out.reply.status != 201 ==> out.prompts == prompts && out.reply.body.Rejected?
    ensures out.reply.status == 201 ==>
      && newId !in prompts
      && out.reply.body.Created?
      && out.prompts == prompts[newId := out.reply.body.prompt]
  {
    match ParseContent(body)
    case Err(issues) => Outcome(Reply(400, Rejected(ValidationMessage(issues))), prompts)
    case Ok(content) =>
      if !BearerHeader(authHeader) then Outcome(Reply(401, Rejected(MissingAuthorization)), prompts)
      else match AuthenticatedId(auth)
        case None => Outcome(Reply(401, Rejected(InvalidToken)), prompts)
        case Some(clerkId) =>
          if storeFault then Outcome(Reply(500, Rejected(CreateFailed)), prompts)
          else if clerkId !in users then Outcome(Reply(404, Rejected(UserNotFound)), prompts)
          // a generated id that is already taken violates the primary key: the insert throws
          else if newId in prompts then Outcome(Reply(500, Rejected(CreateFailed)), prompts)
          else
            var row := PromptRow(newId, clerkId, content, now, now);
            Outcome(Reply(201, Created(row)), prompts[newId := row])
  }

  /** The handler, step by step, over the database. */
  method HandleCreatePrompt(db: Database, body: RequestBody, authHeader: Option<string>,
                            auth: AuthResult, storeFault: bool, newId: string, now: Instant)
    returns (reply: Reply)
    requires db.Valid()
    modifies db`prompts
    ensures db.Valid()
    ensures Outcome(reply, db.prompts) == Respond(old(db.users), old(db.prompts), body, authHeader, auth, storeFault, newId, now)
  {
    var parsed := ParseContent(body);
    if parsed.Err? {
      return Reply(400, Rejected(ValidationMessage(parsed.error)));
    }
    var content := parsed.value;
    if authHeader.None? || !StartsWith(authHeader.value, "Bearer ") {
      return Reply(401, Rejected(MissingAuthorization));
    }
    var clerkId: string;
    match auth {
      case Threw =>
        return Reply(401, Rejected(InvalidToken));
      case Returned(userId) =>
        if userId.None? || userId.value == "" {
          return Reply(401, Rejected(InvalidToken));
        }
        clerkId := userId.value;
    }
    if storeFault {
      return Reply(500, Rejected(CreateFailed));
    }
    var user := db.FindUser(clerkId);
    if user.None? {
      return Reply(404, Rejected(UserNotFound));
    }
    if newId in db.prompts {
      return Reply(500, Rejected(CreateFailed));
    }
    var created := PromptRow(newId, clerkId, content, now, now);
    db.InsertPrompt(created);
    reply := Reply(201, Created(created));
  }

  // ---------------------------------------------------------------------
  // Properties of the handler

  /** The body is parsed before any authentication: an invalid body is a 400
      even without an Authorization header, and nothing is inserted. */
  lemma ValidationBeforeAuth(users: Users, prompts: Prompts, body: RequestBody, authHeader: Option<string>,
                             auth: AuthResult, storeFault: bool, newId: string, now: Instant)
    requires ParseContent(body).Err?
    ensures var out := Respond(users, prompts, body, authHeader, auth, storeFault, newId, now);
      && out.reply == Reply(400, Rejected(ValidationMessage(ParseContent(body).error)))
      && out.prompts == prompts
  {
  }

  /** A valid body with an absent or non-Bearer header is a 401 without
      consulting Clerk. */
  lemma MissingBearerRejected(users: Users, prompts: Prompts, body: RequestBody, authHeader: Option<string>,
                              auth: AuthResult, storeFault: bool, newId: string, now: Instant)
    requires ParseContent(body).Ok? && !BearerHeader(authHeader)
    ensures Respond(users, prompts, body, authHeader, auth, storeFault, newId, now)
         == Outcome(Reply(401, Rejected(MissingAuthorization)), prompts)
  {
  }

  /** Authentication that throws or yields no user id is a 401 "Invalid or
      expired token", before the store is touched. */
  lemma FailedAuthRejected(users: Users, prompts: Prompts, body: RequestBody, authHeader: Option<string>,
                           auth: AuthResult, storeFault: bool, newId: string, now: Instant)
    requires ParseContent(body).Ok? && BearerHeader(authHeader)
    requires auth == Threw || auth == Returned(None) || auth == Returned(Some(""))
    ensures Respond(users, prompts, body, authHeader, auth, storeFault, newId, now)
         == Outcome(Reply(401, Rejected(InvalidToken)), prompts)
  {
  }

  /** An authenticated id with no user row is a 404 and no insert. */
  lemma UnknownUserRejected(users: Users, prompts: Prompts, body: RequestBody, authHeader: Option<string>,
                            clerkId: string, newId: string, now: Instant)
    requires ParseContent(body).Ok? && BearerHeader(authHeader)
    requires clerkId != "" && clerkId !in users
    ensures Respond(users, prompts, body, authHeader, Returned(Some(clerkId)), false, newId, now)
         == Outcome(Reply(404, Rejected(UserNotFound)), prompts)
  {
  }

  /** On success exactly one row is added, owned by the authenticated user
      and holding the body's content; the 201 reply echoes that row. */
  lemma SuccessInsertsOneRow(users: Users, prompts: Prompts, content: string, authHeader: Option<string>,
                             clerkId: string, newId: string, now: Instant)
    requires content != "" && BearerHeader(authHeader)
    requires clerkId != "" && clerkId in users && newId !in prompts
    ensures var out := Respond(users, prompts, Object(Text(content)), authHeader, Returned(Some(clerkId)), false, newId, now);
      && out.reply.status == 201
      && out.reply.body == Created(PromptRow(newId, clerkId, content, now, now))
      && out.prompts.Keys == prompts.Keys + {newId}
      && |out.prompts| == |prompts| + 1
      && AgreeExcept(prompts, out.prompts, newId)
  {
  }

  /** A store failure after a valid, authenticated request is a 500 "Failed
      to create prompt" and no insert. */
  lemma StoreFaultFails(users: Users, prompts: Prompts, body: RequestBody, authHeader: Option<string>,
                        clerkId: string, newId: string, now: Instant)
    requires ParseContent(body).Ok? && BearerHeader(authHeader) && clerkId != ""
    ensures Respond(users, prompts, body, authHeader, Returned(Some(clerkId)), true, newId, now)
         == Outcome(Reply(500, Rejected(CreateFailed)), prompts)
  {
  }

  /** Creating a prompt keeps the primary-key invariant of the table. */
  lemma CreateKeepsKeys(users: Users, prompts: Prompts, body: RequestBody, authHeader: Option<string>,
                        auth: AuthResult, storeFault: bool, newId: string, now: Instant)
    requires PromptsKeyed(prompts)
    ensures PromptsKeyed(Respond(users, prompts, body, authHeader, auth, storeFault, newId, now).prompts)
  {
  }
}
