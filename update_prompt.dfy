/** The update-prompt handler (`PATCH /prompt/:id`): parse the body, then
    rewrite `content` and `updatedAt` of the row whose id is the path id.
    Any error is caught and logged and the handler returns no reply at all,
    which is `None` here. A failing store statement is `storeFault`; the
    clock reading the database stores is `now`. */
module UpdatePrompt {
  import opened Wrappers
  import opened Store
  import opened PromptSchema

  /** A 200 reply with the rows the update returned. */
  datatype Reply = Reply(status: int, rows: seq<PromptRow>)

  /** The reply, if any, together with the `prompts` table after the request. */
  datatype Outcome = Outcome(reply: Option<Reply>, prompts: Prompts)

  function Respond(prompts: Prompts, promptId: string, body: RequestBody, storeFault: bool, now: Instant): (out: Outcome)
    requires PromptsKeyed(prompts)
    ensures PromptsKeyed(out.prompts) && out.prompts.Keys == prompts.Keys
    ensures out.reply.None? <==> ParseContent(body).Err? || storeFault
    ensures out.reply.None? ==> out.prompts == prompts
    ensures out.reply.Some? ==> out.reply.value.status == 200
  {
    match ParseContent(body)
    case Err(_) => Outcome(None, prompts)
    case Ok(content) =>
      if storeFault then Outcome(None, prompts)
      else Outcome(Some(Reply(200, RewrittenRows(prompts, promptId, content, now))),
                   RewriteContent(prompts, promptId, content, now))
  }

  /** The handler, step by step, over the database. */
  method HandleUpdatePrompt(db: Database, promptId: string, body: RequestBody, storeFault: bool, now: Instant)
    returns (reply: Option<Reply>)
    requires db.Valid()
    modifies db`prompts
    ensures db.Valid()
    ensures Outcome(reply, db.prompts) == Respond(old(db.prompts), promptId, body, storeFault, now)
  {
    var parsed := ParseContent(body);
    if parsed.Err? {
      return None;
    }
    if storeFault {
      return None;
    }
    var rows := db.RewritePrompt(promptId, parsed.value, now);
    reply := Some(Reply(200, rows));
  }

  // ---------------------------------------------------------------------
  // Properties of the handler

  /** Empty content fails the parse before any write: no reply, no change. */
  lemma EmptyContentNoChange(prompts: Prompts, promptId: string, storeFault: bool, now: Instant)
    requires PromptsKeyed(prompts)
    ensures Respond(prompts, promptId, Object(Text("")), storeFault, now) == Outcome(None, prompts)
  {
  }

  /** With valid content, only the row with the path id changes: it gets
      the new content and `updatedAt`, keeps its id, owner and creation
      time, and is the one row in the 200 reply. */
  lemma MatchingRowRewritten(prompts: Prompts, promptId: string, content: string, now: Instant)
    requires PromptsKeyed(prompts) && content != "" && promptId in prompts
    ensures var out := Respond(prompts, promptId, Object(Text(content)), false, now);
      && AgreeExcept(prompts, out.prompts, promptId)
      && promptId in out.prompts
      && var row := out.prompts[promptId];
      && row.content == content && row.updatedAt == now
      && row.id == prompts[promptId].id && row.userId == prompts[promptId].userId
      && row.createdAt == prompts[promptId].createdAt
      && out.reply == Some(Reply(200, [row]))
  {
  }

  /** An id that matches no row leaves the table as it was and replies 200
      with an empty list. */
  lemma NoMatchEmptyReply(prompts: Prompts, promptId: string, content: string, now: Instant)
    requires PromptsKeyed(prompts) && content != "" && promptId !in prompts
    ensures Respond(prompts, promptId, Object(Text(content)), false, now) == Outcome(Some(Reply(200, [])), prompts)
  {
  }

  /** Sending the same update again at a later clock reading gives the reply
      and the table of a single send at that later reading: the second
      write overwrites the first, `updatedAt` included. */
  lemma UpdateIdempotent(prompts: Prompts, promptId: string, body: RequestBody, storeFault: bool,
                         now: Instant, later: Instant)
    requires PromptsKeyed(prompts)
    ensures var once := Respond(prompts, promptId, body, storeFault, now);
      Respond(once.prompts, promptId, body, storeFault, later)
        == Respond(prompts, promptId, body, storeFault, later)
  {
    var once := Respond(prompts, promptId, body, storeFault, now);
    var twice := Respond(once.prompts, promptId, body, storeFault, later);
    var single := Respond(prompts, promptId, body, storeFault, later);
    if once.reply.Some? {
      var content := ParseContent(body).value;
      assert twice.prompts == single.prompts by {
        forall k | k in prompts ensures twice.prompts[k] == single.prompts[k] {
          if k != promptId {
            assert twice.prompts[k] == once.prompts[k] == prompts[k];
          }
        }
      }
    }
  }
}
