# PromptHub core, modelled in Dafny

PromptHub lets users signed in with Clerk save short text prompts. This model
covers the decision logic under its HTTP and UI plumbing:

- **Clerk user-sync webhook** (`POST /webhooks/clerk`). It checks, in this
  order, the signing secret, the three `svix-*` headers and the signature.
  It then upserts, deletes or ignores one row of the `users` table, keyed by
  the Clerk id. The name and email stored with the row are derived from the
  event payload.
- **Create-prompt handler** (`POST /prompts`). It checks, in this order, body
  validation, the `Bearer` header, Clerk authentication and the owner lookup.
  Then it makes one insert into `prompts`. Every exit has its own status
  code, and validation failures get a formatted message.
- **Update-prompt handler** (`PATCH /prompt/:id`). It validates the content,
  then rewrites `content` and `updatedAt` of the matching prompt row.
- **Prompt editor form** (client side). It covers form validation, the
  duplicate-free list of normalised tags and the submit gate.

Modules, one per component:

| file | module | what it holds |
|---|---|---|
| `wrappers.dfy` | `Wrappers` | `Option`, `Result` |
| `text.dfy` | `Text` | `trim`, `toLowerCase`, `startsWith`, `join` (ASCII model) |
| `store.dfy` | `Store` | row types, primary-key invariants, class `Database` (one method per SQL statement) |
| `prompt_schema.dfy` | `PromptSchema` | the `{ content: non-empty string }` body schema shared by create and update |
| `clerk_webhook.dfy` | `ClerkWebhook` | the webhook handler |
| `create_prompt.dfy` | `CreatePrompt` | the create handler |
| `update_prompt.dfy` | `UpdatePrompt` | the update handler |
| `prompt_editor.dfy` | `PromptEditor` | the editor form state (class `Editor`) |

Each handler is built the same way:

- a pure function `Respond`, which gives the reply and the table after the
  request as a function of the request, the oracles and the table before;
- lemmas about `Respond`, one per property the handler promises;
- an imperative method over `Database`, written as the source's chain of
  early returns and SQL statements, whose `ensures` equates its reply and
  the new table with `Respond`.

Third-party calls and anything outside the program become inputs:

- `new Webhook(secret)` and `verify`: `Verification`, which is `KeyRejected`
  when the constructor throws, `Forged` when `verify` throws, or the
  verified event.
- `authenticateRequest`: `AuthResult`, which either threw or returned an
  optional user id.
- A failing SQL statement: the flag `storeFault`.
- The id the database generates for a new prompt: `newId`.
- `NOW()`: an abstract `Instant`.

The model follows the code as written. The webhook has no test-mode
signature bypass and no synthesized placeholder email. A missing `CLERK_WEBHOOK_SECRET` is a 500, checked before the
headers. A missing email is stored as `""`. The update handler's reply is
the list of updated rows. On an error it returns no reply at all.

## Model

| member | source | states |
|---|---|---|
| Text.TrimStart | frontend/prompt_hub/components/ui/PromptEditor.tsx:34 | the result is a suffix of the input, everything dropped is whitespace, and the result does not begin with whitespace |
| Text.TrimEnd | frontend/prompt_hub/components/ui/PromptEditor.tsx:34 | the result is a prefix of the input, everything dropped is whitespace, and the result does not end with whitespace |
| Text.Trim | frontend/prompt_hub/components/ui/PromptEditor.tsx:34-42 | `trim()` is empty exactly when the input is all whitespace; otherwise it starts and ends with a non-whitespace character |
| Text.TrimIsMiddle | frontend/prompt_hub/components/ui/PromptEditor.tsx:34-42 | `trim()` is a contiguous middle part of the input, and everything before it and after it is whitespace |
| Text.TrimAt | frontend/prompt_hub/components/ui/PromptEditor.tsx:34-42 | that middle starts exactly where the leading whitespace ends |
| Text.TrimKeepsTrimmed | frontend/prompt_hub/components/ui/PromptEditor.tsx:51 | a string with no whitespace at either end is its own trim |
| Text.TrimIdempotent | frontend/prompt_hub/components/ui/PromptEditor.tsx:51 | trimming an already trimmed string changes nothing |
| Text.Lower | frontend/prompt_hub/components/ui/PromptEditor.tsx:51 | `toLowerCase()` keeps the length, turns each capital letter into its own lower-case letter (`'A'` to `'a'`, and so on), keeps every character that is not a capital, leaves no capital letter, and keeps whitespace exactly where it was |
| Text.LoweredTrimIsMiddle | frontend/prompt_hub/components/ui/PromptEditor.tsx:51 | `trim().toLowerCase()` is the lower-cased middle of the input, with only whitespace before and after that middle |
| Text.LowerIdempotent | frontend/prompt_hub/components/ui/PromptEditor.tsx:51 | lower-casing a normalised tag again changes nothing |
| Text.StartsWith | server/steps/prompts/create-prompt.step.ts:49 | `s.startsWith(prefix)` holds exactly when `prefix` is a prefix of `s`, and then `s` is `prefix` followed by the rest |
| Text.Join | server/steps/prompts/create-prompt.step.ts:129-133 | `join` of no parts is "", of one part is that part; otherwise it starts with the first part, and its length is the total length of the parts plus one separator between each two |
| Text.JoinSnoc | server/steps/prompts/create-prompt.step.ts:129-133 | `join(sep)` puts the parts in order with `sep` between each two |
| Store.RewriteContent | server/steps/prompts/update-prompts.step.ts:25 | the UPDATE keeps the key set and every row other than the path id; the matching row gets the new content and `updatedAt`, and keeps its other columns |
| Store.RewrittenRows | server/steps/prompts/update-prompts.step.ts:25 | RETURNING yields at most one row: the rewritten row when the id exists, otherwise none |
| Store.Database.FindUser | server/steps/webhooks/clerk-webhook.step.ts:68-72 | the SELECT by Clerk id finds a row exactly when one is stored under that id |
| Store.Database.UpdateUser | server/steps/webhooks/clerk-webhook.step.ts:76-82 | the UPDATE sets email and name of the row with that id, keeps its id, and changes no other row |
| Store.Database.InsertUser | server/steps/webhooks/clerk-webhook.step.ts:87-91 | the INSERT adds exactly the given row under its id |
| Store.Database.DeleteUser | server/steps/webhooks/clerk-webhook.step.ts:97 | the DELETE removes the row with that id, if any, and nothing else |
| Store.Database.InsertPrompt | server/steps/prompts/create-prompt.step.ts:103-109 | the INSERT adds exactly the given prompt row under its id |
| Store.Database.RewritePrompt | server/steps/prompts/update-prompts.step.ts:25 | the UPDATE ... RETURNING leaves `prompts` as `RewriteContent` says and returns `RewrittenRows` |
| PromptSchema.ParseContent | server/steps/prompts/create-prompt.step.ts:8-10 | parsing succeeds exactly for an object whose `content` is a non-empty string, and yields that string; otherwise there is one issue, under path `content` for an object, and an empty string gets "Content cannot be empty" (the update schema at server/schema/prompts.ts:3-5 is the same) |
| ClerkWebhook.HeadersPresent | server/steps/webhooks/clerk-webhook.step.ts:31 | the header check fails exactly when one of `svix-id`, `svix-timestamp` and `svix-signature` is missing or empty |
| ClerkWebhook.Classify | server/steps/webhooks/clerk-webhook.step.ts:61-95 | `user.created` and `user.updated` select the upsert, `user.deleted` the delete, and every other type is ignored |
| ClerkWebhook.DeriveEmail | server/steps/webhooks/clerk-webhook.step.ts:62 | the email is the first entry's address when the list is present and non-empty and that address is truthy; otherwise it is `""` |
| ClerkWebhook.DeriveName | server/steps/webhooks/clerk-webhook.step.ts:63-65 | null exactly when both parts are absent or empty; `first + " " + last` when both are truthy; otherwise the one truthy part; never an empty string |
| ClerkWebhook.Transition | server/steps/webhooks/clerk-webhook.step.ts:61-98 | only the row under the Clerk id can change: an upsert leaves exactly the derived row there, a delete leaves no row, an ignore leaves the table as it was; the primary-key invariant is kept |
| ClerkWebhook.Respond | server/steps/webhooks/clerk-webhook.step.ts:16-115 | the status is 200, 400 or 500; every non-200 reply is an error body and leaves `users` unchanged; a 200 reply comes only from a verified event and echoes its type |
| ClerkWebhook.HandleWebhook | server/steps/webhooks/clerk-webhook.step.ts:16-115 | the imperative handler (gate, then select and update or insert, or delete) gives the reply and the table that `Respond` specifies, and keeps the primary-key invariant |
| ClerkWebhook.SecretCheckedFirst | server/steps/webhooks/clerk-webhook.step.ts:18-25 | an unset or empty secret gives 500 "Webhook secret not configured" whatever the headers and the signature, with no change |
| ClerkWebhook.MissingHeadersRejected | server/steps/webhooks/clerk-webhook.step.ts:27-36 | with a secret, a missing or empty `svix-*` header gives 400 "Missing svix headers" before verification, with no change |
| ClerkWebhook.BadSignatureRejected | server/steps/webhooks/clerk-webhook.step.ts:42-54 | a verification that throws gives 400 "Invalid webhook signature", with no change |
| ClerkWebhook.RejectedKeyFails | server/steps/webhooks/clerk-webhook.step.ts:39 | a secret that `new Webhook` refuses makes the constructor throw outside the inner `try`, so the outer `catch` replies 500 "Failed to process webhook", not 400, with no change |
| ClerkWebhook.UpsertWritesDerivedRow | server/steps/webhooks/clerk-webhook.step.ts:61-94 | for `user.created` or `user.updated`, the reply is 200 with the event type, the row under the Clerk id has exactly the derived email and name whether or not it existed, and every other row is as before |
| ClerkWebhook.DeleteRemovesRow | server/steps/webhooks/clerk-webhook.step.ts:95-104 | for `user.deleted`, the Clerk id is absent afterwards and no other row changes; deleting an absent id changes nothing and still replies 200 |
| ClerkWebhook.OtherEventsIgnored | server/steps/webhooks/clerk-webhook.step.ts:101-104 | any other event type replies 200 with `success` and the event type, and the table is unchanged, even when the store is failing |
| ClerkWebhook.OnlySubjectRowChanges | server/steps/webhooks/clerk-webhook.step.ts:67-98 | whatever the request, only the row keyed by the event's Clerk id can change; without a verified event carrying `data`, nothing changes |
| ClerkWebhook.RedeliveryIdempotent | server/steps/webhooks/clerk-webhook.step.ts:61-104 | delivering the same request twice gives the same reply and the same table as delivering it once |
| ClerkWebhook.TransitionIdempotent | server/steps/webhooks/clerk-webhook.step.ts:67-98 | applying an upsert, delete or ignore twice is the same as applying it once |
| ClerkWebhook.NameExamples | server/steps/webhooks/clerk-webhook.step.ts:63-65 | "Ada" and "Lovelace" give "Ada Lovelace"; one part gives that part; empty strings count as absent; no parts give null |
| ClerkWebhook.EmailFallsBackToEmpty | server/steps/webhooks/clerk-webhook.step.ts:62 | an absent list, an empty list or a first entry without an address give `""`; there is no placeholder address |
| CreatePrompt.AuthenticatedId | server/steps/prompts/create-prompt.step.ts:64-86 | an id is obtained exactly when authentication returned a non-empty `userId`, and it is that id |
| CreatePrompt.BearerHeader | server/steps/prompts/create-prompt.step.ts:48-49 | the header passes exactly when it is present and is "Bearer " followed by the token |
| CreatePrompt.FormatIssue | server/steps/prompts/create-prompt.step.ts:129 | the formatted issue splits back into the dotted path, ": " and the message; a one-field path prints as the field name alone |
| CreatePrompt.ValidationMessage | server/steps/prompts/create-prompt.step.ts:129-133 | the message starts with "Validation error: "; for one issue it is that prefix followed by the formatted issue |
| CreatePrompt.ValidationMessageSnoc | server/steps/prompts/create-prompt.step.ts:129-133 | each further issue adds ", " and its formatted text at the end |
| CreatePrompt.EmptyContentMessage | server/steps/prompts/create-prompt.step.ts:128-136 | empty content yields the issue (`content`, "Content cannot be empty"), reported as "Validation error: content: Content cannot be empty" |
| CreatePrompt.Respond | server/steps/prompts/create-prompt.step.ts:43-144 | the status is 201, 400, 401, 404 or 500; every non-201 reply is an error and leaves `prompts` unchanged; a 201 adds exactly the echoed row under a previously unused id |
| CreatePrompt.HandleCreatePrompt | server/steps/prompts/create-prompt.step.ts:43-144 | the imperative handler gives the reply and the table that `Respond` specifies, and keeps the primary-key invariant |
| CreatePrompt.ValidationBeforeAuth | server/steps/prompts/create-prompt.step.ts:45-54 | an invalid body gives 400 with the formatted validation message, even without an Authorization header, and nothing is inserted |
| CreatePrompt.MissingBearerRejected | server/steps/prompts/create-prompt.step.ts:48-54 | an absent header or one not starting with "Bearer " gives 401, with no insert |
| CreatePrompt.FailedAuthRejected | server/steps/prompts/create-prompt.step.ts:64-86 | authentication that throws, or returns no user id or an empty one, gives 401 "Invalid or expired token", with no insert |
| CreatePrompt.UnknownUserRejected | server/steps/prompts/create-prompt.step.ts:89-100 | an authenticated id with no user row gives 404, and `prompts` is unchanged |
| CreatePrompt.SuccessInsertsOneRow | server/steps/prompts/create-prompt.step.ts:103-122 | on success there is exactly one new row, holding the body's content and owned by the authenticated Clerk id; the status is 201 and the body echoes that row |
| CreatePrompt.StoreFaultFails | server/steps/prompts/create-prompt.step.ts:138-143 | a store failure after a valid, authenticated request gives 500 "Failed to create prompt", with no insert |
| CreatePrompt.CreateKeepsKeys | server/steps/prompts/create-prompt.step.ts:103-109 | creating a prompt keeps every prompt row under its own id |
| UpdatePrompt.Respond | server/steps/prompts/update-prompts.step.ts:20-39 | there is no reply exactly when parsing fails or the store fails, and then nothing changes; otherwise the status is 200, the key set is kept and the primary-key invariant holds |
| UpdatePrompt.HandleUpdatePrompt | server/steps/prompts/update-prompts.step.ts:20-39 | the imperative handler gives the reply and the table that `Respond` specifies |
| UpdatePrompt.EmptyContentNoChange | server/steps/prompts/update-prompts.step.ts:22 | empty content fails parsing before any write: no reply, and no change |
| UpdatePrompt.MatchingRowRewritten | server/steps/prompts/update-prompts.step.ts:23-32 | only the row with the path id changes; it gets the new content and `updatedAt`, keeps its id, owner and creation time, and is the single row in the 200 reply |
| UpdatePrompt.NoMatchEmptyReply | server/steps/prompts/update-prompts.step.ts:25-32 | an id that matches no row gives 200 with an empty list, and the table is unchanged |
| UpdatePrompt.UpdateIdempotent | server/steps/prompts/update-prompts.step.ts:25 | sending the same update again at a later clock reading gives the reply and the table of one send at that later reading: the repeat changes nothing but `updatedAt` |
| PromptEditor.FormErrors | frontend/prompt_hub/components/ui/PromptEditor.tsx:31-48 | there is a title error exactly when the trimmed title is empty, and a content error exactly when the trimmed content has fewer than 10 characters; the content error is always the length message |
| PromptEditor.FormValid | frontend/prompt_hub/components/ui/PromptEditor.tsx:34-47 | the form is accepted exactly when the title is not all whitespace and the trimmed content has at least 10 characters; accepted content has at least 10 characters before trimming |
| PromptEditor.FormValidIff | frontend/prompt_hub/components/ui/PromptEditor.tsx:47 | there are no errors exactly when the trimmed title is non-empty and the trimmed content has at least 10 characters |
| PromptEditor.EmptyContentReportsLength | frontend/prompt_hub/components/ui/PromptEditor.tsx:38-44 | blank content is reported as "Content must be at least 10 characters", because the later write overwrites "Content is required" |
| PromptEditor.RecordChecks | frontend/prompt_hub/components/ui/PromptEditor.tsx:32-44 | after the three checks run in order, with the third overwriting the second, the record has a title entry exactly when the trimmed title is empty, and a content entry exactly when the trimmed content is shorter than 10 characters; that entry is the length message |
| PromptEditor.CollectErrors | frontend/prompt_hub/components/ui/PromptEditor.tsx:32-45 | the error record built from the trimmed title and content equals `FormErrors` |
| PromptEditor.NormalizeTag | frontend/prompt_hub/components/ui/PromptEditor.tsx:51 | the normalised tag is empty exactly for blank input, is no longer than the input, has no capital letter and no whitespace at either end |
| PromptEditor.NormalizeTagIsLoweredMiddle | frontend/prompt_hub/components/ui/PromptEditor.tsx:51 | the normalised tag is exactly the lower-cased middle of the typed input, with only whitespace before and after that middle |
| PromptEditor.NormalizeTagIdempotent | frontend/prompt_hub/components/ui/PromptEditor.tsx:51-52 | normalising a normalised tag gives it back, so a listed tag typed again is caught by the duplicate check |
| PromptEditor.AddedTags | frontend/prompt_hub/components/ui/PromptEditor.tsx:50-56 | the normalised input is appended exactly when it is non-empty and not already present; the existing tags keep their order; a duplicate-free list stays duplicate-free |
| PromptEditor.BlankInputAddsNothing | frontend/prompt_hub/components/ui/PromptEditor.tsx:51-52 | an input that is blank after trimming never adds a tag |
| PromptEditor.AddTagIdempotent | frontend/prompt_hub/components/ui/PromptEditor.tsx:50-56 | adding the same input twice is the same as adding it once |
| PromptEditor.Without | frontend/prompt_hub/components/ui/PromptEditor.tsx:58-60 | the removed tag does not occur in the result; every other tag occurs as often as before; a duplicate-free list stays duplicate-free |
| PromptEditor.WithoutAppend | frontend/prompt_hub/components/ui/PromptEditor.tsx:58-60 | filtering distributes over concatenation, so the kept tags keep their relative order |
| PromptEditor.WithoutAbsent | frontend/prompt_hub/components/ui/PromptEditor.tsx:58-60 | removing a tag that is not present leaves the list unchanged |
| PromptEditor.AddThenRemove | frontend/prompt_hub/components/ui/PromptEditor.tsx:50-60 | removing a tag that was just added gives back the previous list |
| PromptEditor.Editor.constructor | frontend/prompt_hub/components/ui/PromptEditor.tsx:24-29 | the initial state takes title, content and tags from `initialData` when it is given, and otherwise starts empty; the tag input is empty, `loading` is false and there are no errors |
| PromptEditor.Editor.ValidateForm | frontend/prompt_hub/components/ui/PromptEditor.tsx:31-48 | records `FormErrors` as `errors` and returns true exactly when the form is valid; nothing else changes |
| PromptEditor.Editor.AddTag | frontend/prompt_hub/components/ui/PromptEditor.tsx:50-56 | `tags` becomes `AddedTags`; the tag input is cleared exactly when a tag was added, and otherwise kept |
| PromptEditor.Editor.RemoveTag | frontend/prompt_hub/components/ui/PromptEditor.tsx:58-60 | `tags` becomes the list without every occurrence of the removed tag |
| PromptEditor.Editor.KeyDown | frontend/prompt_hub/components/ui/PromptEditor.tsx:83-88 | Enter does what `handleAddTag` does: `tags` becomes `AddedTags`, and the tag input is cleared exactly when a tag was added; any other key changes nothing |
| PromptEditor.Editor.Save | frontend/prompt_hub/components/ui/PromptEditor.tsx:69-80 | `onSave` receives the trimmed title, the trimmed content and the current tags, and `loading` is false afterwards |
| PromptEditor.Editor.Submit | frontend/prompt_hub/components/ui/PromptEditor.tsx:62-81 | records the errors; calls `onSave` exactly when the form is valid, with the trimmed fields and the tags, and `loading` is then false; when the form is invalid, `loading` is untouched |

## Left out

- `Webhook` from `@clerk/backend` is an oracle input with three outcomes: the `Webhook` constructor rejects the secret (a 500), `verify` throws (a 400), or `verify` returns the event. Clerk's `authenticateRequest` is an oracle input too, together with `createClerkClient` and `CLERK_SECRET_KEY`. Both are foreign library calls.
- `JSON.stringify` of the webhook body builds the string that `verify` checks. Its effect is absorbed by the verification oracle, which stands for the result of verifying that string.
- The `token` computed in the create handler is never used, so it is left out.
- Store failures are one flag per request. The model does not say which statement failed. Each write is a single statement, so a failure leaves the tables as they were. A prompt id that is already taken, or a path id the database rejects, counts as such a failure.
- The race between the webhook's select and its insert or update is left out: it is concurrency.
- Logging (`logger`, `console.log`, `console.error`) is left out.
- Clock values are abstract `Instant`s. The ISO formatting (`toISOString`) of the reply timestamps is left out. The model gives `createdAt` and `updatedAt` of a new prompt both the insert's clock reading.
- `trim` and `toLowerCase` are modelled on ASCII whitespace and letters. So `Text.Lower` keeping the length holds for this model only; JavaScript's full case mapping can lengthen a string (U+0130). The content length compares Unicode scalar values, whereas JavaScript counts UTF-16 code units.
- The wording of the schema library's own issues is left out. These are a missing field, a non-string `content` and a non-object body. Those issue texts are passed through as given, and only "Content cannot be empty" comes from the source.
- A webhook `data` without an `id`, or an event `type` or header that is not a string, is left out. The handlers treat these values as strings.
- Email uniqueness, the prompts-to-users foreign key and its cascade on delete are database constraints. They are not part of this model.
- The `users` rows carry only `id`, `email` and `name`, the columns the handlers use. So for the upsert, "other columns are untouched" covers only `id`.
- The list and get handlers (`get-prompts`, `get-prompts-by-user`, `list-prompts`) are left out. So are the JSX rendering, the `onChange` setters and the pages and header components. The Supabase and Drizzle configuration is left out too.
- React state updates are treated as taking effect at once. `handleSubmit` reads only values that were fixed before its own updates, so this does not change any outcome.
- PromptEditor.Editor.Save: whether `onSave` resolves or throws is not an input. The editor does not observe the difference apart from logging, and `loading` is reset in `finally` either way.
