/** The two tables as the handlers use them, and the database object through
    which the handlers read and write them. Wall-clock values are abstract
    `Instant`s supplied by the caller. */
module Store {
  import opened Wrappers

  /** A reading of the database clock (`NOW()`, `new Date()`). */
  type Instant = nat

  /** A row of `users`: the Clerk id is the primary key. */
  datatype UserRow = UserRow(id: string, email: string, name: Option<string>)

  /** A row of `prompts`: `id` is generated by the database, `userId` is the
      owner's Clerk id. */
  datatype PromptRow = PromptRow(id: string, userId: string, content: string,
                                 createdAt: Instant, updatedAt: Instant)

  type Users = map<string, UserRow>
  type Prompts = map<string, PromptRow>

  /** Every user row is stored under its own primary key. */
  predicate UsersKeyed(users: Users) {
    forall k :: k in users ==> users[k].id == k
  }

  /** Every prompt row is stored under its own primary key. */
  predicate PromptsKeyed(prompts: Prompts) {
    forall k :: k in prompts ==> prompts[k].id == k
  }

  /** Two tables agree on every key other than `key`. */
  predicate AgreeExcept<R(==)>(before: map<string, R>, after: map<string, R>, key: string) {
    && (forall k :: k in before && k != key ==> k in after && after[k] == before[k])
    && (forall k :: k in after && k != key ==> k in before)
  }

  /** The `prompts` table after `UPDATE prompts SET content = content,
      updated_at = now WHERE id = promptId`: the matching row gets the new
      content and time, every other row and every other column is kept. */
  function RewriteContent(prompts: Prompts, promptId: string, content: string, now: Instant): (r: Prompts)
    requires PromptsKeyed(prompts)
    ensures PromptsKeyed(r) && r.Keys == prompts.Keys
    ensures AgreeExcept(prompts, r, promptId)
    ensures promptId in prompts ==>
      r[promptId] == prompts[promptId].(content := content, updatedAt := now)
  {
    map k | k in prompts ::
      if prompts[k].id == promptId then prompts[k].(content := content, updatedAt := now) else prompts[k]
  }

  /** The rows the `UPDATE ... RETURNING` statement hands back: the rewritten
      rows whose id matches, at most one since `id` is the primary key. */
  function RewrittenRows(prompts: Prompts, promptId: string, content: string, now: Instant): (rows: seq<PromptRow>)
    requires PromptsKeyed(prompts)
    ensures |rows| <= 1
    ensures rows != [] <==> promptId in prompts
    ensures forall i :: 0 <= i < |rows| ==>
      rows[i].id == promptId && rows[i] == RewriteContent(prompts, promptId, content, now)[promptId]
  {
    if promptId in prompts then [prompts[promptId].(content := content, updatedAt := now)] else []
  }

  /** The relational store, holding the `users` and `prompts` tables. Each
      method is one SQL statement issued by a handler. */
  class Database {
    var users: Users
    var prompts: Prompts

    /** The primary-key constraint of both tables. */
    ghost predicate Valid()
      reads this
    {
      UsersKeyed(users) && PromptsKeyed(prompts)
    }

    /** `SELECT * FROM users WHERE id = id LIMIT 1`. */
    method FindUser(id: string) returns (row: Option<UserRow>)
      requires Valid()
      ensures row.Some? <==> id in users
      ensures row.Some? ==> row.value == users[id] && row.value.id == id
    {
      if id in users {
        row := Some(users[id]);
      } else {
        row := None;
      }
    }

    /** `UPDATE users SET email, name WHERE id = id`. */
    method UpdateUser(id: string, email: string, name: Option<string>)
      requires Valid()
      modifies this`users
      ensures Valid()
      ensures users == if id in old(users) then old(users)[id := UserRow(id, email, name)] else old(users)
    {
      if id in users {
        users := users[id := users[id].(email := email, name := name)];
      }
    }

    /** `INSERT INTO users (id, email, name)`; the caller has found no row
        with that primary key. */
    method InsertUser(row: UserRow)
      requires Valid() && row.id !in users
      modifies this`users
      ensures Valid()
      ensures users == old(users)[row.id := row]
    {
      users := users[row.id := row];
    }

    /** `DELETE FROM users WHERE id = id`. */
    method DeleteUser(id: string)
      requires Valid()
      modifies this`users
      ensures Valid()
      ensures users == old(users) - {id}
    {
      users := users - {id};
    }

    /** `INSERT INTO prompts ... RETURNING *`; the caller has checked that the
        generated id is not taken. */
    method InsertPrompt(row: PromptRow)
      requires Valid() && row.id !in prompts
      modifies this`prompts
      ensures Valid()
      ensures prompts == old(prompts)[row.id := row]
    {
      prompts := prompts[row.id := row];
    }

    /** `UPDATE prompts SET content, updated_at = NOW() WHERE id = promptId
        RETURNING *`. */
    method RewritePrompt(promptId: string, content: string, now: Instant) returns (rows: seq<PromptRow>)
      requires Valid()
      modifies this`prompts
      ensures Valid()
      ensures prompts == RewriteContent(old(prompts), promptId, content, now)
      ensures rows == RewrittenRows(old(prompts), promptId, content, now)
    {
      ghost var expected := RewriteContent(prompts, promptId, content, now);
      if promptId in prompts {
        var row := prompts[promptId].(content := content, updatedAt := now);
        prompts := prompts[promptId := row];
        rows := [row];
      } else {
        rows := [];
      }
      assert prompts == expected;
    }
  }
}
