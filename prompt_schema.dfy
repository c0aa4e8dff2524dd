/** The request schema `{ content: string, at least one character }`, which
    the create and the update handlers both parse their body with. The wording
    of the schema library's own type-mismatch issues (a missing field, a
    non-string, a non-object body) is not part of this model: the body value
    carries that issue text as it stands. */
module PromptSchema {
  import opened Wrappers

  const ContentEmpty := "Content cannot be empty"

  /** The `content` property of a body object: a string, or anything else
      (absent, a number, ...) together with the issue the library reports. */
  datatype Field = Text(value: string) | Mistyped(issue: string)

  /** A request body: an object, or a non-object with the library's issue. */
  datatype RequestBody = Object(content: Field) | NotObject(issue: string)

  /** One validation issue: where in the body, and what is wrong. */
  datatype Issue = Issue(path: seq<string>, message: string)

  /** `schema.parse(body)`: the content when it is a non-empty string,
      otherwise the single issue the parse throws with. */
  function ParseContent(body: RequestBody): (r: Result<string, seq<Issue>>)
    ensures r.Ok? <==> body.Object? && body.content.Text? && body.content.value != ""
    ensures r.Ok? ==> r.value == body.content.value
    ensures r.Err? ==> |r.error| == 1
    ensures r.Err? && body.Object? ==> r.error[0].path == ["content"]
    ensures r.Err? && body.Object? && body.content.Text? ==> r.error[0].message == ContentEmpty
  {
    match body
    case NotObject(issue) => Err([Issue([], issue)])
    case Object(Mistyped(issue)) => Err([Issue(["content"], issue)])
    case Object(Text(s)) => if |s| >= 1 then Ok(s) else Err([Issue(["content"], ContentEmpty)])
  }
}
