/** The non-rendering logic of the prompt editor form: validation, the tag
    list and the submit gate. The component's state hooks are the fields of
    `Editor`; each setter call is an assignment to the field. */
module PromptEditor {
  import opened Wrappers
  import opened Text

  const TitleRequired := "Title is required"
  const ContentRequired := "Content is required"
  const ContentTooShort := "Content must be at least 10 characters"

  /** What the form hands to `onSave`, and what it may be opened with. */
  datatype PromptData = PromptData(title: string, content: string, tags: seq<string>)

  predicate NoDuplicates(s: seq<string>) {
    forall i, j :: 0 <= i < j < |s| ==> s[i] != s[j]
  }

  /** The errors `validateForm` records: a title error exactly when the
      trimmed title is empty, a content error exactly when the trimmed
      content is shorter than 10 characters, and then always the length
      message. */
  function FormErrors(title: string, content: string): (errors: map<string, string>)
    ensures "title" in errors <==> Trim(title) == ""
    ensures "content" in errors <==> |Trim(content)| < 10
    ensures errors.Keys <= {"title", "content"}
    ensures "title" in errors ==> errors["title"] == TitleRequired
    ensures "content" in errors ==> errors["content"] == ContentTooShort
  {
    var trimmedTitle, trimmedContent := Trim(title), Trim(content);
    var titleErrors := if trimmedTitle == "" then map["title" := TitleRequired] else map[];
    var contentErrors := if |trimmedContent| < 10 then map["content" := ContentTooShort] else map[];
    assert titleErrors.Keys <= {"title"} && contentErrors.Keys <= {"content"};
    titleErrors + contentErrors
  }

  /** What `validateForm` accepts: a title that is not all whitespace and
      content of at least 10 characters once trimmed, which needs at least
      10 characters before trimming. */
  predicate FormValid(title: string, content: string)
    ensures FormValid(title, content) <==> !AllSpace(title) && |Trim(content)| >= 10
    ensures FormValid(title, content) ==> |content| >= 10
  {
    Trim(title) != "" && |Trim(content)| >= 10
  }

  /** The form is valid exactly when the trimmed title is non-empty and the
      trimmed content has at least 10 characters. */
  lemma FormValidIff(title: string, content: string)
    ensures |FormErrors(title, content)| == 0 <==> FormValid(title, content)
  {
  }

  /** Empty content is reported with the length message: the later check
      overwrites "Content is required". */
  lemma EmptyContentReportsLength(title: string, content: string)
    requires AllSpace(content)
    ensures FormErrors(title, content)["content"] == ContentTooShort
  {
  }

  /** The three checks of `validateForm` on the trimmed title and content:
      the error record built one check at a time, the third check
      overwriting the second's message. */
  method RecordChecks(trimmedTitle: string, trimmedContent: string)
    returns (newErrors: map<string, string>)
    ensures "title" in newErrors <==> trimmedTitle == ""
    ensures "content" in newErrors <==> |trimmedContent| < 10
    ensures newErrors.Keys <= {"title", "content"}
    ensures "title" in newErrors ==> newErrors["title"] == TitleRequired
    ensures "content" in newErrors ==> newErrors["content"] == ContentTooShort
  {
    newErrors := map[];
    if trimmedTitle == "" {
      newErrors := newErrors["title" := TitleRequired];
    }
    if trimmedContent == "" {
      newErrors := newErrors["content" := ContentRequired];
    }
    if |trimmedContent| < 10 {
      newErrors := newErrors["content" := ContentTooShort];
    }
  }

  /** The body of `validateForm` up to `setErrors`: trim, then check. */
  method CollectErrors(title: string, content: string) returns (newErrors: map<string, string>)
    ensures newErrors == FormErrors(title, content)
  {
    newErrors := RecordChecks(Trim(title), Trim(content));
    assert newErrors.Keys == FormErrors(title, content).Keys;
  }

  /** `tagInput.trim().toLowerCase()`: empty exactly for blank input, no
      longer than the input, without ASCII capitals and without whitespace
      at either end. */
  function NormalizeTag(input: string): (tag: string)
    ensures tag == "" <==> AllSpace(input)
    ensures |tag| <= |input|
    ensures forall i :: 0 <= i < |tag| ==> !('A' <= tag[i] <= 'Z')
    ensures tag != "" ==> !IsSpace(tag[0]) && !IsSpace(tag[|tag| - 1])
  {
    Lower(Trim(input))
  }

  /** The normalised tag is the lower-cased middle of the input, with only
      whitespace before and after that middle. */
  lemma NormalizeTagIsLoweredMiddle(input: string)
    ensures exists i: nat ::
              && MiddleAt(input, i, |NormalizeTag(input)|)
              && NormalizeTag(input) == Lower(input[i..i + |NormalizeTag(input)|])
  {
    LoweredTrimIsMiddle(input, NormalizeTag(input));
  }

  /** A normalised tag normalises to itself, so a tag from the list typed
      again is caught by the duplicate check. */
  lemma NormalizeTagIdempotent(input: string)
    ensures NormalizeTag(NormalizeTag(input)) == NormalizeTag(input)
  {
    var tag := NormalizeTag(input);
    TrimKeepsTrimmed(tag);
    LowerIdempotent(Trim(input));
  }

  /** The tag list after `handleAddTag`: the normalised input is appended
      when it is non-empty and not yet present, otherwise the list is kept. */
  function AddedTags(tags: seq<string>, input: string): (r: seq<string>)
    ensures var tag := NormalizeTag(input);
      if tag != "" && tag !in tags then r == tags + [tag] else r == tags
    ensures |r| <= |tags| + 1 && r[..|tags|] == tags
    ensures NoDuplicates(tags) ==> NoDuplicates(r)
  {
    var tag := NormalizeTag(input);
    if tag != "" && tag !in tags then tags + [tag] else tags
  }

  /** An input that is blank after trimming never adds a tag. */
  lemma BlankInputAddsNothing(tags: seq<string>, input: string)
    requires AllSpace(input)
    ensures AddedTags(tags, input) == tags
  {
  }

  /** Adding the same input a second time changes nothing. */
  lemma AddTagIdempotent(tags: seq<string>, input: string)
    ensures AddedTags(AddedTags(tags, input), input) == AddedTags(tags, input)
  {
  }

  /** `tags.filter(tag => tag !== removed)`. */
  function Without(tags: seq<string>, removed: string): (r: seq<string>)
    ensures removed !in r
    ensures forall t :: t != removed ==> multiset(r)[t] == multiset(tags)[t]
    ensures |r| <= |tags|
    ensures NoDuplicates(tags) ==> NoDuplicates(r)
    decreases |tags|
  {
    if tags == [] then []
    else
      var rest := Without(tags[1..], removed);
      assert tags == [tags[0]] + tags[1..];
      if tags[0] == removed then rest
      else
        assert NoDuplicates(tags) ==> tags[0] !in tags[1..];
        assert NoDuplicates(tags) ==> multiset(tags[1..])[tags[0]] == 0;
        [tags[0]] + rest
  }

  /** Filtering distributes over concatenation: the kept tags stay in their
      relative order. */
  lemma {:induction false} WithoutAppend(a: seq<string>, b: seq<string>, removed: string)
    ensures Without(a + b, removed) == Without(a, removed) + Without(b, removed)
    decreases |a|
  {
    if a == [] {
      assert a + b == b;
    } else {
      assert (a + b)[0] == a[0];
      assert (a + b)[1..] == a[1..] + b;
      WithoutAppend(a[1..], b, removed);
    }
  }

  /** Removing a tag that is not in the list keeps the list as it is. */
  lemma {:induction false} WithoutAbsent(tags: seq<string>, removed: string)
    requires removed !in tags
    ensures Without(tags, removed) == tags
    decreases |tags|
  {
    if tags != [] {
      WithoutAbsent(tags[1..], removed);
    }
  }

  /** Removing a tag that was just added gives back the list before. */
  lemma AddThenRemove(tags: seq<string>, input: string)
    requires NormalizeTag(input) != "" && NormalizeTag(input) !in tags
    ensures Without(AddedTags(tags, input), NormalizeTag(input)) == tags
  {
    var tag := NormalizeTag(input);
    WithoutAppend(tags, [tag], tag);
    WithoutAbsent(tags, tag);
    assert Without([tag], tag) == [];
  }

  /** The editor component's state. */
  class Editor {
    var title: string
    var content: string
    var tags: seq<string>
    var tagInput: string
    var loading: bool
    var errors: map<string, string>

    /** Initial state: the fields of `initialData` when given (`|| ''` keeps
        a given title or content as it is), otherwise empty. */
    constructor (initialData: Option<PromptData>)
      ensures title == (if initialData.Some? then initialData.value.title else "")
      ensures content == (if initialData.Some? then initialData.value.content else "")
      ensures tags == (if initialData.Some? then initialData.value.tags else [])
      ensures tagInput == "" && !loading && errors == map[]
    {
      match initialData {
        case Some(data) =>
          title, content, tags := data.title, data.content, data.tags;
        case None =>
          title, content, tags := "", "", [];
      }
      tagInput, loading, errors := "", false, map[];
    }

    /** `validateForm`: records the errors and reports whether there are none. */
    method ValidateForm() returns (valid: bool)
      modifies this`errors
      ensures errors == FormErrors(title, content)
      ensures valid <==> FormValid(title, content)
    {
      var newErrors := CollectErrors(title, content);
      errors := newErrors;
      valid := |newErrors| == 0;
      assert valid <==> FormValid(title, content) by {
        FormValidIff(title, content);
      }
    }

    /** `handleAddTag`: appends the normalised input and clears the input
        only when the tag is non-empty and new; otherwise changes nothing. */
    method AddTag()
      modifies this`tags, this`tagInput
      ensures tags == AddedTags(old(tags), old(tagInput))
      ensures var tag := NormalizeTag(old(tagInput));
        tagInput == if tag != "" && tag !in old(tags) then "" else old(tagInput)
    {
      var tag := Lower(Trim(tagInput));
      if tag != "" && tag !in tags {
        tags := tags + [tag];
        tagInput := "";
      }
    }

    /** `handleRemoveTag`: drops every occurrence of the tag. */
    method RemoveTag(removed: string)
      modifies this`tags
      ensures tags == Without(old(tags), removed)
    {
      tags := Without(tags, removed);
    }

    /** `handleKeyDown`: Enter adds the tag, any other key does nothing. */
    method KeyDown(key: string)
      modifies this`tags, this`tagInput
      ensures key == "Enter" ==> tags == AddedTags(old(tags), old(tagInput))
      ensures key == "Enter" ==> var tag := NormalizeTag(old(tagInput));
        tagInput == if tag != "" && tag !in old(tags) then "" else old(tagInput)
      ensures key != "Enter" ==> tags == old(tags) && tagInput == old(tagInput)
    {
      if key == "Enter" {
        AddTag();
      }
    }

    /** The `try { await onSave(...) } finally { setLoading(false) }` part
        of `handleSubmit`: `onSave` receives the trimmed title and content
        and the current tags; `loading` is false afterwards whether the call
        resolved or threw. */
    method Save() returns (data: PromptData)
      modifies this`loading
      ensures data == PromptData(Trim(title), Trim(content), tags)
      ensures !loading
    {
      loading := true;
      data := PromptData(Trim(title), Trim(content), tags);
      loading := false;
    }

    /** `handleSubmit`: validates, and only when the form is valid calls
        `onSave`, returning the argument of that call; when invalid,
        `loading` is untouched. */
    method Submit() returns (saved: Option<PromptData>)
      modifies this`errors, this`loading
      ensures errors == FormErrors(title, content)
      ensures saved.Some? <==> FormValid(title, content)
      ensures saved.Some? ==> saved.value == PromptData(Trim(title), Trim(content), tags) && !loading
      ensures saved.None? ==> loading == old(loading)
    {
      var valid := ValidateForm();
      if !valid {
        return None;
      }
      var data := Save();
      saved := Some(data);
    }
  }
}
