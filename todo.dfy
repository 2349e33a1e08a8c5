/**
 * The Todo schema of server/models/todo.js: what a todo record holds, the
 * defaults a new record gets, and which records validation accepts.
 */
module Todos {
  import opened Wrappers
  import opened Json
  import Strings

  /**
   * A stored todo. `text` is optional because an update may set it to null;
   * `completedAt` is a millisecond timestamp or null; `creator` is `_creator`.
   */
  datatype Todo = Todo(
    id: Id,
    text: Option<string>,
    completed: bool,
    completedAt: Option<int>,
    creator: Option<Id>)

  /**
   * A record the schema accepts: `text` present and non-empty (`required`,
   * `minlength: 1`) and `_creator` present. The text is trimmed because the
   * `trim: true` setter ran before validation.
   */
  predicate Valid(t: Todo) {
    && t.text.Some? && t.text.value != [] && Strings.Trimmed(t.text.value)
    && t.creator.Some?
  }

  /** The `text` path after the `String` cast and the `trim: true` setter. */
  function SetText(v: Value): (r: StringCast)
    ensures r.Text? <==> CastToString(v).Text?
    ensures r.Text? ==> r.s == Strings.Trim(CastToString(v).s) && Strings.Trimmed(r.s)
  {
    match CastToString(v)
    case Text(s) => Text(Strings.Trim(s))
    case other => other
  }

  /** The `text` path passes `required` and `minlength: 1`. */
  predicate TextAccepted(text: Option<Value>) {
    text.Some? && SetText(text.value).Text? && SetText(text.value).s != []
  }

  /**
   * `new Todo({text, _creator}).save()` as far as the schema decides it:
   * either the new record with its defaults, or the set of failing paths.
   */
  function Create(id: Id, text: Option<Value>, creator: Option<Id>): (r: Result<Todo, set<string>>)
    ensures r.Ok? <==> TextAccepted(text) && creator.Some?
    ensures r.Ok? ==> Valid(r.value) && r.value.id == id && r.value.creator == creator
    ensures r.Ok? ==> r.value.text == Some(Strings.Trim(CastToString(text.value).s))
    ensures r.Ok? ==> !r.value.completed && r.value.completedAt == None
    ensures r.Err? ==> ("text" in r.error <==> !TextAccepted(text))
    ensures r.Err? ==> ("_creator" in r.error <==> creator.None?)
  {
    if TextAccepted(text) && creator.Some? then
      Ok(Todo(id, Some(SetText(text.value).s), false, None, creator))
    else
      Err((if TextAccepted(text) then {} else {"text"}) +
          (if creator.Some? then {} else {"_creator"}))
  }

  /** Without `_creator` no todo is ever created, whatever the text. */
  lemma CreatorRequired(id: Id, text: Option<Value>)
    ensures Create(id, text, None).Err?
    ensures "_creator" in Create(id, text, None).error
  {
  }

  /** A string text is accepted exactly when it is not all whitespace (so "" and "  " are refused). */
  lemma StringTextAcceptedIff(s: string)
    ensures TextAccepted(Some(Str(s))) <==> !Strings.AllSpace(s)
  {
    Strings.TrimEmptyIff(s);
  }

  /** The stored text is the trimmed input, and storing it again would not change it. */
  lemma StoredTextIsTrimmed(id: Id, s: string, owner: Id)
    requires !Strings.AllSpace(s)
    ensures Create(id, Some(Str(s)), Some(owner)).Ok?
    ensures Create(id, Some(Str(s)), Some(owner)).value.text == Some(Strings.Trim(s))
    ensures SetText(Str(Strings.Trim(s))) == Text(Strings.Trim(s))
  {
    StringTextAcceptedIff(s);
    Strings.TrimIdempotent(s);
  }
}
