/** The Todo schema (todoModel.js): `title` is a required, trimmed string,
    `completed` a required boolean defaulting to false, `userId` a required
    reference to a User. */
module TodoModel {
  import opened Wrappers
  import opened JsStrings
  import opened UserModel

  /** The document's `_id`. */
  type TodoId = nat

  datatype Todo = Todo(id: TodoId, title: string, completed: bool, userId: UserId)

  /** A todo as the schema lets it be saved: the title is trimmed and non-empty. */
  predicate IsStoredTodo(t: Todo) {
    t.title != "" && Trim(t.title) == t.title
  }

  /** Assigning `title`: the `trim` setter runs, then `save()` applies the
      `required` validator. None stands for the validation error. */
  function CastTitle(title: string): (r: Option<string>)
    ensures r.Some? <==> exists k :: 0 <= k < |title| && !IsJsSpace(title[k])
    ensures r.Some? ==> r.value == Trim(title) && r.value != "" && Trim(r.value) == r.value
  {
    TrimEmptyIff(title);
    TrimIdempotent(title);
    var t := Trim(title);
    if t == "" then None else Some(t)
  }

  /** A title of white space alone passes the handlers' `!title` test but
      fails the schema, so it is never stored. */
  lemma BlankTitleRejected(title: string)
    requires title != "" && forall k :: 0 <= k < |title| ==> IsJsSpace(title[k])
    ensures CastTitle(title) == None
  {
  }
}
