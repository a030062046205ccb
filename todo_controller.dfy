/** The todo handlers of todoController.js over an in-memory `todos`
    collection kept in insertion order. The handlers take the `userId` that the
    authentication gate put into the request body; none of them compares a
    todo's owner with the caller. */
module TodoController {
  import opened Wrappers
  import opened Http
  import opened JsStrings
  import opened Seqs
  import opened UserModel
  import opened TodoModel

  const InternalError := "Internal server error"

  /** `Todo.find({ userId })`: the todos of one owner, in store order. */
  function OwnedBy(todos: seq<Todo>, userId: UserId): seq<Todo> {
    Filter(todos, (t: Todo) => t.userId == userId)
  }

  /** Listing after an insertion: the new todo comes last in its owner's list,
      and no other owner's list changes. */
  lemma {:induction false} OwnedByAppend(todos: seq<Todo>, t: Todo, userId: UserId)
    ensures OwnedBy(todos + [t], userId) ==
      OwnedBy(todos, userId) + (if t.userId == userId then [t] else [])
  {
    FilterAppend(todos, [t], (t: Todo) => t.userId == userId);
    assert Filter([t], (t: Todo) => t.userId == userId) == (if t.userId == userId then [t] else []) by {
      assert [t][1..] == [];
    }
  }

  /** Listing after a removal: the owner's list loses exactly the removed todo. */
  lemma {:induction false} OwnedByRemove(todos: seq<Todo>, k: nat, userId: UserId)
    requires k < |todos|
    ensures OwnedBy(todos[..k] + todos[k + 1..], userId) ==
      OwnedBy(todos[..k], userId) + OwnedBy(todos[k + 1..], userId)
    ensures OwnedBy(todos, userId) ==
      OwnedBy(todos[..k], userId) + (if todos[k].userId == userId then [todos[k]] else []) +
      OwnedBy(todos[k + 1..], userId)
  {
    var keep := (t: Todo) => t.userId == userId;
    FilterAppend(todos[..k], todos[k + 1..], keep);
    assert todos == todos[..k] + [todos[k]] + todos[k + 1..];
    FilterAppend(todos[..k] + [todos[k]], todos[k + 1..], keep);
    OwnedByAppend(todos[..k], todos[k], userId);
  }

  /** Listing after an edit that keeps the owner: the owner's list shows the
      edited todo in the old one's place, and every other owner's list is
      unchanged. */
  lemma OwnedByUpdate(todos: seq<Todo>, k: nat, t: Todo, userId: UserId)
    requires k < |todos| && t.userId == todos[k].userId
    ensures OwnedBy(todos[k := t], userId) ==
      OwnedBy(todos[..k], userId) + (if t.userId == userId then [t] else []) + OwnedBy(todos[k + 1..], userId)
    ensures t.userId != userId ==> OwnedBy(todos[k := t], userId) == OwnedBy(todos, userId)
  {
    var edited := todos[k := t];
    assert edited[..k] == todos[..k];
    assert edited[k + 1..] == todos[k + 1..];
    OwnedByRemove(edited, k, userId);
    OwnedByRemove(todos, k, userId);
  }

  /** Position of the todo with `_id == id`, if any: `Todo.findById(id)`. */
  function IndexOfTodo(todos: seq<Todo>, id: TodoId): (k: Option<nat>)
    ensures k.Some? ==> k.value < |todos| && todos[k.value].id == id
    ensures k.None? ==> forall j :: 0 <= j < |todos| ==> todos[j].id != id
  {
    if todos == [] then None
    else if todos[0].id == id then Some(0)
    else match IndexOfTodo(todos[1..], id)
      case None => None
      case Some(j) => Some(j + 1)
  }

  /** The values of the store's state: the todos in insertion order and the
      `_id` the next created todo receives. */
  datatype Todos = Todos(todos: seq<Todo>, nextId: TodoId)

  /** The outcome of `addTodo`: an empty title gets 400, a blank one fails the
      schema (500), both with no change; otherwise exactly one todo is
      appended under the next id, with the trimmed title, `completed` false
      and the given owner. */
  ghost predicate Added(s: Todos, userId: UserId, title: string, r: Response, s': Todos) {
    if title == "" then
      r == Fail(400, "Please fill in the task title.") && s' == s
    else if CastTitle(title).None? then
      r == Fail(500, InternalError) && s' == s
    else
      r == Succeed("New task added successfully") &&
      s' == Todos(s.todos + [Todo(s.nextId, Trim(title), false, userId)], s.nextId + 1)
  }

  /** The outcome of `editTodo`: an empty title is refused (400) before the
      lookup; an unknown id, a blank title or a missing `completed` give 500;
      all with no change. Otherwise only that todo's `title` and `completed`
      change; its owner is kept and is not compared with the caller. */
  ghost predicate Edited(s: Todos, todoId: TodoId, title: string, completed: Option<bool>, r: Response, s': Todos) {
    if title == "" then
      r == Fail(400, "Please fill in the task.") && s' == s
    else match IndexOfTodo(s.todos, todoId)
      case None => r == Fail(500, InternalError) && s' == s
      case Some(k) =>
        if CastTitle(title).None? || completed.None? then
          r == Fail(500, InternalError) && s' == s
        else
          r == Succeed("Task edited successfully") &&
          s' == s.(todos := s.todos[k := s.todos[k].(title := Trim(title), completed := completed.value)])
  }

  /** The outcome of `deleteTodo`: an unknown id gives 500 and no change;
      otherwise that todo is removed and the others stay, in order. */
  ghost predicate Deleted(s: Todos, todoId: TodoId, r: Response, s': Todos) {
    match IndexOfTodo(s.todos, todoId)
      case None => r == Fail(500, InternalError) && s' == s
      case Some(k) => r == Succeed("Task deleted successfully") && s' == s.(todos := s.todos[..k] + s.todos[k + 1..])
  }

  /** The reply of `getTodo`: exactly the caller's todos, in store order. */
  ghost predicate Listed(todos: seq<Todo>, userId: UserId, r: Response, list: seq<Todo>) {
    r == Response(200, true, None) && list == OwnedBy(todos, userId)
  }

  class TodoStore {
    var todos: seq<Todo>
    /** The `_id` the next created todo receives. */
    var nextId: TodoId

    /** Every stored todo satisfies the schema, ids are distinct and below `nextId`. */
    ghost predicate Valid()
      reads this
    {
      (forall k :: 0 <= k < |todos| ==> IsStoredTodo(todos[k]) && todos[k].id < nextId) &&
      (forall a, b :: 0 <= a < b < |todos| ==> todos[a].id != todos[b].id)
    }

    function State(): Todos
      reads this
    {
      Todos(todos, nextId)
    }

    constructor ()
      ensures Valid() && todos == [] && nextId == 0
    {
      todos := [];
      nextId := 0;
    }

    /** `addTodo`. */
    method AddTodo(userId: UserId, title: string) returns (r: Response)
      requires Valid()
      modifies this
      ensures Valid()
      ensures Added(old(State()), userId, title, r, State())
    {
      if title == "" {
        return Fail(400, "Please fill in the task title.");
      }
      var cast := CastTitle(title);
      if cast.None? {
        return Fail(500, InternalError);
      }
      todos := todos + [Todo(nextId, cast.value, false, userId)];
      nextId := nextId + 1;
      r := Succeed("New task added successfully");
    }

    /** `editTodo`. */
    method EditTodo(todoId: TodoId, title: string, completed: Option<bool>) returns (r: Response)
      requires Valid()
      modifies this
      ensures Valid()
      ensures Edited(old(State()), todoId, title, completed, r, State())
    {
      if title == "" {
        return Fail(400, "Please fill in the task.");
      }
      var found := IndexOfTodo(todos, todoId);
      if found.None? {
        return Fail(500, InternalError);
      }
      var k := found.value;
      var cast := CastTitle(title);
      if cast.None? || completed.None? {
        return Fail(500, InternalError);
      }
      todos := todos[k := todos[k].(title := cast.value, completed := completed.value)];
      r := Succeed("Task edited successfully");
    }

    /** `deleteTodo`; afterwards no todo carries the id. */
    method DeleteTodo(todoId: TodoId) returns (r: Response)
      requires Valid()
      modifies this
      ensures Valid()
      ensures Deleted(old(State()), todoId, r, State())
      ensures forall t :: t in todos ==> t.id != todoId
    {
      var found := IndexOfTodo(todos, todoId);
      if found.None? {
        return Fail(500, InternalError);
      }
      var k := found.value;
      todos := todos[..k] + todos[k + 1..];
      r := Succeed("Task deleted successfully");
    }

    /** `getTodo`: changes nothing. The list holds exactly the caller's todos
        and keeps their store order. */
    method GetTodo(userId: UserId) returns (r: Response, list: seq<Todo>)
      requires Valid()
      ensures Listed(todos, userId, r, list)
      ensures forall t :: t in list <==> t in todos && t.userId == userId
      ensures IsSubsequence(list, todos)
    {
      list := OwnedBy(todos, userId);
      FilterIsSubsequence(todos, (t: Todo) => t.userId == userId);
      r := Response(200, true, None);
    }
  }
}
