/** The list logic of the todo page (TodoWrapper.jsx): the per-entry
    `isEditing` toggle and the "show completed" view. Fetching, posting and
    React's state setters are not part of this module; the functions here
    compute the value the page stores. */
module TodoWrapper {
  import opened Wrappers
  import opened Seqs
  import opened TodoModel

  /** A todo as the page holds it: the record returned by the server plus the
      client-only `isEditing` flag, which is absent until first toggled. */
  datatype ClientTodo = ClientTodo(record: Todo, isEditing: Option<bool>)

  /** Truthiness of `todo.isEditing`: an absent flag reads as false. */
  predicate Editing(c: ClientTodo) {
    c.isEditing == Some(true)
  }

  /** `todo.completed` */
  predicate IsCompleted(c: ClientTodo) {
    c.record.completed
  }

  /** `{...todo, isEditing: !todo.isEditing}` */
  function Toggle(c: ClientTodo): ClientTodo {
    c.(isEditing := Some(!Editing(c)))
  }

  /** Toggling flips the editing state and keeps the record; toggling twice
      restores the editing state, and the entry itself once the flag is set. */
  lemma ToggleFlips(c: ClientTodo)
    ensures Toggle(c).record == c.record && Editing(Toggle(c)) != Editing(c)
    ensures Editing(Toggle(Toggle(c))) == Editing(c)
    ensures c.isEditing.Some? ==> Toggle(Toggle(c)) == c
  {
    if c.isEditing.Some? {
      var flag := c.isEditing.value;
      assert Editing(c) == flag;
      assert Toggle(c).isEditing == Some(!flag);
    }
  }

  /** `editToDo(id)`: the list keeps its length and order; entries whose `_id`
      is `id` get their editing flag flipped (and from then on present), and
      every other entry, and every record, is left as it was. */
  function EditToDo(toDos: seq<ClientTodo>, id: TodoId): (r: seq<ClientTodo>)
    ensures |r| == |toDos|
    ensures forall k :: 0 <= k < |r| ==> r[k].record == toDos[k].record
    ensures forall k :: 0 <= k < |r| && toDos[k].record.id != id ==> r[k] == toDos[k]
    ensures forall k :: 0 <= k < |r| && toDos[k].record.id == id ==>
      r[k].isEditing == Some(!Editing(toDos[k])) && Editing(r[k]) != Editing(toDos[k])
  {
    if toDos == [] then []
    else [if toDos[0].record.id == id then Toggle(toDos[0]) else toDos[0]] + EditToDo(toDos[1..], id)
  }

  /** Toggling the same id twice restores every editing state, reading an
      absent flag as false; the list comes back unchanged when each toggled
      entry already carried the flag. */
  lemma EditToDoTwice(toDos: seq<ClientTodo>, id: TodoId)
    ensures var r := EditToDo(EditToDo(toDos, id), id);
      |r| == |toDos| &&
      forall k :: 0 <= k < |r| ==> r[k].record == toDos[k].record && Editing(r[k]) == Editing(toDos[k])
    ensures (forall k :: 0 <= k < |toDos| && toDos[k].record.id == id ==> toDos[k].isEditing.Some?) ==>
      EditToDo(EditToDo(toDos, id), id) == toDos
  {
    var once := EditToDo(toDos, id);
    var r := EditToDo(once, id);
    if forall k :: 0 <= k < |toDos| && toDos[k].record.id == id ==> toDos[k].isEditing.Some? {
      forall k | 0 <= k < |toDos|
        ensures r[k] == toDos[k]
      {
        if toDos[k].record.id == id {
          assert once[k].record.id == id;
          var flag := toDos[k].isEditing.value;
          assert toDos[k].isEditing == Some(flag) && Editing(toDos[k]) == flag;
          assert r[k].isEditing == Some(!Editing(once[k]));
          assert Editing(once[k]) == !flag;
          assert r[k] == ClientTodo(toDos[k].record, toDos[k].isEditing);
        }
      }
    }
  }

  /** `!showCompleted` */
  function ToggleCompletedFilter(showCompleted: bool): (r: bool)
    ensures r != showCompleted
  {
    !showCompleted
  }

  /** `filteredTasks`: with `showCompleted` the completed entries of the list,
      in their order and each as often as in the list; otherwise the whole
      list. Either way a subsequence of the list. */
  function FilteredTasks(toDos: seq<ClientTodo>, showCompleted: bool): (r: seq<ClientTodo>)
    ensures |r| <= |toDos| && IsSubsequence(r, toDos)
    ensures showCompleted ==> forall c :: c in r <==> c in toDos && c.record.completed
    ensures showCompleted ==> forall c :: multiset(r)[c] == if IsCompleted(c) then multiset(toDos)[c] else 0
    ensures !showCompleted ==> r == toDos
  {
    if showCompleted then
      FilterIsSubsequence(toDos, IsCompleted);
      FilterCounts(toDos, IsCompleted);
      Filter(toDos, IsCompleted)
    else
      IsSubsequenceRefl(toDos);
      toDos
  }

  /** The completed view drops nothing exactly when every entry is completed. */
  lemma FilteredTasksKeepsAll(toDos: seq<ClientTodo>)
    ensures FilteredTasks(toDos, true) == toDos <==> forall k :: 0 <= k < |toDos| ==> toDos[k].record.completed
  {
    FilterKeepsAll(toDos, IsCompleted);
  }

  /** Toggling editing flags and keeping the completed entries commute. */
  lemma {:induction false} CompletedEditToDo(toDos: seq<ClientTodo>, id: TodoId)
    ensures Filter(EditToDo(toDos, id), IsCompleted) == EditToDo(Filter(toDos, IsCompleted), id)
    decreases |toDos|
  {
    if toDos != [] {
      CompletedEditToDo(toDos[1..], id);
      assert EditToDo(toDos, id)[1..] == EditToDo(toDos[1..], id);
      if IsCompleted(toDos[0]) {
        assert ([toDos[0]] + Filter(toDos[1..], IsCompleted))[1..] == Filter(toDos[1..], IsCompleted);
      }
    }
  }

  /** Toggling the editing flag does not change which entries the view shows:
      filtering commutes with `editToDo`. */
  lemma FilteredTasksEditToDo(toDos: seq<ClientTodo>, id: TodoId, showCompleted: bool)
    ensures FilteredTasks(EditToDo(toDos, id), showCompleted) == EditToDo(FilteredTasks(toDos, showCompleted), id)
  {
    CompletedEditToDo(toDos, id);
  }
}
