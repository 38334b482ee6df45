/**
 * The state of the task-list component and its handlers. The component keeps
 * four pieces of state: the ordered task list, the filter selection, the
 * draft of the entry form and the id of the task being edited (if any).
 * Every handler below replaces some of them, as the component's state
 * setters do.
 *
 * The id generator and the clock are not modelled: the id and the creation
 * time of a new task are parameters of `AddTodo` and `Submit`. Loading the
 * saved list from browser storage is not modelled either: the constructor
 * takes the loaded list as it is.
 */
module App {
  import opened Types
  import opened Text
  import opened TodoList

  /**
   * JavaScript truthiness of the `editingId` state (`string | null`): null and
   * the empty string are both false.
   */
  function Truthy(o: Option<string>): (b: bool)
    ensures !b <==> o == None || o == Some("")
  {
    o.Some? && o.value != ""
  }

  class Store {
    var todos: seq<Todo>
    var filter: Filter
    var draft: Draft
    var editingId: Option<string>

    /** The object invariant the handlers keep: no two tasks share an id. */
    ghost predicate Valid()
      reads this
    {
      UniqueIds(todos)
    }

    /** The initial state: the saved list, filter `all`, an empty draft, nothing being edited. */
    constructor (saved: seq<Todo>)
      ensures todos == saved && filter == Filter.All
      ensures draft == EmptyDraft && editingId == None
    {
      todos := saved;
      filter := Filter.All;
      draft := EmptyDraft;
      editingId := None;
    }

    /**
     * The tasks the list shows: everything under `all`; otherwise exactly the
     * tasks whose status is the filter's, in the list's order.
     */
    function FilteredTodos(): (r: seq<Todo>)
      reads this
      ensures filter == Filter.All ==> r == todos
      ensures Seqs.IsSubsequence(r, todos)
      ensures forall t :: t in r ==> t in todos && Passes(filter, t.status)
      ensures forall t :: t in todos && Passes(filter, t.status) ==> t in r
      ensures forall t :: multiset(r)[t] == if Passes(filter, t.status) then multiset(todos)[t] else 0
    {
      ViewAll(todos);
      Seqs.KeepIsSubsequence(todos, Shows(filter));
      Seqs.KeepMembers(todos, Shows(filter));
      Seqs.KeepCounts(todos, Shows(filter));
      View(todos, filter)
    }

    /**
     * The add handler. A blank title changes nothing. Otherwise a pending
     * task with the given id and creation time and the draft's three fields
     * is put in front of the list, and the draft is cleared. Ids stay unique
     * when the given id is fresh.
     */
    method AddTodo(id: string, createdAt: string)
      modifies this
      ensures filter == old(filter) && editingId == old(editingId)
      ensures IsBlank(old(draft.title)) ==> todos == old(todos) && draft == old(draft)
      ensures !IsBlank(old(draft.title)) ==>
        todos == [NewTodo(id, old(draft), createdAt)] + old(todos) && draft == EmptyDraft
      ensures old(Valid()) && !HasId(old(todos), id) ==> Valid()
    {
      var blank := TitleIsBlank(draft.title);
      if blank {
        return;
      }
      var todo := NewTodo(id, draft, createdAt);
      if Valid() && !HasId(todos, id) {
        PrependKeepsUnique(todo, todos);
      }
      todos := [todo] + todos;
      draft := EmptyDraft;
    }

    /** The toggle handler: flips the status of the task(s) with id `id`. */
    method ToggleStatus(id: string)
      modifies this
      ensures todos == ToggleStatusIn(old(todos), id)
      ensures filter == old(filter) && draft == old(draft) && editingId == old(editingId)
      ensures old(Valid()) ==> Valid()
    {
      if Valid() {
        ToggleKeepsUnique(todos, id);
      }
      todos := ToggleStatusIn(todos, id);
    }

    /** The delete handler: drops the task(s) with id `id`. */
    method DeleteTodo(id: string)
      modifies this
      ensures todos == DeleteIn(old(todos), id)
      ensures filter == old(filter) && draft == old(draft) && editingId == old(editingId)
      ensures old(Valid()) ==> Valid()
    {
      if Valid() {
        DeleteKeepsUnique(todos, id);
      }
      todos := DeleteIn(todos, id);
    }

    /** The edit button: remembers the task's id and copies its three fields into the draft. */
    method StartEditing(t: Todo)
      modifies this
      ensures editingId == Some(t.id) && draft == DraftOf(t)
      ensures todos == old(todos) && filter == old(filter)
    {
      editingId := Some(t.id);
      draft := DraftOf(t);
    }

    /**
     * The update handler. With no task being edited (null or empty id) or a
     * blank title it changes nothing. Otherwise the draft is merged into the
     * task(s) with the edited id (a list without such a task is left as it
     * is), the edited id is cleared and the draft is reset.
     */
    method UpdateTodo()
      modifies this
      ensures filter == old(filter)
      ensures !Truthy(old(editingId)) || IsBlank(old(draft.title)) ==>
        todos == old(todos) && draft == old(draft) && editingId == old(editingId)
      ensures Truthy(old(editingId)) && !IsBlank(old(draft.title)) ==>
        todos == UpdateIn(old(todos), old(editingId).value, old(draft))
        && editingId == None && draft == EmptyDraft
      ensures old(Valid()) ==> Valid()
    {
      var blank := TitleIsBlank(draft.title);
      if !Truthy(editingId) || blank {
        return;
      }
      var id := editingId.value;
      if Valid() {
        UpdateKeepsUnique(todos, id, draft);
      }
      todos := UpdateIn(todos, id, draft);
      editingId := None;
      draft := EmptyDraft;
    }

    /** The form's submit: update while a task is being edited, add otherwise. */
    method Submit(id: string, createdAt: string)
      modifies this
      ensures filter == old(filter)
      ensures Truthy(old(editingId)) && IsBlank(old(draft.title)) ==>
        todos == old(todos) && draft == old(draft) && editingId == old(editingId)
      ensures Truthy(old(editingId)) && !IsBlank(old(draft.title)) ==>
        todos == UpdateIn(old(todos), old(editingId).value, old(draft))
        && editingId == None && draft == EmptyDraft
      ensures !Truthy(old(editingId)) && IsBlank(old(draft.title)) ==>
        todos == old(todos) && draft == old(draft) && editingId == old(editingId)
      ensures !Truthy(old(editingId)) && !IsBlank(old(draft.title)) ==>
        todos == [NewTodo(id, old(draft), createdAt)] + old(todos)
        && draft == EmptyDraft && editingId == old(editingId)
      ensures old(Valid()) && (Truthy(old(editingId)) || !HasId(old(todos), id)) ==> Valid()
    {
      if Truthy(editingId) {
        UpdateTodo();
      } else {
        AddTodo(id, createdAt);
      }
    }

    /** A filter button: selects `f` and changes nothing else. */
    method SetFilter(f: Filter)
      modifies this
      ensures filter == f
      ensures todos == old(todos) && draft == old(draft) && editingId == old(editingId)
    {
      filter := f;
    }

    /** Typing in the title field. */
    method SetTitle(title: string)
      modifies this
      ensures draft == old(draft).(title := title)
      ensures todos == old(todos) && filter == old(filter) && editingId == old(editingId)
    {
      draft := draft.(title := title);
    }

    /** Typing in the description field. */
    method SetDescription(description: string)
      modifies this
      ensures draft == old(draft).(description := description)
      ensures todos == old(todos) && filter == old(filter) && editingId == old(editingId)
    {
      draft := draft.(description := description);
    }

    /** Picking a deadline. */
    method SetDeadline(deadline: string)
      modifies this
      ensures draft == old(draft).(deadline := deadline)
      ensures todos == old(todos) && filter == old(filter) && editingId == old(editingId)
    {
      draft := draft.(deadline := deadline);
    }
  }

  /**
   * A client session from an empty list: add "Buy milk", complete it, look at
   * the pending tasks (none), then delete it.
   */
  method Scenario(id: string, createdAt: string)
  {
    var store := new Store([]);
    store.SetTitle("Buy milk");
    assert !IsWhitespace(store.draft.title[0]);
    store.AddTodo(id, createdAt);
    assert store.todos == [Todo(id, "Buy milk", "", "", Status.Pending, createdAt)];
    store.ToggleStatus(id);
    assert store.todos[0].status == Status.Completed;
    store.SetFilter(Filter.Pending);
    assert store.FilteredTodos() == [];
    store.DeleteTodo(id);
    assert store.todos == [];
  }
}
