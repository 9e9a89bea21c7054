/** The todo list page: which todos are shown for a status filter and a search
    term, the counts beside the filter buttons, the empty-state text, and the
    handlers that send requests to the data store and update the page state. */
module TodoList {
  import opened Common
  import TodoTypes

  datatype Filter = All | Active | Completed

  /** A row of the `todos` table as the page reads it. */
  datatype Todo = Todo(id: string, title: string, completed: bool, createdAt: string, updatedAt: string, userId: string)

  predicate MatchesFilter(filter: Filter, t: Todo) {
    filter == All || (filter == Active && !t.completed) || (filter == Completed && t.completed)
  }

  /** Case-insensitive substring search on the title. */
  predicate MatchesSearch(term: string, t: Todo) {
    Contains(ToLower(t.title), ToLower(term))
  }

  predicate Shown(filter: Filter, term: string, t: Todo) {
    MatchesFilter(filter, t) && MatchesSearch(term, t)
  }

  /** `filteredTodos` */
  function FilteredTodos(todos: seq<Todo>, filter: Filter, term: string): (r: seq<Todo>)
    ensures |r| <= |todos|
    ensures forall t :: t in r ==> t in todos && Shown(filter, term, t)
  {
    if todos == [] then []
    else if Shown(filter, term, todos[0]) then [todos[0]] + FilteredTodos(todos[1..], filter, term)
    else FilteredTodos(todos[1..], filter, term)
  }

  /** `todos.filter(todo => !todo.completed).length` */
  function ActiveCount(todos: seq<Todo>): nat {
    if todos == [] then 0 else (if !todos[0].completed then 1 else 0) + ActiveCount(todos[1..])
  }

  /** `todos.filter(todo => todo.completed).length` */
  function CompletedCount(todos: seq<Todo>): nat {
    if todos == [] then 0 else (if todos[0].completed then 1 else 0) + CompletedCount(todos[1..])
  }

  /** `a` is `b` with some elements dropped, order kept. */
  predicate IsSubsequence<T(==)>(a: seq<T>, b: seq<T>)
    decreases |b|
  {
    if a == [] then true
    else if b == [] then false
    else (a[0] == b[0] && IsSubsequence(a[1..], b[1..])) || IsSubsequence(a, b[1..])
  }

  /** A todo is listed exactly when it is in the list and passes both tests. */
  lemma {:induction false} FilteredMembership(todos: seq<Todo>, filter: Filter, term: string, t: Todo)
    ensures t in FilteredTodos(todos, filter, term) <==> t in todos && Shown(filter, term, t)
  {
    if todos != [] {
      FilteredMembership(todos[1..], filter, term, t);
      assert todos == [todos[0]] + todos[1..];
    }
  }

  /** The listed todos keep their order in the full list. */
  lemma {:induction false} FilteredIsSubsequence(todos: seq<Todo>, filter: Filter, term: string)
    ensures IsSubsequence(FilteredTodos(todos, filter, term), todos)
  {
    if todos != [] {
      FilteredIsSubsequence(todos[1..], filter, term);
      var r := FilteredTodos(todos, filter, term);
      if Shown(filter, term, todos[0]) {
        assert r[0] == todos[0] && r[1..] == FilteredTodos(todos[1..], filter, term);
      } else if r != [] {
        assert r == FilteredTodos(todos[1..], filter, term);
      }
    }
  }

  /** With filter "all" and an empty search every todo is listed, in order. */
  lemma {:induction false} AllWithEmptySearch(todos: seq<Todo>)
    ensures FilteredTodos(todos, All, "") == todos
  {
    if todos != [] {
      ContainsEmpty(ToLower(todos[0].title));
      assert ToLower("") == "";
      AllWithEmptySearch(todos[1..]);
    }
  }

  /** Every todo is counted once, as active or as completed. */
  lemma {:induction false} CountsPartition(todos: seq<Todo>)
    ensures ActiveCount(todos) + CompletedCount(todos) == |todos|
  {
    if todos != [] {
      CountsPartition(todos[1..]);
    }
  }

  /** The counts are the lengths of the "active" and "completed" views with an empty search. */
  lemma {:induction false} CountsMatchFilters(todos: seq<Todo>)
    ensures ActiveCount(todos) == |FilteredTodos(todos, Active, "")|
    ensures CompletedCount(todos) == |FilteredTodos(todos, Completed, "")|
  {
    if todos != [] {
      ContainsEmpty(ToLower(todos[0].title));
      assert ToLower("") == "";
      CountsMatchFilters(todos[1..]);
    }
  }

  /** The `completed` column of the rows, as the home page's statistics query selects it. */
  function CompletedFlags(todos: seq<Todo>): (flags: seq<bool>)
    ensures |flags| == |todos|
    ensures forall i :: 0 <= i < |todos| ==> flags[i] == todos[i].completed
  {
    seq(|todos|, i requires 0 <= i < |todos| => todos[i].completed)
  }

  /** The page's "completed" count is the home page's completed figure for
      the same rows, and the "active" count is the rest. */
  lemma {:induction false} CountsAgreeWithStats(todos: seq<Todo>)
    ensures CompletedCount(todos) == CountTrue(CompletedFlags(todos))
    ensures ActiveCount(todos) == |todos| - CountTrue(CompletedFlags(todos))
  {
    if todos != [] {
      CountsAgreeWithStats(todos[1..]);
      assert CompletedFlags(todos)[1..] == CompletedFlags(todos[1..]);
    }
    CountsPartition(todos);
  }

  /** The empty-state texts: heading and hint. */
  datatype EmptyState = EmptyState(heading: string, hint: string)

  function EmptyStateFor(term: string, filter: Filter): EmptyState {
    if term != "" || filter != All then EmptyState("No todos found", "Try adjusting your search or filter")
    else EmptyState("No todos yet", "Add your first todo to get started")
  }

  /** "No todos found" exactly when a search or a filter is in force. */
  lemma EmptyStateHeading(term: string, filter: Filter)
    ensures EmptyStateFor(term, filter).heading == "No todos found" <==> term != "" || filter != All
    ensures EmptyStateFor(term, filter).heading != "No todos found" ==>
      EmptyStateFor(term, filter).heading == "No todos yet"
  {
    assert "No todos yet" != "No todos found" by {
      assert "No todos yet"[9] != "No todos found"[9];
    }
  }

  /** An empty list under "all" with no search gets the "yet" heading. */
  lemma EmptyListFirstVisit()
    ensures FilteredTodos([], All, "") == []
    ensures EmptyStateFor("", All).heading == "No todos yet"
  {
  }

  /** A request sent to the `todos` table. Timestamps are milliseconds. */
  datatype Request =
    | Insert(title: string, completed: bool, userId: Option<string>)
    | UpdateTitle(id: string, title: string, updatedAt: int)
    | UpdateCompleted(id: string, completed: bool, updatedAt: int)
    | Delete(id: string)

  /** What a `select` of the user's todos produced: rows (possibly null) or an error. */
  datatype Fetch = Rows(rows: Option<seq<Todo>>) | FetchFailed

  /** The page's state. */
  class TodosPage {
    var todos: seq<Todo>
    var loading: bool
    var filter: Filter
    var searchTerm: string
    var isAddingTodo: bool
    var editingTodo: Option<Todo>
    var deletingTodo: Option<Todo>

    constructor ()
      ensures todos == [] && loading && filter == All && searchTerm == ""
      ensures !isAddingTodo && editingTodo == None && deletingTodo == None
    {
      todos := [];
      loading := true;
      filter := All;
      searchTerm := "";
      isAddingTodo := false;
      editingTodo := None;
      deletingTodo := None;
    }

    /** What the list shows now. */
    function Visible(): (r: seq<Todo>)
      reads this
      ensures forall t :: t in r ==> t in todos
    {
      FilteredTodos(todos, filter, searchTerm)
    }

    /** `loadTodos`: the rows replace the list (null counts as empty); an error
        leaves it as it was; loading ends false. */
    method LoadTodos(fetch: Fetch)
      modifies this`todos, this`loading
      ensures !loading
      ensures fetch.Rows? ==> todos == fetch.rows.GetOr([])
      ensures fetch.FetchFailed? ==> todos == old(todos)
    {
      loading := true;
      if fetch.Rows? {
        todos := fetch.rows.GetOr([]);
      }
      loading := false;
    }

    /** `onSubmit`, behind the form's title validation: an invalid title sends
        nothing; a valid one is inserted as not completed for the current
        user. Success closes the add form and asks for a reload. */
    method SubmitNewTodo(title: string, userId: Option<string>, ok: bool) returns (request: Option<Request>, reload: bool)
      modifies this`isAddingTodo
      ensures !TodoTypes.TitleValid(title) ==> request == None && !reload && isAddingTodo == old(isAddingTodo)
      ensures TodoTypes.TitleValid(title) ==> request == Some(Insert(title, false, userId))
      ensures TodoTypes.TitleValid(title) ==> reload == ok && isAddingTodo == (old(isAddingTodo) && !ok)
    {
      if !TodoTypes.TitleValid(title) {
        return None, false;
      }
      request := Some(Insert(title, false, userId));
      reload := ok;
      if ok {
        isAddingTodo := false;
      }
    }

    /** `openEditDialog` */
    method OpenEditDialog(t: Todo)
      modifies this`editingTodo
      ensures editingTodo == Some(t)
    {
      editingTodo := Some(t);
    }

    /** `onEditSubmit`: nothing without a selected todo; otherwise its title is
        updated, and on success the dialog closes and a reload is asked for. */
    method SubmitEdit(title: string, now: int, ok: bool) returns (request: Option<Request>, reload: bool)
      modifies this`editingTodo
      ensures old(editingTodo) == None || !TodoTypes.TitleValid(title) ==>
        request == None && !reload && editingTodo == old(editingTodo)
      ensures old(editingTodo) != None && TodoTypes.TitleValid(title) ==>
        request == Some(UpdateTitle(old(editingTodo).value.id, title, now)) &&
        reload == ok && editingTodo == (if ok then None else old(editingTodo))
    {
      if !TodoTypes.TitleValid(title) || editingTodo == None {
        return None, false;
      }
      request := Some(UpdateTitle(editingTodo.value.id, title, now));
      reload := ok;
      if ok {
        editingTodo := None;
      }
    }

    /** `toggleTodo`: the completion flag is flipped; success asks for a reload. */
    method ToggleTodo(t: Todo, now: int, ok: bool) returns (request: Request, reload: bool)
      ensures request == UpdateCompleted(t.id, !t.completed, now) && reload == ok
    {
      request := UpdateCompleted(t.id, !t.completed, now);
      reload := ok;
    }

    /** Choosing a todo in the delete confirmation. */
    method AskDelete(t: Todo)
      modifies this`deletingTodo
      ensures deletingTodo == Some(t)
    {
      deletingTodo := Some(t);
    }

    /** `deleteTodo`: nothing without a selected todo; otherwise it is deleted,
        and on success the confirmation closes and a reload is asked for. */
    method DeleteTodo(ok: bool) returns (request: Option<Request>, reload: bool)
      modifies this`deletingTodo
      ensures old(deletingTodo) == None ==> request == None && !reload && deletingTodo == None
      ensures old(deletingTodo) != None ==>
        request == Some(Delete(old(deletingTodo).value.id)) &&
        reload == ok && deletingTodo == (if ok then None else old(deletingTodo))
    {
      if deletingTodo == None {
        return None, false;
      }
      request := Some(Delete(deletingTodo.value.id));
      reload := ok;
      if ok {
        deletingTodo := None;
      }
    }
  }

  /** Scenario: toggling twice sends the original flag back. */
  method ToggleTwice(t: Todo, now: int) returns (first: Request, second: Request)
    ensures first == UpdateCompleted(t.id, !t.completed, now) && second == UpdateCompleted(t.id, t.completed, now)
  {
    var page := new TodosPage();
    var reloaded;
    first, reloaded := page.ToggleTodo(t, now, true);
    second, reloaded := page.ToggleTodo(t.(completed := first.completed), now, true);
  }
}
