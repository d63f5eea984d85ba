/** The todo actions (getTodos, createTodo, updateTodo, toggleTodo,
    deleteTodo) and their validation schemas, over the todos table. */
module TodoActions {
  import opened Common
  import opened Text
  import opened Zod
  import opened Ordering
  import opened DbSchema
  import opened Queries

  const InvalidTodoId := "Invalid todo ID"
  const TodoNotFound := "Todo not found"
  /** The library's message for a value outside `z.enum(PRIORITY_LEVELS)`. */
  const InvalidPriority := "Invalid option: expected one of \"LOW\"|\"MEDIUM\"|\"HIGH\""

  /** `z.enum(PRIORITY_LEVELS)` */
  function PriorityIssues(p: string): (issues: seq<Issue>)
    ensures issues == [] <==> ParsePriority(p).Some?
    ensures issues != [] ==> issues == [Issue("priority", InvalidPriority)]
  {
    if ParsePriority(p).Some? then [] else [Issue("priority", InvalidPriority)]
  }

  /** `formData.get("priority") || "MEDIUM"`: a missing or empty field
      falls back to MEDIUM before validation. */
  function SubmittedPriority(p: Option<string>): (s: string)
    ensures p.None? || p == Some("") ==> s == "MEDIUM"
    ensures p.Some? && p.value != "" ==> s == p.value
  {
    if p.None? || p.value == "" then "MEDIUM" else p.value
  }

  /** The fields `createTodo` reads from its form. */
  datatype TodoForm = TodoForm(title: Option<string>, priority: Option<string>)

  datatype NewTodo = NewTodo(title: string, priority: Priority)

  /** `createTodoSchema.safeParse(rawData)`: the title's issue, if any,
      comes before the priority's. */
  function ParseCreateTodo(form: TodoForm): (r: Parsed<NewTodo>)
    ensures r.Valid? <==> TitleIssues(form.title) == [] && ParsePriority(SubmittedPriority(form.priority)).Some?
    ensures r.Valid? ==> r.value == NewTodo(form.title.value, ParsePriority(SubmittedPriority(form.priority)).value)
    ensures r.Invalid? ==> r.issues != []
    ensures r.Invalid? && TitleIssues(form.title) != [] ==> r.issues[0] == TitleIssues(form.title)[0]
    ensures r.Invalid? && TitleIssues(form.title) == [] ==> r.issues == [Issue("priority", InvalidPriority)]
  {
    var issues := TitleIssues(form.title) + PriorityIssues(SubmittedPriority(form.priority));
    if issues == [] then
      Valid(NewTodo(form.title.value, ParsePriority(SubmittedPriority(form.priority)).value))
    else
      Invalid(issues)
  }

  /** A todo created without a priority is MEDIUM. */
  lemma DefaultPriority(title: string, priority: Option<string>)
    requires 1 <= Utf16Length(title) <= 255
    requires priority.None? || priority == Some("")
    ensures ParseCreateTodo(TodoForm(Some(title), priority)) == Valid(NewTodo(title, Medium))
  {
  }

  /** The arguments of `updateTodo(id, data)`; `priority` is whatever string
      the caller sent. */
  datatype TodoPatch = TodoPatch(title: Option<string>, completed: Option<bool>, priority: Option<string>)

  /** `updateTodoSchema.safeParse({ id, ...data })`, in key order. */
  function UpdateTodoIssues(id: string, patch: TodoPatch): (issues: seq<Issue>)
    ensures issues == [] <==> IsUuid(id) && PatchIsValid(patch)
    ensures !IsUuid(id) ==> issues != [] && issues[0] == Issue("id", InvalidTodoId)
  {
    UuidIssues("id", id, InvalidTodoId)
    + (if patch.title.Some? then TitleIssues(patch.title) else [])
    + (if patch.priority.Some? then PriorityIssues(patch.priority.value) else [])
  }

  /** Every supplied field passes its schema. */
  predicate PatchIsValid(patch: TodoPatch) {
    && (patch.title.Some? ==> 1 <= Utf16Length(patch.title.value) <= 255)
    && (patch.priority.Some? ==> ParsePriority(patch.priority.value).Some?)
  }

  /** The `set({...})` of updateTodo: only the supplied fields. */
  function Patched(f: TodoFields, patch: TodoPatch): TodoFields
    requires PatchIsValid(patch)
  {
    TodoFields(
      if patch.title.Some? then patch.title.value else f.title,
      if patch.completed.Some? then patch.completed.value else f.completed,
      if patch.priority.Some? then ParsePriority(patch.priority.value).value else f.priority)
  }

  /** A field left out of the patch keeps its value; a supplied one takes it. */
  lemma PatchTouchesOnlySupplied(f: TodoFields, patch: TodoPatch)
    requires PatchIsValid(patch)
    ensures patch.title.None? ==> Patched(f, patch).title == f.title
    ensures patch.completed.None? ==> Patched(f, patch).completed == f.completed
    ensures patch.priority.None? ==> Patched(f, patch).priority == f.priority
    ensures patch.title.Some? ==> Patched(f, patch).title == patch.title.value
    ensures patch.completed.Some? ==> Patched(f, patch).completed == patch.completed.value
    ensures patch.priority.Some? ==> PriorityName(Patched(f, patch).priority) == patch.priority.value
  {
  }

  /** Applying the same update twice is applying it once. */
  lemma PatchIdempotent(f: TodoFields, patch: TodoPatch)
    requires PatchIsValid(patch)
    ensures Patched(Patched(f, patch), patch) == Patched(f, patch)
  {
  }

  /** `completed: !existingTodo[0].completed` */
  function Toggled(f: TodoFields): TodoFields {
    f.(completed := !f.completed)
  }

  /** Toggling twice restores the original fields. */
  lemma ToggleTwice(f: TodoFields)
    ensures Toggled(Toggled(f)) == f
    ensures Toggled(f).completed != f.completed
  {
  }

  /** getTodos: the caller's todos, oldest first. */
  method GetTodos(db: Database, caller: Option<Id>) returns (r: ListResult<Todo>)
    requires db.Valid()
    ensures caller.None? ==> r == ListFailure(NotAuthenticated)
    ensures caller.Some? ==> r.Listed?
    ensures r.Listed? ==> Selects(r.rows, db.todos, OwnerIs(caller.value))
    ensures r.Listed? ==> SortedBy(r.rows, CreatedKey, true)
  {
    if caller.None? {
      return ListFailure(NotAuthenticated);
    }
    var rows := ListWhere(db.todos, OwnerIs(caller.value), CreatedKey, true);
    return Listed(rows);
  }

  /** A user without todos gets an empty list. */
  lemma NoTodosListsNothing(rows: seq<Todo>, t: Table<TodoFields>, uid: Id)
    requires Selects(rows, t, OwnerIs(uid))
    requires forall k :: k in t ==> t[k].userId != uid
    ensures rows == []
  {
    ListedRowsAreOwned(rows, t, uid);
  }

  /** createTodo */
  method CreateTodo(db: Database, caller: Option<Id>, form: TodoForm, newId: Id, now: Timestamp)
    returns (r: ActionResult)
    requires db.Valid()
    modifies db`todos
    ensures db.Valid()
    ensures caller.None? ==> r == Failure(NotAuthenticated)
    ensures caller.Some? && ParseCreateTodo(form).Invalid? ==>
      r == Failure(FirstIssueMessage(ParseCreateTodo(form).issues))
    ensures caller.Some? && ParseCreateTodo(form).Valid? && (caller.value !in old(db.users) || newId in old(db.todos)) ==>
      r == Failure("Failed to create todo")
    ensures r.Success? <==>
      caller.Some? && ParseCreateTodo(form).Valid? && caller.value in old(db.users) && newId !in old(db.todos)
    ensures r.Success? ==>
      var t := ParseCreateTodo(form).value;
      db.todos == old(db.todos)[newId := Row(newId, caller.value, TodoFields(t.title, false, t.priority), now, now)]
    ensures r.Failure? ==> db.todos == old(db.todos)
    ensures caller.Some? ==> OnlyOwnRowsChanged(old(db.todos), db.todos, caller.value)
  {
    if caller.None? {
      return Failure(NotAuthenticated);
    }
    var parsed := ParseCreateTodo(form);
    if parsed.Invalid? {
      return Failure(FirstIssueMessage(parsed.issues));
    }
    // the userId foreign key and the primary key decide whether the insert throws
    if caller.value !in db.users || newId in db.todos {
      return Failure("Failed to create todo");
    }
    var row := Row(newId, caller.value, TodoFields(parsed.value.title, false, parsed.value.priority), now, now);
    InsertKeepsValid(db.todos, db.users, row);
    db.todos := db.todos[newId := row];
    return Success;
  }

  /** updateTodo */
  method UpdateTodo(db: Database, caller: Option<Id>, id: string, patch: TodoPatch, now: Timestamp)
    returns (r: ActionResult)
    requires db.Valid()
    modifies db`todos
    ensures db.Valid()
    ensures caller.None? ==> r == Failure(NotAuthenticated)
    ensures caller.Some? && UpdateTodoIssues(id, patch) != [] ==>
      r == Failure(FirstIssueMessage(UpdateTodoIssues(id, patch)))
    ensures caller.Some? && UpdateTodoIssues(id, patch) == [] && !Owns(old(db.todos), id, caller.value) ==>
      r == Failure(TodoNotFound)
    ensures r.Success? <==>
      caller.Some? && UpdateTodoIssues(id, patch) == [] && Owns(old(db.todos), id, caller.value)
    ensures r.Success? ==>
      var row := old(db.todos)[id];
      db.todos == old(db.todos)[id := Touched(row, Patched(row.fields, patch), now)]
    ensures r.Failure? ==> db.todos == old(db.todos)
    ensures caller.Some? ==> OnlyOwnRowsChanged(old(db.todos), db.todos, caller.value)
  {
    if caller.None? {
      return Failure(NotAuthenticated);
    }
    var issues := UpdateTodoIssues(id, patch);
    if issues != [] {
      return Failure(FirstIssueMessage(issues));
    }
    var existing := FindOwned(db.todos, id, caller.value);
    if existing.None? {
      return Failure(TodoNotFound);
    }
    var row := Touched(existing.value, Patched(existing.value.fields, patch), now);
    ReplaceKeepsValid(db.todos, db.users, row);
    db.todos := db.todos[id := row];
    return Success;
  }

  /** toggleTodo: no validation of the id; text the store cannot read as a
      uuid makes the lookup throw. */
  method ToggleTodo(db: Database, caller: Option<Id>, id: string, now: Timestamp) returns (r: ActionResult)
    requires db.Valid()
    modifies db`todos
    ensures db.Valid()
    ensures caller.None? ==> r == Failure(NotAuthenticated)
    ensures caller.Some? && !IsUuidText(id) ==> r == Failure("Failed to toggle todo")
    ensures caller.Some? && IsUuidText(id) && !Owns(old(db.todos), id, caller.value) ==> r == Failure(TodoNotFound)
    ensures r.Success? <==> caller.Some? && IsUuidText(id) && Owns(old(db.todos), id, caller.value)
    ensures r.Success? ==>
      var row := old(db.todos)[id];
      db.todos == old(db.todos)[id := Touched(row, Toggled(row.fields), now)]
    ensures r.Success? ==> db.todos[id].fields.completed == !old(db.todos)[id].fields.completed
    ensures r.Failure? ==> db.todos == old(db.todos)
    ensures caller.Some? ==> OnlyOwnRowsChanged(old(db.todos), db.todos, caller.value)
  {
    if caller.None? {
      return Failure(NotAuthenticated);
    }
    if !IsUuidText(id) {
      return Failure("Failed to toggle todo");
    }
    var existing := FindOwned(db.todos, id, caller.value);
    if existing.None? {
      return Failure(TodoNotFound);
    }
    var row := Touched(existing.value, Toggled(existing.value.fields), now);
    ReplaceKeepsValid(db.todos, db.users, row);
    db.todos := db.todos[id := row];
    return Success;
  }

  /** deleteTodo: deletes the row matching both id and caller, if there is
      one, and succeeds either way, unless the id is not uuid text. */
  method DeleteTodo(db: Database, caller: Option<Id>, id: string) returns (r: ActionResult)
    requires db.Valid()
    modifies db`todos
    ensures db.Valid()
    ensures caller.None? ==> r == Failure(NotAuthenticated)
    ensures caller.Some? && !IsUuidText(id) ==> r == Failure("Failed to delete todo")
    ensures caller.Some? && IsUuidText(id) ==> r == Success
    ensures r.Success? && Owns(old(db.todos), id, caller.value) ==> db.todos == old(db.todos) - {id}
    ensures !(r.Success? && Owns(old(db.todos), id, caller.value)) ==> db.todos == old(db.todos)
    ensures caller.Some? ==> OnlyOwnRowsChanged(old(db.todos), db.todos, caller.value)
  {
    if caller.None? {
      return Failure(NotAuthenticated);
    }
    if !IsUuidText(id) {
      return Failure("Failed to delete todo");
    }
    if Owns(db.todos, id, caller.value) {
      db.todos := db.todos - {id};
    }
    return Success;
  }
}
