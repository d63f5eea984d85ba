/** One row of the todo list: the badge shown for its priority, and the
    inline title editor, whose state lives in the component and whose save
    goes through the updateTodo action. */
module TodoItemView {
  import opened Common
  import opened Text
  import opened Zod
  import opened DbSchema
  import opened Queries
  import opened TodoActions

  /** One entry of `priorityConfig`: the badge's text and its colours. */
  datatype PriorityStyle = PriorityStyle(caption: string, bgColor: string, textColor: string)

  /** `priorityConfig[p]` */
  function PriorityConfig(p: Priority): PriorityStyle {
    match p
    case Low => PriorityStyle("Low", "bg-green-500/10", "text-green-500")
    case Medium => PriorityStyle("Med", "bg-yellow-500/10", "text-yellow-500")
    case High => PriorityStyle("High", "bg-red-500/10", "text-red-500")
  }

  /** getPriorityConfig: the entry of a stored level, and MEDIUM's for a
      missing or unknown one. */
  function GetPriorityConfig(priority: Option<string>): (c: PriorityStyle)
    ensures priority.Some? && ParsePriority(priority.value).Some? ==>
      c == PriorityConfig(ParsePriority(priority.value).value)
    ensures priority.None? || ParsePriority(priority.value).None? ==> c == PriorityConfig(Medium)
    ensures c.caption in {"Low", "Med", "High"}
  {
    var valid := if priority.Some? && ParsePriority(priority.value).Some? then ParsePriority(priority.value).value else Medium;
    PriorityConfig(valid)
  }

  /** Every stored level shows its own badge, and different levels show
      different labels. */
  lemma StoredLevelShowsItsBadge(p: Priority, q: Priority)
    ensures GetPriorityConfig(Some(PriorityName(p))) == PriorityConfig(p)
    ensures GetPriorityConfig(Some(PriorityName(p))).caption == GetPriorityConfig(Some(PriorityName(q))).caption ==> p == q
  {
    PriorityRoundTrip(p);
    PriorityRoundTrip(q);
  }

  /** The component's state for one todo. */
  class TodoItem {
    const todo: Todo
    var isEditing: bool
    var editTitle: string
    var isLoading: bool
    var error: Option<string>

    constructor (todo: Todo)
      ensures this.todo == todo && !isEditing && editTitle == todo.fields.title && !isLoading && error.None?
    {
      this.todo := todo;
      isEditing := false;
      editTitle := todo.fields.title;
      isLoading := false;
      error := None;
    }

    /** The pencil button. */
    method StartEdit()
      modifies this`isEditing
      ensures isEditing
    {
      isEditing := true;
    }

    /** Typing in the title box. */
    method EditTitle(text: string)
      modifies this`editTitle
      ensures editTitle == text
    {
      editTitle := text;
    }

    /** handleSaveEdit: a title that is blank once trimmed is refused here,
        without a call; otherwise the trimmed title goes to updateTodo, and
        the editor closes only when the action succeeds. */
    method SaveEdit(db: Database, caller: Option<Id>, now: Timestamp) returns (outcome: Option<ActionResult>)
      requires db.Valid()
      modifies this`isEditing, this`isLoading, this`error, db`todos
      ensures db.Valid()
      ensures outcome.None? <==> Trim(old(editTitle)) == ""
      ensures outcome.None? ==>
        && error == Some(TitleRequired)
        && isEditing == old(isEditing) && isLoading == old(isLoading)
        && db.todos == old(db.todos)
      ensures outcome.Some? ==> !isLoading
      ensures outcome == Some(Success) ==>
        && !isEditing && error.None? && caller.Some? && Owns(old(db.todos), todo.id, caller.value)
        && var row := old(db.todos)[todo.id];
           db.todos == old(db.todos)[todo.id := Touched(row, row.fields.(title := Trim(old(editTitle))), now)]
      ensures outcome.Some? && outcome.value.Failure? ==>
        && isEditing == old(isEditing) && error == Some(outcome.value.error)
        && db.todos == old(db.todos)
    {
      var title := Trim(editTitle);
      if title == "" {
        error := Some(TitleRequired);
        return None;
      }
      var result := SendTitle(db, caller, title, now);
      return Some(result);
    }

    /** The part of handleSaveEdit after the local check: updateTodo with the
        title, the loading flag around it, then close or show the error. */
    method SendTitle(db: Database, caller: Option<Id>, title: string, now: Timestamp) returns (result: ActionResult)
      requires db.Valid()
      modifies this`isEditing, this`isLoading, this`error, db`todos
      ensures db.Valid()
      ensures !isLoading
      ensures result == Success ==>
        && !isEditing && error.None? && caller.Some? && Owns(old(db.todos), todo.id, caller.value)
        && var row := old(db.todos)[todo.id];
           db.todos == old(db.todos)[todo.id := Touched(row, row.fields.(title := title), now)]
      ensures result.Failure? ==>
        && isEditing == old(isEditing) && error == Some(result.error)
        && db.todos == old(db.todos)
    {
      error := None;
      isLoading := true;
      result := UpdateTodo(db, caller, todo.id, TodoPatch(Some(title), None, None), now);
      isLoading := false;
      if result.Success? {
        isEditing := false;
      } else {
        error := Some(result.error);
      }
    }

    /** handleCancelEdit: back to the stored title, out of edit mode, no error. */
    method CancelEdit()
      modifies this`editTitle, this`isEditing, this`error
      ensures editTitle == todo.fields.title && !isEditing && error.None?
    {
      editTitle := todo.fields.title;
      isEditing := false;
      error := None;
    }
  }

  /** The title a save sends is already trimmed: saving it again sends the
      same text, and it is never blank. */
  lemma SentTitleIsStable(editTitle: string)
    requires Trim(editTitle) != ""
    ensures Trim(Trim(editTitle)) == Trim(editTitle)
    ensures !IsBlank(Trim(editTitle))
  {
    TrimIdempotent(editTitle);
  }
}
