/** The note actions (getNotes, getNoteById, createNote, updateNote,
    deleteNote) and their validation schemas, over the notes table. */
module NoteActions {
  import opened Common
  import opened Text
  import opened Zod
  import opened Ordering
  import opened DbSchema
  import opened Queries

  const InvalidNoteId := "Invalid note ID"
  const NoteNotFound := "Note not found"

  /** The fields `createNote` reads from its form. */
  datatype NoteForm = NoteForm(title: Option<string>, content: Option<string>)

  /** `formData.get("content") || ""`: a missing content is empty. */
  function SubmittedContent(c: Option<string>): (s: string)
    ensures c.None? ==> s == ""
    ensures c.Some? ==> s == c.value
  {
    if c.None? then "" else c.value
  }

  /** `createNoteSchema.safeParse(rawData)`: only the title can fail. */
  function ParseCreateNote(form: NoteForm): (r: Parsed<NoteFields>)
    ensures r.Valid? <==> form.title.Some? && 1 <= Utf16Length(form.title.value) <= 255
    ensures r.Valid? ==> r.value == NoteFields(form.title.value, SubmittedContent(form.content))
    ensures r.Invalid? ==> r.issues == TitleIssues(form.title) && r.issues != []
  {
    var issues := TitleIssues(form.title);
    if issues == [] then Valid(NoteFields(form.title.value, SubmittedContent(form.content)))
    else Invalid(issues)
  }

  /** The arguments of `updateNote(id, data)`. */
  datatype NotePatch = NotePatch(title: Option<string>, content: Option<string>)

  /** `updateNoteSchema.safeParse({ id, ...data })`, in key order. */
  function UpdateNoteIssues(id: string, patch: NotePatch): (issues: seq<Issue>)
    ensures issues == [] <==> IsUuid(id) && (patch.title.Some? ==> 1 <= Utf16Length(patch.title.value) <= 255)
    ensures !IsUuid(id) ==> issues != [] && issues[0] == Issue("id", InvalidNoteId)
  {
    UuidIssues("id", id, InvalidNoteId) + (if patch.title.Some? then TitleIssues(patch.title) else [])
  }

  /** The `set({...})` of updateNote: only the supplied fields. */
  function PatchedNote(f: NoteFields, patch: NotePatch): NoteFields {
    NoteFields(
      if patch.title.Some? then patch.title.value else f.title,
      if patch.content.Some? then patch.content.value else f.content)
  }

  /** A field left out of the patch keeps its value; applying the same
      patch twice is applying it once. */
  lemma NotePatchTouchesOnlySupplied(f: NoteFields, patch: NotePatch)
    ensures patch.title.None? ==> PatchedNote(f, patch).title == f.title
    ensures patch.content.None? ==> PatchedNote(f, patch).content == f.content
    ensures patch.title.Some? ==> PatchedNote(f, patch).title == patch.title.value
    ensures patch.content.Some? ==> PatchedNote(f, patch).content == patch.content.value
    ensures PatchedNote(PatchedNote(f, patch), patch) == PatchedNote(f, patch)
  {
  }

  /** getNotes: the caller's notes, most recently updated first. */
  method GetNotes(db: Database, caller: Option<Id>) returns (r: ListResult<Note>)
    requires db.Valid()
    ensures caller.None? ==> r == ListFailure(NotAuthenticated)
    ensures caller.Some? ==> r.Listed?
    ensures r.Listed? ==> Selects(r.rows, db.notes, OwnerIs(caller.value))
    ensures r.Listed? ==> SortedBy(r.rows, UpdatedKey, false)
  {
    if caller.None? {
      return ListFailure(NotAuthenticated);
    }
    var rows := ListWhere(db.notes, OwnerIs(caller.value), UpdatedKey, false);
    return Listed(rows);
  }

  /** getNoteById: the note only when both its id and its owner match. */
  method GetNoteById(db: Database, caller: Option<Id>, id: string) returns (r: FindResult<Note>)
    requires db.Valid()
    ensures caller.None? ==> r == FindFailure(NotAuthenticated)
    ensures caller.Some? && !IsUuidText(id) ==> r == FindFailure("Failed to fetch note")
    ensures caller.Some? && IsUuidText(id) && !Owns(db.notes, id, caller.value) ==> r == FindFailure(NoteNotFound)
    ensures r.Found? <==> caller.Some? && IsUuidText(id) && Owns(db.notes, id, caller.value)
    ensures r.Found? ==> r.row == db.notes[id] && r.row.userId == caller.value
  {
    if caller.None? {
      return FindFailure(NotAuthenticated);
    }
    if !IsUuidText(id) {
      return FindFailure("Failed to fetch note");
    }
    var note := FindOwned(db.notes, id, caller.value);
    if note.None? {
      return FindFailure(NoteNotFound);
    }
    return Found(note.value);
  }

  /** createNote */
  method CreateNote(db: Database, caller: Option<Id>, form: NoteForm, newId: Id, now: Timestamp)
    returns (r: ActionResult)
    requires db.Valid()
    modifies db`notes
    ensures db.Valid()
    ensures caller.None? ==> r == Failure(NotAuthenticated)
    ensures caller.Some? && ParseCreateNote(form).Invalid? ==>
      r == Failure(FirstIssueMessage(ParseCreateNote(form).issues))
    ensures caller.Some? && ParseCreateNote(form).Valid? && (caller.value !in old(db.users) || newId in old(db.notes)) ==>
      r == Failure("Failed to create note")
    ensures r.Success? <==>
      caller.Some? && ParseCreateNote(form).Valid? && caller.value in old(db.users) && newId !in old(db.notes)
    ensures r.Success? ==>
      db.notes == old(db.notes)[newId := Row(newId, caller.value, ParseCreateNote(form).value, now, now)]
    ensures r.Failure? ==> db.notes == old(db.notes)
    ensures caller.Some? ==> OnlyOwnRowsChanged(old(db.notes), db.notes, caller.value)
  {
    if caller.None? {
      return Failure(NotAuthenticated);
    }
    var parsed := ParseCreateNote(form);
    if parsed.Invalid? {
      return Failure(FirstIssueMessage(parsed.issues));
    }
    if caller.value !in db.users || newId in db.notes {
      return Failure("Failed to create note");
    }
    var row := Row(newId, caller.value, parsed.value, now, now);
    InsertKeepsValid(db.notes, db.users, row);
    db.notes := db.notes[newId := row];
    return Success;
  }

  /** updateNote: the id is validated before the store is read. */
  method UpdateNote(db: Database, caller: Option<Id>, id: string, patch: NotePatch, now: Timestamp)
    returns (r: ActionResult)
    requires db.Valid()
    modifies db`notes
    ensures db.Valid()
    ensures caller.None? ==> r == Failure(NotAuthenticated)
    ensures caller.Some? && UpdateNoteIssues(id, patch) != [] ==>
      r == Failure(FirstIssueMessage(UpdateNoteIssues(id, patch)))
    ensures caller.Some? && !IsUuid(id) ==> r == Failure(InvalidNoteId)
    ensures caller.Some? && UpdateNoteIssues(id, patch) == [] && !Owns(old(db.notes), id, caller.value) ==>
      r == Failure(NoteNotFound)
    ensures r.Success? <==>
      caller.Some? && UpdateNoteIssues(id, patch) == [] && Owns(old(db.notes), id, caller.value)
    ensures r.Success? ==>
      var row := old(db.notes)[id];
      db.notes == old(db.notes)[id := Touched(row, PatchedNote(row.fields, patch), now)]
    ensures r.Failure? ==> db.notes == old(db.notes)
    ensures caller.Some? ==> OnlyOwnRowsChanged(old(db.notes), db.notes, caller.value)
  {
    if caller.None? {
      return Failure(NotAuthenticated);
    }
    var issues := UpdateNoteIssues(id, patch);
    if issues != [] {
      return Failure(FirstIssueMessage(issues));
    }
    var existing := FindOwned(db.notes, id, caller.value);
    if existing.None? {
      return Failure(NoteNotFound);
    }
    var row := Touched(existing.value, PatchedNote(existing.value.fields, patch), now);
    ReplaceKeepsValid(db.notes, db.users, row);
    db.notes := db.notes[id := row];
    return Success;
  }

  /** deleteNote: deletes the row matching both id and caller, if any, and
      succeeds either way, unless the id is not uuid text. */
  method DeleteNote(db: Database, caller: Option<Id>, id: string) returns (r: ActionResult)
    requires db.Valid()
    modifies db`notes
    ensures db.Valid()
    ensures caller.None? ==> r == Failure(NotAuthenticated)
    ensures caller.Some? && !IsUuidText(id) ==> r == Failure("Failed to delete note")
    ensures caller.Some? && IsUuidText(id) ==> r == Success
    ensures r.Success? && Owns(old(db.notes), id, caller.value) ==> db.notes == old(db.notes) - {id}
    ensures !(r.Success? && Owns(old(db.notes), id, caller.value)) ==> db.notes == old(db.notes)
    ensures caller.Some? ==> OnlyOwnRowsChanged(old(db.notes), db.notes, caller.value)
  {
    if caller.None? {
      return Failure(NotAuthenticated);
    }
    if !IsUuidText(id) {
      return Failure("Failed to delete note");
    }
    if Owns(db.notes, id, caller.value) {
      db.notes := db.notes - {id};
    }
    return Success;
  }
}
