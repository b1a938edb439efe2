/** The notes page: its state variables, the handlers that move them from one value to
    the next, and the choice of what it renders. Every request the page would send is
    returned by the handler that sends it, and the server's answer is an input. */
module HomePage {
  import opened Notes
  import opened Text
  import opened NoteList

  /** Which request failed and set the page's `error`. */
  datatype Failure = LoadFailed | AddFailed | DeleteFailed | UpdateFailed

  /** A mutating request the page sends to the notes endpoint. */
  datatype Request =
    | PostRequest(title: string, text: string)
    | DeleteRequest(id: int)
    | PutRequest(target: Option<int>, title: string, text: string)

  /** What the page renders: the loading message, the error message with a retry button,
      or the add form followed by one card per note. */
  datatype Screen = LoadingScreen | ErrorScreen(error: Failure) | MainScreen(cards: seq<Card>)

  class Page {
    /** Whether the deployment accepts writes (`isCrudEnabled`); fixed for the page's life. */
    const crudEnabled: bool

    var notes: seq<Note>
    var newNoteTitle: string
    var newNoteText: string
    var editingNoteId: Option<int>
    var editedTitle: string
    var editedText: string
    var loading: bool
    var error: Option<Failure>

    /** The add form's two fields. */
    ghost function AddForm(): (string, string)
      reads this
    {
      (newNoteTitle, newNoteText)
    }

    /** The editing state: the id being edited and the two edit buffers. */
    ghost function Editing(): (Option<int>, string, string)
      reads this
    {
      (editingNoteId, editedTitle, editedText)
    }

    /** Outside editing mode the edit buffers are empty, and a read-only page never
        enters editing mode and never holds input in the add form. Every handler keeps
        it; `SaveEditedNote` relies on it to send nothing outside editing mode. */
    ghost predicate Valid()
      reads this
    {
      (editingNoteId == None ==> editedTitle == "" && editedText == "") &&
      (!crudEnabled ==> editingNoteId == None && newNoteTitle == "" && newNoteText == "")
    }

    /** The page's initial state: no notes, empty fields, not editing, loading, no error. */
    constructor (crudEnabled: bool)
      ensures Valid() && this.crudEnabled == crudEnabled
      ensures notes == [] && AddForm() == ("", "") && Editing() == (None, "", "")
      ensures loading && error == None
    {
      this.crudEnabled := crudEnabled;
      notes := [];
      newNoteTitle, newNoteText := "", "";
      editingNoteId, editedTitle, editedText := None, "", "";
      loading, error := true, None;
    }

    /** What the page renders: the loading view while loading, otherwise the error view
        while an error is set, otherwise one card per note. */
    function View(): (s: Screen)
      reads this
      ensures s.LoadingScreen? <==> loading
      ensures s.ErrorScreen? <==> !loading && error.Some?
      ensures s.ErrorScreen? ==> s.error == error.value
      ensures s.MainScreen? ==> s.cards == Cards(notes, editingNoteId, editedTitle, editedText)
    {
      if loading then LoadingScreen
      else if error.Some? then ErrorScreen(error.value)
      else MainScreen(Cards(notes, editingNoteId, editedTitle, editedText))
    }

    /** The first half of `fetchNotes`, before the response arrives: loading, no error. */
    method FetchStart()
      requires Valid()
      modifies this
      ensures Valid()
      ensures loading && error == None && View() == LoadingScreen
      ensures notes == old(notes) && AddForm() == old(AddForm()) && Editing() == old(Editing())
    {
      loading := true;
      error := None;
    }

    /** The second half of `fetchNotes`: a response with a `notes` member replaces the
        list, one without it empties the list, a failure sets the error; loading ends
        either way. */
    method FetchFinish(reply: Reply<Option<seq<Note>>>)
      requires Valid()
      modifies this
      ensures Valid()
      ensures !loading
      ensures reply.Succeeded? ==>
        notes == (if reply.body.Some? then reply.body.value else []) && error == old(error)
      ensures reply.Failed? ==> notes == old(notes) && error == Some(LoadFailed)
      ensures AddForm() == old(AddForm()) && Editing() == old(Editing())
    {
      match reply {
        case Succeeded(data) =>
          notes := if data.Some? then data.value else [];
        case Failed =>
          error := Some(LoadFailed);
      }
      loading := false;
    }

    /** `fetchNotes` as one step: the page ends up on the main view with the fetched
        notes, or on the error view with the list it had. */
    method FetchNotes(reply: Reply<Option<seq<Note>>>)
      requires Valid()
      modifies this
      ensures Valid()
      ensures !loading
      ensures reply.Succeeded? ==>
        notes == (if reply.body.Some? then reply.body.value else []) && error == None &&
        View().MainScreen?
      ensures reply.Failed? ==>
        notes == old(notes) && error == Some(LoadFailed) && View() == ErrorScreen(LoadFailed)
      ensures AddForm() == old(AddForm()) && Editing() == old(Editing())
    {
      FetchStart();
      FetchFinish(reply);
    }

    /** `addNote`. Read-only mode and a blank title or text send nothing and change
        nothing. Otherwise the two fields are posted; the note the server returns is
        appended and the fields are cleared, or, on failure, the error is set and the
        list and the fields stay as they were. */
    method AddNote(reply: Reply<Note>) returns (sent: Option<Request>)
      requires Valid()
      modifies this
      ensures Valid()
      ensures sent == if crudEnabled && !IsBlank(old(newNoteTitle)) && !IsBlank(old(newNoteText))
        then Some(PostRequest(old(newNoteTitle), old(newNoteText))) else None
      ensures sent == None ==> unchanged(this)
      ensures sent != None && reply.Succeeded? ==>
        notes == old(notes) + [reply.body] && AddForm() == ("", "") && error == old(error)
      ensures sent != None && reply.Failed? ==>
        notes == old(notes) && AddForm() == old(AddForm()) && error == Some(AddFailed)
      ensures Editing() == old(Editing()) && loading == old(loading)
    {
      if !crudEnabled || IsBlank(newNoteTitle) || IsBlank(newNoteText) {
        return None;
      }
      sent := Some(PostRequest(newNoteTitle, newNoteText));
      match reply {
        case Succeeded(added) =>
          notes := notes + [added];
          newNoteTitle := "";
          newNoteText := "";
        case Failed =>
          error := Some(AddFailed);
      }
    }

    /** `deleteNote(id)`. Read-only mode and a declined confirmation send nothing and
        change nothing. Otherwise the delete is sent; on success every note with that id
        leaves the list, on failure the error is set and the list stays. */
    method DeleteNote(id: int, confirmed: bool, reply: Reply<()>) returns (sent: Option<Request>)
      requires Valid()
      modifies this
      ensures Valid()
      ensures sent == if crudEnabled && confirmed then Some(DeleteRequest(id)) else None
      ensures sent == None ==> unchanged(this)
      ensures sent != None && reply.Succeeded? ==>
        notes == WithoutId(old(notes), id) && error == old(error)
      ensures sent != None && reply.Failed? ==>
        notes == old(notes) && error == Some(DeleteFailed)
      ensures AddForm() == old(AddForm()) && Editing() == old(Editing()) && loading == old(loading)
    {
      if !crudEnabled {
        return None;
      }
      if !confirmed {
        return None;
      }
      sent := Some(DeleteRequest(id));
      match reply {
        case Succeeded(_) =>
          notes := WithoutId(notes, id);
        case Failed =>
          error := Some(DeleteFailed);
      }
    }

    /** `startEditing(note)`: in read-only mode nothing changes; otherwise the page edits
        `note`, with the buffers seeded from its title and text. */
    method StartEditing(note: Note)
      requires Valid()
      modifies this
      ensures Valid()
      ensures !crudEnabled ==> unchanged(this)
      ensures crudEnabled ==> Editing() == (Some(note.id), note.title, note.text)
      ensures notes == old(notes) && AddForm() == old(AddForm())
      ensures loading == old(loading) && error == old(error)
    {
      if !crudEnabled {
        return;
      }
      editingNoteId := Some(note.id);
      editedTitle := note.title;
      editedText := note.text;
    }

    /** `saveEditedNote`. Read-only mode and a blank buffer send nothing and change
        nothing. Otherwise the buffers are put to the edited id; on success every note
        with that id is replaced by the server's note and editing ends, on failure the
        error is set and editing goes on with the same buffers. */
    method SaveEditedNote(reply: Reply<Note>) returns (sent: Option<Request>)
      requires Valid()
      modifies this
      ensures Valid()
      ensures sent == if crudEnabled && !IsBlank(old(editedTitle)) && !IsBlank(old(editedText))
        then Some(PutRequest(old(editingNoteId), old(editedTitle), old(editedText))) else None
      ensures old(editingNoteId) == None ==> sent == None
      ensures sent == None ==> unchanged(this)
      ensures sent != None && reply.Succeeded? ==>
        notes == ReplaceById(old(notes), old(editingNoteId), reply.body) &&
        Editing() == (None, "", "") && error == old(error)
      ensures sent != None && reply.Failed? ==>
        notes == old(notes) && Editing() == old(Editing()) && error == Some(UpdateFailed)
      ensures AddForm() == old(AddForm()) && loading == old(loading)
    {
      if !crudEnabled {
        return None;
      }
      if IsBlank(editedTitle) || IsBlank(editedText) {
        return None;
      }
      assert editingNoteId != None;
      sent := Some(PutRequest(editingNoteId, editedTitle, editedText));
      match reply {
        case Succeeded(saved) =>
          notes := ReplaceById(notes, editingNoteId, saved);
          editingNoteId := None;
          editedTitle := "";
          editedText := "";
        case Failed =>
          error := Some(UpdateFailed);
      }
    }

    /** `cancelEditing`: leaves editing mode and empties the buffers, in either mode,
        without a request. */
    method CancelEditing()
      requires Valid()
      modifies this
      ensures Valid()
      ensures Editing() == (None, "", "")
      ensures notes == old(notes) && AddForm() == old(AddForm())
      ensures loading == old(loading) && error == old(error)
    {
      editingNoteId := None;
      editedTitle := "";
      editedText := "";
    }

    /** Typing into the add form's title field, which is disabled in read-only mode. */
    method ChangeNewNoteTitle(value: string)
      requires Valid() && crudEnabled
      modifies this`newNoteTitle
      ensures Valid() && newNoteTitle == value
    {
      newNoteTitle := value;
    }

    /** Typing into the add form's text field, which is disabled in read-only mode. */
    method ChangeNewNoteText(value: string)
      requires Valid() && crudEnabled
      modifies this`newNoteText
      ensures Valid() && newNoteText == value
    {
      newNoteText := value;
    }

    /** Typing into the edit form's title field, which is shown only while editing and
        disabled in read-only mode. */
    method ChangeEditedTitle(value: string)
      requires Valid() && crudEnabled && editingNoteId != None
      modifies this`editedTitle
      ensures Valid() && editedTitle == value
    {
      editedTitle := value;
    }

    /** Typing into the edit form's text field, under the same conditions. */
    method ChangeEditedText(value: string)
      requires Valid() && crudEnabled && editingNoteId != None
      modifies this`editedText
      ensures Valid() && editedText == value
    {
      editedText := value;
    }
  }
}
