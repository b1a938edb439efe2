/** The notes API: an in-memory, insertion-ordered note collection with an id counter,
    answering `GET /api/notes` (list) and `POST /api/notes` (create). */
module NotesServer {
  import opened Notes

  /** A field of the request body: absent, or a string. */
  datatype Field = Missing | Given(value: string)

  /** JavaScript falsiness of a body field: an absent field or the empty string.
      A string of spaces is not falsy. */
  predicate Falsy(f: Field)
  {
    f.Missing? || f.value == ""
  }

  /** The create handler's validation, the negation of `!title || !text`. */
  predicate Accepts(title: Field, text: Field)
  {
    !Falsy(title) && !Falsy(text)
  }

  /** The answer to a create request: 201 with the new note, or 400 with an error body. */
  datatype Response = Created(note: Note) | BadRequest
  {
    function Status(): nat
    {
      if Created? then 201 else 400
    }
  }

  /** The title and text of a create request that passed validation. */
  datatype Submission = Submission(title: string, text: string)

  /** The collection that the accepted submissions `log` produce, in order, from an empty
      store: the k-th accepted submission (counting from 0) becomes the note with id k + 1. */
  function Numbered(log: seq<Submission>): (notes: seq<Note>)
    ensures |notes| == |log|
    ensures forall k :: 0 <= k < |log| ==>
      notes[k] == Note(k + 1, log[k].title, log[k].text)
  {
    if log == [] then [] else
      var last := |log| - 1;
      Numbered(log[..last]) + [Note(last + 1, log[last].title, log[last].text)]
  }

  /** The store invariant: every id is at least 1 and below `nextId`, and ids strictly
      increase in list order (hence are pairwise distinct). */
  ghost predicate IdsBelow(notes: seq<Note>, nextId: int)
  {
    (forall k :: 0 <= k < |notes| ==> 1 <= notes[k].id < nextId) &&
    (forall i, j :: 0 <= i < j < |notes| ==> notes[i].id < notes[j].id)
  }

  /** A store that replays a log of accepted submissions satisfies the id invariant
      with the counter one past the last id handed out. */
  lemma NumberedIdsBelow(log: seq<Submission>)
    ensures IdsBelow(Numbered(log), |log| + 1)
  {
    var notes := Numbered(log);
    forall i, j | 0 <= i < j < |notes| ensures notes[i].id < notes[j].id {
      assert notes[i].id == i + 1 && notes[j].id == j + 1;
    }
  }

  /** Appending an accepted submission to the log appends exactly one note, carrying the
      next id, and leaves every earlier note where it was. */
  lemma {:induction false} NumberedSnoc(log: seq<Submission>, s: Submission)
    ensures Numbered(log + [s]) == Numbered(log) + [Note(|log| + 1, s.title, s.text)]
  {
    assert (log + [s])[..|log|] == log;
  }

  /** The server's module-level state: the `notes` array and the `nextId` counter. */
  class NoteStore {
    var notes: seq<Note>
    var nextId: nat
    /** The title/text pairs of every accepted create request so far, oldest first. */
    ghost var accepted: seq<Submission>

    ghost predicate Valid()
      reads this
    {
      nextId == |accepted| + 1 && notes == Numbered(accepted) && IdsBelow(notes, nextId)
    }

    /** Process start: no notes, and the first id to hand out is 1. */
    constructor ()
      ensures Valid()
      ensures notes == [] && nextId == 1 && accepted == []
    {
      notes := [];
      nextId := 1;
      accepted := [];
    }

    /** `GET /api/notes`: the whole collection, in insertion order; nothing changes. */
    method List() returns (r: seq<Note>)
      requires Valid()
      ensures r == notes
      ensures IdsBelow(r, nextId)
    {
      r := notes;
    }

    /** `POST /api/notes`. A falsy title or text answers 400 and changes nothing;
        otherwise the note gets the current counter as id, the counter goes up by one,
        the note goes at the end of the collection and is answered with 201. */
    method Create(title: Field, text: Field) returns (resp: Response)
      requires Valid()
      modifies this
      ensures Valid()
      ensures resp.Status() == 201 <==> Accepts(title, text)
      ensures !Accepts(title, text) ==>
        resp == BadRequest && notes == old(notes) && nextId == old(nextId) && accepted == old(accepted)
      ensures Accepts(title, text) ==>
        && resp == Created(Note(old(nextId), title.value, text.value))
        && nextId == old(nextId) + 1
        && notes == old(notes) + [resp.note]
        && accepted == old(accepted) + [Submission(title.value, text.value)]
      ensures resp.Created? ==> forall k :: 0 <= k < |old(notes)| ==> old(notes)[k].id < resp.note.id
    {
      if Falsy(title) || Falsy(text) {
        return BadRequest;
      }
      var note := Note(nextId, title.value, text.value);
      nextId := nextId + 1;
      NumberedSnoc(accepted, Submission(title.value, text.value));
      accepted := accepted + [Submission(title.value, text.value)];
      notes := notes + [note];
      NumberedIdsBelow(accepted);
      resp := Created(note);
    }
  }

  /** Two creates followed by a list, then a create with an empty title. */
  method ScenarioTwoCreatesThenInvalid()
  {
    var store := new NoteStore();
    var a := store.Create(Given("A"), Given("a"));
    assert a == Created(Note(1, "A", "a")) && a.Status() == 201;
    var b := store.Create(Given("B"), Given("b"));
    assert b == Created(Note(2, "B", "b"));
    var listed := store.List();
    assert listed == [Note(1, "A", "a"), Note(2, "B", "b")];
    var c := store.Create(Given(""), Given("x"));
    assert c.Status() == 400;
    listed := store.List();
    assert listed == [Note(1, "A", "a"), Note(2, "B", "b")];
  }
}
