/** The pure list transforms the notes page applies to its `notes` state, and the cards
    its main view renders from them. */
module NoteList {
  import opened Notes

  /** `notes.filter(note => note.id !== id)`: every note carrying `id` is dropped, every
      other note is kept as often as it occurs. */
  function WithoutId(notes: seq<Note>, id: int): (r: seq<Note>)
    ensures |r| <= |notes|
    ensures forall k :: 0 <= k < |r| ==> r[k].id != id
    ensures forall k :: 0 <= k < |r| ==> r[k] in notes
  {
    if notes == [] then [] else
      var rest := WithoutId(notes[1..], id);
      if notes[0].id == id then rest else [notes[0]] + rest
  }

  /** Filtering removes every occurrence of a note carrying `id` and no occurrence of any
      other note. */
  lemma {:induction false} WithoutIdCounts(notes: seq<Note>, id: int, n: Note)
    ensures multiset(WithoutId(notes, id))[n] == if n.id == id then 0 else multiset(notes)[n]
  {
    if notes != [] {
      WithoutIdCounts(notes[1..], id, n);
      assert notes == [notes[0]] + notes[1..];
    }
  }

  /** Filtering commutes with concatenation, so the notes that survive keep their
      relative order. */
  lemma {:induction false} WithoutIdAppend(a: seq<Note>, b: seq<Note>, id: int)
    ensures WithoutId(a + b, id) == WithoutId(a, id) + WithoutId(b, id)
  {
    if a != [] {
      assert (a + b)[0] == a[0] && (a + b)[1..] == a[1..] + b;
      WithoutIdAppend(a[1..], b, id);
    } else {
      assert a + b == b;
    }
  }

  /** When no note carries `id`, nothing is removed. */
  lemma {:induction false} WithoutIdAbsent(notes: seq<Note>, id: int)
    requires forall k :: 0 <= k < |notes| ==> notes[k].id != id
    ensures WithoutId(notes, id) == notes
  {
    if notes != [] {
      WithoutIdAbsent(notes[1..], id);
    }
  }

  /** Ids are pairwise distinct. */
  ghost predicate DistinctIds(notes: seq<Note>)
  {
    forall i, j :: 0 <= i < j < |notes| ==> notes[i].id != notes[j].id
  }

  /** With distinct ids, deleting the id of the note at position `k` removes exactly that
      note: the list shrinks by one and the others stay in order. */
  lemma DeleteUnique(notes: seq<Note>, k: nat)
    requires k < |notes| && DistinctIds(notes)
    ensures WithoutId(notes, notes[k].id) == notes[..k] + notes[k + 1..]
    ensures |WithoutId(notes, notes[k].id)| == |notes| - 1
  {
    var id := notes[k].id;
    assert notes == notes[..k] + ([notes[k]] + notes[k + 1..]);
    WithoutIdAppend(notes[..k], [notes[k]] + notes[k + 1..], id);
    WithoutIdAppend([notes[k]], notes[k + 1..], id);
    WithoutIdAbsent(notes[..k], id);
    WithoutIdAbsent(notes[k + 1..], id);
    assert WithoutId([notes[k]], id) == [];
  }

  /** `notes.map(note => note.id === target ? saved : note)`: the same number of notes,
      each note whose id equals the target replaced by `saved`, every other position left
      alone. A target of `None` (the JavaScript `null`) matches no note. */
  function ReplaceById(notes: seq<Note>, target: Option<int>, saved: Note): (r: seq<Note>)
    ensures |r| == |notes|
    ensures forall k :: 0 <= k < |notes| ==>
      r[k] == if Some(notes[k].id) == target then saved else notes[k]
  {
    if notes == [] then [] else
      var rest := ReplaceById(notes[1..], target, saved);
      [if Some(notes[0].id) == target then saved else notes[0]] + rest
  }

  /** When the server answers with a note carrying the edited id, the ids of the list,
      and so their order and distinctness, are exactly those it had before. */
  lemma ReplaceKeepsIds(notes: seq<Note>, id: int, saved: Note)
    requires saved.id == id
    ensures forall k :: 0 <= k < |notes| ==> ReplaceById(notes, Some(id), saved)[k].id == notes[k].id
  {
  }

  /** One note card of the main view: the note itself, or the edit form with the edit
      buffers for the note being edited. */
  datatype Card = NoteCard(note: Note) | EditForm(id: int, title: string, text: string)

  /** The cards of the main view, one per note in list order; the card of a note whose
      id equals `editingId` is the edit form. */
  function Cards(notes: seq<Note>, editingId: Option<int>, editedTitle: string, editedText: string): (r: seq<Card>)
    ensures |r| == |notes|
    ensures forall k :: 0 <= k < |notes| ==> (r[k].EditForm? <==> Some(notes[k].id) == editingId)
    ensures forall k :: 0 <= k < |notes| ==>
      r[k] == if r[k].EditForm? then EditForm(notes[k].id, editedTitle, editedText) else NoteCard(notes[k])
  {
    if notes == [] then [] else
      var card := if Some(notes[0].id) == editingId
        then EditForm(notes[0].id, editedTitle, editedText) else NoteCard(notes[0]);
      [card] + Cards(notes[1..], editingId, editedTitle, editedText)
  }

  /** With distinct ids, at most one card is an edit form. */
  lemma AtMostOneEditForm(notes: seq<Note>, editingId: Option<int>, editedTitle: string, editedText: string)
    requires DistinctIds(notes)
    ensures var cards := Cards(notes, editingId, editedTitle, editedText);
      forall i, j :: 0 <= i < j < |cards| ==> !(cards[i].EditForm? && cards[j].EditForm?)
  {
  }
}
