/** Values shared by the notes server and the notes page. */
module Notes {

  /** A note as the server creates it and the page shows it: `{ id, title, text }`. */
  datatype Note = Note(id: int, title: string, text: string)

  /** A value that may be absent, such as `editingNoteId` (null while no note is being edited). */
  datatype Option<T> = None | Some(value: T)

  /** The outcome of one network request as the page sees it: the parsed body of a
      successful response, or a failure (a non-OK status, a network error or a body that
      does not parse). */
  datatype Reply<T> = Succeeded(body: T) | Failed
}
