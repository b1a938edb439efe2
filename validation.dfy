/** How the page's input check and the server's request check relate. The page refuses
    a title or text that is blank after trimming; the server refuses only a missing or
    empty one. */
module Validation {
  import opened Text
  import opened NotesServer

  /** Every title/text pair the page's add guard lets through would be accepted by the
      server's falsy check. */
  lemma PageGuardImpliesServerAccepts(title: string, text: string)
    requires !IsBlank(title) && !IsBlank(text)
    ensures Accepts(Given(title), Given(text))
  {
  }

  /** The converse fails: the server accepts a title made of a single space, which the
      page would have refused as blank. */
  lemma ServerAcceptsBlankTitle()
    ensures Accepts(Given(" "), Given("x")) && IsBlank(" ")
  {
  }
}
