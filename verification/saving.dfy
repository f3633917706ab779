/** Completion of a save: the photo-library write reports either the new
    asset's identifier or an error; the user is told which, and the selection
    is cleared in both cases. */
module Saving {

  import opened Wrappers
  import Selection

  /** An error reported by the photo-library write, reduced to its localized description. */
  datatype SaveError = SaveError(description: string)

  /** The single result of one save: the new asset's identifier, or the failure. */
  datatype SaveOutcome = Saved(assetId: string) | Failed(error: SaveError)

  /** A message shown to the user: a title and an optional detail line. */
  datatype Message = Message(title: string, detail: Option<string>)

  /** The message shown and the selection left behind when a save finishes. */
  datatype SaveResult = SaveResult(message: Message, selection: Selection.Selection)

  const ErrorTitle: string := "Error"
  const SavedPrefix: string := "Saved with id: "

  function CompleteSave(s: Selection.Selection, outcome: SaveOutcome): (r: SaveResult)
    ensures r.selection == []
    ensures outcome.Failed? <==> r.message.title == ErrorTitle
    ensures r.message.detail.Some? <==> outcome.Failed?
  {
    match outcome
    case Saved(id) =>
      assert (SavedPrefix + id)[..|SavedPrefix|] == SavedPrefix;
      SaveResult(Message(SavedPrefix + id, None), Selection.Clear(s))
    case Failed(e) =>
      SaveResult(Message(ErrorTitle, Some(e.description)), Selection.Clear(s))
  }

  /** Reads the outcome back from the message the user was shown; None for a
      message no save completion produces. */
  function OutcomeFromMessage(m: Message): (r: Option<SaveOutcome>)
    ensures r.Some? && r.value.Failed? ==> m.title == ErrorTitle
    ensures r.Some? && r.value.Failed? ==> m.detail == Some(r.value.error.description)
    ensures r.Some? && r.value.Saved? ==> m.detail.None?
    ensures r.Some? && r.value.Saved? ==> m.title == SavedPrefix + r.value.assetId
  {
    if m.title == ErrorTitle && m.detail.Some? then
      Some(Failed(SaveError(m.detail.value)))
    else if m.detail.None? && |m.title| >= |SavedPrefix| && m.title[..|SavedPrefix|] == SavedPrefix then
      assert m.title == SavedPrefix + m.title[|SavedPrefix|..];
      Some(Saved(m.title[|SavedPrefix|..]))
    else
      None
  }

  /** The message loses nothing: the user can tell success from failure and
      sees the asset identifier or the error description unchanged. */
  lemma MessageDeterminesOutcome(s: Selection.Selection, outcome: SaveOutcome)
    ensures OutcomeFromMessage(CompleteSave(s, outcome).message) == Some(outcome)
  {
  }
}
