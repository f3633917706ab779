/** One screen session: the user's actions and the save completions as a
    sequence of events applied to the selection, with the messages shown so far. */
module Session {

  import opened Images
  import Selection
  import View
  import Saving

  datatype Event =
    | ClearPressed
    | PickerBatch(images: seq<Image>)
    | SaveFinished(outcome: Saving.SaveOutcome)

  datatype State = State(selection: Selection.Selection, messages: seq<Saving.Message>)

  /** A new session: nothing selected, nothing shown. */
  const Start: State := State(Selection.Initial, [])

  /** The selection stays within the photo limit. */
  predicate WithinLimit(st: State) {
    |st.selection| <= Selection.MaxPhotos
  }

  /** The view state on screen, derived afresh from every new selection. */
  function ViewOf(st: State): (v: View.ViewState)
    ensures v.clearEnabled <==> st.selection != []
    ensures v.addEnabled <==> |st.selection| < Selection.MaxPhotos
    ensures WithinLimit(st) ==> (v.saveEnabled <==> |st.selection| in {2, 4, 6})
  {
    assert WithinLimit(st) ==> (View.Derive(|st.selection|).saveEnabled <==> |st.selection| in {2, 4, 6}) by {
      if WithinLimit(st) {
        View.SaveEnabledCounts(|st.selection|);
      }
    }
    View.Derive(|st.selection|)
  }

  function Step(st: State, e: Event): (r: State)
    ensures e.PickerBatch? ==> r.messages == st.messages
    ensures !e.PickerBatch? ==> r.selection == []
    ensures e.SaveFinished? ==> |r.messages| == |st.messages| + 1
    ensures !e.SaveFinished? ==> r.messages == st.messages
  {
    match e
    case ClearPressed =>
      State(Selection.Clear(st.selection), st.messages)
    case PickerBatch(images) =>
      State(Selection.AddBatch(st.selection, images).selection, st.messages)
    case SaveFinished(outcome) =>
      var done := Saving.CompleteSave(st.selection, outcome);
      State(done.selection, st.messages + [done.message])
  }

  /** A session as its events applied in order. */
  function Run(st: State, events: seq<Event>): (r: State)
    ensures WithinLimit(st) ==> WithinLimit(r)
    ensures |st.messages| <= |r.messages| && r.messages[..|st.messages|] == st.messages
    decreases |events|
  {
    if events == [] then
      st
    else
      var next := Step(st, events[0]);
      assert WithinLimit(st) ==> WithinLimit(next) by {
        if WithinLimit(st) {
          StepWithinLimit(st, events[0]);
        }
      }
      var r := Run(next, events[1..]);
      assert next.messages[..|st.messages|] == st.messages;
      assert r.messages[..|next.messages|][..|st.messages|] == r.messages[..|st.messages|];
      r
  }

  function SaveCount(events: seq<Event>): nat
    decreases |events|
  {
    if events == [] then 0
    else (if events[0].SaveFinished? then 1 else 0) + SaveCount(events[1..])
  }

  /** Every event keeps the selection within the limit. */
  lemma StepWithinLimit(st: State, e: Event)
    requires WithinLimit(st)
    ensures WithinLimit(Step(st, e))
  {
    if e.PickerBatch? {
      Selection.AddBatchWithinLimit(st.selection, e.images);
    }
  }

  /** From any state within the limit, no sequence of events exceeds it. */
  lemma RunWithinLimit(st: State, events: seq<Event>)
    requires WithinLimit(st)
    ensures WithinLimit(Run(st, events))
  {
  }

  /** Exactly one message is shown per save completion and none otherwise; the
      earlier messages stay as they were. */
  lemma {:induction false} RunMessages(st: State, events: seq<Event>)
    ensures |Run(st, events).messages| == |st.messages| + SaveCount(events)
    ensures Run(st, events).messages[..|st.messages|] == st.messages
    decreases |events|
  {
    if events != [] {
      var next := Step(st, events[0]);
      RunMessages(next, events[1..]);
      assert next.messages[..|st.messages|] == st.messages;
    }
  }

  /** A session opens with Save and Clear disabled, Add enabled and the plain title. */
  lemma StartView()
    ensures ViewOf(Start) == View.ViewState(false, false, true, View.EmptyTitle)
    ensures WithinLimit(Start)
  {
  }
}
