# Collage photo selection — a Dafny model

The Collage app lets the user pick up to six photos, shows a collage of them,
and saves the collage to the photo library. Its logic lives in
`MainViewController`: a current list of selected images, a view state derived
from the number of images (which buttons are enabled, the screen title), and
three transitions — Clear, adding the photos chosen in the picker, and the
completion of a save. This project models that state machine with immutable
values and pure functions:

- `Images` — a picked photo as an identity plus width and height, and the
  orientation test (`width > height`) that admits only landscape photos.
- `Selection` — the ordered selection, the limit of six, Clear, and the add
  pipeline written as a left fold (`AddBatch`): for each incoming image the
  capacity check runs first against the live count (which already includes the
  images appended earlier in the same batch); when it fails the stream ends;
  otherwise a landscape image is appended and any other image is dropped.
  `Admitted` is an independent description of the same effect (the first
  `6 - count` landscape images of the batch), and the two are proved equal.
- `View` — the derived view state: Save enabled for a positive even count,
  Clear for a positive count, Add below six, title `"Collage"` or
  `"<count> photos"`; `CountFromTitle` reads the count back from a title.
- `Decimal` — decimal rendering of the count in the title, with its inverse.
- `Saving` — a save completes with the new asset's id or an error; the user is
  shown `"Saved with id: <id>"` or `"Error"` with the error's description, and
  the selection is cleared either way. `OutcomeFromMessage` inverts the message.
- `Session` — the events of one screen session folded over the state, with the
  invariant that the selection never holds more than six photos.

A failed save clears the selection just like a successful one:
`Collage/MainViewController.swift:72` runs on every completion. The "Limit
reached" alert chain (lines 104-115) follows `ignoreOutput()`, so it never
receives a value and no alert is raised; the model raises none. An image that
arrives when six are already selected ends the picker stream (the
`prefix(while:)` stage completes); the model records this as `cutOff`.

## Model

| member | source | states |
|---|---|---|
| Images.IsLandscape | Collage/MainViewController.swift:98-100 | definition only: an image passes the orientation test iff its width exceeds its height; used by Landscapes and AddBatch |
| Images.Landscapes | Collage/MainViewController.swift:98-100 | the orientation filter keeps exactly the images wider than tall, never more than it was given |
| Images.LandscapesAppend | Collage/MainViewController.swift:98-100 | filtering a batch in two parts gives the two filtered parts in order, so input order is kept |
| Images.LandscapesOfPortraits | Collage/MainViewController.swift:98-100 | a batch of only portrait or square images passes nothing through the filter |
| Selection.Clear | Collage/MainViewController.swift:58-60 | Clear leaves an empty selection whatever was selected |
| Selection.AddBatch | Collage/MainViewController.swift:94-127 | the stream is cut off exactly when not every input was examined, a cut-off leaves at least six photos selected, and the selection never shrinks |
| Selection.Admitted | Collage/MainViewController.swift:95-100 | the reference effect of a batch admits at most the remaining room, and only landscape images |
| Selection.AddBatchAppendsExaminedLandscapes | Collage/MainViewController.swift:94-125 | the new selection is the old one followed by the landscape images among the examined inputs, in input order |
| Selection.AddBatchMatchesAdmitted | Collage/MainViewController.swift:95-125 | the fold with the live capacity check appends exactly the first `6 - count` landscape images of the batch |
| Selection.AddBatchExtendsSelection | Collage/MainViewController.swift:121-125 | the prior selection is an unchanged prefix and every appended image is a landscape image from the batch |
| Selection.AddBatchWithinLimit | Collage/MainViewController.swift:95-97 | a selection of at most six photos still has at most six after any batch |
| Selection.AddBatchOfPortraits | Collage/MainViewController.swift:98-100 | a batch with no landscape image leaves the selection unchanged |
| Selection.AddBatchWhenFull | Collage/MainViewController.swift:95-97 | with six photos selected the first incoming image ends the stream and nothing is added |
| Selection.AddBatchConcat | Collage/MainViewController.swift:94-125 | feeding a batch in two parts has the same effect as feeding it in one go |
| Selection.AddBatchIgnoresInputAfterFull | Collage/MainViewController.swift:95-97 | once the selection holds six photos, any further input of the batch is ignored |
| Decimal.ParseNat | Collage/MainViewController.swift:53 | a parsed count renders back to the very text it was read from |
| Decimal.ParseNatOfNatToString | Collage/MainViewController.swift:53 | every rendered count parses back to that count, so ParseNat is complete on titles |
| Decimal.DigitsValueOfNatToString | Collage/MainViewController.swift:53 | reading the decimal rendering of a count gives the count back |
| Decimal.NatToStringOfDigitsValue | Collage/MainViewController.swift:53 | rendering the value of a canonical numeral gives the numeral back |
| Decimal.NatToStringInjective | Collage/MainViewController.swift:53 | different counts are rendered as different texts |
| View.PhotosTitle | Collage/MainViewController.swift:53 | the title for a non-empty selection ends in " photos" |
| View.Derive | Collage/MainViewController.swift:49-54 | Clear is enabled iff something is selected, Add iff fewer than six are selected, and Save only when Clear is |
| View.CountFromTitle | Collage/MainViewController.swift:53 | a count read from a title is positive and renders back to that title |
| View.SaveEnabledCounts | Collage/MainViewController.swift:50 | for counts 0 to 6, Save is enabled for exactly 2, 4 and 6 |
| View.TitleDeterminesCount | Collage/MainViewController.swift:53 | the title is "Collage" iff nothing is selected, and otherwise reads back as the count |
| View.ViewAfterClear | Collage/MainViewController.swift:49-60 | after Clear, Save and Clear are disabled, Add is enabled and the title is "Collage" |
| Saving.CompleteSave | Collage/MainViewController.swift:67-75 | any completion leaves the selection empty; the title is "Error" iff the save failed, and only a failure carries a detail line |
| Saving.OutcomeFromMessage | Collage/MainViewController.swift:67-75 | a message read as a failure has title "Error"; one read as a success has title "Saved with id: " followed by the id |
| Saving.MessageDeterminesOutcome | Collage/MainViewController.swift:67-75 | the message shown determines the outcome: success with its id, or failure with the error description |
| Session.Step | Collage/MainViewController.swift:58-125 | Clear and a save completion empty the selection, only a save completion adds a message, a picker batch shows none |
| Session.ViewOf | Collage/MainViewController.swift:32-37 | the view state recomputed on every new selection: Clear enabled iff something is selected, Add iff fewer than six, and within the limit Save iff the count is 2, 4 or 6 |
| Session.Run | Collage/MainViewController.swift:58-127 | a session's events applied in order keep the selection within the limit and keep earlier messages as a prefix |
| Session.StepWithinLimit | Collage/MainViewController.swift:95-97 | no single event takes the selection past six photos |
| Session.RunWithinLimit | Collage/MainViewController.swift:95-97 | no sequence of events takes the selection past six photos |
| Session.RunMessages | Collage/MainViewController.swift:67-75 | exactly one message is shown per save completion and earlier messages are kept |
| Session.StartView | Collage/MainViewController.swift:8 | a new session starts with nothing selected, Save and Clear disabled, Add enabled and the title "Collage" |

## Left out

- The collage image itself (`UIImage.collage(images:size:)`, line 40): its implementation is not part of this model, so the layout and the preview are not modelled.
- The photo-library write (`PhotoWriter.save`, line 66): foreign and asynchronous; only its outcome enters the model, as a `SaveOutcome` value.
- The guard in `actionSave` that returns when no preview image exists (line 63): it depends on the compositor's output, which is not modelled.
- The "Limit reached" alert chain (lines 104-115): it follows `ignoreOutput()`, so it never receives a value and no alert is raised; only its completion, which pops the picker, runs. The model records when the stream ends early (`cutOff`) but not the navigation.
- The delayed `updateUI` after a batch (lines 130-137): timing behaviour that recomputes the same derived view state.
- Subscription lifetime (`share()`, stored cancellables, weak/unowned captures), outlets, border colour, navigation and `print` calls: UI and lifetime plumbing with no sequential behaviour of its own.
- Image sizes are floating-point values in the app; the model uses integers, which is enough for the `width > height` comparison.
- The picker's own behaviour (which images it emits and whether its stream completes) is not part of this model; a batch is any finite sequence of images.
