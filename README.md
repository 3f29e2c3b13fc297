# GreenSpin task session, in Dafny

GreenSpin is a single-page widget that hands the user a random eco-task
("spin"), lets them write a proof text and attach a photo, sends both to a
validation service and shows the verdict. All of its behaviour lives in the
`GreenSpin` React component of `frontend/src/App.tsx`, in eight state cells:
the task fields `desc`, `task`, `taskPoints`, `taskValue`; the proof fields
`taskProof`, `taskPhoto`; the verdict `validationResult`; and the busy flag
`isSpinning`.

This project models that component as written:

- `js_values.dfy` (module `JsValues`): the JavaScript semantics the
  component relies on — a nullable field that can also be `undefined` when
  a JSON reply lacks the key (`JsNullable`), string truthiness, `x ?? ""`,
  and `String.prototype.trim` with the WhiteSpace and LineTerminator code
  points of ECMA-262.
- `session_state.dfy` (module `SessionState`): the eight cells as a value
  (`Snapshot`), the events that change them (`Event`), the effect of one
  event (`Step`) and of a sequence (`Run`), the view conditions the page
  renders from the cells, the multipart form, and a table of which event
  writes which cell (`Writes`) with the lemmas that follow from it.
- `green_spin.dfy` (module `GreenSpin`): class `Session`, one mutable field
  per state cell and one method per event. Each method states its whole new
  state and that it equals `Step` of its event, so the lemmas about `Step`
  and `Run` apply to the object.

The network calls and the three-second timer are replaced by events: the
JSON body of a new-task reply is the argument of `Reveal`, the `result` key
of a validation reply the argument of `ApplyVerdict`, and a thrown error is
`SpinFailed` or `ValidationFailed`. A new-task body that is JSON `null` is
also `SpinFailed`: its timer callback clears the busy flag and then throws
on `data.desc` outside the `try`, so no other cell changes. `Reveal` may
fire in any state. So may `EditProof`, `PickFile` and `ValidateTask`,
although the page renders their controls only while the proof panel is
shown (see "## Left out").

The model keeps the code's gaps and proves them as facts:

- The reveal callback applies unconditionally, even for a stale spin: two
  spins and one reveal leave the first reply on screen and the spinner off
  (`StaleRevealApplies`).
- The response status is never checked. An error reply that is still JSON
  is revealed like a task, its missing keys reading as `undefined`
  (`KeylessReplyHidesPanels`). A thrown error, or a JSON `null` body,
  reaches `SpinFailed`, and that keeps the previous task on screen
  (`SpinErrorRestores`).
- A re-spin does not clear the photo; nothing ever clears it
  (`RespinKeepsPhoto`, `PhotoPersists`).
- `validateTask` has no guard of its own (`BuildValidationForm` and
  `ValidateTask` require nothing). A verdict that arrives after a re-spin is
  shown under the new task (`StaleVerdictShown`).
- The points line tests `!== null`, so a reply without `points` still shows
  it (`MissingPointsShown`).

## Model

| member | source | states |
|---|---|---|
| GreenSpin.Session.constructor | frontend/src/App.tsx:13-20 | The cells start as null, with an empty proof, no photo and not spinning |
| GreenSpin.Session.StartSpin | frontend/src/App.tsx:24 | Sets `isSpinning` to true; no other cell changes |
| GreenSpin.Session.Reveal | frontend/src/App.tsx:29-37 | No precondition. Clears `isSpinning`, copies desc/task/points/value verbatim from the reply, sets the verdict to null and the proof to "", and keeps the photo |
| GreenSpin.Session.SpinFailed | frontend/src/App.tsx:38-41 | Clears `isSpinning`; task, proof, photo and verdict are unchanged |
| GreenSpin.Session.EditProof | frontend/src/App.tsx:137 | The proof text is replaced by the new text; nothing else changes |
| GreenSpin.Session.PickFile | frontend/src/App.tsx:145-147 | The first selected file becomes the photo; an empty selection changes nothing |
| GreenSpin.Session.BuildValidationForm | frontend/src/App.tsx:46-52 | No precondition. Parts are "task" (desc, or "" if none), then "proof", then "photo" only when a photo is present: 2 or 3 parts, and reading each name back gives those values |
| GreenSpin.Session.ApplyVerdict | frontend/src/App.tsx:58-59 | The verdict becomes the reply's `result`; nothing else changes, `isSpinning` included |
| GreenSpin.Session.ValidationFailed | frontend/src/App.tsx:60-62 | No cell changes |
| GreenSpin.Session.ValidateTask | frontend/src/App.tsx:44-63 | With no guard, sends the form built from the cells before the call (the same 2 or 3 parts in the same order as `BuildValidationForm`), then applies the reply's verdict, or leaves every cell as it was on an error |
| SessionState.TaskPanelsVisible | frontend/src/App.tsx:75-131 | The task, impact and proof panels show iff not spinning and `task` is a non-empty string |
| SessionState.PointsVisible | frontend/src/App.tsx:93 | Points show iff the panels show and `taskPoints` is not null; an undefined value still shows |
| SessionState.ValueVisible | frontend/src/App.tsx:94 | The value shows iff the panels show and `taskValue` is a non-empty string |
| SessionState.VerdictVisible | frontend/src/App.tsx:160-164 | The verdict shows iff the panels show and `validationResult` is a non-empty string |
| SessionState.CanSubmit | frontend/src/App.tsx:154-156 | The guard `!(!taskProof.trim() \|\| !taskPhoto)` holds iff the proof has a non-whitespace character and a photo is present |
| JsValues.Trim | frontend/src/App.tsx:155 | `trim()` returns a slice of the text with only whitespace outside it and no whitespace at either end |
| JsValues.TrimEmptyIff | frontend/src/App.tsx:155 | The trimmed text is empty iff every character is whitespace |
| JsValues.OrEmpty | frontend/src/App.tsx:47 | `desc ?? ""` gives the string itself, or "" for null and undefined |
| SessionState.StepWrites | frontend/src/App.tsx:24-62 | An event leaves every cell outside its write set unchanged, and what it writes does not depend on the prior state |
| SessionState.RunFrame | frontend/src/App.tsx:24-62 | Over any event sequence, a cell no event writes keeps its value |
| SessionState.LastWriterDecides | frontend/src/App.tsx:24-62 | After any event sequence, each cell holds what the last event writing it wrote, whatever the earlier events were |
| SessionState.PhotoPersists | frontend/src/App.tsx:145-147 | Once a photo is present it stays present after any events, re-spins included |
| SessionState.RespinKeepsPhoto | frontend/src/App.tsx:24-37 | Spin followed by reveal leaves the photo unchanged |
| SessionState.SpinErrorRestores | frontend/src/App.tsx:38-41 | From a state with no spin in progress, a spin that fails returns the state to exactly what it was before the spin |
| SessionState.AfterReveal | frontend/src/App.tsx:29-37 | After a reveal the verdict is hidden and submit is disabled; the panels show iff the reply's `task` is a non-empty string, and the value line iff `task` and `value` both are |
| SessionState.SpinningHidesPanels | frontend/src/App.tsx:75-131 | While spinning, no panel, points line, value line or verdict is shown |
| SessionState.StaleRevealApplies | frontend/src/App.tsx:29-37 | Two spins then one reveal give the same state as that reveal alone |
| SessionState.StaleVerdictShown | frontend/src/App.tsx:58-59 | A verdict arriving after a re-spin and reveal is shown under the new task |
| SessionState.MissingPointsShown | frontend/src/App.tsx:93 | A reply without `points` still shows the points line when the task is shown |
| SessionState.KeylessReplyHidesPanels | frontend/src/App.tsx:25-37 | A JSON reply lacking all task keys stops the spinner, clears `desc` and hides the panels |

## Left out

- The two `fetch` calls, their hard-coded URLs and JSON decoding (frontend/src/App.tsx:25-26, 54-58). They are the network client. Their outcomes are event arguments: the decoded body or a thrown error.
- The `setTimeout` delay and the asynchrony (frontend/src/App.tsx:29). There is no model of time. `Reveal` may fire at any point, in any order relative to other events.
- GreenSpin.Session.ValidateTask: treats the await between sending the form and applying the reply as atomic. Interleavings are covered by calling `BuildValidationForm`, the other events and `ApplyVerdict` separately.
- JSON values of the wrong type (a number where a string is expected, and so on). Each reply key is modelled as a value of the expected type, `null`, or missing. A whole new-task body that is JSON `null` is not a `TaskPayload`; it is modelled by `SpinFailed`, which has the same effect.
- GreenSpin.Session.EditProof, GreenSpin.Session.PickFile and GreenSpin.Session.ValidateTask (and the `ProofEdited` and `FileChosen` events of `Run`): the model lets them fire in any state, including while spinning or before any task exists, whereas the page renders the text area, the file input and the submit button only while the proof panel is shown (frontend/src/App.tsx:124-131), and `validateTask` is reached only by a click on the button, which is disabled unless `CanSubmit` holds (frontend/src/App.tsx:152-156). A click on the disabled button is not an event. The facts proved over `Run` therefore hold of more sequences than the page can produce.
- `points` is modelled as an integer; JavaScript numbers are floating point.
- The whitespace set of `trim()` follows ECMA-262 for the current Unicode version; later Unicode additions to the space separators are not tracked.
- The JSX layout, styling, skeleton cards, progress bar, wheel animation and dark-mode toggle (frontend/src/App.tsx:66-218). Only the visibility conditions are kept.
- The backend, src/backend/main.py, is not part of this model. It wraps language-model agents and an HTTP framework. Its only local logic parses model output by message position and converts it with floating point.
- `console.error` logging in the two catch branches; it changes no state.
