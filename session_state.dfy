/**
  The task session of the GreenSpin widget as a value: the eight state
  cells, the events that change them, the view conditions the page derives
  from them, and the multipart form a submission sends.

  The network replies are not fetched here; they arrive as the payload of
  an event. The three-second timer is not modelled either: `TimerFired` is
  an event that may occur at any point, in any state.
 */
module SessionState {
  import opened JsValues

  /** An image file chosen in the upload control (an opaque `File`). */
  datatype Photo = Photo(name: string, content: seq<bv8>)

  /** The JSON body of a new-task reply: `{desc, task, points, value}`;
      each key may be missing from the body, and then reads as `undefined`. */
  datatype TaskPayload = TaskPayload(
    desc: JsNullable<string>,
    task: JsNullable<string>,
    points: JsNullable<int>,
    value: JsNullable<string>)

  /** The eight state cells of the component. `task` holds the text shown
      under "Environmental impact", `desc` the assigned task itself. */
  datatype Snapshot = Snapshot(
    desc: JsNullable<string>,
    task: JsNullable<string>,
    taskPoints: JsNullable<int>,
    taskValue: JsNullable<string>,
    taskProof: string,
    validationResult: JsNullable<string>,
    isSpinning: bool,
    taskPhoto: Option<Photo>)

  /** The values the cells start with when the component mounts. */
  const Initial := Snapshot(Null, Null, Null, Null, "", Null, false, None)

  /** Everything that changes the session. `FileChosen` carries the selected
      `FileList`, a missing list being an empty one; `VerdictReceived`
      carries the `result` key of a validation reply. */
  datatype Event =
    | SpinRequested
    | TimerFired(payload: TaskPayload)
    | SpinError
    | ProofEdited(text: string)
    | FileChosen(files: seq<Photo>)
    | VerdictReceived(result: JsNullable<string>)
    | ValidationError

  /** The effect of one event on the cells. */
  function Step(s: Snapshot, e: Event): Snapshot
  {
    match e
    case SpinRequested => s.(isSpinning := true)
    case TimerFired(p) =>
      s.(isSpinning := false, desc := p.desc, task := p.task, taskPoints := p.points,
         taskValue := p.value, validationResult := Null, taskProof := "")
    case SpinError => s.(isSpinning := false)
    case ProofEdited(text) => s.(taskProof := text)
    case FileChosen(files) => if files != [] then s.(taskPhoto := Some(files[0])) else s
    case VerdictReceived(r) => s.(validationResult := r)
    case ValidationError => s
  }

  /** The effect of a sequence of events, first to last. */
  function Run(s: Snapshot, es: seq<Event>): Snapshot
    decreases |es|
  {
    if es == [] then s else Run(Step(s, es[0]), es[1..])
  }

  // ---------------------------------------------------------------------
  // What the page shows

  /** The task card, the impact card and the proof panel are rendered
      (rather than a skeleton or nothing). */
  function TaskPanelsVisible(s: Snapshot): (r: bool)
    ensures r <==> !s.isSpinning && s.task.Val? && |s.task.v| > 0
  {
    !s.isSpinning && Truthy(s.task)
  }

  /** The points line of the task card is rendered: the check is
      `!== null`, so a points key missing from the reply still shows it. */
  function PointsVisible(s: Snapshot): (r: bool)
    ensures r <==> TaskPanelsVisible(s) && !s.taskPoints.Null?
    ensures s.taskPoints.Undefined? ==> r == TaskPanelsVisible(s)
  {
    TaskPanelsVisible(s) && s.taskPoints != Null
  }

  /** The value line of the task card is rendered. */
  function ValueVisible(s: Snapshot): (r: bool)
    ensures r <==> TaskPanelsVisible(s) && s.taskValue.Val? && |s.taskValue.v| > 0
  {
    TaskPanelsVisible(s) && Truthy(s.taskValue)
  }

  /** The validation verdict is rendered inside the proof panel. */
  function VerdictVisible(s: Snapshot): (r: bool)
    ensures r <==> TaskPanelsVisible(s) && s.validationResult.Val? && |s.validationResult.v| > 0
  {
    TaskPanelsVisible(s) && Truthy(s.validationResult)
  }

  /** The submit button is enabled: `!(!taskProof.trim() || !taskPhoto)`.
      It holds exactly when the proof has a non-whitespace character and a
      photo was chosen. */
  function CanSubmit(s: Snapshot): (r: bool)
    ensures r <==> (exists i :: 0 <= i < |s.taskProof| && !IsWhitespace(s.taskProof[i]))
                   && s.taskPhoto.Some?
  {
    TrimEmptyIff(s.taskProof);
    Trim(s.taskProof) != [] && s.taskPhoto.Some?
  }

  // ---------------------------------------------------------------------
  // The validation form

  datatype PartValue = Text(text: string) | Blob(photo: Photo)

  /** One `formData.append(name, value)`. */
  datatype FormPart = Part(name: string, value: PartValue)

  /** `formData.get(name)`: the value of the first part with that name. */
  function FormGet(parts: seq<FormPart>, name: string): (r: Option<PartValue>)
    ensures r.Some? <==> exists i :: 0 <= i < |parts| && parts[i].name == name
  {
    if parts == [] then None
    else if parts[0].name == name then Some(parts[0].value)
    else FormGet(parts[1..], name)
  }

  // ---------------------------------------------------------------------
  // Which event writes which cell

  datatype Cell = Desc | Task | Points | Value | Proof | Verdict | Spinning | PhotoCell

  /** The cells an event assigns. The reveal writes every cell but the
      photo; a file selection writes the photo only when it is not empty. */
  predicate Writes(e: Event, c: Cell)
  {
    match e
    case SpinRequested => c == Spinning
    case TimerFired(_) => c != PhotoCell
    case SpinError => c == Spinning
    case ProofEdited(_) => c == Proof
    case FileChosen(files) => c == PhotoCell && files != []
    case VerdictReceived(_) => c == Verdict
    case ValidationError => false
  }

  /** `s` and `t` hold the same value in cell `c`. */
  predicate Agree(s: Snapshot, t: Snapshot, c: Cell)
  {
    match c
    case Desc => s.desc == t.desc
    case Task => s.task == t.task
    case Points => s.taskPoints == t.taskPoints
    case Value => s.taskValue == t.taskValue
    case Proof => s.taskProof == t.taskProof
    case Verdict => s.validationResult == t.validationResult
    case Spinning => s.isSpinning == t.isSpinning
    case PhotoCell => s.taskPhoto == t.taskPhoto
  }

  /** An event leaves every cell it does not write unchanged, and the value
      it writes into a cell does not depend on the state it fires in. */
  lemma StepWrites(s: Snapshot, t: Snapshot, e: Event, c: Cell)
    ensures !Writes(e, c) ==> Agree(s, Step(s, e), c)
    ensures Writes(e, c) ==> Agree(Step(s, e), Step(t, e), c)
  {
  }

  lemma {:induction false} RunAppend(s: Snapshot, a: seq<Event>, b: seq<Event>)
    ensures Run(s, a + b) == Run(Run(s, a), b)
    decreases |a|
  {
    if a == [] {
      assert a + b == b;
    } else {
      assert (a + b)[0] == a[0] && (a + b)[1..] == a[1..] + b;
      RunAppend(Step(s, a[0]), a[1..], b);
    }
  }

  /** A run of events none of which writes cell `c` leaves `c` unchanged. */
  lemma {:induction false} RunFrame(s: Snapshot, es: seq<Event>, c: Cell)
    requires forall i :: 0 <= i < |es| ==> !Writes(es[i], c)
    ensures Agree(s, Run(s, es), c)
    decreases |es|
  {
    if es != [] {
      StepWrites(s, s, es[0], c);
      RunFrame(Step(s, es[0]), es[1..], c);
    }
  }

  /** Each cell holds what the last event that writes it put there, whatever
      the state before that event: `es[k]` writes `c` and no later event does. */
  lemma {:induction false} LastWriterDecides(s: Snapshot, t: Snapshot, es: seq<Event>, k: nat, c: Cell)
    requires k < |es| && Writes(es[k], c)
    requires forall j :: k < j < |es| ==> !Writes(es[j], c)
    ensures Agree(Run(s, es), Step(t, es[k]), c)
  {
    var pre := Run(s, es[..k]);
    assert es == es[..k] + [es[k]] + es[k + 1..];
    RunAppend(s, es[..k] + [es[k]], es[k + 1..]);
    RunAppend(s, es[..k], [es[k]]);
    assert Run(s, es[..k] + [es[k]]) == Step(pre, es[k]);
    RunFrame(Step(pre, es[k]), es[k + 1..], c);
    StepWrites(pre, t, es[k], c);
  }

  /** The photo is never cleared: once a file is chosen, a photo is present
      after any further events, re-spins and reveals included. */
  lemma {:induction false} PhotoPersists(s: Snapshot, es: seq<Event>)
    requires s.taskPhoto.Some?
    ensures Run(s, es).taskPhoto.Some?
    decreases |es|
  {
    if es != [] {
      PhotoPersists(Step(s, es[0]), es[1..]);
    }
  }

  // ---------------------------------------------------------------------
  // Single-event facts

  /** A spin followed by its reveal leaves the chosen photo in place. */
  lemma RespinKeepsPhoto(s: Snapshot, p: TaskPayload)
    ensures Step(Step(s, SpinRequested), TimerFired(p)).taskPhoto == s.taskPhoto
  {
  }

  /** From a state with no spin in progress, a failed spin puts back every
      cell a spin can change: the previous task, if any, is shown again. */
  lemma SpinErrorRestores(s: Snapshot)
    requires !s.isSpinning
    ensures Step(Step(s, SpinRequested), SpinError) == s
  {
  }

  /** Right after a reveal, the verdict is hidden and the submit button is
      disabled (the proof text is empty); the panels show exactly when the
      payload's impact text is a non-empty string. */
  lemma AfterReveal(s: Snapshot, p: TaskPayload)
    ensures !VerdictVisible(Step(s, TimerFired(p)))
    ensures !CanSubmit(Step(s, TimerFired(p)))
    ensures TaskPanelsVisible(Step(s, TimerFired(p))) <==> Truthy(p.task)
    ensures ValueVisible(Step(s, TimerFired(p))) <==> Truthy(p.task) && Truthy(p.value)
  {
  }

  /** While a spin is in progress none of the task panels is shown. */
  lemma SpinningHidesPanels(s: Snapshot)
    ensures !TaskPanelsVisible(Step(s, SpinRequested))
    ensures !VerdictVisible(Step(s, SpinRequested)) && !PointsVisible(Step(s, SpinRequested))
    ensures !ValueVisible(Step(s, SpinRequested))
  {
  }

  /** A reveal from an earlier spin ends a later, still pending spin: after
      two spins and one reveal, the first payload is on screen and the
      spinner is gone. */
  lemma StaleRevealApplies(s: Snapshot, p: TaskPayload)
    ensures Step(Step(Step(s, SpinRequested), SpinRequested), TimerFired(p))
            == Step(s, TimerFired(p))
  {
  }

  /** The verdict of a submission made before a re-spin is shown under the
      task that replaced it, if its reply arrives after the reveal. */
  lemma StaleVerdictShown(s: Snapshot, p: TaskPayload, r: string)
    requires Truthy(p.task) && r != ""
    ensures VerdictVisible(Step(Step(Step(s, SpinRequested), TimerFired(p)), VerdictReceived(Val(r))))
  {
  }

  /** A reply whose body lacks the `points` key still shows the points line
      (with nothing in it) when the task is shown, since the check is
      `!== null` and the missing key reads as `undefined`. */
  lemma MissingPointsShown(s: Snapshot, p: TaskPayload)
    requires Truthy(p.task) && p.points.Undefined?
    ensures PointsVisible(Step(s, TimerFired(p)))
  {
  }

  /** An error reply that is still JSON (the status is never checked) is
      revealed like a task: its missing keys clear the task, the panels
      disappear and the spinner stops. */
  lemma KeylessReplyHidesPanels(s: Snapshot)
    ensures var t := Step(s, TimerFired(TaskPayload(Undefined, Undefined, Undefined, Undefined)));
            !t.isSpinning && !TaskPanelsVisible(t) && t.desc.Undefined?
  {
  }
}
