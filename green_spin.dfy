/**
  The `GreenSpin` component's state as an object: one field per state
  cell, one method per event that calls the cells' setters. Every method
  states the whole new state, both field by field and as the `Step` of
  its event, so the facts proved about `Step` and `Run` hold of it.
 */
module GreenSpin {
  import opened JsValues
  import opened SessionState

  class Session {
    var desc: JsNullable<string>
    var task: JsNullable<string>
    var taskPoints: JsNullable<int>
    var taskValue: JsNullable<string>
    var taskProof: string
    var validationResult: JsNullable<string>
    var isSpinning: bool
    var taskPhoto: Option<Photo>

    /** The cells as one value. */
    function View(): Snapshot
      reads this
    {
      Snapshot(desc, task, taskPoints, taskValue, taskProof, validationResult, isSpinning, taskPhoto)
    }

    /** Mounting the component: every nullable cell `null`, no proof text,
        no photo, not spinning. */
    constructor ()
      ensures View() == Initial
    {
      desc, task, taskPoints, taskValue := Null, Null, Null, Null;
      taskProof := "";
      validationResult := Null;
      isSpinning := false;
      taskPhoto := None;
    }

    /** The spin button: raises the busy flag and touches nothing else. */
    method StartSpin()
      modifies this
      ensures isSpinning
      ensures View() == old(View()).(isSpinning := true)
      ensures View() == Step(old(View()), SpinRequested)
    {
      isSpinning := true;
    }

    /** The timer callback of a spin whose reply was `p`. It has no
        precondition: it fires whatever the current state, including after
        a later spin has started. It copies the four task keys verbatim,
        clears the verdict and the proof text, and keeps the photo. */
    method Reveal(p: TaskPayload)
      modifies this
      ensures !isSpinning && validationResult == Null && taskProof == ""
      ensures desc == p.desc && task == p.task && taskPoints == p.points && taskValue == p.value
      ensures taskPhoto == old(taskPhoto)
      ensures View() == Step(old(View()), TimerFired(p))
    {
      isSpinning := false;
      desc := p.desc;
      task := p.task;
      taskPoints := p.points;
      taskValue := p.value;
      validationResult := Null;
      taskProof := "";
    }

    /** The new-task request threw (network error or a body that is not
        JSON): the busy flag drops and the previous task, proof and verdict
        stay as they were. A body that is JSON `null` ends the same way: its
        timer callback clears the busy flag and then throws on `data.desc`,
        outside the `try`, before any other setter runs. */
    method SpinFailed()
      modifies this
      ensures View() == old(View()).(isSpinning := false)
      ensures View() == Step(old(View()), SpinError)
    {
      isSpinning := false;
    }

    /** Typing in the proof text area: the text replaces the proof. */
    method EditProof(text: string)
      modifies this
      ensures View() == old(View()).(taskProof := text)
      ensures View() == Step(old(View()), ProofEdited(text))
    {
      taskProof := text;
    }

    /** The file input's change handler: the first selected file becomes the
        photo; an empty selection keeps the photo there was. */
    method PickFile(files: seq<Photo>)
      modifies this
      ensures files != [] ==> View() == old(View()).(taskPhoto := Some(files[0]))
      ensures files == [] ==> View() == old(View())
      ensures View() == Step(old(View()), FileChosen(files))
    {
      if files != [] {
        taskPhoto := Some(files[0]);
      }
    }

    /** The multipart body of a validation request, appended part by part:
        the task description (or "" when there is none), the proof text, and
        the photo last, only when there is one. It requires nothing: the
        enabled state of the button is not checked here. */
    method BuildValidationForm() returns (parts: seq<FormPart>)
      ensures |parts| == if taskPhoto.Some? then 3 else 2
      ensures parts[0] == Part("task", Text(OrEmpty(desc)))
      ensures parts[1] == Part("proof", Text(taskProof))
      ensures taskPhoto.Some? ==> parts[2] == Part("photo", Blob(taskPhoto.value))
      ensures FormGet(parts, "task") == Some(Text(OrEmpty(desc)))
      ensures FormGet(parts, "proof") == Some(Text(taskProof))
      ensures FormGet(parts, "photo") == if taskPhoto.Some? then Some(Blob(taskPhoto.value)) else None
    {
      parts := [];
      parts := parts + [Part("task", Text(OrEmpty(desc)))];
      parts := parts + [Part("proof", Text(taskProof))];
      if taskPhoto.Some? {
        parts := parts + [Part("photo", Blob(taskPhoto.value))];
      }
      assert parts[1..][1..] == parts[2..];
      if taskPhoto.Some? {
        assert parts[2..][1..] == [];
        assert FormGet(parts[2..], "photo") == Some(Blob(taskPhoto.value));
      } else {
        assert parts[2..] == [];
      }
      assert FormGet(parts, "photo") == FormGet(parts[1..], "photo");
      assert FormGet(parts[1..], "photo") == FormGet(parts[2..], "photo");
    }

    /** A validation reply arrived: its `result` key becomes the verdict and
        nothing else changes, the busy flag included. */
    method ApplyVerdict(result: JsNullable<string>)
      modifies this
      ensures View() == old(View()).(validationResult := result)
      ensures View() == Step(old(View()), VerdictReceived(result))
    {
      validationResult := result;
    }

    /** The validation request threw: the error is only logged, so no cell
        changes. */
    method ValidationFailed()
      ensures unchanged(this)
      ensures View() == Step(View(), ValidationError)
    {
    }

    /** One submission, with its reply taken as arriving before any other
        event: the form is built from the current cells, whatever they hold,
        and then the reply's `result` (or nothing, on a thrown error) is
        applied. */
    method ValidateTask(reply: Option<JsNullable<string>>) returns (parts: seq<FormPart>)
      modifies this
      ensures |parts| == if old(taskPhoto).Some? then 3 else 2
      ensures parts[0] == Part("task", Text(OrEmpty(old(desc))))
      ensures parts[1] == Part("proof", Text(old(taskProof)))
      ensures old(taskPhoto).Some? ==> parts[2] == Part("photo", Blob(old(taskPhoto).value))
      ensures FormGet(parts, "task") == Some(Text(OrEmpty(old(desc))))
      ensures FormGet(parts, "proof") == Some(Text(old(taskProof)))
      ensures FormGet(parts, "photo") == if old(taskPhoto).Some? then Some(Blob(old(taskPhoto).value)) else None
      ensures reply.Some? ==> View() == Step(old(View()), VerdictReceived(reply.value))
      ensures reply.None? ==> View() == old(View())
    {
      parts := BuildValidationForm();
      if reply.Some? {
        ApplyVerdict(reply.value);
      } else {
        ValidationFailed();
      }
    }
  }
}
