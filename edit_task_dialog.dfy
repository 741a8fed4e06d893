/**
 The edit form of one task: how its fields are filled from the task, how
 the submitted description is normalised, and the submit state machine.
 */
module EditTaskDialog {
  import opened Tasks

  /** The three editable fields; the description box holds a string, never null. */
  datatype FormFields = FormFields(title: string, description: string, status: Status)

  /** `d || ""`: the text a description box shows for a stored description; only null becomes "". */
  function OrEmpty(d: Option<string>): (s: string)
    ensures s == match d case None => "" case Some(v) => v
  {
    if IsTruthy(d) then d.value else ""
  }

  /**
   The fields as filled from a task, on first render and whenever the task
   changes. The `||` fallback behaves as `??` would: only null becomes "".
   */
  function InitialFields(t: Task): (f: FormFields)
    ensures f.title == t.title && f.status == t.status
    ensures f.description == match t.description case None => "" case Some(d) => d
  {
    FormFields(t.title, OrEmpty(t.description), t.status)
  }

  /** `description || null`: the description written to the store for a box's text. */
  function NullIfEmpty(s: string): (d: Option<string>)
    ensures d == None <==> s == ""
    ensures d != None ==> d.value == s
  {
    var box := Some(s);
    if IsTruthy(box) then box else None
  }

  /** The update a submission sends: exactly title, description and status. */
  function PayloadOf(f: FormFields): (p: UpdatePayload)
    ensures p.title == f.title && p.status == f.status
    ensures p.description == None <==> f.description == ""
    ensures p.description != None ==> p.description.value == f.description
  {
    UpdatePayload(f.title, NullIfEmpty(f.description), f.status)
  }

  /** Showing a submitted description in the box again gives back the box's text. */
  lemma {:induction false} BoxRoundTrip(s: string)
    ensures OrEmpty(NullIfEmpty(s)) == s
  {
    if s != "" {
      assert IsTruthy(Some(s));
    }
  }

  /** Normalising the shown text of a stored description gives it back, except "" which becomes null. */
  lemma StoredRoundTrip(d: Option<string>)
    ensures NullIfEmpty(OrEmpty(d)) == if d == Some("") then None else d
  {
  }

  /** The store never receives "" as a description from this form. */
  lemma PayloadNeverEmptyDescription(f: FormFields)
    ensures PayloadOf(f).description != Some("")
  {
  }

  /**
   Submitting the form untouched writes back the task as it was: title,
   status and a non-empty description unchanged, a null description null
   again; only a stored "" turns into null.
   */
  lemma UneditedSubmitPreservesTask(t: Task)
    ensures ApplyUpdate(t, PayloadOf(InitialFields(t))) ==
            if t.description == Some("") then t.(description := None) else t
  {
    StoredRoundTrip(t.description);
  }

  /**
   A submitted edit round-trips: once the store applies it, the form filled
   from the updated task shows exactly the submitted fields, and the task
   keeps its identifier, owner and creation time.
   */
  lemma EditRoundTrip(t: Task, f: FormFields)
    ensures InitialFields(ApplyUpdate(t, PayloadOf(f))) == f
    ensures ApplyUpdate(t, PayloadOf(f)).id == t.id
    ensures ApplyUpdate(t, PayloadOf(f)).ownerId == t.ownerId
  {
    BoxRoundTrip(f.description);
  }

  /**
   The state of one edit dialog: the task it is bound to, the three field
   values, the in-flight flag, the open flag (owned by the enclosing card,
   written through `onOpenChange`) and the number of `onUpdate` calls made.
   */
  class EditTaskDialogState {
    var task: Task
    var title: string
    var description: string
    var status: Status
    var updating: bool
    var open: bool
    var updateCalls: nat

    function Fields(): FormFields
      reads this
    {
      FormFields(title, description, status)
    }

    /** The submit button is disabled while an update is in flight. */
    predicate SubmitDisabled()
      reads this
    {
      updating
    }

    constructor (task: Task, open: bool)
      ensures this.task == task && Fields() == InitialFields(task)
      ensures !updating && this.open == open && updateCalls == 0
    {
      this.task := task;
      title := task.title;
      description := OrEmpty(task.description);
      status := task.status;
      updating := false;
      this.open := open;
      updateCalls := 0;
    }

    /** The reset run when the bound task changes: unsaved edits in all three fields are overwritten. */
    method ResetFromTask(newTask: Task)
      modifies this
      ensures task == newTask && Fields() == InitialFields(newTask)
      ensures updating == old(updating) && open == old(open) && updateCalls == old(updateCalls)
    {
      task := newTask;
      title := newTask.title;
      description := OrEmpty(newTask.description);
      status := newTask.status;
    }

    method EditTitle(s: string)
      modifies this`title
      ensures title == s
    {
      title := s;
    }

    method EditDescription(s: string)
      modifies this`description
      ensures description == s
    {
      description := s;
    }

    method EditStatus(s: Status)
      modifies this`status
      ensures status == s
    {
      status := s;
    }

    /** The cancel button and the dialog's own dismissal: the form keeps what was typed. */
    method Close()
      modifies this`open
      ensures !open
    {
      open := false;
    }

    /** The parent opening the dialog again: nothing is reset unless the task changed. */
    method Open()
      modifies this`open
      ensures open
    {
      open := true;
    }

    /**
     Submitting the form, up to the store's reply: the form can only be
     submitted while the button is enabled and the required title is
     filled. The request carries the current fields, keyed by the task's id.
     */
    method BeginSubmit() returns (req: UpdateRequest)
      requires !updating && title != ""
      modifies this`updating
      ensures updating && SubmitDisabled()
      ensures req == UpdateRequest(task.id, PayloadOf(Fields()))
    {
      updating := true;
      req := UpdateRequest(task.id, UpdatePayload(title, NullIfEmpty(description), status));
    }

    /**
     The store's reply to the pending update. Success calls `onUpdate` once
     and closes the dialog; failure leaves the open flag alone. Either way
     the fields keep the attempted values and `updating` ends false.
     */
    method FinishSubmit(outcome: Outcome)
      requires updating
      modifies this`updating, this`open, this`updateCalls
      ensures !updating && !SubmitDisabled()
      ensures outcome == Ok ==> updateCalls == old(updateCalls) + 1 && !open
      ensures outcome == Err ==> updateCalls == old(updateCalls) && open == old(open)
    {
      if outcome == Ok {
        updateCalls := updateCalls + 1;
        open := false;
      }
      updating := false;
    }
  }
}
