/**
 The card of one task: who may edit it, its status badge, whether its
 description is shown, and the delete state machine.
 */
module TaskCard {
  import opened Tasks
  import EditTaskDialog

  /**
   The client-side edit permission: the viewer owns the task or is an
   admin. An admin may edit every task; anyone else exactly the tasks they own.
   */
  function CanEdit(t: Task, userId: Id, isAdmin: bool): (r: bool)
    ensures isAdmin ==> r
    ensures !isAdmin ==> (r <==> t.ownerId == userId)
  {
    t.ownerId == userId || isAdmin
  }

  const StatusLabels: map<Status, string> :=
    map[Todo := "To Do", InProgress := "In Progress", Done := "Done"]

  const StatusColors: map<Status, string> :=
    map[Todo := "bg-muted text-muted-foreground",
        InProgress := "bg-yellow-500/10 text-yellow-700 dark:text-yellow-500",
        Done := "bg-green-500/10 text-green-700 dark:text-green-500"]

  /** Both badge maps have an entry for every status, so a badge lookup never misses. */
  lemma BadgeMapsTotal(s: Status)
    ensures s in StatusLabels && s in StatusColors
  {
  }

  /** What a card renders, apart from layout. */
  datatype CardView = CardView(
    title: string,
    badgeLabel: string,
    badgeColor: string,
    controls: bool,                // the edit and delete buttons
    description: Option<string>)  // the description block and its text, if rendered

  function Render(t: Task, userId: Id, isAdmin: bool): (v: CardView)
    ensures v.title == t.title
    ensures v.controls <==> t.ownerId == userId || isAdmin
    ensures v.description != None <==> t.description != None && t.description.value != ""
    ensures v.description != None ==> v.description == t.description
  {
    BadgeMapsTotal(t.status);
    CardView(
      t.title,
      StatusLabels[t.status],
      StatusColors[t.status],
      CanEdit(t, userId, isAdmin),
      if IsTruthy(t.description) then t.description else None)
  }

  /**
   The state of one card: its task, the viewer, the delete prompt's open
   flag, the in-flight flag, the number of `onUpdate` calls made by the
   delete flow, and the embedded edit dialog (whose `open` field is the
   card's edit-dialog flag).
   */
  class TaskCardState {
    var task: Task
    const userId: Id
    const isAdmin: bool
    const editor: EditTaskDialog.EditTaskDialogState
    var deleteDialogOpen: bool
    var deleting: bool
    var updateCalls: nat

    /** The embedded dialog is bound to the card's task. */
    ghost predicate Valid()
      reads this, editor
    {
      editor.task == task
    }

    /** The confirm button of the delete prompt is disabled while a delete is in flight. */
    predicate ConfirmDisabled()
      reads this
    {
      deleting
    }

    constructor (task: Task, userId: Id, isAdmin: bool)
      ensures Valid() && fresh(editor)
      ensures this.task == task && this.userId == userId && this.isAdmin == isAdmin
      ensures !deleteDialogOpen && !deleting && updateCalls == 0
      ensures !editor.open && !editor.updating && editor.updateCalls == 0
      ensures editor.Fields() == EditTaskDialog.InitialFields(task)
    {
      this.task := task;
      this.userId := userId;
      this.isAdmin := isAdmin;
      editor := new EditTaskDialog.EditTaskDialogState(task, false);
      deleteDialogOpen := false;
      deleting := false;
      updateCalls := 0;
    }

    /** A new task object from the parent's refresh: the dialog re-initialises its fields from it. */
    method ReceiveTask(newTask: Task)
      requires Valid()
      modifies this, editor
      ensures Valid() && task == newTask
      ensures editor.Fields() == EditTaskDialog.InitialFields(newTask)
      ensures editor.open == old(editor.open) && editor.updating == old(editor.updating)
      ensures editor.updateCalls == old(editor.updateCalls)
      ensures deleteDialogOpen == old(deleteDialogOpen) && deleting == old(deleting)
      ensures updateCalls == old(updateCalls)
    {
      task := newTask;
      editor.ResetFromTask(newTask);
    }

    /** The edit button: it exists only when the viewer may edit. */
    method OpenEditDialog()
      requires Valid() && CanEdit(task, userId, isAdmin)
      modifies editor`open
      ensures Valid() && editor.open
    {
      editor.Open();
    }

    /** The delete button: it exists only when the viewer may edit. */
    method OpenDeleteDialog()
      requires CanEdit(task, userId, isAdmin)
      modifies this`deleteDialogOpen
      ensures deleteDialogOpen
    {
      deleteDialogOpen := true;
    }

    /** The prompt's cancel button, which stays enabled during a delete. */
    method CancelDelete()
      modifies this`deleteDialogOpen
      ensures !deleteDialogOpen
    {
      deleteDialogOpen := false;
    }

    /**
     Confirming the delete, up to the store's reply: possible only from the
     open prompt with the confirm button enabled. `deleting` is set and the
     request names the task's id.
     */
    method BeginDelete() returns (req: DeleteRequest)
      requires deleteDialogOpen && !ConfirmDisabled()
      modifies this`deleting
      ensures deleting && ConfirmDisabled()
      ensures req == DeleteRequest(task.id)
    {
      deleting := true;
      req := DeleteRequest(task.id);
    }

    /**
     The store's reply to the pending delete: success calls `onUpdate`
     exactly once, failure never; on either outcome the prompt closes and
     `deleting` ends false.
     */
    method FinishDelete(outcome: Outcome)
      requires deleting
      modifies this`deleting, this`deleteDialogOpen, this`updateCalls
      ensures !deleting && !ConfirmDisabled() && !deleteDialogOpen
      ensures updateCalls == old(updateCalls) + (if outcome == Ok then 1 else 0)
    {
      if outcome == Ok {
        updateCalls := updateCalls + 1;
      }
      deleting := false;
      deleteDialogOpen := false;
    }
  }
}
