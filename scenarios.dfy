/**
 End-to-end walk-throughs of the three components, with the store's replies
 given as inputs, in the order the application performs them.
 */
module Scenarios {
  import opened Tasks
  import opened TaskList
  import opened TaskCard
  import opened EditTaskDialog

  /**
   A viewer who is not an admin sees the list [a, b] and owns only `a`:
   of the two cards the grid shows, only `a`'s offers delete; confirming it
   sends a delete for `a`'s id, success notifies the list, and the re-read
   (which the store answers with [b]) leaves only `b` on screen.
   */
  method DeleteOwnTaskThenRefresh(a: Task, b: Task, viewer: Id)
    returns (aControls: bool, bControls: bool, req: DeleteRequest, screen: Screen)
    requires a.ownerId == viewer && b.ownerId != viewer
    ensures aControls && !bControls
    ensures req == DeleteRequest(a.id)
    ensures screen == Tabs(CountsOf([b]), All, Grid([b]))
  {
    var list := new TaskListState(viewer, false);
    list.FetchTasks(Fetched(Some([a, b])));
    FilterAllIsIdentity([a, b]);
    var grid := FilteredTasks(list.tasks, list.filter);
    aControls := Render(grid[0], viewer, false).controls;
    bControls := Render(grid[1], viewer, false).controls;

    var card := new TaskCardState(grid[0], viewer, false);
    card.OpenDeleteDialog();
    req := card.BeginDelete();
    card.FinishDelete(Ok);
    if card.updateCalls > 0 {
      // onUpdate is the list's refresh
      list.FetchTasks(Fetched(Some([b])));
    }
    FilterAllIsIdentity([b]);
    screen := list.CurrentScreen();
  }

  /**
   A rejected update: the dialog stays open with the values the user
   entered, no refresh is requested, and the submit button is enabled again.
   */
  method FailedUpdateKeepsEdits(t: Task, viewer: Id, isAdmin: bool, edited: FormFields)
    returns (req: UpdateRequest, open: bool, shown: FormFields, refreshes: nat, disabled: bool)
    requires CanEdit(t, viewer, isAdmin) && edited.title != ""
    ensures req == UpdateRequest(t.id, PayloadOf(edited))
    ensures open && shown == edited && refreshes == 0 && !disabled
  {
    var card := new TaskCardState(t, viewer, isAdmin);
    card.OpenEditDialog();
    var form := card.editor;
    form.EditTitle(edited.title);
    form.EditDescription(edited.description);
    form.EditStatus(edited.status);
    req := form.BeginSubmit();
    form.FinishSubmit(Err);
    open, shown, refreshes, disabled := form.open, form.Fields(), form.updateCalls, form.SubmitDisabled();
  }

  /**
   An accepted update: the dialog closes, the list is notified once, and
   after the re-read (which the store answers with the updated row) both
   the list and a reopened form show exactly what was submitted.
   */
  method UpdateThenRefresh(t: Task, viewer: Id, isAdmin: bool, edited: FormFields)
    returns (open: bool, refreshes: nat, listed: seq<Task>, shown: FormFields)
    requires CanEdit(t, viewer, isAdmin) && edited.title != ""
    ensures !open && refreshes == 1
    ensures listed == [ApplyUpdate(t, PayloadOf(edited))]
    ensures listed[0].id == t.id && listed[0].ownerId == t.ownerId
    ensures shown == edited
  {
    var list := new TaskListState(viewer, isAdmin);
    list.FetchTasks(Fetched(Some([t])));
    var card := new TaskCardState(t, viewer, isAdmin);
    card.OpenEditDialog();
    var form := card.editor;
    form.EditTitle(edited.title);
    form.EditDescription(edited.description);
    form.EditStatus(edited.status);
    var req := form.BeginSubmit();
    form.FinishSubmit(Ok);
    open, refreshes := form.open, form.updateCalls;

    // the store applies the request to the row with the request's id
    var updated := ApplyUpdate(t, req.payload);
    list.FetchTasks(Fetched(Some([updated])));
    listed := list.tasks;
    card.ReceiveTask(updated);
    EditRoundTrip(t, edited);
    shown := form.Fields();
  }

  /**
   Switching from "all" to "done" and back is local: the list and the
   counts never change, the "done" tab shows the done tasks in order, and
   the view returns to what it was.
   */
  method SwitchFilterAndBack(data: seq<Task>)
    returns (before: Screen, during: Screen, after: Screen)
    ensures before == after
    ensures before.Tabs? && during.Tabs? && during.counts == before.counts == CountsOf(data)
    ensures during.content == NoTasksFound <==> forall i :: 0 <= i < |data| ==> data[i].status != Done
    ensures during.content.Grid? ==> during.content.cards == FilteredTasks(data, Only(Done))
  {
    var list := new TaskListState("viewer", false);
    list.FetchTasks(Fetched(Some(data)));
    before := list.CurrentScreen();
    list.SetFilter(Only(Done));
    during := list.CurrentScreen();
    ViewContent(data, Only(Done));
    list.SetFilter(All);
    after := list.CurrentScreen();
  }
}
