/** The page's single state cell (the `useState` slot of the dashboard) and the
    intents that replace its value. */
module Store {
  import opened Domain
  import Transitions
  import Projections
  import Persistence
  import Text

  class Dashboard {
    var state: AgentState

    /** The page mounts with the stored state if it is usable, the seed otherwise. */
    constructor (windowPresent: bool, read: Persistence.StorageRead,
                 parse: string -> Persistence.ParseOutcome, loadTime: int)
      ensures state == Persistence.LoadState(windowPresent, read, parse, loadTime)
    {
      state := Persistence.LoadState(windowPresent, read, parse, loadTime);
    }

    /** handleToggleTask */
    method ToggleTask(id: string)
      modifies this
      ensures state == Transitions.ToggleTask(old(state), id)
      ensures |state.tasks| == |old(state).tasks|
      ensures forall i :: 0 <= i < |state.tasks| ==>
        (state.tasks[i].completed != old(state).tasks[i].completed <==> old(state).tasks[i].id == id)
    {
      state := Transitions.ToggleTask(state, id);
    }

    /** handleAddTask, with the id safeId() would generate passed in. */
    method AddTask(draft: Transitions.TaskDraft, freshId: string)
      modifies this
      ensures state == Transitions.AddTask(old(state), draft, freshId)
      ensures |state.tasks| == if Text.AllSpace(draft.title) then |old(state).tasks| else |old(state).tasks| + 1
    {
      Text.TrimEmptyIffAllSpace(draft.title);
      state := Transitions.AddTask(state, draft, freshId);
    }

    /** handleNoteCapture, with the id and Date.now() passed in. */
    method CaptureNote(text: string, freshId: string, now: int)
      modifies this
      ensures state == Transitions.CaptureNote(old(state), text, freshId, now)
      ensures !Text.AllSpace(text) ==> state.notes[0].createdAt == now && state.notes[1..] == old(state).notes
    {
      state := Transitions.CaptureNote(state, text, freshId, now);
    }

    /** A quick-action button, with the id and Date.now() passed in. */
    method RunQuickAction(action: Transitions.QuickAction, freshId: string, now: int)
      modifies this
      ensures state == Transitions.RunQuickAction(old(state), action, freshId, now)
      ensures state.notes[0].content == Transitions.Template(action) && state.notes[1..] == old(state).notes
    {
      state := Transitions.RunQuickAction(state, action, freshId, now);
    }

    /** updateHabit */
    method UpdateHabit(id: string, delta: int)
      modifies this
      ensures state == Transitions.UpdateHabit(old(state), id, delta)
      ensures Transitions.NonNegativeStreaks(old(state).habits) ==> Transitions.NonNegativeStreaks(state.habits)
    {
      Transitions.UpdateHabitNeverNegative(state, id, delta);
      state := Transitions.UpdateHabit(state, id, delta);
    }

    /** The momentum score shown on the page. */
    function Progress(): (p: int)
      reads this
      ensures 0 <= p <= 100
    {
      Projections.Progress(state.tasks)
    }

    /** The focus tags shown on the page. */
    function Focus(): (r: seq<Task>)
      reads this
      ensures |r| <= 3
      ensures forall k :: 0 <= k < |r| ==> r[k] in state.tasks && !r[k].completed
    {
      Projections.FocusSortedAndIncomplete(state.tasks);
      Projections.FocusTasks(state.tasks)
    }
  }
}
