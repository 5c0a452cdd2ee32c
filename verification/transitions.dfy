/** The state transitions of the dashboard. Each takes the previous state and
    returns the next one; none changes anything in place. Fresh ids and the
    current time are supplied by the caller. */
module Transitions {
  import opened Domain
  import opened Text

  /* ---------------- Toggling a task ---------------- */

  /** The task list after flipping `completed` on every task whose id is `id`. */
  function ToggleTasks(ts: seq<Task>, id: string): (r: seq<Task>)
    ensures |r| == |ts|
    // only the completed flag can change ...
    ensures forall i :: 0 <= i < |ts| ==> r[i].(completed := ts[i].completed) == ts[i]
    // ... and it changes exactly on the tasks with the given id
    ensures forall i :: 0 <= i < |ts| ==> (r[i].completed != ts[i].completed <==> ts[i].id == id)
  {
    if ts == [] then []
    else
      var t := ts[0];
      [if t.id == id then t.(completed := !t.completed) else t] + ToggleTasks(ts[1..], id)
  }

  function ToggleTask(s: AgentState, id: string): (r: AgentState)
    ensures r.habits == s.habits && r.notes == s.notes
  {
    s.(tasks := ToggleTasks(s.tasks, id))
  }

  /** Toggling an id that no task carries leaves the state as it was. */
  lemma ToggleUnknownId(s: AgentState, id: string)
    requires id !in Ids(s.tasks, TaskId)
    ensures ToggleTask(s, id) == s
  {
    var r := ToggleTasks(s.tasks, id);
    forall i | 0 <= i < |s.tasks| ensures r[i] == s.tasks[i] {
      assert TaskId(s.tasks[i]) in Ids(s.tasks, TaskId);
    }
  }

  /** Toggling the same id twice restores the original state. */
  lemma ToggleTwice(s: AgentState, id: string)
    ensures ToggleTask(ToggleTask(s, id), id) == s
  {
    var once := ToggleTasks(s.tasks, id);
    var twice := ToggleTasks(once, id);
    forall i | 0 <= i < |s.tasks| ensures twice[i] == s.tasks[i] {
      assert once[i].id == s.tasks[i].id by {
        assert once[i].(completed := s.tasks[i].completed) == s.tasks[i];
      }
    }
  }

  /** Toggling keeps every id, so ids stay unique. */
  lemma ToggleKeepsIds(s: AgentState, id: string)
    ensures Ids(ToggleTask(s, id).tasks, TaskId) == Ids(s.tasks, TaskId)
    ensures UniqueIds(s) ==> UniqueIds(ToggleTask(s, id))
  {
    var r := ToggleTasks(s.tasks, id);
    forall i | 0 <= i < |s.tasks| ensures r[i].id == s.tasks[i].id {
      assert r[i].(completed := s.tasks[i].completed) == s.tasks[i];
    }
  }

  /* ---------------- Adding a task ---------------- */

  /** The contents of the task form. */
  datatype TaskDraft = TaskDraft(title: string, category: string, due: string, priority: Priority)

  /** The category of a task whose drafted category is blank. */
  const DefaultCategory: string := "General"

  lemma DefaultCategoryTrimmed()
    ensures DefaultCategory != [] && Trim(DefaultCategory) == DefaultCategory
  {
    TrimUnchanged(DefaultCategory);
  }

  /** The category of a new task: the trimmed drafted category, or the
      default when that is blank. Never blank, never padded. */
  function CategoryOf(drafted: string): (c: string)
    ensures c != [] && Trim(c) == c
    ensures AllSpace(drafted) ==> c == DefaultCategory
    ensures !AllSpace(drafted) ==> c == Trim(drafted)
  {
    TrimEmptyIffAllSpace(drafted);
    if Trim(drafted) == [] then
      DefaultCategoryTrimmed();
      DefaultCategory
    else
      TrimIdempotent(drafted);
      Trim(drafted)
  }

  /** The due label of a new task: absent when the drafted one is blank,
      otherwise the trimmed label. */
  function DueOf(drafted: string): (due: Option<string>)
    ensures due.None? <==> AllSpace(drafted)
    ensures due.Some? ==> due.value == Trim(drafted)
    ensures due.Some? ==> due.value != [] && Trim(due.value) == due.value
  {
    TrimEmptyIffAllSpace(drafted);
    if Trim(drafted) == [] then None
    else
      TrimIdempotent(drafted);
      Some(Trim(drafted))
  }

  /** The task built from a draft whose title is not blank: it carries the
      fresh id and the draft's priority and starts open; its title and
      category have no surrounding whitespace, the category is never blank,
      and a due label is present only when non-blank, and then trimmed. */
  function NewTask(d: TaskDraft, id: string): (t: Task)
    ensures t.id == id && t.priority == d.priority && !t.completed
    ensures t.title == Trim(d.title) && Trim(t.title) == t.title
    ensures t.category == CategoryOf(d.category) && t.due == DueOf(d.due)
    ensures t.category != [] && Trim(t.category) == t.category
    ensures t.due.Some? ==> t.due.value != [] && Trim(t.due.value) == t.due.value
  {
    TrimIdempotent(d.title);
    Task(id, Trim(d.title), CategoryOf(d.category), DueOf(d.due), d.priority, false)
  }

  /** Adds the drafted task at the front of the list, or does nothing when the
      title is blank. */
  function AddTask(s: AgentState, d: TaskDraft, id: string): (r: AgentState)
    ensures Trim(d.title) == [] ==> r == s
    ensures Trim(d.title) != [] ==>
      && |r.tasks| == |s.tasks| + 1
      && r.tasks[1..] == s.tasks
      && r.tasks[0].id == id
      && r.tasks[0].title == Trim(d.title)
      && r.tasks[0].category == (if Trim(d.category) == [] then DefaultCategory else Trim(d.category))
      && r.tasks[0].due == (if Trim(d.due) == [] then None else Some(Trim(d.due)))
      && r.tasks[0].priority == d.priority
      && !r.tasks[0].completed
    ensures r.habits == s.habits && r.notes == s.notes
  {
    if Trim(d.title) == [] then s
    else s.(tasks := [NewTask(d, id)] + s.tasks)
  }

  /** Adding a task is a no-op exactly when the drafted title is whitespace only. */
  lemma AddTaskNoOpIffBlank(s: AgentState, d: TaskDraft, id: string)
    ensures AddTask(s, d, id) == s <==> AllSpace(d.title)
  {
    TrimEmptyIffAllSpace(d.title);
    if Trim(d.title) != [] {
      assert |AddTask(s, d, id).tasks| != |s.tasks|;
    }
  }

  /** A task added through the form has a non-blank title and category with
      no surrounding whitespace, and a due label that, when present, is
      non-blank and trimmed too. */
  lemma AddTaskFieldsTrimmed(s: AgentState, d: TaskDraft, id: string)
    requires Trim(d.title) != []
    ensures var t := AddTask(s, d, id).tasks[0];
      && t.title != [] && Trim(t.title) == t.title
      && t.category != [] && Trim(t.category) == t.category
      && (t.due.Some? ==> t.due.value != [] && Trim(t.due.value) == t.due.value)
  {
    assert AddTask(s, d, id).tasks[0] == NewTask(d, id);
  }

  /** With a fresh id, adding a task keeps task ids unique. */
  lemma AddTaskKeepsIdsUnique(s: AgentState, d: TaskDraft, id: string)
    requires UniqueIds(s)
    requires id !in Ids(s.tasks, TaskId)
    ensures UniqueIds(AddTask(s, d, id))
  {
    if Trim(d.title) != [] {
      PrependKeepsUnique(NewTask(d, id), s.tasks, TaskId);
    }
  }

  /* ---------------- Notes ---------------- */

  /** Prepends a note with the given content and timestamp. */
  function AppendNote(s: AgentState, content: string, id: string, now: int): (r: AgentState)
    ensures |r.notes| == |s.notes| + 1
    ensures r.notes[0].id == id && r.notes[0].content == content && r.notes[0].createdAt == now
    ensures r.notes[1..] == s.notes
    ensures r.tasks == s.tasks && r.habits == s.habits
  {
    s.(notes := [Note(id, content, now)] + s.notes)
  }

  /** The note form: blank text is ignored, anything else is stored trimmed. */
  function CaptureNote(s: AgentState, text: string, id: string, now: int): (r: AgentState)
    ensures AllSpace(text) ==> r == s
    ensures !AllSpace(text) ==>
      && |r.notes| == |s.notes| + 1
      && r.notes[0] == Note(id, Trim(text), now)
      && r.notes[1..] == s.notes
      && r.tasks == s.tasks && r.habits == s.habits
  {
    TrimEmptyIffAllSpace(text);
    if Trim(text) == [] then s else AppendNote(s, Trim(text), id, now)
  }

  /** A captured note is never blank and carries no surrounding whitespace. */
  lemma CaptureNoteContentTrimmed(s: AgentState, text: string, id: string, now: int)
    requires !AllSpace(text)
    ensures var c := CaptureNote(s, text, id, now).notes[0].content;
      c != [] && !AllSpace(c) && Trim(c) == c
  {
    TrimEmptyIffAllSpace(text);
    TrimIdempotent(text);
    TrimEmptyIffAllSpace(Trim(text));
  }

  /** As long as the clock does not run backwards, prepending keeps the notes
      ordered most recent first. */
  lemma AppendNoteKeepsNewestFirst(s: AgentState, content: string, id: string, now: int)
    requires NewestFirst(s.notes)
    requires s.notes != [] ==> s.notes[0].createdAt <= now
    ensures NewestFirst(AppendNote(s, content, id, now).notes)
  {
    var ns := AppendNote(s, content, id, now).notes;
    forall i, j | 0 <= i < j < |ns| ensures ns[i].createdAt >= ns[j].createdAt {
      assert ns[j] == s.notes[j - 1];
      if i == 0 && j > 1 {
        assert s.notes[0].createdAt >= s.notes[j - 1].createdAt;
      }
    }
  }

  /** With a fresh id, prepending a note keeps note ids unique. */
  lemma AppendNoteKeepsIdsUnique(s: AgentState, content: string, id: string, now: int)
    requires UniqueIds(s)
    requires id !in Ids(s.notes, NoteId)
    ensures UniqueIds(AppendNote(s, content, id, now))
  {
    PrependKeepsUnique(Note(id, content, now), s.notes, NoteId);
  }

  /* ---------------- Quick actions ---------------- */

  /** The four quick-action buttons; each stores a fixed note template. */
  datatype QuickAction = BigThree | EnergyReset | Gratitude | DelegateSweep

  /** The note text of each quick action; every one starts with a visible
      character. */
  function Template(a: QuickAction): (r: string)
    ensures r != [] && !IsSpace(r[0])
  {
    match a
    case BigThree => "Tomorrow's Big Three:\n1. \n2. \n3. "
    case EnergyReset =>
      "Energy reset: " + "4-7-8 breathing (3 rounds), " + "refill water, 3 sunlight minutes."
    case Gratitude => "Grateful for:"
    case DelegateSweep => "Delegation candidates:\n- \n- \n- "
  }

  /** A quick action stores its template verbatim (it bypasses the blank
      check and the trimming of the note form), so it always adds a note. */
  function RunQuickAction(s: AgentState, a: QuickAction, id: string, now: int): (r: AgentState)
    ensures |r.notes| == |s.notes| + 1 && r.notes[1..] == s.notes
    ensures r.notes[0] == Note(id, Template(a), now)
    ensures !AllSpace(r.notes[0].content)
    ensures r.tasks == s.tasks && r.habits == s.habits
  {
    TemplateNotBlank(a);
    AppendNote(s, Template(a), id, now)
  }

  /** No template is blank by the note form's own test. */
  lemma TemplateNotBlank(a: QuickAction)
    ensures !AllSpace(Template(a)) && Trim(Template(a)) != []
  {
    TrimEmptyIffAllSpace(Template(a));
  }

  /** Templates that end in a blank list item are not what the note form would
      store for the same text: the form would trim the trailing space. */
  lemma BigThreeDiffersFromCapture(s: AgentState, id: string, now: int)
    ensures RunQuickAction(s, BigThree, id, now) != CaptureNote(s, Template(BigThree), id, now)
  {
    var t := Template(BigThree);
    assert !IsSpace(t[0]);
    assert IsSpace(t[|t| - 1]);
    TrimEmptyIffAllSpace(t);
    assert Trim(t) != t;
  }

  /* ---------------- Habit streaks ---------------- */

  /** Math.max on two integers. */
  function Max(a: int, b: int): (m: int)
    ensures m >= a && m >= b && (m == a || m == b)
  {
    if a >= b then a else b
  }

  /** The habit list after adding `delta` to the streak of every habit whose
      id is `id`, flooring the result at zero. */
  function UpdateStreaks(hs: seq<Habit>, id: string, delta: int): (r: seq<Habit>)
    ensures |r| == |hs|
    // only the streak can change ...
    ensures forall i :: 0 <= i < |hs| ==> r[i].(streak := hs[i].streak) == hs[i]
    // ... a matching habit gets max(0, streak + delta), the others keep theirs
    ensures forall i :: 0 <= i < |hs| ==>
      r[i].streak == if hs[i].id == id then Max(0, hs[i].streak + delta) else hs[i].streak
  {
    if hs == [] then []
    else
      var h := hs[0];
      [if h.id == id then h.(streak := Max(0, h.streak + delta)) else h]
        + UpdateStreaks(hs[1..], id, delta)
  }

  function UpdateHabit(s: AgentState, id: string, delta: int): (r: AgentState)
    ensures r.tasks == s.tasks && r.notes == s.notes
  {
    s.(habits := UpdateStreaks(s.habits, id, delta))
  }

  predicate NonNegativeStreaks(hs: seq<Habit>) {
    forall i :: 0 <= i < |hs| ==> hs[i].streak >= 0
  }

  /** An adjusted streak is never negative, and non-negative streaks stay so. */
  lemma UpdateHabitNeverNegative(s: AgentState, id: string, delta: int)
    ensures forall i :: 0 <= i < |s.habits| && s.habits[i].id == id ==>
      UpdateHabit(s, id, delta).habits[i].streak >= 0
    ensures NonNegativeStreaks(s.habits) ==> NonNegativeStreaks(UpdateHabit(s, id, delta).habits)
  {
  }

  /** At a streak of zero, decrementing leaves the streak at zero. */
  lemma DecrementAtZeroStays(s: AgentState, id: string, i: nat)
    requires i < |s.habits| && s.habits[i].id == id && s.habits[i].streak == 0
    ensures UpdateHabit(s, id, -1).habits[i] == s.habits[i]
  {
    var r := UpdateHabit(s, id, -1).habits;
    assert r[i].(streak := 0) == s.habits[i];
  }

  /** Adjusting an id that no habit carries leaves the state as it was. */
  lemma UpdateHabitUnknownId(s: AgentState, id: string, delta: int)
    requires id !in Ids(s.habits, HabitId)
    ensures UpdateHabit(s, id, delta) == s
  {
    var r := UpdateStreaks(s.habits, id, delta);
    forall i | 0 <= i < |s.habits| ensures r[i] == s.habits[i] {
      assert HabitId(s.habits[i]) in Ids(s.habits, HabitId);
      assert r[i].(streak := s.habits[i].streak) == s.habits[i];
    }
  }

  /** "+" then "-" on the same habit restores the state when streaks are
      non-negative ("-" then "+" does not, at a streak of zero). */
  lemma IncrementThenDecrement(s: AgentState, id: string)
    requires NonNegativeStreaks(s.habits)
    ensures UpdateHabit(UpdateHabit(s, id, 1), id, -1) == s
  {
    var once := UpdateStreaks(s.habits, id, 1);
    var twice := UpdateStreaks(once, id, -1);
    forall i | 0 <= i < |s.habits| ensures twice[i] == s.habits[i] {
      assert once[i].(streak := s.habits[i].streak) == s.habits[i];
      assert twice[i].(streak := once[i].streak) == once[i];
    }
  }

  /** Adjusting a streak keeps every id, so ids stay unique. */
  lemma UpdateHabitKeepsIds(s: AgentState, id: string, delta: int)
    ensures Ids(UpdateHabit(s, id, delta).habits, HabitId) == Ids(s.habits, HabitId)
    ensures UniqueIds(s) ==> UniqueIds(UpdateHabit(s, id, delta))
  {
    var r := UpdateStreaks(s.habits, id, delta);
    forall i | 0 <= i < |s.habits| ensures r[i].id == s.habits[i].id {
      assert r[i].(streak := s.habits[i].streak) == s.habits[i];
    }
  }
}
