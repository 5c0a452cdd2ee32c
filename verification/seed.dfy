/** The sample state the dashboard starts from when nothing usable is stored. */
module Seed {
  import opened Domain
  import Transitions
  import Projections

  const Task1 := Task("task-1", "Deep work block: ship priority feature", "Work", Some("09:30"), High, false)
  const Task2 := Task("task-2", "Walk + podcast break", "Health", Some("12:30"), Medium, false)
  const Task3 := Task("task-3", "Weekly alignment with team", "Work", Some("15:00"), High, false)
  const Task4 := Task("task-4", "Plan tomorrow\U{2019}s top three", "Planning", Some("20:45"), Low, false)

  const SampleTasks: seq<Task> := [Task1, Task2, Task3, Task4]

  const SampleHabits: seq<Habit> := [
    Habit("habit-1", "Morning mobility", "10 min stretch", 5, "Daily"),
    Habit("habit-2", "Hydration", "8 glasses", 12, "All day"),
    Habit("habit-3", "Inbox zero sweep", "2 check-ins", 3, "Weekdays")
  ]

  /** The sample notes are stamped 45 and 150 minutes before the moment the
      page's code was loaded (`loadTime`, epoch milliseconds). */
  function SampleNotes(loadTime: int): (ns: seq<Note>)
    ensures |ns| == 2 && UniqueBy(ns, NoteId) && NewestFirst(ns)
    ensures forall k :: 0 <= k < |ns| ==> ns[k].createdAt < loadTime
  {
    [
      Note("note-1", "Focus theme: ruthless prioritisation over volume. " + "Say no to distractions.",
        loadTime - 1000 * 60 * 45),
      Note("note-2", "Dinner ingredients: salmon, broccoli, quinoa, miso paste.",
        loadTime - 1000 * 60 * 150)
    ]
  }

  /** createInitialState. */
  function InitialState(loadTime: int): (s: AgentState)
    ensures |s.tasks| == 4 && |s.habits| == 3 && |s.notes| == 2
    ensures forall i :: 0 <= i < |s.tasks| ==> !s.tasks[i].completed
    ensures Transitions.NonNegativeStreaks(s.habits)
    ensures UniqueIds(s)
    ensures NewestFirst(s.notes)
  {
    AgentState(SampleTasks, SampleHabits, SampleNotes(loadTime))
  }

  /** On the seed, the momentum score starts at 0%; completing task-1 makes it
      25%, and undoing it brings it back to 0%. */
  lemma SeedProgressScenario(loadTime: int)
    ensures Projections.Progress(InitialState(loadTime).tasks) == 0
    ensures Projections.Progress(Transitions.ToggleTask(InitialState(loadTime), "task-1").tasks) == 25
    ensures Projections.Progress(
      Transitions.ToggleTask(Transitions.ToggleTask(InitialState(loadTime), "task-1"), "task-1").tasks) == 0
  {
    var s := InitialState(loadTime);
    Projections.ProgressExtremes(s.tasks);
    assert s.tasks[0].id == "task-1";
    Projections.ToggleMovesCountByOne(s.tasks, 0);
    assert Projections.Total(Transitions.ToggleTask(s, "task-1").tasks) == 4;
    Transitions.ToggleTwice(s, "task-1");
  }

  /** On the seed, the focus list is the two High tasks in list order, then the
      Medium one; the Low task is left out. */
  lemma SeedFocus(loadTime: int)
    ensures Projections.FocusTasks(InitialState(loadTime).tasks) == [Task1, Task3, Task2]
  {
    assert InitialState(loadTime).tasks == SampleTasks;
    Projections.FocusIsRankOrderPrefix(SampleTasks);
    SampleTasksIncomplete();
    SampleRankOrder();
    var order := Projections.RankOrder(SampleTasks);
    assert order[..3] == [Task1, Task3, Task2];
  }

  /** The sample tasks in rank order: task-1, task-3, task-2, task-4. */
  lemma SampleRankOrder()
    ensures Projections.RankOrder(SampleTasks) == [Task1, Task3, Task2] + [Task4]
  {
    SampleTasksGroups();
    var hm := [Task1, Task3] + [Task2];
    assert hm == [Task1, Task3, Task2];
  }

  lemma SampleTasksIncomplete()
    ensures Projections.Incomplete(SampleTasks) == SampleTasks
  {
    assert forall i :: 0 <= i < |SampleTasks| ==> !SampleTasks[i].completed;
    Projections.IncompleteKeepsOpenList(SampleTasks);
  }

  lemma SampleTasksGroups()
    ensures Projections.OfPriority(SampleTasks, High) == [Task1, Task3]
    ensures Projections.OfPriority(SampleTasks, Medium) == [Task2]
    ensures Projections.OfPriority(SampleTasks, Low) == [Task4]
  {
    var ts := SampleTasks;
    assert ts[1..] == [Task2, Task3, Task4];
    assert ts[1..][1..] == [Task3, Task4];
    assert ts[1..][1..][1..] == [Task4];
    assert ts[1..][1..][1..][1..] == [];
    assert Projections.OfPriority([Task4], High) == [];
    assert Projections.OfPriority([Task4], Medium) == [];
    assert Projections.OfPriority([Task4], Low) == [Task4];
    assert Projections.OfPriority([Task3, Task4], High) == [Task3];
    assert Projections.OfPriority([Task3, Task4], Medium) == [];
    assert Projections.OfPriority([Task3, Task4], Low) == [Task4];
    assert Projections.OfPriority([Task2, Task3, Task4], High) == [Task3];
    assert Projections.OfPriority([Task2, Task3, Task4], Medium) == [Task2];
    assert Projections.OfPriority([Task2, Task3, Task4], Low) == [Task4];
  }
}
