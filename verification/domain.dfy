/** The domain model of the dashboard: tasks, habits and notes, and the
    application state that aggregates them. */
module Domain {

  datatype Option<+T> = None | Some(value: T)

  datatype Priority = High | Medium | Low

  /** A task; `due` is a free-form time label and may be absent. */
  datatype Task = Task(
    id: string,
    title: string,
    category: string,
    due: Option<string>,
    priority: Priority,
    completed: bool)

  /** A habit; `streak` is a count of consecutive days (a JavaScript number,
      modelled as an unbounded integer). */
  datatype Habit = Habit(
    id: string,
    title: string,
    goal: string,
    streak: int,
    frequency: string)

  /** A note; `createdAt` is an epoch timestamp in milliseconds. */
  datatype Note = Note(id: string, content: string, createdAt: int)

  datatype AgentState = AgentState(tasks: seq<Task>, habits: seq<Habit>, notes: seq<Note>)

  /** The sort key of the focus list: High before Medium before Low. */
  function PriorityRank(p: Priority): (r: nat)
    ensures r <= 2
    ensures p == High <==> r == 0
    ensures p == Low <==> r == 2
  {
    match p
    case High => 0
    case Medium => 1
    case Low => 2
  }

  function TaskId(t: Task): string { t.id }
  function HabitId(h: Habit): string { h.id }
  function NoteId(n: Note): string { n.id }

  /** No two elements of `xs` carry the same id. */
  predicate UniqueBy<T>(xs: seq<T>, id: T -> string) {
    forall i, j :: 0 <= i < j < |xs| ==> id(xs[i]) != id(xs[j])
  }

  /** Putting an element with an unused id in front keeps ids unique. */
  lemma PrependKeepsUnique<T>(x: T, xs: seq<T>, id: T -> string)
    requires UniqueBy(xs, id) && id(x) !in Ids(xs, id)
    ensures UniqueBy([x] + xs, id)
  {
    var ys := [x] + xs;
    forall i, j | 0 <= i < j < |ys| ensures id(ys[i]) != id(ys[j]) {
      assert ys[j] == xs[j - 1];
      if i > 0 {
        assert ys[i] == xs[i - 1];
      }
    }
  }

  /** Dropping the first element keeps ids unique. */
  lemma UniqueTail<T>(xs: seq<T>, id: T -> string)
    requires xs != [] && UniqueBy(xs, id)
    ensures UniqueBy(xs[1..], id)
  {
    forall i, j | 0 <= i < j < |xs| - 1 ensures id(xs[1..][i]) != id(xs[1..][j]) {
      assert xs[1..][i] == xs[i + 1] && xs[1..][j] == xs[j + 1];
    }
  }

  /** Ids are meant to be unique within each collection; the code relies on
      random ids and never checks this. */
  predicate UniqueIds(s: AgentState) {
    UniqueBy(s.tasks, TaskId) && UniqueBy(s.habits, HabitId) && UniqueBy(s.notes, NoteId)
  }

  /** Notes are kept most recent first. */
  predicate NewestFirst(ns: seq<Note>) {
    forall i, j :: 0 <= i < j < |ns| ==> ns[i].createdAt >= ns[j].createdAt
  }

  /** The ids carried by the elements of `xs`. */
  function Ids<T>(xs: seq<T>, id: T -> string): (ids: set<string>)
    ensures forall i :: 0 <= i < |xs| ==> id(xs[i]) in ids
    ensures forall x :: x in ids ==> exists i :: 0 <= i < |xs| && id(xs[i]) == x
  {
    set i | 0 <= i < |xs| :: id(xs[i])
  }
}
