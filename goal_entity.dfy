/** The goal ("boss") entity. `Goal` is the mutable object the services
    fill in through setters; `GoalRow` is what the goals table keeps for
    it. The two relation lists of the entity (`subGoals`, `tasks`) are the
    inverse sides of the sub-goal's `parentGoal` and the task's `goal`
    columns: the table does not store them, and the store module derives
    them (and their cascading delete) from those columns. */
module GoalEntity {
  import opened Common

  type Uid = string
  type Day = int

  /** The persisted columns of a goal. `owner` is the Firebase uid of the
      owning user; `parentGoal` the id of the optional parent goal. */
  datatype GoalRow = GoalRow(
    title: Option<string>,
    description: Option<string>,
    status: Option<string>,
    owner: Uid,
    parentGoal: Option<int>,
    dueDate: Option<Day>,
    maxHp: int,
    currentHp: int,
    defeated: bool)

  class Goal {
    var id: Option<int>
    var title: Option<string>
    var description: Option<string>
    var status: Option<string>
    var user: Option<Uid>
    /** At most one parent goal, and possibly none. */
    var parentGoal: Option<int>
    /** Ids of the goals whose parent this goal is. */
    var subGoals: seq<int>
    /** Ids of the tasks linked to this goal. */
    var tasks: seq<int>
    var dueDate: Option<Day>
    var maxHp: int
    var currentHp: int
    var defeated: bool

    /** A new goal: no id, no references, empty relation lists, zero HP and
        not defeated. */
    constructor ()
      ensures id.None? && title.None? && description.None? && status.None?
      ensures user.None? && parentGoal.None? && dueDate.None?
      ensures subGoals == [] && tasks == []
      ensures maxHp == 0 && currentHp == 0 && !defeated
    {
      id, title, description, status := None, None, None, None;
      user, parentGoal, dueDate := None, None, None;
      subGoals, tasks := [], [];
      maxHp, currentHp, defeated := 0, 0, false;
    }

    /** The goal `findById(i)` loads from the stored row `r`. The relation
        lists are left empty: the table does not store them. */
    constructor Load(i: int, r: GoalRow)
      ensures id == Some(i) && user == Some(r.owner) && Row() == r
    {
      id, title, description, status := Some(i), r.title, r.description, r.status;
      user, parentGoal, dueDate := Some(r.owner), r.parentGoal, r.dueDate;
      subGoals, tasks := [], [];
      maxHp, currentHp, defeated := r.maxHp, r.currentHp, r.defeated;
    }

    /** The columns the table stores for this goal once it has an owner. */
    function Row(): GoalRow
      reads this
      requires user.Some?
    {
      GoalRow(title, description, status, user.value, parentGoal, dueDate, maxHp, currentHp, defeated)
    }

    // Each setter writes its own field and no other (its frame names that
    // field alone); reading the field afterwards gives the value set.

    method SetDefeated(d: bool)
      modifies this`defeated
      ensures defeated == d
    {
      defeated := d;
    }

    method SetId(i: Option<int>)
      modifies this`id
      ensures id == i
    {
      id := i;
    }

    method SetTitle(t: Option<string>)
      modifies this`title
      ensures title == t
    {
      title := t;
    }

    method SetDescription(d: Option<string>)
      modifies this`description
      ensures description == d
    {
      description := d;
    }

    method SetStatus(s: Option<string>)
      modifies this`status
      ensures status == s
    {
      status := s;
    }

    method SetUser(u: Option<Uid>)
      modifies this`user
      ensures user == u
    {
      user := u;
    }

    method SetParentGoal(p: Option<int>)
      modifies this`parentGoal
      ensures parentGoal == p
    {
      parentGoal := p;
    }

    method SetSubGoals(gs: seq<int>)
      modifies this`subGoals
      ensures subGoals == gs
    {
      subGoals := gs;
    }

    method SetTasks(ts: seq<int>)
      modifies this`tasks
      ensures tasks == ts
    {
      tasks := ts;
    }

    method SetDueDate(d: Option<Day>)
      modifies this`dueDate
      ensures dueDate == d
    {
      dueDate := d;
    }

    method SetMaxHp(hp: int)
      modifies this`maxHp
      ensures maxHp == hp
    {
      maxHp := hp;
    }

    method SetCurrentHp(hp: int)
      modifies this`currentHp
      ensures currentHp == hp
    {
      currentHp := hp;
    }
  }
}
