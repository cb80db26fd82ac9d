/** The backend's persistent state: the users, goals and tasks tables the
    three services share through their repositories, the invariants the
    services keep on them, and the cascading deletes of goals and tasks. */
module Store {
  import opened Common
  import opened JavaLang
  import opened GoalEntity
  import opened Text

  /** A user row, keyed by its Firebase uid. The username is kept as the
      UTF-16 code units Java stores, since it is cut from the uid at a
      code-unit offset that may fall inside a surrogate pair. */
  datatype User = User(firebaseUid: Uid, username: seq<CodeUnit>, email: string, experience: int, level: int)

  /** A task row. `goal` is the optional linked goal (the boss it damages),
      `parentTask` the optional parent task. */
  datatype TaskRow = TaskRow(
    title: Option<string>,
    completed: bool,
    recurrenceDays: int,
    lastCompleted: Option<Day>,
    difficulty: Option<string>,
    owner: Uid,
    goal: Option<int>,
    parentTask: Option<int>)

  /** The exceptions the services raise: `ResourceNotFoundException`,
      `InvalidInputException`, the `NumberFormatException` of
      `Long.parseLong`, the "User not found" `RuntimeException`, the
      `StringIndexOutOfBoundsException` of `substring(0, 8)` on a uid with
      fewer than eight UTF-16 code units, and the persistence layer's
      refusal to save an entity whose identifier was changed. */
  datatype Error = ResourceNotFound | InvalidInput | NumberFormat | UserNotFound | IndexOutOfBounds | IdentifierAltered

  datatype Result<T> = Ok(value: T) | Err(error: Error)

  /** The three tables. Generated ids for goals and tasks come from one
      counter, which abstracts the provider's id generation. */
  datatype State = State(
    users: map<Uid, User>,
    goals: map<int, GoalRow>,
    tasks: map<int, TaskRow>,
    nextId: int)

  /** What a service call returns, together with the tables after it. */
  datatype Reply<T> = Reply(result: Result<T>, state: State)

  // ------------------------------------------------------------ invariant

  /** A goal's parent, when it has one, exists and has the same owner. */
  ghost predicate GoalParentOk(goals: map<int, GoalRow>, g: int)
    requires g in goals
  {
    goals[g].parentGoal.Some? ==>
      var p := goals[g].parentGoal.value;
      p in goals && goals[p].owner == goals[g].owner
  }

  /** A task's goal, when it has one, exists and has the same owner. */
  ghost predicate TaskGoalOk(s: State, t: int)
    requires t in s.tasks
  {
    s.tasks[t].goal.Some? ==>
      var g := s.tasks[t].goal.value;
      g in s.goals && s.goals[g].owner == s.tasks[t].owner
  }

  /** A task's parent task, when it has one, exists and has the same owner. */
  ghost predicate TaskParentOk(tasks: map<int, TaskRow>, t: int)
    requires t in tasks
  {
    tasks[t].parentTask.Some? ==>
      var p := tasks[t].parentTask.value;
      p in tasks && tasks[p].owner == tasks[t].owner
  }

  /** The invariant every service operation keeps: users are keyed by their
      uid, every id is below the id counter, every goal and parent
      reference resolves and every link stays inside one owner's data. */
  ghost predicate Valid(s: State)
  {
    && (forall u :: u in s.users ==> s.users[u].firebaseUid == u)
    && (forall g :: g in s.goals ==> g < s.nextId)
    && (forall t :: t in s.tasks ==> t < s.nextId)
    && (forall g :: g in s.goals ==> GoalParentOk(s.goals, g))
    && (forall t :: t in s.tasks ==> TaskGoalOk(s, t))
    && (forall t :: t in s.tasks ==> TaskParentOk(s.tasks, t))
  }

  /** `s'` differs from `s` at most in fields no link depends on: the same
      users, goals and tasks exist with the same uids, owners and links. */
  ghost predicate SameLinks(s: State, s': State)
  {
    && s'.nextId == s.nextId
    && s'.users.Keys == s.users.Keys
    && (forall u :: u in s.users ==> s'.users[u].firebaseUid == s.users[u].firebaseUid)
    && s'.goals.Keys == s.goals.Keys
    && (forall g :: g in s.goals ==>
          s'.goals[g].owner == s.goals[g].owner && s'.goals[g].parentGoal == s.goals[g].parentGoal)
    && s'.tasks.Keys == s.tasks.Keys
    && (forall t :: t in s.tasks ==>
          && s'.tasks[t].owner == s.tasks[t].owner
          && s'.tasks[t].goal == s.tasks[t].goal
          && s'.tasks[t].parentTask == s.tasks[t].parentTask)
  }

  /** Changing only fields no link depends on keeps the invariant. */
  lemma SameLinksKeepValid(s: State, s': State)
    requires Valid(s) && SameLinks(s, s')
    ensures Valid(s')
  {
    forall g | g in s'.goals ensures GoalParentOk(s'.goals, g) {
      assert GoalParentOk(s.goals, g);
    }
    forall t | t in s'.tasks ensures TaskGoalOk(s', t) {
      assert TaskGoalOk(s, t);
    }
    forall t | t in s'.tasks ensures TaskParentOk(s'.tasks, t) {
      assert TaskParentOk(s.tasks, t);
    }
  }

  /** Ownership isolation: nothing owned by a user other than `uid` was
      added, changed or removed between `s` and `s'`. */
  ghost predicate OthersUnchanged(s: State, s': State, uid: Uid)
  {
    && (forall u :: u != uid ==> (u in s.users <==> u in s'.users))
    && (forall u :: u != uid && u in s.users ==> s'.users[u] == s.users[u])
    && (forall g :: g in s.goals && s.goals[g].owner != uid ==> g in s'.goals && s'.goals[g] == s.goals[g])
    && (forall g :: g in s'.goals && s'.goals[g].owner != uid ==> g in s.goals && s.goals[g] == s'.goals[g])
    && (forall t :: t in s.tasks && s.tasks[t].owner != uid ==> t in s'.tasks && s'.tasks[t] == s.tasks[t])
    && (forall t :: t in s'.tasks && s'.tasks[t].owner != uid ==> t in s.tasks && s.tasks[t] == s'.tasks[t])
  }

  /** A task row whose links satisfy the invariant in `s`. */
  ghost predicate TaskLinksOk(s: State, row: TaskRow)
  {
    && (row.goal.Some? ==> row.goal.value in s.goals && s.goals[row.goal.value].owner == row.owner)
    && (row.parentTask.Some? ==> row.parentTask.value in s.tasks && s.tasks[row.parentTask.value].owner == row.owner)
  }

  /** Saving a new task under the next id keeps the invariant. */
  lemma InsertTaskKeepsValid(s: State, row: TaskRow)
    requires Valid(s) && TaskLinksOk(s, row)
    ensures Valid(s.(tasks := s.tasks[s.nextId := row], nextId := s.nextId + 1))
  {
    var s' := s.(tasks := s.tasks[s.nextId := row], nextId := s.nextId + 1);
    forall t | t in s'.tasks ensures TaskGoalOk(s', t) {
      if t != s.nextId {
        assert TaskGoalOk(s, t);
      }
    }
    forall t | t in s'.tasks ensures TaskParentOk(s'.tasks, t) {
      if t != s.nextId {
        assert TaskParentOk(s.tasks, t);
      }
    }
  }

  /** Overwriting a task with a row of the same owner whose links are
      valid keeps the invariant. */
  lemma ReplaceTaskKeepsValid(s: State, id: int, row: TaskRow)
    requires Valid(s) && id in s.tasks && row.owner == s.tasks[id].owner
    requires TaskLinksOk(s, row)
    ensures Valid(s.(tasks := s.tasks[id := row]))
  {
    var s' := s.(tasks := s.tasks[id := row]);
    forall t | t in s'.tasks ensures TaskGoalOk(s', t) {
      if t != id {
        assert TaskGoalOk(s, t);
      }
    }
    forall t | t in s'.tasks ensures TaskParentOk(s'.tasks, t) {
      if t != id {
        assert TaskParentOk(s.tasks, t);
      }
    }
  }

  /** Saving a new goal under the next id, below a goal of the same owner
      or none, keeps the invariant. */
  lemma InsertGoalKeepsValid(s: State, row: GoalRow)
    requires Valid(s)
    requires row.parentGoal.Some? ==> row.parentGoal.value in s.goals && s.goals[row.parentGoal.value].owner == row.owner
    ensures Valid(s.(goals := s.goals[s.nextId := row], nextId := s.nextId + 1))
  {
    var s' := s.(goals := s.goals[s.nextId := row], nextId := s.nextId + 1);
    forall g | g in s'.goals ensures GoalParentOk(s'.goals, g) {
      if g != s.nextId {
        assert GoalParentOk(s.goals, g);
      }
    }
    forall t | t in s'.tasks ensures TaskGoalOk(s', t) {
      assert TaskGoalOk(s, t);
    }
  }

  /** Overwriting a goal with a row of the same owner, below a goal of
      that owner or none, keeps the invariant. */
  lemma ReplaceGoalKeepsValid(s: State, id: int, row: GoalRow)
    requires Valid(s) && id in s.goals && row.owner == s.goals[id].owner
    requires row.parentGoal.Some? ==> row.parentGoal.value in s.goals && s.goals[row.parentGoal.value].owner == row.owner
    ensures Valid(s.(goals := s.goals[id := row]))
  {
    var s' := s.(goals := s.goals[id := row]);
    forall g | g in s'.goals ensures GoalParentOk(s'.goals, g) {
      if g != id {
        assert GoalParentOk(s.goals, g);
      }
    }
    forall t | t in s'.tasks ensures TaskGoalOk(s', t) {
      assert TaskGoalOk(s, t);
    }
  }

  lemma OthersUnchangedTrans(s: State, s1: State, s2: State, uid: Uid)
    requires OthersUnchanged(s, s1, uid) && OthersUnchanged(s1, s2, uid)
    ensures OthersUnchanged(s, s2, uid)
  {
  }

  /** Once a goal is defeated it stays defeated while it exists. */
  ghost predicate DefeatedKept(s: State, s': State)
  {
    forall g :: g in s.goals && g in s'.goals && s.goals[g].defeated ==> s'.goals[g].defeated
  }

  /** No goal has negative HP. */
  ghost predicate HpNonNegative(s: State)
  {
    forall g :: g in s.goals ==> s.goals[g].currentHp >= 0
  }

  // ----------------------------------------------------- reference checks

  /** The row `id` exists and belongs to `uid`. */
  predicate OwnsGoal(s: State, uid: Uid, id: int)
  {
    id in s.goals && s.goals[id].owner == uid
  }

  predicate OwnsTask(s: State, uid: Uid, id: int)
  {
    id in s.tasks && s.tasks[id].owner == uid
  }

  /** Resolves an optional goal id sent as a string: `null` links nothing;
      otherwise the string is parsed with `Long.parseLong` and must name a
      goal of `uid`, else `InvalidInputException`. */
  function LinkGoal(s: State, uid: Uid, ref: Option<string>): (r: Result<Option<int>>)
    ensures ref.None? ==> r == Ok(None)
    ensures r.Ok? && r.value.Some? ==> OwnsGoal(s, uid, r.value.value)
    ensures r.Err? ==> r.error == NumberFormat || r.error == InvalidInput
    ensures ref.Some? && r.Ok? ==> r.value == ParseLong(ref.value)
    ensures ref.Some? ==> (r == Err(NumberFormat) <==> ParseLong(ref.value).None?)
    ensures ref.Some? && ParseLong(ref.value).Some? ==>
              (r.Ok? <==> OwnsGoal(s, uid, ParseLong(ref.value).value))
  {
    if ref.None? then Ok(None)
    else
      var id := ParseLong(ref.value);
      if id.None? then Err(NumberFormat)
      else if !OwnsGoal(s, uid, id.value) then Err(InvalidInput)
      else Ok(Some(id.value))
  }

  /** The same check for a parent task id. */
  function LinkTask(s: State, uid: Uid, ref: Option<string>): (r: Result<Option<int>>)
    ensures ref.None? ==> r == Ok(None)
    ensures r.Ok? && r.value.Some? ==> OwnsTask(s, uid, r.value.value)
    ensures r.Err? ==> r.error == NumberFormat || r.error == InvalidInput
    ensures ref.Some? && r.Ok? ==> r.value == ParseLong(ref.value)
    ensures ref.Some? ==> (r == Err(NumberFormat) <==> ParseLong(ref.value).None?)
    ensures ref.Some? && ParseLong(ref.value).Some? ==>
              (r.Ok? <==> OwnsTask(s, uid, ParseLong(ref.value).value))
  {
    if ref.None? then Ok(None)
    else
      var id := ParseLong(ref.value);
      if id.None? then Err(NumberFormat)
      else if !OwnsTask(s, uid, id.value) then Err(InvalidInput)
      else Ok(Some(id.value))
  }

  // ------------------------------------------------------- cascade delete

  /** The rows whose parent link points into `ids`; `links` maps every row
      to its optional parent. */
  function Children(links: map<int, Option<int>>, ids: set<int>): set<int>
  {
    set x | x in links && links[x].Some? && links[x].value in ids
  }

  lemma SubsetCardinality(a: set<int>, b: set<int>)
    requires a < b
    ensures |a| < |b|
  {
    var d := b - a;
    assert d != {};
    assert b * a == a;
    assert |d| == |b| - |b * a|;
  }

  /** `ids` together with every row below them: the rows a cascading
      delete (cascade ALL with orphan removal on the children collection)
      of `ids` removes. The result is closed under taking children. */
  function Closure(links: map<int, Option<int>>, ids: set<int>): (c: set<int>)
    requires ids <= links.Keys
    ensures ids <= c <= links.Keys
    ensures Children(links, c) <= c
    decreases |links.Keys - ids|
  {
    var next := ids + Children(links, ids);
    if next == ids then ids
    else
      SubsetCardinality(links.Keys - next, links.Keys - ids);
      Closure(links, next)
  }

  /** The closure removes nothing unrelated: it is contained in every set
      that holds `ids` and is closed under taking children, so each row it
      holds lies below one of `ids`. */
  lemma {:induction false} ClosureLeast(links: map<int, Option<int>>, ids: set<int>, t: set<int>)
    requires ids <= links.Keys && ids <= t && Children(links, t) <= t
    ensures Closure(links, ids) <= t
    decreases |links.Keys - ids|
  {
    var next := ids + Children(links, ids);
    assert Children(links, ids) <= Children(links, t);
    if next != ids {
      SubsetCardinality(links.Keys - next, links.Keys - ids);
      ClosureLeast(links, next, t);
    }
  }

  /** The `parentGoal` links of the goals table. */
  function GoalLinks(goals: map<int, GoalRow>): (links: map<int, Option<int>>)
    ensures links.Keys == goals.Keys
    ensures forall g :: g in goals ==> links[g] == goals[g].parentGoal
  {
    map g | g in goals :: goals[g].parentGoal
  }

  /** The `parentTask` links of the tasks table. */
  function TaskLinks(tasks: map<int, TaskRow>): (links: map<int, Option<int>>)
    ensures links.Keys == tasks.Keys
    ensures forall t :: t in tasks ==> links[t] == tasks[t].parentTask
  {
    map t | t in tasks :: tasks[t].parentTask
  }

  /** The goals whose parent is in `ids` (the union of their `subGoals`). */
  function SubGoalsOf(goals: map<int, GoalRow>, ids: set<int>): set<int>
  {
    Children(GoalLinks(goals), ids)
  }

  /** The tasks whose parent task is in `ids`. */
  function SubTasksOf(tasks: map<int, TaskRow>, ids: set<int>): set<int>
  {
    Children(TaskLinks(tasks), ids)
  }

  /** The goals a delete of `ids` removes: `ids` and every goal below them
      through `subGoals`. */
  function Cascade(goals: map<int, GoalRow>, ids: set<int>): (c: set<int>)
    requires ids <= goals.Keys
    ensures ids <= c <= goals.Keys
    ensures SubGoalsOf(goals, c) <= c
  {
    Closure(GoalLinks(goals), ids)
  }

  /** The tasks a delete of `ids` removes: `ids` and every task below them
      through the parent-task relation. */
  function TaskCascade(tasks: map<int, TaskRow>, ids: set<int>): (c: set<int>)
    requires ids <= tasks.Keys
    ensures ids <= c <= tasks.Keys
    ensures SubTasksOf(tasks, c) <= c
  {
    Closure(TaskLinks(tasks), ids)
  }

  /** The tasks linked to one of `goals` (the union of their `tasks`). */
  function TasksOfGoals(tasks: map<int, TaskRow>, goals: set<int>): (ts: set<int>)
    ensures ts <= tasks.Keys
    ensures forall t :: t in tasks && tasks[t].goal.Some? && tasks[t].goal.value in goals ==> t in ts
  {
    set t | t in tasks && tasks[t].goal.Some? && tasks[t].goal.value in goals
  }

  /** In a valid state the cascade from goals of `uid` stays within the
      goals of `uid`. */
  lemma CascadeOwned(s: State, ids: set<int>, uid: Uid)
    requires Valid(s) && ids <= s.goals.Keys
    requires forall g :: g in ids ==> s.goals[g].owner == uid
    ensures forall g :: g in Cascade(s.goals, ids) ==> s.goals[g].owner == uid
  {
    var mine := set g | g in s.goals && s.goals[g].owner == uid;
    forall g | g in ids ensures g in mine { }
    forall g | g in SubGoalsOf(s.goals, mine) ensures g in mine {
      assert GoalParentOk(s.goals, g);
    }
    ClosureLeast(GoalLinks(s.goals), ids, mine);
  }

  /** In a valid state the cascade from tasks of `uid` stays within the
      tasks of `uid`. */
  lemma TaskCascadeOwned(s: State, ids: set<int>, uid: Uid)
    requires Valid(s) && ids <= s.tasks.Keys
    requires forall t :: t in ids ==> s.tasks[t].owner == uid
    ensures forall t :: t in TaskCascade(s.tasks, ids) ==> s.tasks[t].owner == uid
  {
    var mine := set t | t in s.tasks && s.tasks[t].owner == uid;
    forall t | t in ids ensures t in mine { }
    forall t | t in SubTasksOf(s.tasks, mine) ensures t in mine {
      assert TaskParentOk(s.tasks, t);
    }
    ClosureLeast(TaskLinks(s.tasks), ids, mine);
  }

  /** The tasks a delete of the goals in `removed` takes with it: the tasks
      linked to them and every task below those. */
  function TasksOfCascade(tasks: map<int, TaskRow>, removed: set<int>): (ts: set<int>)
    ensures ts <= tasks.Keys
    ensures TasksOfGoals(tasks, removed) <= ts
    ensures SubTasksOf(tasks, ts) <= ts
  {
    TaskCascade(tasks, TasksOfGoals(tasks, removed))
  }

  // ------------------------------------------------------------ the store

  /** The repositories: the tables as the services see them. */
  class Db {
    var users: map<Uid, User>
    var goals: map<int, GoalRow>
    var tasks: map<int, TaskRow>
    var nextId: int

    function Snapshot(): State
      reads this
    {
      State(users, goals, tasks, nextId)
    }

    /** Empty tables; generated ids start at 1. */
    constructor ()
      ensures Snapshot() == State(map[], map[], map[], 1) && Valid(Snapshot())
    {
      users, goals, tasks, nextId := map[], map[], map[], 1;
    }
  }
}
