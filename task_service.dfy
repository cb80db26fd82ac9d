/** `TaskService`: the caller's tasks, and the completion engine that
    turns a finished task into damage on its linked goal ("boss") and, on a
    kill, experience for the player. Today's date, which the source reads
    from the clock, is a parameter. */
module TaskService {
  import opened Common
  import opened JavaLang
  import opened Dto
  import opened GameConfig
  import opened GoalEntity
  import opened Store
  import opened UserService
  import opened GoalService

  // ------------------------------------------------------- specifications

  /** `getTaskById`. */
  function GetTaskSpec(s: State, uid: Uid, id: int): (r: Reply<TaskRow>)
    ensures r.state.goals == s.goals && r.state.tasks == s.tasks
    ensures r.result.Ok? <==> Served(s, uid) && OwnsTask(s, uid, id)
    ensures r.result.Ok? ==> r.result.value == s.tasks[id]
    ensures r.result.Err? && Served(s, uid) ==> r.result.error == ResourceNotFound
  {
    var cu := CurrentUserSpec(s, uid);
    if cu.result.Err? then Reply(Err(cu.result.error), cu.state)
    else if !OwnsTask(cu.state, uid, id) then Reply(Err(ResourceNotFound), cu.state)
    else Reply(Ok(cu.state.tasks[id]), cu.state)
  }

  /** The fields the mapper copies from a body onto a task. */
  function ApplyTaskDto(dto: TaskDto, t: TaskRow): TaskRow
  {
    t.(title := dto.title, completed := dto.completed, recurrenceDays := dto.recurrenceDays,
       lastCompleted := dto.lastCompleted, difficulty := dto.difficulty)
  }

  /** `createTask`: the goal link is checked before the parent link; the
      task is saved under the next id, owned by the caller. */
  function CreateTaskSpec(s: State, uid: Uid, dto: TaskDto): Reply<int>
  {
    var cu := CurrentUserSpec(s, uid);
    if cu.result.Err? then Reply(Err(cu.result.error), cu.state)
    else CreateTaskAs(cu.state, uid, dto)
  }

  /** The part of `createTask` after the caller's user is known. */
  function CreateTaskAs(s: State, uid: Uid, dto: TaskDto): Reply<int>
  {
    var goal := LinkGoal(s, uid, dto.goalId);
    if goal.Err? then Reply(Err(goal.error), s)
    else
      var parent := LinkTask(s, uid, dto.parentTaskId);
      if parent.Err? then Reply(Err(parent.error), s)
      else
        var row := ApplyTaskDto(dto, TaskRow(None, false, 0, None, None, uid, goal.value, parent.value));
        Reply(Ok(s.nextId), s.(tasks := s.tasks[s.nextId := row], nextId := s.nextId + 1))
  }

  /** `updateTask`: both links are replaced by the sent ones, or cleared
      when none is sent. */
  function UpdateTaskSpec(s: State, uid: Uid, id: int, dto: TaskDto): Reply<TaskRow>
  {
    var cu := CurrentUserSpec(s, uid);
    if cu.result.Err? then Reply(Err(cu.result.error), cu.state)
    else UpdateTaskAs(cu.state, uid, id, dto)
  }

  /** The part of `updateTask` after the caller's user is known. */
  function UpdateTaskAs(s: State, uid: Uid, id: int, dto: TaskDto): Reply<TaskRow>
  {
    if !OwnsTask(s, uid, id) then Reply(Err(ResourceNotFound), s)
    else
      var goal := LinkGoal(s, uid, dto.goalId);
      if goal.Err? then Reply(Err(goal.error), s)
      else
        var parent := LinkTask(s, uid, dto.parentTaskId);
        if parent.Err? then Reply(Err(parent.error), s)
        else
          var t := ApplyTaskDto(dto, s.tasks[id]).(goal := goal.value, parentTask := parent.value);
          Reply(Ok(t), s.(tasks := s.tasks[id := t]))
  }

  /** `deleteTask`: the task alone; tasks below it keep their parent id. */
  function DeleteTaskSpec(s: State, uid: Uid, id: int): Reply<()>
  {
    var cu := CurrentUserSpec(s, uid);
    if cu.result.Err? then Reply(Err(cu.result.error), cu.state)
    else DeleteTaskAs(cu.state, uid, id)
  }

  /** The part of `deleteTask` after the caller's user is known. */
  function DeleteTaskAs(s: State, uid: Uid, id: int): Reply<()>
  {
    if !OwnsTask(s, uid, id) then Reply(Err(ResourceNotFound), s)
    else
      Reply(Ok(()), s.(tasks := s.tasks - TaskCascade(s.tasks, {id})))
  }

  /** A completed recurring task is due again once `recurrenceDays` days
      have passed since it was last completed, or when that date is
      unknown. */
  predicate Due(t: TaskRow, today: Day)
  {
    t.lastCompleted.None? || t.lastCompleted.value + t.recurrenceDays <= today
  }

  /** `completeTask`. A pending task is completed today and damages its
      goal, clamped at zero; the hit that brings a goal that was not yet
      defeated to zero defeats it and awards the goal's experience to the
      caller. A completed recurring task that is due is reopened instead,
      without damage; any other completed task is left as it is. */
  function CompleteTaskSpec(s: State, uid: Uid, id: int, today: Day, cfg: Config): Reply<TaskRow>
  {
    var cu := CurrentUserSpec(s, uid);
    if cu.result.Err? then Reply(Err(cu.result.error), cu.state)
    else CompleteAs(cu.state, cu.result.value, id, today, cfg)
  }

  /** The part of `completeTask` after the caller's user is known. */
  function CompleteAs(s: State, current: User, id: int, today: Day, cfg: Config): Reply<TaskRow>
  {
    var uid := current.firebaseUid;
    if !OwnsTask(s, uid, id) then Reply(Err(ResourceNotFound), s)
    else
      var t := s.tasks[id];
      if t.completed then
        var t' := if t.recurrenceDays > 0 && Due(t, today) then t.(completed := false, lastCompleted := None) else t;
        Reply(Ok(t'), s.(tasks := s.tasks[id := t']))
      else
        var t' := t.(completed := true, lastCompleted := Some(today));
        if t.goal.None? || t.goal.value !in s.goals then
          Reply(Ok(t'), s.(tasks := s.tasks[id := t']))
        else
          var gid := t.goal.value;
          var g := s.goals[gid];
          var hp := Max(0, g.currentHp - Damage(cfg, t.difficulty));
          if hp <= 0 && !g.defeated then
            var xp := AddExperienceSpec(s, uid, XpReward(cfg, g.status));
            if xp.result.Err? then Reply(Err(xp.result.error), s)
            else
              Reply(Ok(t'), xp.state.(goals := s.goals[gid := g.(currentHp := hp, defeated := true)],
                                      tasks := s.tasks[id := t']))
          else
            Reply(Ok(t'), s.(goals := s.goals[gid := g.(currentHp := hp)], tasks := s.tasks[id := t']))
  }

  // ------------------------------------------------------- lemmas: CRUD

  /** A missing task or one of another user is "not found" for reading,
      updating, deleting and completing alike, and none of them changes a
      goal or a task. */
  lemma TaskNotFound(s: State, uid: Uid, id: int, dto: TaskDto, today: Day, cfg: Config)
    requires Served(s, uid) && !OwnsTask(s, uid, id)
    requires uid in s.users ==> s.users[uid].firebaseUid == uid
    ensures UpdateTaskSpec(s, uid, id, dto).state.tasks == s.tasks
    ensures DeleteTaskSpec(s, uid, id).state.tasks == s.tasks
    ensures CompleteTaskSpec(s, uid, id, today, cfg).state.tasks == s.tasks
    ensures CompleteTaskSpec(s, uid, id, today, cfg).state.goals == s.goals
    ensures GetTaskSpec(s, uid, id).result == Err(ResourceNotFound)
    ensures UpdateTaskSpec(s, uid, id, dto).result == Err(ResourceNotFound)
    ensures DeleteTaskSpec(s, uid, id).result == Err(ResourceNotFound)
    ensures CompleteTaskSpec(s, uid, id, today, cfg).result == Err(ResourceNotFound)
  {
  }

  /** A created task gets the next id, belongs to the caller, carries the
      body's fields and links to the sent goal and parent, both the
      caller's; no other row changes. */
  lemma CreateTaskLinks(s: State, uid: Uid, dto: TaskDto)
    requires Valid(s)
    ensures var r := CreateTaskSpec(s, uid, dto);
      r.result.Ok? ==>
        var id := r.result.value;
        var t := r.state.tasks[id];
        && id == s.nextId && id !in s.tasks
        && r.state.tasks == s.tasks[id := t]
        && r.state.goals == s.goals
        && r.state.nextId == s.nextId + 1
        && t.owner == uid
        && t.title == dto.title && t.completed == dto.completed
        && t.recurrenceDays == dto.recurrenceDays && t.lastCompleted == dto.lastCompleted
        && t.difficulty == dto.difficulty
        && (t.goal == (if dto.goalId.None? then None else ParseLong(dto.goalId.value)))
        && (t.goal.Some? ==> OwnsGoal(s, uid, t.goal.value))
        && (t.parentTask == (if dto.parentTaskId.None? then None else ParseLong(dto.parentTaskId.value)))
        && (t.parentTask.Some? ==> OwnsTask(s, uid, t.parentTask.value))
  {
  }

  /** A reference that does not parse or does not name a row of the
      caller. */
  predicate BadGoalRef(s: State, uid: Uid, ref: Option<string>)
  {
    ref.Some? && (ParseLong(ref.value).None? || !OwnsGoal(s, uid, ParseLong(ref.value).value))
  }

  predicate BadTaskRef(s: State, uid: Uid, ref: Option<string>)
  {
    ref.Some? && (ParseLong(ref.value).None? || !OwnsTask(s, uid, ParseLong(ref.value).value))
  }

  /** Creation fails exactly when the caller cannot be served or either
      link is bad, the goal link being checked first; a failure saves no
      task. */
  lemma CreateTaskErrors(s: State, uid: Uid, dto: TaskDto)
    ensures var r := CreateTaskSpec(s, uid, dto);
      && (r.result.Err? <==> !Served(s, uid) || BadGoalRef(s, uid, dto.goalId) || BadTaskRef(s, uid, dto.parentTaskId))
      && (r.result.Err? ==> r.state.goals == s.goals && r.state.tasks == s.tasks && r.state.nextId == s.nextId)
      && (Served(s, uid) && BadGoalRef(s, uid, dto.goalId) ==>
            r.result == Err(if ParseLong(dto.goalId.value).None? then NumberFormat else InvalidInput))
      && (Served(s, uid) && !BadGoalRef(s, uid, dto.goalId) && BadTaskRef(s, uid, dto.parentTaskId) ==>
            r.result == Err(if ParseLong(dto.parentTaskId.value).None? then NumberFormat else InvalidInput))
  {
  }

  /** An update overwrites the five copied fields with the body's values,
      keeps the owner, and sets each link to the sent one or clears it.
      Update fails on a bad link exactly as creation does. */
  lemma UpdateTaskCopiesFields(s: State, uid: Uid, id: int, dto: TaskDto)
    ensures var r := UpdateTaskSpec(s, uid, id, dto);
      && (r.result.Err? ==> r.state.goals == s.goals && r.state.tasks == s.tasks)
      && (Served(s, uid) && OwnsTask(s, uid, id) ==>
            (r.result.Err? <==> BadGoalRef(s, uid, dto.goalId) || BadTaskRef(s, uid, dto.parentTaskId)))
      && (r.result.Ok? ==>
            var t := r.result.value;
            && OwnsTask(s, uid, id)
            && r.state.tasks == s.tasks[id := t]
            && r.state.goals == s.goals
            && t.owner == uid
            && t.title == dto.title && t.completed == dto.completed
            && t.recurrenceDays == dto.recurrenceDays && t.lastCompleted == dto.lastCompleted
            && t.difficulty == dto.difficulty
            && (t.goal == (if dto.goalId.None? then None else ParseLong(dto.goalId.value)))
            && (t.goal.Some? ==> OwnsGoal(s, uid, t.goal.value))
            && (t.parentTask == (if dto.parentTaskId.None? then None else ParseLong(dto.parentTaskId.value)))
            && (t.parentTask.Some? ==> OwnsTask(s, uid, t.parentTask.value)))
  {
  }

  /** Nothing stops a task from becoming its own parent. */
  lemma UpdateTaskAllowsSelfParent(s: State, uid: Uid, id: int, dto: TaskDto)
    requires Served(s, uid) && OwnsTask(s, uid, id)
    requires LONG_MIN <= id <= LONG_MAX
    requires dto.goalId.None? && dto.parentTaskId == Some(Show(id))
    ensures UpdateTaskSpec(s, uid, id, dto).result.Ok?
    ensures UpdateTaskSpec(s, uid, id, dto).state.tasks[id].parentTask == Some(id)
  {
    ParseShow(id);
  }

  /** A delete removes exactly the task's cascade: the task and every task
      below it through the parent-task relation, all of them the caller's;
      no remaining task has a removed parent, every remaining task is
      unchanged and no goal changes. */
  lemma DeleteTaskCascades(s: State, uid: Uid, id: int)
    requires Valid(s)
    ensures var r := DeleteTaskSpec(s, uid, id);
      r.result.Ok? ==>
        var gone := TaskCascade(s.tasks, {id});
        && OwnsTask(s, uid, id)
        && id in gone && id !in r.state.tasks
        && r.state.tasks.Keys == s.tasks.Keys - gone
        && (forall t :: t in r.state.tasks ==> r.state.tasks[t] == s.tasks[t])
        && (forall t :: t in gone ==> s.tasks[t].owner == uid)
        && (forall t :: t in r.state.tasks && s.tasks[t].parentTask.Some? ==> s.tasks[t].parentTask.value !in gone)
        && r.state.goals == s.goals
  {
    CurrentUserKeepsInvariant(s, uid);
    var r := DeleteTaskSpec(s, uid, id);
    if r.result.Ok? {
      TaskCascadeOwned(s, {id}, uid);
      var gone := TaskCascade(s.tasks, {id});
      forall t | t in r.state.tasks && s.tasks[t].parentTask.Some?
        ensures s.tasks[t].parentTask.value !in gone
      {
        assert s.tasks[t].parentTask.value in gone ==> t in SubTasksOf(s.tasks, gone);
      }
    }
  }

  /** The delete removes nothing unrelated: any set holding the task and
      closed under sub-tasks holds every task the delete removed. */
  lemma DeleteTaskRemovesOnlyDescendants(s: State, uid: Uid, id: int, u: set<int>)
    requires id in u && SubTasksOf(s.tasks, u) <= u
    ensures var r := DeleteTaskSpec(s, uid, id);
      r.result.Ok? ==> forall t :: t in s.tasks && t !in r.state.tasks ==> t in u
  {
    var r := DeleteTaskSpec(s, uid, id);
    if r.result.Ok? {
      ClosureLeast(TaskLinks(s.tasks), {id}, u);
    }
  }

  /** The same, for the part after the caller's user is known. */
  lemma CreateTaskAsKeepsInvariant(s: State, uid: Uid, dto: TaskDto)
    requires Valid(s)
    ensures var r := CreateTaskAs(s, uid, dto);
      Valid(r.state) && OthersUnchanged(s, r.state, uid) && r.state.goals == s.goals
  {
    var r := CreateTaskAs(s, uid, dto);
    if r.result.Ok? {
      InsertTaskKeepsValid(s, r.state.tasks[s.nextId]);
    }
  }

  /** Creating a task keeps the store invariant, touches only the
      caller's rows and no goal. */
  lemma CreateTaskKeepsInvariant(s: State, uid: Uid, dto: TaskDto)
    requires Valid(s)
    ensures var r := CreateTaskSpec(s, uid, dto);
      Valid(r.state) && OthersUnchanged(s, r.state, uid) && r.state.goals == s.goals
  {
    CurrentUserKeepsInvariant(s, uid);
    var cu := CurrentUserSpec(s, uid);
    if cu.result.Ok? {
      CreateTaskAsKeepsInvariant(cu.state, uid, dto);
      OthersUnchangedTrans(s, cu.state, CreateTaskSpec(s, uid, dto).state, uid);
    }
  }

  /** The same, for the part after the caller's user is known. */
  lemma UpdateTaskAsKeepsInvariant(s: State, uid: Uid, id: int, dto: TaskDto)
    requires Valid(s)
    ensures var r := UpdateTaskAs(s, uid, id, dto);
      Valid(r.state) && OthersUnchanged(s, r.state, uid) && r.state.goals == s.goals
  {
    var r := UpdateTaskAs(s, uid, id, dto);
    if r.result.Ok? {
      ReplaceTaskKeepsValid(s, id, r.result.value);
    }
  }

  /** Updating a task keeps the store invariant, touches only the
      caller's rows and no goal. */
  lemma UpdateTaskKeepsInvariant(s: State, uid: Uid, id: int, dto: TaskDto)
    requires Valid(s)
    ensures var r := UpdateTaskSpec(s, uid, id, dto);
      Valid(r.state) && OthersUnchanged(s, r.state, uid) && r.state.goals == s.goals
  {
    CurrentUserKeepsInvariant(s, uid);
    var cu := CurrentUserSpec(s, uid);
    if cu.result.Ok? {
      UpdateTaskAsKeepsInvariant(cu.state, uid, id, dto);
      OthersUnchangedTrans(s, cu.state, UpdateTaskSpec(s, uid, id, dto).state, uid);
    }
  }

  /** Deleting a task keeps the store invariant (no sub-task is left
      pointing at a removed task), touches only the caller's rows and no
      goal. */
  lemma DeleteTaskKeepsInvariant(s: State, uid: Uid, id: int)
    requires Valid(s)
    ensures var r := DeleteTaskSpec(s, uid, id);
      Valid(r.state) && OthersUnchanged(s, r.state, uid) && r.state.goals == s.goals
  {
    CurrentUserKeepsInvariant(s, uid);
    var r := DeleteTaskSpec(s, uid, id);
    if r.result.Ok? {
      DeleteTaskCascades(s, uid, id);
      forall t | t in r.state.tasks ensures TaskGoalOk(r.state, t) {
        assert TaskGoalOk(s, t);
      }
      forall t | t in r.state.tasks ensures TaskParentOk(r.state.tasks, t) {
        assert TaskParentOk(s.tasks, t);
      }
    }
  }

  // ------------------------------------------------- lemmas: completion

  /** Completing a pending task marks it completed today and changes no
      other field of it. */
  lemma CompletePendingTask(s: State, uid: Uid, id: int, today: Day, cfg: Config)
    requires Valid(s) && uid in s.users && OwnsTask(s, uid, id) && !s.tasks[id].completed
    ensures var r := CompleteTaskSpec(s, uid, id, today, cfg);
      && r.result == Ok(s.tasks[id].(completed := true, lastCompleted := Some(today)))
      && r.state.tasks == s.tasks[id := r.result.value]
      && r.state.nextId == s.nextId
  {
  }

  /** The damage of a completion: the linked goal loses the damage of the
      task's difficulty, clamped at zero. The hit that leaves a goal that
      was not yet defeated at zero defeats it and awards the caller the
      goal's experience, once; otherwise no experience is awarded and the
      defeated flag is kept. Nothing else of the goal, and no other goal or
      user, changes. */
  lemma CompleteDamagesGoal(s: State, uid: Uid, id: int, today: Day, cfg: Config)
    requires Valid(s) && uid in s.users && OwnsTask(s, uid, id) && !s.tasks[id].completed
    requires s.tasks[id].goal.Some?
    ensures var r := CompleteTaskSpec(s, uid, id, today, cfg);
      var gid := s.tasks[id].goal.value;
      && gid in s.goals
      && var g := s.goals[gid];
      var hp := r.state.goals[gid].currentHp;
      var kill := hp == 0 && !g.defeated;
      && r.state.goals == s.goals[gid := g.(currentHp := hp, defeated := g.defeated || kill)]
      && hp >= 0
      && (hp == 0 <==> g.currentHp <= Damage(cfg, s.tasks[id].difficulty))
      && (hp > 0 ==> hp == g.currentHp - Damage(cfg, s.tasks[id].difficulty))
      && (kill ==> r.state.users == s.users[uid := LevelUp(s.users[uid], XpReward(cfg, g.status))])
      && (!kill ==> r.state.users == s.users)
  {
    assert TaskGoalOk(s, id);
  }

  /** A pending task without a goal is completed without damage or
      experience. */
  lemma CompleteWithoutGoal(s: State, uid: Uid, id: int, today: Day, cfg: Config)
    requires Valid(s) && uid in s.users && OwnsTask(s, uid, id) && !s.tasks[id].completed
    requires s.tasks[id].goal.None?
    ensures var r := CompleteTaskSpec(s, uid, id, today, cfg);
      r.state.goals == s.goals && r.state.users == s.users
  {
  }

  /** A completed recurring task that is due is reopened: not completed,
      no completion date. No damage is dealt and no experience awarded. */
  lemma CompleteReopensDueTask(s: State, uid: Uid, id: int, today: Day, cfg: Config)
    requires uid in s.users && s.users[uid].firebaseUid == uid && OwnsTask(s, uid, id)
    requires s.tasks[id].completed && s.tasks[id].recurrenceDays > 0 && Due(s.tasks[id], today)
    ensures var r := CompleteTaskSpec(s, uid, id, today, cfg);
      && r.result == Ok(s.tasks[id].(completed := false, lastCompleted := None))
      && r.state == s.(tasks := s.tasks[id := r.result.value])
  {
  }

  /** A completed task that is not recurring, or recurring but not yet due,
      is returned as it is and nothing changes. */
  lemma CompleteLeavesSettledTask(s: State, uid: Uid, id: int, today: Day, cfg: Config)
    requires uid in s.users && s.users[uid].firebaseUid == uid && OwnsTask(s, uid, id)
    requires s.tasks[id].completed && !(s.tasks[id].recurrenceDays > 0 && Due(s.tasks[id], today))
    ensures CompleteTaskSpec(s, uid, id, today, cfg) == Reply(Ok(s.tasks[id]), s)
  {
    assert s.tasks[id := s.tasks[id]] == s.tasks;
  }

  /** A one-shot task is completed once: completing it again, on any day,
      changes nothing, so its goal is damaged and its experience awarded at
      most once. */
  lemma OneShotCompletesOnce(s: State, uid: Uid, id: int, today: Day, later: Day, cfg: Config)
    requires Valid(s) && uid in s.users && OwnsTask(s, uid, id)
    requires !s.tasks[id].completed && s.tasks[id].recurrenceDays == 0
    ensures var r1 := CompleteTaskSpec(s, uid, id, today, cfg);
      var r2 := CompleteTaskSpec(r1.state, uid, id, later, cfg);
      r1.result.Ok? && r2 == Reply(r1.result, r1.state)
  {
    var r1 := CompleteTaskSpec(s, uid, id, today, cfg);
    CompletePendingTask(s, uid, id, today, cfg);
    CompleteTaskKeepsInvariant(s, uid, id, today, cfg);
    CompleteLeavesSettledTask(r1.state, uid, id, later, cfg);
  }

  /** The recurrence cycle: a recurring task completed on day `d` stays
      completed, untouched, before day `d + recurrenceDays`; from that day
      on, completing it again reopens it without damage. */
  lemma RecurringCycle(s: State, uid: Uid, id: int, d: Day, e: Day, cfg: Config)
    requires Valid(s) && uid in s.users && OwnsTask(s, uid, id)
    requires !s.tasks[id].completed && s.tasks[id].recurrenceDays > 0
    ensures var r1 := CompleteTaskSpec(s, uid, id, d, cfg);
      var r2 := CompleteTaskSpec(r1.state, uid, id, e, cfg);
      && r1.result.Ok?
      && (e < d + s.tasks[id].recurrenceDays ==> r2 == Reply(r1.result, r1.state))
      && (e >= d + s.tasks[id].recurrenceDays ==>
            && r2.result == Ok(s.tasks[id].(completed := false, lastCompleted := None))
            && r2.state == r1.state.(tasks := r1.state.tasks[id := r2.result.value]))
  {
    var r1 := CompleteTaskSpec(s, uid, id, d, cfg);
    CompletePendingTask(s, uid, id, d, cfg);
    CompleteTaskKeepsInvariant(s, uid, id, d, cfg);
    if e < d + s.tasks[id].recurrenceDays {
      CompleteLeavesSettledTask(r1.state, uid, id, e, cfg);
    } else {
      CompleteReopensDueTask(r1.state, uid, id, e, cfg);
    }
  }

  /** Once the caller's user is known, completion changes no link. */
  lemma CompleteAsKeepsLinks(s: State, current: User, id: int, today: Day, cfg: Config)
    requires current.firebaseUid in s.users
    ensures SameLinks(s, CompleteAs(s, current, id, today, cfg).state)
  {
    var uid := current.firebaseUid;
    var r := CompleteAs(s, current, id, today, cfg);
    if OwnsTask(s, uid, id) {
      var t := s.tasks[id];
      if !t.completed && t.goal.Some? && t.goal.value in s.goals {
        var g := s.goals[t.goal.value];
        if Max(0, g.currentHp - Damage(cfg, t.difficulty)) <= 0 && !g.defeated {
          assert r.state.users == s.users[uid := LevelUp(s.users[uid], XpReward(cfg, g.status))];
        } else {
          assert r.state.users == s.users;
        }
      } else {
        assert r.state.users == s.users && r.state.goals == s.goals;
      }
    }
  }

  /** ... and touches only the caller's rows. */
  lemma CompleteAsTouchesOnlyCaller(s: State, current: User, id: int, today: Day, cfg: Config)
    requires Valid(s) && current.firebaseUid in s.users
    ensures OthersUnchanged(s, CompleteAs(s, current, id, today, cfg).state, current.firebaseUid)
  {
    var uid := current.firebaseUid;
    var r := CompleteAs(s, current, id, today, cfg);
    if OwnsTask(s, uid, id) {
      var t := s.tasks[id];
      assert TaskGoalOk(s, id);
      if !t.completed && t.goal.Some? && t.goal.value in s.goals {
        var g := s.goals[t.goal.value];
        if Max(0, g.currentHp - Damage(cfg, t.difficulty)) <= 0 && !g.defeated {
          assert r.state.users == s.users[uid := LevelUp(s.users[uid], XpReward(cfg, g.status))];
        } else {
          assert r.state.users == s.users;
        }
      } else {
        assert r.state.users == s.users && r.state.goals == s.goals;
      }
    }
  }

  /** ... never revives a defeated goal and, with a non-negative
      configuration, never leaves a goal with negative HP. */
  lemma CompleteAsKeepsDefeated(s: State, current: User, id: int, today: Day, cfg: Config)
    ensures var r := CompleteAs(s, current, id, today, cfg);
      && DefeatedKept(s, r.state)
      && (HpNonNegative(s) && NonNegative(cfg) ==> HpNonNegative(r.state))
  {
  }

  /** Completion keeps the store invariant, touches only the caller's
      rows (their task, the goal it is linked to and their own user), never
      revives a defeated goal and, with a non-negative configuration, never
      leaves a goal with negative HP. */
  lemma CompleteTaskKeepsInvariant(s: State, uid: Uid, id: int, today: Day, cfg: Config)
    requires Valid(s)
    ensures var r := CompleteTaskSpec(s, uid, id, today, cfg);
      && Valid(r.state) && OthersUnchanged(s, r.state, uid) && DefeatedKept(s, r.state)
      && (HpNonNegative(s) && NonNegative(cfg) ==> HpNonNegative(r.state))
      && (uid in s.users ==> uid in r.state.users)
  {
    CurrentUserKeepsInvariant(s, uid);
    var r := CompleteTaskSpec(s, uid, id, today, cfg);
    var cu := CurrentUserSpec(s, uid);
    if cu.result.Ok? {
      CompleteAsKeepsLinks(cu.state, cu.result.value, id, today, cfg);
      CompleteAsTouchesOnlyCaller(cu.state, cu.result.value, id, today, cfg);
      CompleteAsKeepsDefeated(cu.state, cu.result.value, id, today, cfg);
      SameLinksKeepValid(cu.state, r.state);
      OthersUnchangedTrans(s, cu.state, r.state, uid);
    }
  }

  // ------------------------------------------------ lemmas: test fixture

  /** The damage and reward tables of the service tests. */
  function TestConfig(): Config
  {
    Config(map["Easy" := 5, "Medium" := 10], map[], map["Medium" := 50])
  }

  /** The fixture of the service tests: a pending one-shot "Easy" task of
      the caller linked to goal 10, a "Medium" goal not yet defeated, and a
      caller at level 1 with no experience. */
  ghost predicate Fixture(s: State, uid: Uid, hp: int)
  {
    && Valid(s) && uid in s.users
    && s.users[uid].experience == 0 && s.users[uid].level == 1
    && 1 in s.tasks && s.tasks[1] == TaskRow(Some("Test Task"), false, 0, None, Some("Easy"), uid, Some(10), None)
    && 10 in s.goals && s.goals[10].currentHp == hp && !s.goals[10].defeated
    && s.goals[10].status == Some("Medium")
  }

  /** Completing the fixture's task takes a 100-HP goal to 95 without
      experience, and a 5-HP goal to 0, defeated, with 50 experience for
      the caller. */
  lemma CompletionScenarios(s: State, uid: Uid, today: Day)
    ensures Fixture(s, uid, 100) ==>
      var r := CompleteTaskSpec(s, uid, 1, today, TestConfig());
      && r.state.goals[10].currentHp == 95 && !r.state.goals[10].defeated
      && r.state.users == s.users
      && r.state.tasks[1].completed && r.state.tasks[1].lastCompleted == Some(today)
    ensures Fixture(s, uid, 5) ==>
      var r := CompleteTaskSpec(s, uid, 1, today, TestConfig());
      && r.state.goals[10].currentHp == 0 && r.state.goals[10].defeated
      && r.state.users[uid].experience == 50 && r.state.users[uid].level == 1
  {
    if Fixture(s, uid, 100) || Fixture(s, uid, 5) {
      CompleteDamagesGoal(s, uid, 1, today, TestConfig());
      CompletePendingTask(s, uid, 1, today, TestConfig());
    }
  }

  /** A recurring task completed yesterday with a one-day period is
      reopened, not completed again: it comes back pending with no date and
      its goal keeps its HP. (The service tests expect a second completion
      with damage instead.) */
  lemma RecurringDueTodayReopens(s: State, uid: Uid, today: Day)
    requires Fixture(s, uid, 100)
    ensures var s0 := s.(tasks := s.tasks[1 := s.tasks[1].(completed := true, recurrenceDays := 1, lastCompleted := Some(today - 1))]);
      var r := CompleteTaskSpec(s0, uid, 1, today, TestConfig());
      && r.result.Ok? && !r.result.value.completed && r.result.value.lastCompleted.None?
      && r.state.goals[10].currentHp == 100
  {
    var s0 := s.(tasks := s.tasks[1 := s.tasks[1].(completed := true, recurrenceDays := 1, lastCompleted := Some(today - 1))]);
    CompleteReopensDueTask(s0, uid, 1, today, TestConfig());
  }

  // --------------------------------------------------------------- methods

  method GetTaskById(db: Db, uid: Uid, id: int) returns (r: Result<TaskRow>)
    modifies db
    ensures Reply(r, db.Snapshot()) == GetTaskSpec(old(db.Snapshot()), uid, id)
  {
    var current := GetCurrentUserEntity(db, uid);
    if current.Err? {
      return Err(current.error);
    }
    if id !in db.tasks || db.tasks[id].owner != uid {
      return Err(ResourceNotFound);
    }
    r := Ok(db.tasks[id]);
  }

  method CreateTask(db: Db, uid: Uid, dto: TaskDto) returns (r: Result<int>)
    modifies db
    ensures Reply(r, db.Snapshot()) == CreateTaskSpec(old(db.Snapshot()), uid, dto)
  {
    var current := GetCurrentUserEntity(db, uid);
    if current.Err? {
      return Err(current.error);
    }
    var task := ApplyTaskDto(dto, TaskRow(None, false, 0, None, None, uid, None, None));
    if dto.goalId.Some? {
      var goalId := ParseLong(dto.goalId.value);
      if goalId.None? {
        return Err(NumberFormat);
      }
      if goalId.value !in db.goals || db.goals[goalId.value].owner != uid {
        return Err(InvalidInput);
      }
      task := task.(goal := goalId);
    }
    if dto.parentTaskId.Some? {
      var parentId := ParseLong(dto.parentTaskId.value);
      if parentId.None? {
        return Err(NumberFormat);
      }
      if parentId.value !in db.tasks || db.tasks[parentId.value].owner != uid {
        return Err(InvalidInput);
      }
      task := task.(parentTask := parentId);
    }
    var id := db.nextId;
    db.tasks := db.tasks[id := task];
    db.nextId := id + 1;
    r := Ok(id);
  }

  method UpdateTask(db: Db, uid: Uid, id: int, dto: TaskDto) returns (r: Result<TaskRow>)
    modifies db
    ensures Reply(r, db.Snapshot()) == UpdateTaskSpec(old(db.Snapshot()), uid, id, dto)
  {
    var current := GetCurrentUserEntity(db, uid);
    if current.Err? {
      return Err(current.error);
    }
    if id !in db.tasks || db.tasks[id].owner != uid {
      return Err(ResourceNotFound);
    }
    var task := ApplyTaskDto(dto, db.tasks[id]);
    if dto.goalId.Some? {
      var goalId := ParseLong(dto.goalId.value);
      if goalId.None? {
        return Err(NumberFormat);
      }
      if goalId.value !in db.goals || db.goals[goalId.value].owner != uid {
        return Err(InvalidInput);
      }
      task := task.(goal := goalId);
    } else {
      task := task.(goal := None);
    }
    if dto.parentTaskId.Some? {
      var parentId := ParseLong(dto.parentTaskId.value);
      if parentId.None? {
        return Err(NumberFormat);
      }
      if parentId.value !in db.tasks || db.tasks[parentId.value].owner != uid {
        return Err(InvalidInput);
      }
      task := task.(parentTask := parentId);
    } else {
      task := task.(parentTask := None);
    }
    db.tasks := db.tasks[id := task];
    r := Ok(task);
  }

  method DeleteTask(db: Db, uid: Uid, id: int) returns (r: Result<()>)
    modifies db
    ensures Reply(r, db.Snapshot()) == DeleteTaskSpec(old(db.Snapshot()), uid, id)
  {
    var current := GetCurrentUserEntity(db, uid);
    if current.Err? {
      return Err(current.error);
    }
    if id !in db.tasks || db.tasks[id].owner != uid {
      return Err(ResourceNotFound);
    }
    // the repository's delete, cascading through the sub-tasks
    db.tasks := db.tasks - TaskCascade(db.tasks, {id});
    r := Ok(());
  }

  method CompleteTask(db: Db, uid: Uid, taskId: int, today: Day, cfg: Config) returns (r: Result<TaskRow>)
    modifies db
    ensures Reply(r, db.Snapshot()) == CompleteTaskSpec(old(db.Snapshot()), uid, taskId, today, cfg)
  {
    var current := GetCurrentUserEntity(db, uid);
    if current.Err? {
      return Err(current.error);
    }
    r := CompleteTaskFor(db, current.value, taskId, today, cfg);
  }

  /** The body of `completeTask` after the caller's user is known. */
  method CompleteTaskFor(db: Db, currentUser: User, taskId: int, today: Day, cfg: Config) returns (r: Result<TaskRow>)
    modifies db
    ensures Reply(r, db.Snapshot()) == CompleteAs(old(db.Snapshot()), currentUser, taskId, today, cfg)
  {
    if taskId !in db.tasks || db.tasks[taskId].owner != currentUser.firebaseUid {
      return Err(ResourceNotFound);
    }
    var task := db.tasks[taskId];
    if task.completed {
      if task.recurrenceDays > 0 {
        var lastCompleted := task.lastCompleted;
        var due := lastCompleted.None?
          || lastCompleted.value + task.recurrenceDays < today
          || lastCompleted.value + task.recurrenceDays == today;
        if due {
          task := task.(completed := false);
          task := task.(lastCompleted := None);
        }
      }
    } else {
      task := task.(completed := true);
      task := task.(lastCompleted := Some(today));
      if task.goal.Some? && task.goal.value in db.goals {
        var gid := task.goal.value;
        var goal := new Goal.Load(gid, db.goals[gid]);
        var damage := Damage(cfg, task.difficulty);
        var newHp := goal.currentHp - damage;
        goal.SetCurrentHp(Max(0, newHp));
        if goal.currentHp <= 0 && !goal.defeated {
          goal.SetDefeated(true);
          var xpReward := XpReward(cfg, goal.status);
          var added := AddExperience(db, currentUser.firebaseUid, xpReward);
          if added.Err? {
            return Err(added.error);
          }
        }
        db.goals := db.goals[gid := goal.Row()];
      }
    }
    db.tasks := db.tasks[taskId := task];
    r := Ok(task);
  }
}
