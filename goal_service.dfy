/** `GoalService`: reading, creating, updating, deleting and damaging the
    caller's goals ("bosses"). Each operation first gets or creates the
    caller's user, then answers "not found" for a goal that is missing or
    belongs to someone else. */
module GoalService {
  import opened Common
  import opened JavaLang
  import opened Dto
  import opened GameConfig
  import opened GoalEntity
  import opened Store
  import opened UserService

  // ------------------------------------------------------- specifications

  /** `getGoalById`. */
  function GetGoalSpec(s: State, uid: Uid, id: int): (r: Reply<GoalRow>)
    ensures r.state.goals == s.goals && r.state.tasks == s.tasks
    ensures r.result.Ok? <==> Served(s, uid) && OwnsGoal(s, uid, id)
    ensures r.result.Ok? ==> r.result.value == s.goals[id]
    ensures r.result.Err? && Served(s, uid) ==> r.result.error == ResourceNotFound
  {
    var cu := CurrentUserSpec(s, uid);
    if cu.result.Err? then Reply(Err(cu.result.error), cu.state)
    else if !OwnsGoal(cu.state, uid, id) then Reply(Err(ResourceNotFound), cu.state)
    else Reply(Ok(cu.state.goals[id]), cu.state)
  }

  /** The HP a new goal starts with: the requested maximum when positive,
      otherwise the configured HP for its status (100 when unconfigured). */
  function StartingHp(cfg: Config, dto: GoalDto): int
  {
    if dto.maxHp > 0 then dto.maxHp else DefaultMaxHp(cfg, dto.status)
  }

  /** `createGoal`: the goal is saved under the next id with full HP, not
      defeated, owned by the caller, below the requested parent. */
  function CreateGoalSpec(s: State, uid: Uid, dto: GoalDto, cfg: Config): Reply<int>
  {
    var cu := CurrentUserSpec(s, uid);
    if cu.result.Err? then Reply(Err(cu.result.error), cu.state)
    else CreateGoalAs(cu.state, uid, dto, cfg)
  }

  /** The part of `createGoal` after the caller's user is known. */
  function CreateGoalAs(s: State, uid: Uid, dto: GoalDto, cfg: Config): Reply<int>
  {
    var hp := StartingHp(cfg, dto);
    var parent := LinkGoal(s, uid, dto.parentGoalId);
    if parent.Err? then Reply(Err(parent.error), s)
    else
      var row := GoalRow(dto.title, dto.description, dto.status, uid, parent.value, dto.dueDate, hp, hp, false);
      Reply(Ok(s.nextId), s.(goals := s.goals[s.nextId := row], nextId := s.nextId + 1))
  }

  /** `updateGoalFromDto`: title, description, status and due date are
      copied when present (a `null` keeps the stored value); both HP values
      are always copied; `defeated` and the owner are kept. */
  function ApplyGoalDto(dto: GoalDto, g: GoalRow): (g': GoalRow)
  {
    g.(title := if dto.title.Some? then dto.title else g.title,
       description := if dto.description.Some? then dto.description else g.description,
       status := if dto.status.Some? then dto.status else g.status,
       dueDate := if dto.dueDate.Some? then dto.dueDate else g.dueDate,
       maxHp := dto.maxHp,
       currentHp := dto.currentHp)
  }

  /** `updateGoal`. The parent is replaced by the requested one, or cleared
      when none is sent. */
  function UpdateGoalSpec(s: State, uid: Uid, id: int, dto: GoalDto): Reply<GoalRow>
  {
    var cu := CurrentUserSpec(s, uid);
    if cu.result.Err? then Reply(Err(cu.result.error), cu.state)
    else UpdateGoalAs(cu.state, uid, id, dto)
  }

  /** The part of `updateGoal` after the caller's user is known. */
  function UpdateGoalAs(s: State, uid: Uid, id: int, dto: GoalDto): Reply<GoalRow>
  {
    if !OwnsGoal(s, uid, id) then Reply(Err(ResourceNotFound), s)
    else
      var g := ApplyGoalDto(dto, s.goals[id]);
      var parent := LinkGoal(s, uid, dto.parentGoalId);
      if parent.Err? then Reply(Err(parent.error), s)
      else if dto.id.Some? && dto.id.value != id then Reply(Err(IdentifierAltered), s)
      else
        var g' := g.(parentGoal := parent.value);
        Reply(Ok(g'), s.(goals := s.goals[id := g']))
  }

  /** `deleteGoal`: the goal, its sub-goals below it, the tasks linked to
      any of them and the sub-tasks below those. */
  function DeleteGoalSpec(s: State, uid: Uid, id: int): Reply<()>
  {
    var cu := CurrentUserSpec(s, uid);
    if cu.result.Err? then Reply(Err(cu.result.error), cu.state)
    else DeleteGoalAs(cu.state, uid, id)
  }

  /** The part of `deleteGoal` after the caller's user is known. */
  function DeleteGoalAs(s: State, uid: Uid, id: int): Reply<()>
  {
    if !OwnsGoal(s, uid, id) then Reply(Err(ResourceNotFound), s)
    else
      var removed := Cascade(s.goals, {id});
      Reply(Ok(()), s.(goals := s.goals - removed, tasks := s.tasks - TasksOfCascade(s.tasks, removed)))
  }

  /** `applyDamageToGoal`: HP drops by the difficulty's damage, not below
      zero. The defeated flag is not touched here. */
  function ApplyDamageSpec(s: State, uid: Uid, id: int, difficulty: Option<string>, cfg: Config): Reply<GoalRow>
  {
    var cu := CurrentUserSpec(s, uid);
    if cu.result.Err? then Reply(Err(cu.result.error), cu.state)
    else ApplyDamageAs(cu.state, uid, id, difficulty, cfg)
  }

  /** The part of `applyDamageToGoal` after the caller's user is known. */
  function ApplyDamageAs(s: State, uid: Uid, id: int, difficulty: Option<string>, cfg: Config): Reply<GoalRow>
  {
    if !OwnsGoal(s, uid, id) then Reply(Err(ResourceNotFound), s)
    else
      var g := s.goals[id];
      var g' := g.(currentHp := Max(0, g.currentHp - Damage(cfg, difficulty)));
      Reply(Ok(g'), s.(goals := s.goals[id := g']))
  }

  // ---------------------------------------------------------------- lemmas

  /** A new goal's HP: the requested maximum when positive; otherwise the
      HP configured for its status, or 100 for an unconfigured or missing
      status. It is never negative when the configuration is not. */
  lemma StartingHpChoice(cfg: Config, dto: GoalDto)
    ensures dto.maxHp > 0 ==> StartingHp(cfg, dto) == dto.maxHp
    ensures dto.maxHp <= 0 && dto.status.Some? && dto.status.value in cfg.bossHp ==>
      StartingHp(cfg, dto) == cfg.bossHp[dto.status.value]
    ensures dto.maxHp <= 0 && (dto.status.None? || dto.status.value !in cfg.bossHp) ==>
      StartingHp(cfg, dto) == 100
    ensures NonNegative(cfg) ==> StartingHp(cfg, dto) >= 0
  {
  }

  /** A created goal gets the next id, full HP (current equal to maximum),
      is not defeated, belongs to the caller and carries the body's fields;
      no other row changes. */
  lemma CreateGoalStartsAtFullHp(s: State, uid: Uid, dto: GoalDto, cfg: Config)
    requires Valid(s)
    ensures var r := CreateGoalSpec(s, uid, dto, cfg);
      r.result.Ok? ==>
        var id := r.result.value;
        var g := r.state.goals[id];
        && id == s.nextId && id !in s.goals
        && r.state.goals == s.goals[id := g]
        && r.state.tasks == s.tasks
        && r.state.nextId == s.nextId + 1
        && g.maxHp == g.currentHp == StartingHp(cfg, dto)
        && !g.defeated && g.owner == uid
        && g.title == dto.title && g.description == dto.description
        && g.status == dto.status && g.dueDate == dto.dueDate
        && (g.parentGoal == (if dto.parentGoalId.None? then None else ParseLong(dto.parentGoalId.value)))
        && (g.parentGoal.Some? ==> OwnsGoal(s, uid, g.parentGoal.value))
  {
    CurrentUserKeepsInvariant(s, uid);
  }

  /** Creation fails exactly when the caller cannot be served or a parent
      id is sent that does not parse or does not name a goal of the caller;
      a failure adds no goal. */
  lemma CreateGoalErrors(s: State, uid: Uid, dto: GoalDto, cfg: Config)
    ensures var r := CreateGoalSpec(s, uid, dto, cfg);
      && (r.result.Err? <==>
            || !Served(s, uid)
            || (dto.parentGoalId.Some? &&
                (ParseLong(dto.parentGoalId.value).None? || !OwnsGoal(s, uid, ParseLong(dto.parentGoalId.value).value))))
      && (r.result.Err? ==> r.state.goals == s.goals && r.state.tasks == s.tasks && r.state.nextId == s.nextId)
      && (r.result.Err? && Served(s, uid) ==>
            r.result.error == (if ParseLong(dto.parentGoalId.value).None? then NumberFormat else InvalidInput))
  {
  }

  /** The same, for the part after the caller's user is known. */
  lemma CreateGoalAsKeepsInvariant(s: State, uid: Uid, dto: GoalDto, cfg: Config)
    requires Valid(s)
    ensures var r := CreateGoalAs(s, uid, dto, cfg);
      && Valid(r.state) && OthersUnchanged(s, r.state, uid) && DefeatedKept(s, r.state)
      && (HpNonNegative(s) && NonNegative(cfg) ==> HpNonNegative(r.state))
  {
    var r := CreateGoalAs(s, uid, dto, cfg);
    if r.result.Ok? {
      InsertGoalKeepsValid(s, r.state.goals[s.nextId]);
      StartingHpChoice(cfg, dto);
    }
  }

  /** Creating a goal keeps the store invariant, touches only the caller's
      rows and, with a non-negative configuration, gives no goal negative
      HP. */
  lemma CreateGoalKeepsInvariant(s: State, uid: Uid, dto: GoalDto, cfg: Config)
    requires Valid(s)
    ensures var r := CreateGoalSpec(s, uid, dto, cfg);
      && Valid(r.state) && OthersUnchanged(s, r.state, uid) && DefeatedKept(s, r.state)
      && (HpNonNegative(s) && NonNegative(cfg) ==> HpNonNegative(r.state))
  {
    CurrentUserKeepsInvariant(s, uid);
    var cu := CurrentUserSpec(s, uid);
    if cu.result.Ok? {
      CreateGoalAsKeepsInvariant(cu.state, uid, dto, cfg);
      OthersUnchangedTrans(s, cu.state, CreateGoalSpec(s, uid, dto, cfg).state, uid);
    }
  }

  /** An update keeps the owner and the defeated flag, copies the sent
      fields (a `null` keeps the stored value) and both HP values as sent,
      and sets the parent to the sent one or clears it. No other goal
      changes. */
  lemma UpdateGoalCopiesFields(s: State, uid: Uid, id: int, dto: GoalDto)
    ensures var r := UpdateGoalSpec(s, uid, id, dto);
      r.result.Ok? ==>
        var old_ := s.goals[id];
        var g := r.result.value;
        && OwnsGoal(s, uid, id)
        && r.state.goals == s.goals[id := g]
        && r.state.tasks == s.tasks
        && g.owner == old_.owner && g.defeated == old_.defeated
        && g.title == (if dto.title.Some? then dto.title else old_.title)
        && g.description == (if dto.description.Some? then dto.description else old_.description)
        && g.status == (if dto.status.Some? then dto.status else old_.status)
        && g.dueDate == (if dto.dueDate.Some? then dto.dueDate else old_.dueDate)
        && g.maxHp == dto.maxHp && g.currentHp == dto.currentHp
        && (g.parentGoal == (if dto.parentGoalId.None? then None else ParseLong(dto.parentGoalId.value)))
        && (g.parentGoal.Some? ==> OwnsGoal(s, uid, g.parentGoal.value))
        && (dto.id.None? || dto.id == Some(id))
  {
  }

  /** An update fails exactly when the caller cannot be served, the goal is
      not the caller's, a sent parent id does not parse or does not name a
      goal of the caller, or the body carries a different id (the mapper
      copies it onto the stored goal, whose identifier may not change); a
      failure changes no goal or task. */
  lemma UpdateGoalErrors(s: State, uid: Uid, id: int, dto: GoalDto)
    ensures var r := UpdateGoalSpec(s, uid, id, dto);
      && (r.result.Err? <==>
            || !Served(s, uid)
            || !OwnsGoal(s, uid, id)
            || LinkGoal(s, uid, dto.parentGoalId).Err?
            || (dto.id.Some? && dto.id.value != id))
      && (r.result.Err? ==> r.state.goals == s.goals && r.state.tasks == s.tasks)
      && (r.result.Err? && Served(s, uid) && OwnsGoal(s, uid, id) && LinkGoal(s, uid, dto.parentGoalId).Ok? ==>
            r.result.error == IdentifierAltered)
  {
    var cu := CurrentUserSpec(s, uid);
    if cu.result.Ok? {
      assert cu.state.goals == s.goals;
      assert LinkGoal(cu.state, uid, dto.parentGoalId) == LinkGoal(s, uid, dto.parentGoalId);
    }
  }

  /** Nothing stops a goal from becoming its own parent: an update naming
      the goal itself as parent succeeds. */
  lemma UpdateGoalAllowsSelfParent(s: State, uid: Uid, id: int, dto: GoalDto)
    requires Served(s, uid) && OwnsGoal(s, uid, id)
    requires LONG_MIN <= id <= LONG_MAX
    requires dto.parentGoalId == Some(Show(id))
    requires dto.id.None? || dto.id == Some(id)
    ensures UpdateGoalSpec(s, uid, id, dto).result.Ok?
    ensures UpdateGoalSpec(s, uid, id, dto).state.goals[id].parentGoal == Some(id)
  {
    ParseShow(id);
  }

  /** The same, for the part after the caller's user is known. */
  lemma UpdateGoalAsKeepsInvariant(s: State, uid: Uid, id: int, dto: GoalDto)
    requires Valid(s)
    ensures var r := UpdateGoalAs(s, uid, id, dto);
      && Valid(r.state) && OthersUnchanged(s, r.state, uid) && DefeatedKept(s, r.state)
      && (HpNonNegative(s) && dto.currentHp >= 0 ==> HpNonNegative(r.state))
  {
    var r := UpdateGoalAs(s, uid, id, dto);
    if r.result.Ok? {
      ReplaceGoalKeepsValid(s, id, r.result.value);
    }
  }

  /** Updating a goal keeps the store invariant and touches only the
      caller's rows; it keeps HP non-negative when the body's current HP
      is, as a valid body's is. */
  lemma UpdateGoalKeepsInvariant(s: State, uid: Uid, id: int, dto: GoalDto)
    requires Valid(s)
    ensures var r := UpdateGoalSpec(s, uid, id, dto);
      && Valid(r.state) && OthersUnchanged(s, r.state, uid) && DefeatedKept(s, r.state)
      && (HpNonNegative(s) && dto.currentHp >= 0 ==> HpNonNegative(r.state))
  {
    CurrentUserKeepsInvariant(s, uid);
    var cu := CurrentUserSpec(s, uid);
    if cu.result.Ok? {
      UpdateGoalAsKeepsInvariant(cu.state, uid, id, dto);
      OthersUnchangedTrans(s, cu.state, UpdateGoalSpec(s, uid, id, dto).state, uid);
    }
  }

  /** A delete removes exactly the goal's cascade: the goal and every goal
      below it (and no goal outside the least sub-goal-closed set holding
      it), all of them the caller's; the tasks that go are exactly those
      linked to a removed goal and the tasks below those, all of them the
      caller's; no remaining row is linked to a removed one, and every
      remaining row is unchanged. */
  lemma DeleteGoalCascades(s: State, uid: Uid, id: int)
    requires Valid(s)
    ensures var r := DeleteGoalSpec(s, uid, id);
      r.result.Ok? ==>
        var removed := Cascade(s.goals, {id});
        var gone := TasksOfCascade(s.tasks, removed);
        && OwnsGoal(s, uid, id)
        && id in removed && id !in r.state.goals
        && r.state.goals.Keys == s.goals.Keys - removed
        && (forall g :: g in r.state.goals ==> r.state.goals[g] == s.goals[g])
        && (forall g :: g in removed ==> s.goals[g].owner == uid)
        && (forall g :: g in r.state.goals && s.goals[g].parentGoal.Some? ==> s.goals[g].parentGoal.value !in removed)
        && r.state.tasks.Keys == s.tasks.Keys - gone
        && (forall t :: t in r.state.tasks ==> r.state.tasks[t] == s.tasks[t])
        && (forall t :: t in gone ==> s.tasks[t].owner == uid)
        && (forall t :: t in s.tasks && s.tasks[t].goal.Some? && s.tasks[t].goal.value in removed ==> t in gone)
        && (forall t :: t in r.state.tasks && s.tasks[t].parentTask.Some? ==> s.tasks[t].parentTask.value !in gone)
  {
    CurrentUserKeepsInvariant(s, uid);
    var r := DeleteGoalSpec(s, uid, id);
    if r.result.Ok? {
      CascadeOwned(s, {id}, uid);
      var removed := Cascade(s.goals, {id});
      forall g | g in r.state.goals && s.goals[g].parentGoal.Some?
        ensures s.goals[g].parentGoal.value !in removed
      {
        assert s.goals[g].parentGoal.value in removed ==> g in SubGoalsOf(s.goals, removed);
      }
      var linked := TasksOfGoals(s.tasks, removed);
      forall t | t in linked ensures s.tasks[t].owner == uid {
        assert TaskGoalOk(s, t);
      }
      TaskCascadeOwned(s, linked, uid);
      var gone := TasksOfCascade(s.tasks, removed);
      forall t | t in r.state.tasks && s.tasks[t].parentTask.Some?
        ensures s.tasks[t].parentTask.value !in gone
      {
        assert s.tasks[t].parentTask.value in gone ==> t in SubTasksOf(s.tasks, gone);
      }
    }
  }

  /** The delete removes nothing unrelated: any set `t` holding the goal and
      closed under sub-goals holds every goal the delete removed, and any
      set `u` closed under sub-tasks that holds the tasks linked to a goal
      of `t` holds every task it removed. */
  lemma DeleteGoalRemovesOnlyDescendants(s: State, uid: Uid, id: int, t: set<int>, u: set<int>)
    requires id in t && SubGoalsOf(s.goals, t) <= t
    requires TasksOfGoals(s.tasks, t) <= u && SubTasksOf(s.tasks, u) <= u
    ensures var r := DeleteGoalSpec(s, uid, id);
      r.result.Ok? ==>
        && (forall g :: g in s.goals && g !in r.state.goals ==> g in t)
        && (forall x :: x in s.tasks && x !in r.state.tasks ==> x in u)
  {
    var r := DeleteGoalSpec(s, uid, id);
    if r.result.Ok? {
      ClosureLeast(GoalLinks(s.goals), {id}, t);
      var removed := Cascade(s.goals, {id});
      assert TasksOfGoals(s.tasks, removed) <= TasksOfGoals(s.tasks, t);
      ClosureLeast(TaskLinks(s.tasks), TasksOfGoals(s.tasks, removed), u);
    }
  }

  /** Deleting a goal keeps the store invariant (no sub-goal, task or
      sub-task is left pointing at a removed row) and touches only the
      caller's rows. */
  lemma DeleteGoalKeepsInvariant(s: State, uid: Uid, id: int)
    requires Valid(s)
    ensures var r := DeleteGoalSpec(s, uid, id);
      && Valid(r.state) && OthersUnchanged(s, r.state, uid) && DefeatedKept(s, r.state)
      && (HpNonNegative(s) ==> HpNonNegative(r.state))
  {
    CurrentUserKeepsInvariant(s, uid);
    var r := DeleteGoalSpec(s, uid, id);
    if r.result.Ok? {
      DeleteGoalCascades(s, uid, id);
      var s2 := r.state;
      forall g | g in s2.goals ensures GoalParentOk(s2.goals, g) {
        assert GoalParentOk(s.goals, g);
      }
      forall t | t in s2.tasks ensures TaskGoalOk(s2, t) {
        assert TaskGoalOk(s, t);
      }
      forall t | t in s2.tasks ensures TaskParentOk(s2.tasks, t) {
        assert TaskParentOk(s.tasks, t);
      }
    }
  }

  /** Damage lowers the current HP by the difficulty's configured damage
      (0 for an unknown difficulty) and clamps it at zero; only the current
      HP of that goal changes, and the defeated flag is left alone. */
  lemma ApplyDamageClamps(s: State, uid: Uid, id: int, difficulty: Option<string>, cfg: Config)
    ensures var r := ApplyDamageSpec(s, uid, id, difficulty, cfg);
      && (r.result.Ok? <==> Served(s, uid) && OwnsGoal(s, uid, id))
      && (r.result.Err? ==> r.state.goals == s.goals)
      && (r.result.Ok? ==>
            var g := s.goals[id];
            var hp := r.result.value.currentHp;
            && r.state.goals == s.goals[id := g.(currentHp := hp)]
            && r.state.tasks == s.tasks
            && hp >= 0
            && (hp == 0 <==> g.currentHp <= Damage(cfg, difficulty))
            && (hp > 0 ==> hp == g.currentHp - Damage(cfg, difficulty))
            && (NonNegative(cfg) && g.currentHp >= 0 ==> hp <= g.currentHp))
  {
  }

  /** The service tests' scenarios: with damage 10 for "Medium", a goal at
      50 HP drops to 40 and one at 5 HP to 0. */
  lemma ApplyDamageExamples(s: State, uid: Uid, id: int, cfg: Config)
    requires Served(s, uid) && OwnsGoal(s, uid, id)
    requires cfg.difficultyDamage == map["Easy" := 5, "Medium" := 10]
    ensures s.goals[id].currentHp == 50 ==>
      ApplyDamageSpec(s, uid, id, Some("Medium"), cfg).result.value.currentHp == 40
    ensures s.goals[id].currentHp == 5 ==>
      ApplyDamageSpec(s, uid, id, Some("Medium"), cfg).result.value.currentHp == 0
  {
  }

  /** The same, for the part after the caller's user is known. */
  lemma ApplyDamageAsKeepsInvariant(s: State, uid: Uid, id: int, difficulty: Option<string>, cfg: Config)
    requires Valid(s)
    ensures var r := ApplyDamageAs(s, uid, id, difficulty, cfg);
      && Valid(r.state) && OthersUnchanged(s, r.state, uid) && DefeatedKept(s, r.state)
      && (HpNonNegative(s) ==> HpNonNegative(r.state))
  {
    var r := ApplyDamageAs(s, uid, id, difficulty, cfg);
    if r.result.Ok? {
      ReplaceGoalKeepsValid(s, id, r.result.value);
    }
  }

  /** Damage keeps the store invariant, touches only the caller's rows,
      and never leaves a goal with negative HP. */
  lemma ApplyDamageKeepsInvariant(s: State, uid: Uid, id: int, difficulty: Option<string>, cfg: Config)
    requires Valid(s)
    ensures var r := ApplyDamageSpec(s, uid, id, difficulty, cfg);
      && Valid(r.state) && OthersUnchanged(s, r.state, uid) && DefeatedKept(s, r.state)
      && (HpNonNegative(s) ==> HpNonNegative(r.state))
  {
    CurrentUserKeepsInvariant(s, uid);
    var cu := CurrentUserSpec(s, uid);
    if cu.result.Ok? {
      ApplyDamageAsKeepsInvariant(cu.state, uid, id, difficulty, cfg);
      OthersUnchangedTrans(s, cu.state, ApplyDamageSpec(s, uid, id, difficulty, cfg).state, uid);
    }
  }

  // --------------------------------------------------------------- methods

  method GetGoalById(db: Db, uid: Uid, id: int) returns (r: Result<GoalRow>)
    modifies db
    ensures Reply(r, db.Snapshot()) == GetGoalSpec(old(db.Snapshot()), uid, id)
  {
    var current := GetCurrentUserEntity(db, uid);
    if current.Err? {
      return Err(current.error);
    }
    if id !in db.goals || db.goals[id].owner != uid {
      return Err(ResourceNotFound);
    }
    r := Ok(db.goals[id]);
  }

  /** The mapper's `toEntity`: a new goal carrying every field of the body
      except the ids, the owner, the parent and the defeated flag. */
  method ToEntity(dto: GoalDto) returns (goal: Goal)
    ensures fresh(goal)
    ensures goal.id.None? && goal.user.None? && goal.parentGoal.None? && !goal.defeated
    ensures goal.title == dto.title && goal.description == dto.description
    ensures goal.status == dto.status && goal.dueDate == dto.dueDate
    ensures goal.maxHp == dto.maxHp && goal.currentHp == dto.currentHp
  {
    goal := new Goal();
    goal.SetTitle(dto.title);
    goal.SetDescription(dto.description);
    goal.SetStatus(dto.status);
    goal.SetDueDate(dto.dueDate);
    goal.SetMaxHp(dto.maxHp);
    goal.SetCurrentHp(dto.currentHp);
  }

  method CreateGoal(db: Db, uid: Uid, dto: GoalDto, cfg: Config) returns (r: Result<int>)
    modifies db
    ensures Reply(r, db.Snapshot()) == CreateGoalSpec(old(db.Snapshot()), uid, dto, cfg)
  {
    var current := GetCurrentUserEntity(db, uid);
    if current.Err? {
      return Err(current.error);
    }
    r := CreateGoalFor(db, uid, dto, cfg);
  }

  /** The body of `createGoal` after the caller's user is known. */
  method CreateGoalFor(db: Db, uid: Uid, dto: GoalDto, cfg: Config) returns (r: Result<int>)
    modifies db
    ensures Reply(r, db.Snapshot()) == CreateGoalAs(old(db.Snapshot()), uid, dto, cfg)
  {
    ghost var s0 := db.Snapshot();
    ghost var link := LinkGoal(s0, uid, dto.parentGoalId);
    var goal := ToEntity(dto);
    goal.SetUser(Some(uid));

    var finalMaxHp := if dto.maxHp > 0 then dto.maxHp else DefaultMaxHp(cfg, dto.status);
    goal.SetMaxHp(finalMaxHp);
    goal.SetCurrentHp(finalMaxHp);
    assert finalMaxHp == StartingHp(cfg, dto);

    if dto.parentGoalId.Some? {
      var parentId := ParseLong(dto.parentGoalId.value);
      if parentId.None? {
        return Err(NumberFormat);
      }
      if parentId.value !in db.goals || db.goals[parentId.value].owner != uid {
        return Err(InvalidInput);
      }
      goal.SetParentGoal(parentId);
    }
    assert link == Ok(goal.parentGoal);
    assert db.Snapshot() == s0;
    var id := db.nextId;
    goal.SetId(Some(id));
    assert goal.Row() == GoalRow(dto.title, dto.description, dto.status, uid, link.value,
                                 dto.dueDate, StartingHp(cfg, dto), StartingHp(cfg, dto), false);
    db.goals := db.goals[id := goal.Row()];
    db.nextId := id + 1;
    r := Ok(id);
  }

  /** The mapper's `updateGoalFromDto`, which skips `null` values. */
  method UpdateGoalFromDto(dto: GoalDto, goal: Goal)
    requires goal.user.Some?
    modifies goal
    ensures goal.id == (if dto.id.Some? then dto.id else old(goal.id))
    ensures goal.user == old(goal.user)
    ensures goal.Row() == ApplyGoalDto(dto, old(goal.Row()))
  {
    if dto.id.Some? { goal.SetId(dto.id); }
    if dto.title.Some? { goal.SetTitle(dto.title); }
    if dto.description.Some? { goal.SetDescription(dto.description); }
    if dto.status.Some? { goal.SetStatus(dto.status); }
    if dto.dueDate.Some? { goal.SetDueDate(dto.dueDate); }
    goal.SetMaxHp(dto.maxHp);
    goal.SetCurrentHp(dto.currentHp);
  }

  method UpdateGoal(db: Db, uid: Uid, id: int, dto: GoalDto) returns (r: Result<GoalRow>)
    modifies db
    ensures Reply(r, db.Snapshot()) == UpdateGoalSpec(old(db.Snapshot()), uid, id, dto)
  {
    var current := GetCurrentUserEntity(db, uid);
    if current.Err? {
      return Err(current.error);
    }
    if id !in db.goals || db.goals[id].owner != uid {
      return Err(ResourceNotFound);
    }
    ghost var s1 := db.Snapshot();
    assert s1 == CurrentUserSpec(old(db.Snapshot()), uid).state;
    var goal := new Goal.Load(id, db.goals[id]);
    UpdateGoalFromDto(dto, goal);

    if dto.parentGoalId.Some? {
      var parentId := ParseLong(dto.parentGoalId.value);
      if parentId.None? {
        return Err(NumberFormat);
      }
      if parentId.value !in db.goals || db.goals[parentId.value].owner != uid {
        return Err(InvalidInput);
      }
      goal.SetParentGoal(parentId);
    } else {
      goal.SetParentGoal(None);
    }

    // the save refuses an entity whose identifier the mapper changed
    if goal.id != Some(id) {
      return Err(IdentifierAltered);
    }
    var row := goal.Row();
    db.goals := db.goals[id := row];
    r := Ok(row);
  }

  method DeleteGoal(db: Db, uid: Uid, id: int) returns (r: Result<()>)
    modifies db
    ensures Reply(r, db.Snapshot()) == DeleteGoalSpec(old(db.Snapshot()), uid, id)
  {
    var current := GetCurrentUserEntity(db, uid);
    if current.Err? {
      return Err(current.error);
    }
    if id !in db.goals || db.goals[id].owner != uid {
      return Err(ResourceNotFound);
    }
    // the repository's delete, cascading through sub-goals, their tasks
    // and the sub-tasks of those
    var removed := Cascade(db.goals, {id});
    db.tasks := db.tasks - TasksOfCascade(db.tasks, removed);
    db.goals := db.goals - removed;
    r := Ok(());
  }

  method ApplyDamageToGoal(db: Db, uid: Uid, id: int, difficulty: Option<string>, cfg: Config)
    returns (r: Result<GoalRow>)
    modifies db
    ensures Reply(r, db.Snapshot()) == ApplyDamageSpec(old(db.Snapshot()), uid, id, difficulty, cfg)
  {
    var current := GetCurrentUserEntity(db, uid);
    if current.Err? {
      return Err(current.error);
    }
    if id !in db.goals || db.goals[id].owner != uid {
      return Err(ResourceNotFound);
    }
    var goal := new Goal.Load(id, db.goals[id]);
    var damage := Damage(cfg, difficulty);
    var newHp := goal.currentHp - damage;
    goal.SetCurrentHp(Max(0, newHp));
    var row := goal.Row();
    db.goals := db.goals[id := row];
    r := Ok(row);
  }
}
