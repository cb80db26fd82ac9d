/** The request bodies of the task and goal endpoints and their
    bean-validation constraints (`@NotBlank`, `@Size`, `@Min`, `@NotNull`),
    written as validity predicates. Dates are day numbers. */
module Dto {
  import opened Common
  import opened Text
  import opened JavaLang

  type Day = int

  /** A task as the client sends it. Ids travel as strings. */
  datatype TaskDto = TaskDto(
    id: Option<int>,
    title: Option<string>,
    completed: bool,
    goalId: Option<string>,
    parentTaskId: Option<string>,
    userId: Option<string>,
    recurrenceDays: int,
    lastCompleted: Option<Day>,
    difficulty: Option<string>)

  /** A goal ("boss") as the client sends it. */
  datatype GoalDto = GoalDto(
    id: Option<int>,
    title: Option<string>,
    description: Option<string>,
    status: Option<string>,
    userId: Option<string>,
    parentGoalId: Option<string>,
    dueDate: Option<Day>,
    maxHp: int,
    currentHp: int)

  /** `@Size(max = n)`: `null` passes; otherwise at most `n` UTF-16 units. */
  predicate SizeAtMost(s: Option<string>, n: nat)
  {
    s.None? || JavaLength(s.value) <= n
  }

  /** The constraints declared on `TaskDto`'s fields. */
  predicate ValidTaskDto(dto: TaskDto)
  {
    && NotBlank(dto.title) && SizeAtMost(dto.title, 255)
    && NotBlank(dto.userId)
    && dto.recurrenceDays >= 0
    && NotBlank(dto.difficulty)
  }

  /** The constraints declared on `GoalDto`'s fields. */
  predicate ValidGoalDto(dto: GoalDto)
  {
    && NotBlank(dto.title) && SizeAtMost(dto.title, 255)
    && SizeAtMost(dto.description, 1000)
    && NotBlank(dto.status)
    && NotBlank(dto.userId)
    && dto.dueDate.Some?
    && dto.maxHp >= 0
    && dto.currentHp >= 0
  }

  /** Present and holding at least one character above U+0020. */
  ghost predicate HasVisibleChar(s: Option<string>)
  {
    s.Some? && exists i :: 0 <= i < |s.value| && !IsTrimmable(s.value[i])
  }

  /** A task body is accepted exactly when its title, user id and
      difficulty each hold a visible character, the title fits in 255
      code units and the recurrence is not negative. Goal id, parent task
      id and last-completed date are unconstrained: any value, `null`
      included, is accepted. */
  lemma TaskDtoValidIff(dto: TaskDto)
    ensures ValidTaskDto(dto) <==>
      && HasVisibleChar(dto.title) && JavaLength(dto.title.value) <= 255
      && HasVisibleChar(dto.userId)
      && dto.recurrenceDays >= 0
      && HasVisibleChar(dto.difficulty)
    ensures ValidTaskDto(dto) ==>
      ValidTaskDto(dto.(goalId := None, parentTaskId := None, lastCompleted := None, id := None))
  {
    NotBlankIff(dto.title);
    NotBlankIff(dto.userId);
    NotBlankIff(dto.difficulty);
  }

  /** A goal body is accepted exactly when title, status and user id each
      hold a visible character, the title fits in 255 code units, the
      description (if any) in 1000, a due date is given and neither HP
      value is negative. The parent goal id may be `null`. */
  lemma GoalDtoValidIff(dto: GoalDto)
    ensures ValidGoalDto(dto) <==>
      && HasVisibleChar(dto.title) && JavaLength(dto.title.value) <= 255
      && (dto.description.Some? ==> JavaLength(dto.description.value) <= 1000)
      && HasVisibleChar(dto.status)
      && HasVisibleChar(dto.userId)
      && dto.dueDate.Some?
      && dto.maxHp >= 0 && dto.currentHp >= 0
    ensures ValidGoalDto(dto) ==> ValidGoalDto(dto.(parentGoalId := None, description := None))
  {
    NotBlankIff(dto.title);
    NotBlankIff(dto.status);
    NotBlankIff(dto.userId);
  }

  /** No constraint ties the current HP to the maximum: a body whose
      current HP exceeds its maximum is accepted. */
  lemma CurrentHpNotBoundedByMaxHp()
    ensures ValidGoalDto(GoalDto(None, Some("Boss"), None, Some("Easy"), Some("uid"), None, Some(0), 10, 500))
  {
    assert !IsTrimmable("Boss"[0]) && !IsTrimmable("Easy"[0]) && !IsTrimmable("uid"[0]);
    NotBlankIff(Some("Boss"));
    NotBlankIff(Some("Easy"));
    NotBlankIff(Some("uid"));
    JavaLengthBounds("Boss");
  }
}
