# goal-raiders in Dafny

goal-raiders is a to-do application dressed as a game. Goals are "bosses" with hit points. Tasks are linked to a goal. Completing a task damages the task's boss. Defeating a boss gives the player experience and, at 100 points, a level.

This project models the core of the game and proves properties of the model:

- **The Spring back end.**
  - `TaskService`, `GoalService` and `UserService` as pure transition functions over the three tables (`Store.State`).
  - Next to each function, an imperative method on `Store.Db` (the repositories). Each method is proved to produce exactly that transition.
  - The `Goal` entity as a class with its setters.
  - The request bodies (`TaskDto`, `GoalDto`) and their validation constraints.
  - The game configuration tables.
  - `FirebaseAuthenticationFilter`, the per-request token check.
- **The Firebase Cloud Function `completeTask`.** The callable runs as a method over a Firestore class. It is proved equal to a transition function. Failing SDK calls are a parameter.
- **The web client.**
  - `getIndexFromId`, the 32-bit string hash that picks a boss design. It is written with its loop and proved equal to Java's `String.hashCode` polynomial, wrapped to 32 bits.
  - The boss context's selection rule: which boss is current after the goal list is fetched.

Every back-end operation first does get-or-create of the signed-in user (`getCurrentUserEntity`), as the source does. The `XxxSpec` functions therefore run `CurrentUserSpec` first, then the `XxxAs` part that knows the caller.

Some proofs relate several operations:

- The store invariant (`Store.Valid`): every link points at an existing row of the same owner, and every id lies below the id counter.
- Ownership isolation (`Store.OthersUnchanged`): an operation touches nothing of another user.
- A defeated goal stays defeated.
- HP stays non-negative.
- A goal delete removes exactly its cascade: its sub-goals, the tasks linked to any of them, and their sub-tasks. A task delete removes exactly the task and its sub-tasks.
- The completion life cycle of one-shot and recurring tasks.

External inputs are parameters:

- the current date (`today`, `now`);
- the signed-in uid;
- the configuration tables;
- Firebase's token verification (a function from token to verdict);
- the failing Firestore calls (`CloudFunction.Fault`).

The source cells below give paths relative to the repository root.

## Model

| member | source | states |
|---|---|---|
| Text.EncodeChar | backend/backend/src/main/java/com/goalraiders/backend/dto/TaskDto.java:12 | A character outside the Basic Multilingual Plane takes two UTF-16 units (a surrogate pair), any other takes one, so `@Size` counts units, not characters |
| Text.JavaLengthBounds | backend/backend/src/main/java/com/goalraiders/backend/dto/GoalDto.java:13-15 | `String.length()` is between the number of characters and twice it, and equals it in the Basic Multilingual Plane |
| Text.Utf16OfBasicPlane | src/Boss.js:24 | In the Basic Multilingual Plane, `charCodeAt(i)` is the code of the i-th character |
| JavaLang.TrimStartEmpty | backend/backend/src/main/java/com/goalraiders/backend/dto/TaskDto.java:11 | Trimming the front leaves nothing exactly when every character is at most U+0020; otherwise it leaves a visible first character |
| JavaLang.TrimEndEmpty | backend/backend/src/main/java/com/goalraiders/backend/dto/TaskDto.java:11 | The same for trimming the end |
| JavaLang.NotBlankIff | backend/backend/src/main/java/com/goalraiders/backend/dto/TaskDto.java:11 | `@NotBlank` holds exactly when the value is present and has a character above U+0020 |
| JavaLang.ParseLong | backend/backend/src/main/java/com/goalraiders/backend/service/TaskService.java:57 | `Long.parseLong` succeeds exactly on an optional `+` or `-` followed by one or more digits whose signed value fits in a `long`, and returns that signed decimal value; a string starting with any other character fails |
| JavaLang.DigitsRoundTrip | backend/backend/src/main/java/com/goalraiders/backend/service/TaskService.java:57 | The decimal digits of n are non-empty, all digits, and denote n again |
| JavaLang.ParseShow | backend/backend/src/main/java/com/goalraiders/backend/service/GoalService.java:59 | Every `long` written in decimal parses back to itself, so an id the client received can be sent back as a link |
| JavaLang.ParseShowNatural | backend/backend/src/main/java/com/goalraiders/backend/service/GoalService.java:59 | The round trip for a non-negative `long` |
| JavaLang.ParseShowNegative | backend/backend/src/main/java/com/goalraiders/backend/service/GoalService.java:59 | The round trip for a negative `long` |
| Dto.TaskDtoValidIff | backend/backend/src/main/java/com/goalraiders/backend/dto/TaskDto.java:11-23 | A task body is valid exactly when title, user id and difficulty are not blank, the title has at most 255 units and the recurrence is not negative; the links and `completed` are unconstrained |
| Dto.GoalDtoValidIff | backend/backend/src/main/java/com/goalraiders/backend/dto/GoalDto.java:12-27 | A goal body is valid exactly when title, status and user id are not blank, the title has at most 255 and the description at most 1000 units, the due date is present and both HP values are non-negative; parent and description are optional |
| Dto.ValidTaskDto | backend/backend/src/main/java/com/goalraiders/backend/dto/TaskDto.java:11-23 | The bean-validation constraints of a task body |
| Dto.ValidGoalDto | backend/backend/src/main/java/com/goalraiders/backend/dto/GoalDto.java:12-27 | The bean-validation constraints of a goal body |
| Dto.CurrentHpNotBoundedByMaxHp | backend/backend/src/main/java/com/goalraiders/backend/dto/GoalDto.java:24-27 | A body whose current HP exceeds its maximum HP is valid |
| GameConfig.Damage | backend/backend/src/main/java/com/goalraiders/backend/service/TaskService.java:147 | A difficulty's damage is its configured value, or 0 when absent; it is non-negative for a non-negative configuration |
| GameConfig.DefaultMaxHp | backend/backend/src/main/java/com/goalraiders/backend/service/GoalService.java:54 | A configured status gets its configured HP and any other status, or none, gets 100; non-negative for a non-negative configuration |
| GameConfig.XpReward | backend/backend/src/main/java/com/goalraiders/backend/service/TaskService.java:153 | A configured status gets its configured experience reward and any other status, or none, gets 0; non-negative for a non-negative configuration |
| GoalEntity.Goal.constructor | backend/backend/src/main/java/com/goalraiders/backend/Goal.java:14-38 | A new `Goal` has no id and no references, empty relation lists, zero HP and is not defeated |
| GoalEntity.Goal.Load | backend/backend/src/main/java/com/goalraiders/backend/Goal.java:14-38 | A goal loaded by id carries that id, its owner and exactly the stored columns |
| GoalEntity.Goal.SetDefeated | backend/backend/src/main/java/com/goalraiders/backend/Goal.java:45-47 | Sets `defeated` and may change no other field |
| GoalEntity.Goal.SetId | backend/backend/src/main/java/com/goalraiders/backend/Goal.java:52-54 | Sets `id` and may change no other field |
| GoalEntity.Goal.SetTitle | backend/backend/src/main/java/com/goalraiders/backend/Goal.java:60-62 | Sets `title` and may change no other field |
| GoalEntity.Goal.SetDescription | backend/backend/src/main/java/com/goalraiders/backend/Goal.java:68-70 | Sets `description` and may change no other field |
| GoalEntity.Goal.SetStatus | backend/backend/src/main/java/com/goalraiders/backend/Goal.java:76-78 | Sets `status` and may change no other field |
| GoalEntity.Goal.SetUser | backend/backend/src/main/java/com/goalraiders/backend/Goal.java:84-86 | Sets the owner and may change no other field |
| GoalEntity.Goal.SetParentGoal | backend/backend/src/main/java/com/goalraiders/backend/Goal.java:92-94 | Sets the parent goal and may change no other field |
| GoalEntity.Goal.SetSubGoals | backend/backend/src/main/java/com/goalraiders/backend/Goal.java:100-102 | Sets the sub-goal list and may change no other field |
| GoalEntity.Goal.SetTasks | backend/backend/src/main/java/com/goalraiders/backend/Goal.java:108-110 | Sets the task list and may change no other field |
| GoalEntity.Goal.SetDueDate | backend/backend/src/main/java/com/goalraiders/backend/Goal.java:116-118 | Sets the due date and may change no other field |
| GoalEntity.Goal.SetMaxHp | backend/backend/src/main/java/com/goalraiders/backend/Goal.java:124-126 | Sets the maximum HP and may change no other field |
| GoalEntity.Goal.SetCurrentHp | backend/backend/src/main/java/com/goalraiders/backend/Goal.java:132-134 | Sets the current HP and may change no other field |
| Store.SameLinksKeepValid | backend/backend/src/main/java/com/goalraiders/backend/service/TaskService.java:141-161 | A change to fields that no link depends on keeps the store invariant |
| Store.InsertTaskKeepsValid | backend/backend/src/main/java/com/goalraiders/backend/service/TaskService.java:72 | Saving a new task, with links to the owner's rows, under the next id keeps the invariant |
| Store.ReplaceTaskKeepsValid | backend/backend/src/main/java/com/goalraiders/backend/service/TaskService.java:107 | Overwriting a task with a row of the same owner whose links are valid keeps the invariant |
| Store.InsertGoalKeepsValid | backend/backend/src/main/java/com/goalraiders/backend/service/GoalService.java:66 | Saving a new goal below a goal of the same owner keeps the invariant |
| Store.ReplaceGoalKeepsValid | backend/backend/src/main/java/com/goalraiders/backend/service/GoalService.java:91 | Overwriting a goal with a row of the same owner below a goal of that owner keeps the invariant |
| Store.OthersUnchangedTrans | backend/backend/src/main/java/com/goalraiders/backend/service/UserService.java:38-47 | Ownership isolation composes: get-or-create followed by the operation still touches only the caller's rows |
| Store.LinkGoal | backend/backend/src/main/java/com/goalraiders/backend/service/TaskService.java:56-62 | A missing goal id links nothing; a sent one links exactly the goal `Long.parseLong` reads from it, fails with a number-format error exactly when it does not parse, and otherwise succeeds exactly when the caller owns that goal, failing with invalid input |
| Store.LinkTask | backend/backend/src/main/java/com/goalraiders/backend/service/TaskService.java:64-70 | The same for the parent task id: the link is exactly the parsed id, and the two errors arise exactly as for goals |
| Store.Closure | backend/backend/src/main/java/com/goalraiders/backend/Goal.java:28-29 | The rows a cascading delete of some rows removes: they contain those rows, exist, and include every child of a removed row |
| Store.ClosureLeast | backend/backend/src/main/java/com/goalraiders/backend/Goal.java:28-29 | The closure is the least such set: any set holding the deleted rows and closed under children contains it, so nothing unrelated is removed |
| Store.Cascade | backend/backend/src/main/java/com/goalraiders/backend/Goal.java:28-29 | The goals a goal delete removes contain the deleted goal, exist, and include every sub-goal of a removed goal |
| Store.TasksOfGoals | backend/backend/src/main/java/com/goalraiders/backend/Goal.java:31-32 | The tasks a goal's `tasks` collection holds: every task linked to one of the goals, and only tasks that exist |
| Store.TaskCascade | backend/backend/src/main/java/com/goalraiders/backend/service/TaskService.java:120 | The tasks a task delete removes contain the deleted task, exist, and include every sub-task of a removed task |
| Store.TasksOfCascade | backend/backend/src/main/java/com/goalraiders/backend/Goal.java:31-32 | The tasks a goal delete removes contain every task linked to a removed goal and every sub-task of a removed task |
| Store.CascadeOwned | backend/backend/src/main/java/com/goalraiders/backend/Goal.java:24-29 | In a valid store the cascade from the caller's goals holds only the caller's goals |
| Store.TaskCascadeOwned | backend/backend/src/main/java/com/goalraiders/backend/service/TaskService.java:116-120 | In a valid store the cascade from the caller's tasks holds only the caller's tasks |
| Store.Db.constructor | backend/backend/src/main/java/com/goalraiders/backend/Goal.java:12-14 | The repositories start empty and valid, with generated ids starting at 1 |
| UserService.CurrentUserSpec | backend/backend/src/main/java/com/goalraiders/backend/service/UserService.java:38-47 | A known uid returns its user and changes nothing; an unknown one creates and saves a user, unless the uid is shorter than 8 UTF-16 code units (`substring(0, 8)` fails); goals and tasks never change |
| UserService.NewUser | backend/backend/src/main/java/com/goalraiders/backend/service/UserService.java:41-45 | The user made for a first-time uid: that uid, `User_` and its first 8 code units as username, uid@example.com, no experience, level 1 |
| UserService.Served | backend/backend/src/main/java/com/goalraiders/backend/service/UserService.java:38-47 | Get-or-create succeeds exactly for a stored uid or one of at least 8 code units |
| UserService.LevelUp | backend/backend/src/main/java/com/goalraiders/backend/service/UserService.java:51-60 | Adding experience conserves 100 × level + experience, and changes no other field of the user |
| UserService.AddExperienceSpec | backend/backend/src/main/java/com/goalraiders/backend/service/UserService.java:49-62 | An unknown uid fails with "User not found"; a known user gets `LevelUp` and nothing else changes |
| UserService.AddExperienceUnknownUser | backend/backend/src/main/java/com/goalraiders/backend/service/UserService.java:50 | An unknown uid fails with "User not found" and nothing changes |
| UserService.AddExperienceCarry | backend/backend/src/main/java/com/goalraiders/backend/service/UserService.java:51-61 | For a known user, at most one level is gained, and only when the sum reaches 100; only that user changes |
| UserService.ExperienceBelowHundred | backend/backend/src/main/java/com/goalraiders/backend/service/UserService.java:54-57 | A gain of at most 100 keeps experience in 0..99; a sum of 200 or more leaves experience at 100 or above (one carry only) |
| UserService.AddExperienceExamples | backend/backend/src/test/java/com/goalraiders/backend/service/UserServiceTest.java:138-163 | 50 + 30 stays at level 1 with 80; 90 + 20 goes to level 2 with 10 |
| UserService.CurrentUserIdempotent | backend/backend/src/main/java/com/goalraiders/backend/service/UserService.java:38-47 | Asking again returns the same user and changes nothing more |
| UserService.CurrentUserCreated | backend/backend/src/main/java/com/goalraiders/backend/service/UserService.java:41-45 | A new user is named `User_` plus the first 8 UTF-16 code units of the uid (13 units in all), with e-mail uid@example.com, no experience and level 1 |
| UserService.CurrentUserKeepsInvariant | backend/backend/src/main/java/com/goalraiders/backend/service/UserService.java:38-47 | Get-or-create keeps the store invariant and touches no other user |
| UserService.AddExperienceKeepsInvariant | backend/backend/src/main/java/com/goalraiders/backend/service/UserService.java:49-62 | Adding experience keeps the invariant and touches no other user |
| UserService.GetCurrentUserEntity | backend/backend/src/main/java/com/goalraiders/backend/service/UserService.java:38-47 | The repository-level get-or-create returns and saves exactly what `CurrentUserSpec` says |
| UserService.AddExperience | backend/backend/src/main/java/com/goalraiders/backend/service/UserService.java:49-62 | The repository-level update is exactly `AddExperienceSpec` |
| GoalService.GetGoalSpec | backend/backend/src/main/java/com/goalraiders/backend/service/GoalService.java:39-47 | Returns the goal exactly when it exists and belongs to the caller; a missing goal and another user's goal give the same not-found error; no goal or task changes |
| GoalService.StartingHp | backend/backend/src/main/java/com/goalraiders/backend/service/GoalService.java:54 | The requested maximum HP when positive, else the status's configured HP |
| GoalService.ApplyGoalDto | backend/backend/src/main/java/com/goalraiders/backend/dto/mapper/GoalMapper.java:28-29 | The columns after the mapper: each present text field and the due date copied, both HP values copied, owner, parent and defeated flag kept |
| GoalService.CreateGoalSpec | backend/backend/src/main/java/com/goalraiders/backend/service/GoalService.java:49-68 | `createGoal`: get-or-create of the caller, then `CreateGoalAs` |
| GoalService.CreateGoalAs | backend/backend/src/main/java/com/goalraiders/backend/service/GoalService.java:51-67 | The new goal under the next id with starting HP at full, after the parent link is resolved |
| GoalService.UpdateGoalSpec | backend/backend/src/main/java/com/goalraiders/backend/service/GoalService.java:70-93 | `updateGoal`: get-or-create of the caller, then `UpdateGoalAs` |
| GoalService.UpdateGoalAs | backend/backend/src/main/java/com/goalraiders/backend/service/GoalService.java:72-92 | Ownership check, mapping, parent link, then the save, which refuses a body id other than the goal's |
| GoalService.DeleteGoalSpec | backend/backend/src/main/java/com/goalraiders/backend/service/GoalService.java:95-105 | `deleteGoal`: get-or-create of the caller, then `DeleteGoalAs` |
| GoalService.DeleteGoalAs | backend/backend/src/main/java/com/goalraiders/backend/service/GoalService.java:97-104 | Ownership check, then removal of the goal's cascade and of the tasks that cascade takes with it |
| GoalService.ApplyDamageSpec | backend/backend/src/main/java/com/goalraiders/backend/service/GoalService.java:107-122 | `applyDamageToGoal`: get-or-create of the caller, then `ApplyDamageAs` |
| GoalService.ApplyDamageAs | backend/backend/src/main/java/com/goalraiders/backend/service/GoalService.java:109-121 | Ownership check, then the current HP lowered by the damage and floored at 0 |
| GoalService.StartingHpChoice | backend/backend/src/main/java/com/goalraiders/backend/service/GoalService.java:54 | A new goal's HP is the requested maximum when positive, else the status's configured HP, else 100; it is non-negative for a non-negative configuration |
| GoalService.CreateGoalStartsAtFullHp | backend/backend/src/main/java/com/goalraiders/backend/service/GoalService.java:49-68 | A created goal gets the next id, current HP equal to maximum HP, is not defeated, belongs to the caller, carries the body's fields, and links exactly the parent that `parentGoalId` names, one of the caller's, or none when it is null; nothing else changes |
| GoalService.CreateGoalErrors | backend/backend/src/main/java/com/goalraiders/backend/service/GoalService.java:58-62 | Creation fails exactly when the caller cannot be served, or the parent id does not parse (number format) or names no goal of the caller (invalid input); a failure adds no goal |
| GoalService.CreateGoalAsKeepsInvariant | backend/backend/src/main/java/com/goalraiders/backend/service/GoalService.java:51-67 | Once the caller is known, creation keeps the invariant, touches only the caller's rows, keeps defeated goals defeated and HP non-negative |
| GoalService.CreateGoalKeepsInvariant | backend/backend/src/main/java/com/goalraiders/backend/service/GoalService.java:49-68 | `createGoal` keeps the invariant, touches only the caller's rows, keeps defeated goals defeated and HP non-negative |
| GoalService.UpdateGoalCopiesFields | backend/backend/src/main/java/com/goalraiders/backend/service/GoalService.java:70-93 | A successful update has a body id that is absent or the goal's own; it keeps owner and defeated flag, copies each sent text field (a null keeps the stored one), copies both HP values, and sets the parent to exactly the goal `parentGoalId` names, or clears it when that is null; nothing else changes |
| GoalService.UpdateGoalErrors | backend/backend/src/main/java/com/goalraiders/backend/service/GoalService.java:70-93 | An update fails exactly when the caller cannot be served, the goal is not the caller's, the parent id is bad, or the body carries another id (the mapper copies it and the save refuses the changed identifier); a failure changes no goal or task |
| GoalService.UpdateGoalAllowsSelfParent | backend/backend/src/main/java/com/goalraiders/backend/service/GoalService.java:81-86 | A goal can be made its own parent: nothing rejects the cycle |
| GoalService.UpdateGoalAsKeepsInvariant | backend/backend/src/main/java/com/goalraiders/backend/service/GoalService.java:72-92 | Once the caller is known, the update keeps the invariant, touches only the caller's rows and keeps defeated goals defeated |
| GoalService.UpdateGoalKeepsInvariant | backend/backend/src/main/java/com/goalraiders/backend/service/GoalService.java:70-93 | `updateGoal` keeps the invariant and isolation; HP stays non-negative when the body's current HP is |
| GoalService.DeleteGoalCascades | backend/backend/src/main/java/com/goalraiders/backend/service/GoalService.java:95-105 | A delete removes exactly the goal's cascade and exactly the tasks linked to a removed goal with their sub-tasks, all of them the caller's; no remaining goal or task points at a removed one; remaining rows are unchanged |
| GoalService.DeleteGoalRemovesOnlyDescendants | backend/backend/src/main/java/com/goalraiders/backend/service/GoalService.java:104 | Every removed goal lies in any set that holds the goal and is closed under sub-goals, and every removed task in any set closed under sub-tasks that holds the tasks of such a goal set |
| GoalService.DeleteGoalKeepsInvariant | backend/backend/src/main/java/com/goalraiders/backend/service/GoalService.java:95-105 | Deleting keeps the invariant (no goal, task or sub-task is left pointing at a removed row) and touches only the caller's rows |
| GoalService.ApplyDamageClamps | backend/backend/src/main/java/com/goalraiders/backend/service/GoalService.java:107-122 | Damage succeeds exactly for the caller's goal; it lowers only that goal's current HP by the configured damage, floored at 0, and never raises it; the defeated flag is left alone |
| GoalService.ApplyDamageExamples | backend/backend/src/test/java/com/goalraiders/backend/service/GoalServiceTest.java:254-278 | With "Medium" at 10, 50 HP drops to 40 and 5 HP to 0 |
| GoalService.ApplyDamageAsKeepsInvariant | backend/backend/src/main/java/com/goalraiders/backend/service/GoalService.java:109-121 | Once the caller is known, damage keeps the invariant, isolation and non-negative HP |
| GoalService.ApplyDamageKeepsInvariant | backend/backend/src/main/java/com/goalraiders/backend/service/GoalService.java:107-122 | `applyDamageToGoal` keeps the invariant, isolation and non-negative HP |
| GoalService.GetGoalById | backend/backend/src/main/java/com/goalraiders/backend/service/GoalService.java:39-47 | The repository-level read is exactly `GetGoalSpec` |
| GoalService.ToEntity | backend/backend/src/main/java/com/goalraiders/backend/service/GoalService.java:51 | The mapped entity is new, has no id, owner or parent, is not defeated and carries the body's text fields, due date and HP values |
| GoalService.CreateGoal | backend/backend/src/main/java/com/goalraiders/backend/service/GoalService.java:49-68 | The entity-level `createGoal` is exactly `CreateGoalSpec` |
| GoalService.CreateGoalFor | backend/backend/src/main/java/com/goalraiders/backend/service/GoalService.java:51-67 | Its body after the caller is known is exactly `CreateGoalAs` |
| GoalService.UpdateGoalFromDto | backend/backend/src/main/java/com/goalraiders/backend/dto/mapper/GoalMapper.java:28-29 | The in-place mapping copies the body's id when present, keeps the owner and leaves the entity's columns as `ApplyGoalDto` says |
| GoalService.UpdateGoal | backend/backend/src/main/java/com/goalraiders/backend/service/GoalService.java:70-93 | The entity-level `updateGoal` is exactly `UpdateGoalSpec` |
| GoalService.DeleteGoal | backend/backend/src/main/java/com/goalraiders/backend/service/GoalService.java:95-105 | The repository-level delete, with its cascade, is exactly `DeleteGoalSpec` |
| GoalService.ApplyDamageToGoal | backend/backend/src/main/java/com/goalraiders/backend/service/GoalService.java:107-122 | The entity-level damage is exactly `ApplyDamageSpec` |
| TaskService.GetTaskSpec | backend/backend/src/main/java/com/goalraiders/backend/service/TaskService.java:41-49 | Returns the task exactly when it exists and belongs to the caller; otherwise not found; no goal or task changes |
| TaskService.ApplyTaskDto | backend/backend/src/main/java/com/goalraiders/backend/dto/mapper/TaskMapper.java:18-22 | The columns after the mapper: title, completed flag, recurrence, last completion and difficulty copied; owner and links kept |
| TaskService.CreateTaskSpec | backend/backend/src/main/java/com/goalraiders/backend/service/TaskService.java:51-74 | `createTask`: get-or-create of the caller, then `CreateTaskAs` |
| TaskService.CreateTaskAs | backend/backend/src/main/java/com/goalraiders/backend/service/TaskService.java:53-73 | The goal link, then the parent link, then the new task under the next id |
| TaskService.UpdateTaskSpec | backend/backend/src/main/java/com/goalraiders/backend/service/TaskService.java:76-109 | `updateTask`: get-or-create of the caller, then `UpdateTaskAs` |
| TaskService.UpdateTaskAs | backend/backend/src/main/java/com/goalraiders/backend/service/TaskService.java:78-108 | Ownership check, mapping, goal link, parent link, then the save |
| TaskService.DeleteTaskSpec | backend/backend/src/main/java/com/goalraiders/backend/service/TaskService.java:111-121 | `deleteTask`: get-or-create of the caller, then `DeleteTaskAs` |
| TaskService.DeleteTaskAs | backend/backend/src/main/java/com/goalraiders/backend/service/TaskService.java:113-120 | Ownership check, then removal of the task and every task below it |
| TaskService.Due | backend/backend/src/main/java/com/goalraiders/backend/service/TaskService.java:133-136 | A recurring task is due when it has no completion date or its date plus the period is not after today |
| TaskService.CompleteTaskSpec | backend/backend/src/main/java/com/goalraiders/backend/service/TaskService.java:123-163 | `completeTask`: get-or-create of the caller, then `CompleteAs` |
| TaskService.CompleteAs | backend/backend/src/main/java/com/goalraiders/backend/service/TaskService.java:125-162 | Ownership check; a completed task is reopened when recurring and due, else kept; a pending one is completed today and damages its goal, defeating it and awarding experience at 0 HP |
| TaskService.TaskNotFound | backend/backend/src/main/java/com/goalraiders/backend/service/TaskService.java:43-47 | Another user's task, like a missing one, gives not-found for get, update, delete and complete |
| TaskService.CreateTaskLinks | backend/backend/src/main/java/com/goalraiders/backend/service/TaskService.java:51-74 | A created task gets the next id, belongs to the caller, carries the body's fields, and links exactly the goal and parent task the body's ids parse to, both the caller's, or none for a null id; nothing else changes |
| TaskService.CreateTaskErrors | backend/backend/src/main/java/com/goalraiders/backend/service/TaskService.java:56-70 | Creation fails exactly when the caller cannot be served or a link is bad; the goal link is checked first; the error is number-format or invalid-input by cause; a failure saves no task |
| TaskService.UpdateTaskCopiesFields | backend/backend/src/main/java/com/goalraiders/backend/service/TaskService.java:76-109 | An update of the caller's task fails exactly on a bad link; on success it keeps the owner, copies the five fields, and sets each link to exactly the row the body's id parses to, or clears it for a null id; nothing else changes |
| TaskService.UpdateTaskAllowsSelfParent | backend/backend/src/main/java/com/goalraiders/backend/service/TaskService.java:97-102 | A task can be made its own parent |
| TaskService.DeleteTaskCascades | backend/backend/src/main/java/com/goalraiders/backend/service/TaskService.java:111-121 | A delete removes exactly the task and every task below it, all of them the caller's; no remaining task has a removed parent; remaining tasks and all goals are unchanged |
| TaskService.DeleteTaskRemovesOnlyDescendants | backend/backend/src/main/java/com/goalraiders/backend/service/TaskService.java:120 | Every removed task lies in any set that holds the task and is closed under sub-tasks |
| TaskService.CreateTaskAsKeepsInvariant | backend/backend/src/main/java/com/goalraiders/backend/service/TaskService.java:53-73 | Once the caller is known, creation keeps the invariant and isolation |
| TaskService.CreateTaskKeepsInvariant | backend/backend/src/main/java/com/goalraiders/backend/service/TaskService.java:51-74 | `createTask` keeps the invariant, isolation, defeated flags and non-negative HP |
| TaskService.UpdateTaskAsKeepsInvariant | backend/backend/src/main/java/com/goalraiders/backend/service/TaskService.java:78-108 | Once the caller is known, the update keeps the invariant and isolation |
| TaskService.UpdateTaskKeepsInvariant | backend/backend/src/main/java/com/goalraiders/backend/service/TaskService.java:76-109 | `updateTask` keeps the invariant, isolation, defeated flags and non-negative HP |
| TaskService.DeleteTaskKeepsInvariant | backend/backend/src/main/java/com/goalraiders/backend/service/TaskService.java:111-121 | `deleteTask` keeps the invariant (no task is left pointing at a removed parent) and isolation, and changes no goal |
| TaskService.CompletePendingTask | backend/backend/src/main/java/com/goalraiders/backend/service/TaskService.java:141-143 | Completing a pending task marks it completed today and changes no other field of it |
| TaskService.CompleteDamagesGoal | backend/backend/src/main/java/com/goalraiders/backend/service/TaskService.java:145-158 | The linked goal loses the difficulty's damage, floored at 0; the hit that leaves an undefeated goal at 0 defeats it and awards the caller the status's experience, once; otherwise no user changes |
| TaskService.CompleteWithoutGoal | backend/backend/src/main/java/com/goalraiders/backend/service/TaskService.java:145 | A pending task without a goal completes without damage or experience |
| TaskService.CompleteReopensDueTask | backend/backend/src/main/java/com/goalraiders/backend/service/TaskService.java:132-139 | A completed recurring task that is due (or has no date) is reopened without damage; only the task changes |
| TaskService.CompleteLeavesSettledTask | backend/backend/src/main/java/com/goalraiders/backend/service/TaskService.java:132-140 | A completed one-shot task, or a recurring one not yet due, is returned as it is and nothing changes |
| TaskService.OneShotCompletesOnce | backend/backend/src/main/java/com/goalraiders/backend/service/TaskService.java:132-143 | Completing a one-shot task a second time, on any day, changes nothing, so its goal is damaged at most once |
| TaskService.RecurringCycle | backend/backend/src/main/java/com/goalraiders/backend/service/TaskService.java:132-143 | A recurring task completed on day d stays untouched before d + period, and is reopened without damage from then on |
| TaskService.CompleteAsKeepsLinks | backend/backend/src/main/java/com/goalraiders/backend/service/TaskService.java:132-161 | Completion changes no link, no owner and no id |
| TaskService.CompleteAsTouchesOnlyCaller | backend/backend/src/main/java/com/goalraiders/backend/service/TaskService.java:132-161 | Completion changes only the caller's task, the goal it links to and the caller's user |
| TaskService.CompleteAsKeepsDefeated | backend/backend/src/main/java/com/goalraiders/backend/service/TaskService.java:148-152 | Completion never revives a defeated goal and, with a non-negative configuration, never makes HP negative |
| TaskService.CompleteTaskKeepsInvariant | backend/backend/src/main/java/com/goalraiders/backend/service/TaskService.java:123-163 | `completeTask` keeps the invariant, isolation, defeated flags and non-negative HP |
| TaskService.CompletionScenarios | backend/backend/src/test/java/com/goalraiders/backend/service/TaskServiceTest.java:296-335 | The test fixture: an Easy task takes a 100-HP goal to 95 with no experience, and a 5-HP goal to 0, defeated, with 50 experience |
| TaskService.RecurringDueTodayReopens | backend/backend/src/test/java/com/goalraiders/backend/service/TaskServiceTest.java:356-375 | A daily task completed yesterday is reopened with no damage (see Left out) |
| TaskService.GetTaskById | backend/backend/src/main/java/com/goalraiders/backend/service/TaskService.java:41-49 | The repository-level read is exactly `GetTaskSpec` |
| TaskService.CreateTask | backend/backend/src/main/java/com/goalraiders/backend/service/TaskService.java:51-74 | The repository-level `createTask` is exactly `CreateTaskSpec` |
| TaskService.UpdateTask | backend/backend/src/main/java/com/goalraiders/backend/service/TaskService.java:76-109 | The repository-level `updateTask` is exactly `UpdateTaskSpec` |
| TaskService.DeleteTask | backend/backend/src/main/java/com/goalraiders/backend/service/TaskService.java:111-121 | The repository-level `deleteTask` is exactly `DeleteTaskSpec` |
| TaskService.CompleteTask | backend/backend/src/main/java/com/goalraiders/backend/service/TaskService.java:123-163 | The entity-level `completeTask` is exactly `CompleteTaskSpec` |
| TaskService.CompleteTaskFor | backend/backend/src/main/java/com/goalraiders/backend/service/TaskService.java:125-162 | Its body after the caller is known is exactly `CompleteAs` |
| CloudFunction.DamageFor | functions/index.js:8-13 | Damage is 5, 10, 20 or 50 for the four difficulties, and 0 for any other value |
| CloudFunction.ApplyUpdate | functions/index.js:95-106 | A Firestore update overwrites `completed`, `lastCompleted` and, when sent, `isDue`; every other field stays |
| CloudFunction.DocumentPath | functions/index.js:40 | `doc(path)` accepts a non-empty path without `//` whose non-empty `/`-separated segments are odd in number, a single leading or trailing `/` being allowed; anything else throws |
| CloudFunction.DocKey | functions/index.js:40 | The path a reference addresses: the string with at most one leading and one trailing `/` removed, and the string itself when it has neither |
| CloudFunction.SlashedKeys | functions/index.js:40 | An id with a leading `/`, a trailing `/` or both addresses the same document as the bare id |
| CloudFunction.DocumentPaths | functions/index.js:40 | An id without `/`, bare or with a leading or trailing `/`, is a document path addressing that id; two segments, the empty string, `/` and `//` are not |
| CloudFunction.RefId | functions/index.js:113-114 | A reference's `id`, returned in the success object: the last segment of its path |
| CloudFunction.RefIdLastSegment | functions/index.js:113-114 | The id is the longest `/`-free suffix of the path, and the path itself when it has no `/` |
| CloudFunction.CompleteTaskCall | functions/index.js:19-128 | The callable as a transition: the checks in order, each id looked up by the path `doc` resolves it to, a thrown SDK error as internal, the boss write, then the task update |
| CloudFunction.CallSucceedsIff | functions/index.js:19-115 | The call succeeds exactly when every check passes and no SDK call fails; it returns the two references' ids, writes the boss's HP minus the damage, floored at 0, marks the task completed at `now` and sets `isDue` false only for a recurring task; nothing else changes |
| CloudFunction.CallRejections | functions/index.js:20-127 | Rejections in the source's order, each with its code: unauthenticated, invalid-argument, internal for a task id `doc` rejects or a failed task read, not-found, permission-denied, failed-precondition; then, once the task's checks pass, internal for a missing boss id, one `doc` rejects or a failed boss read, not-found for a missing boss, permission-denied for another user's boss, and internal for a failed boss or task write; a rejection writes nothing except that a failed task write follows the boss write |
| CloudFunction.TaskWriteFailureKeepsDamage | functions/index.js:92-106 | When the task write fails after the boss write, the call reports internal, yet the boss stays damaged and the task is unchanged |
| CloudFunction.CallKeepsHpNonNegative | functions/index.js:84-92 | No call makes a boss's HP negative, raises it, or adds or removes a boss |
| CloudFunction.OneShotSecondCallRejected | functions/index.js:58-63 | Completing a one-shot task again is refused with failed-precondition and writes nothing |
| CloudFunction.RecurringTaskDamagesAgain | functions/index.js:102-104 | A recurring task is never refused: each call damages its boss again |
| CloudFunction.Firestore.constructor | functions/index.js:5 | The database holds exactly the given task and boss documents |
| CloudFunction.CompleteTask | functions/index.js:19-128 | The callable, step by step with its awaits and its catch, is exactly `CompleteTaskCall` |
| BossIndex.ToInt32 | src/Boss.js:26 | `hash \|= 0` gives a signed 32-bit value congruent to its input modulo 2^32 |
| BossIndex.JsString | src/Boss.js:16 | `String(id)`: a string as it is, a safe integer (magnitude at most 2^53 - 1) as its exact decimal, a boolean as `true` or `false` |
| BossIndex.NumStringRoundTrip | src/Boss.js:16 | The string of a safe-integer id reads back as that id, so `String` loses nothing on the ids the model admits |
| BossIndex.HashStep | src/Boss.js:25-26 | One loop step: `(hash << 5) - hash + char`, wrapped to 32 bits |
| BossIndex.StringHash | src/Boss.js:23-27 | The hash of all code units, folded with `HashStep` |
| BossIndex.PolyHash | src/Boss.js:23-27 | The unwrapped polynomial: the sum of each unit times 31 to the power of the units after it |
| BossIndex.IndexFromId | src/Boss.js:6-32 | An absent id or an empty string gives 0; a zero length gives NaN; otherwise `Math.abs` of the hash, remainder by the absolute length |
| BossIndex.HashStepTimes31 | src/Boss.js:25-26 | One loop step is multiplication by 31 plus the code unit, wrapped; the intermediate wrap of `hash << 5` does not matter |
| BossIndex.StringHashIsPolyHash | src/Boss.js:23-27 | The loop computes Java's `String.hashCode` polynomial, wrapped to 32 bits |
| BossIndex.IndexInRange | src/Boss.js:10-31 | For a non-zero length the index lies in 0 .. abs(length) - 1; for length 0 it is NaN, unless the id is absent or prints as empty, which give 0 |
| BossIndex.SameStringSameIndex | src/Boss.js:16 | Ids that print alike pick the same design |
| BossIndex.NumberTenExample | src/Boss.js:16-29 | The number 10 and the string "10" pick the same design; with five designs it is design 2 |
| BossIndex.GetIndexFromId | src/Boss.js:6-32 | The function as written, with its loop, returns `IndexFromId`, a valid index for a positive length |
| BossSelection.FindById | src/features/bosses/BossContext.js:23 | `find` by id returns a boss of the list with that id, and nothing exactly when no boss has it |
| BossSelection.FirstAlive | src/features/bosses/BossContext.js:27 | `find` of an alive boss returns an alive boss of the list, and nothing exactly when all are dead |
| BossSelection.CurrentBossOf | src/features/bosses/BossContext.js:74 | The current boss is a boss of the list with the selected id; a null or 0 id selects nothing |
| BossSelection.FindByIdFirst | src/features/bosses/BossContext.js:23 | `find` returns the first boss with the id |
| BossSelection.FirstAliveFirst | src/features/bosses/BossContext.js:27 | `find` returns the first alive boss |
| BossSelection.SelectBoss | src/features/bosses/BossContext.js:22-36 | The new selection: the previous boss if still alive, else the first alive boss, else the first boss's id (null for 0), else null |
| BossSelection.SelectEmpty | src/features/bosses/BossContext.js:33-35 | An empty list clears the selection |
| BossSelection.SelectKeepsAliveCurrent | src/features/bosses/BossContext.js:23-25 | A selected boss that is still alive stays selected |
| BossSelection.SelectFirstAlive | src/features/bosses/BossContext.js:26-29 | Otherwise the first alive boss is selected |
| BossSelection.SelectNoneAlive | src/features/bosses/BossContext.js:30-32 | With no boss alive, the first boss's id is selected, or null when it is 0 |
| BossSelection.SelectInList | src/features/bosses/BossContext.js:22-36 | The selection is null or an id in the list, and it is an alive boss's id exactly when some boss is alive |
| BossSelection.SelectIdempotent | src/features/bosses/BossContext.js:22-36 | Selecting again on the same list changes nothing |
| BossSelection.CurrentBossAlive | src/features/bosses/BossContext.js:22-36 | With distinct non-zero ids and some boss alive, the boss shown after a fetch is alive |
| BossSelection.ZeroIdShowsNothing | src/features/bosses/BossContext.js:31 | An alive boss with id 0 is selected but not shown, and a dead one is not selected |
| BossSelection.Selection.constructor | src/features/bosses/BossContext.js:16 | Nothing is selected at first |
| BossSelection.Selection.OnSuccess | src/features/bosses/BossContext.js:22-36 | The callback leaves the selection that `SelectBoss` gives |
| BossSelection.Selection.CurrentBoss | src/features/bosses/BossContext.js:74 | The shown boss is a boss of the list with the selected id |
| AuthFilter.BearerToken | backend/backend/src/main/java/com/goalraiders/backend/security/FirebaseAuthenticationFilter.java:37-38 | A token is found exactly when the header starts with "Bearer ", and the header is "Bearer " followed by it |
| AuthFilter.Bypassed | backend/backend/src/main/java/com/goalraiders/backend/security/FirebaseAuthenticationFilter.java:28-30 | A URI under `/h2-console`, or exactly `/api/hello` or `/api/config/game` |
| AuthFilter.Filter | backend/backend/src/main/java/com/goalraiders/backend/security/FirebaseAuthenticationFilter.java:24-70 | The filter's verdict: pass-through, 401 with its message, authentication with the principal, or an escaping exception |
| AuthFilter.Apply | backend/backend/src/main/java/com/goalraiders/backend/security/FirebaseAuthenticationFilter.java:31-69 | The chain runs exactly on pass-through or authentication; a 401 sets the status and appends its message; only authentication sets the principal |
| AuthFilter.BypassIff | backend/backend/src/main/java/com/goalraiders/backend/security/FirebaseAuthenticationFilter.java:28-33 | A request passes unchecked exactly when its URI is bypassed |
| AuthFilter.MissingHeaderRejected | backend/backend/src/main/java/com/goalraiders/backend/security/FirebaseAuthenticationFilter.java:62-67 | Elsewhere, a missing or non-Bearer header gets 401 "Missing or invalid Authorization header" |
| AuthFilter.BearerRoundTrip | backend/backend/src/main/java/com/goalraiders/backend/security/FirebaseAuthenticationFilter.java:38 | "Bearer " + t yields the token t |
| AuthFilter.AuthenticatedIff | backend/backend/src/main/java/com/goalraiders/backend/security/FirebaseAuthenticationFilter.java:40-54 | A request is authenticated exactly when it is checked, carries a token, and Firebase accepts it; the principal is the uid with an empty password and no authorities |
| AuthFilter.RejectedToken | backend/backend/src/main/java/com/goalraiders/backend/security/FirebaseAuthenticationFilter.java:56-61 | A token Firebase rejects gets 401 "Invalid Firebase ID token"; any other failure escapes the filter |
| AuthFilter.ChainContinuesIff | backend/backend/src/main/java/com/goalraiders/backend/security/FirebaseAuthenticationFilter.java:24-70 | The chain continues exactly for a bypassed or authenticated request, and only then is a principal set |
| AuthFilter.BypassExamples | backend/backend/src/main/java/com/goalraiders/backend/security/FirebaseAuthenticationFilter.java:28-30 | `/h2-console-admin` is bypassed (a prefix match); `/api/hello/` and a lower-case `bearer` header are rejected |
| AuthFilter.Exchange.constructor | backend/backend/src/main/java/com/goalraiders/backend/security/FirebaseAuthenticationFilter.java:24 | A fresh exchange has status 200, an empty body, no principal, and the chain not yet run |
| AuthFilter.Exchange.DoFilterInternal | backend/backend/src/main/java/com/goalraiders/backend/security/FirebaseAuthenticationFilter.java:24-70 | The filter as written leaves the exchange that `Apply` of `Filter` gives, and reports a throw exactly for a non-Firebase failure |

## Left out

- I/O, transactions and concurrency. Repository calls are atomic updates of the three tables. Cascade deletion is computed, not executed row by row.
- The Firestore SDK. Its reads and writes are map lookups and updates. A failing call is the `Fault` parameter. `serverTimestamp()` is the `now` parameter.
- `LocalDate.now()` is the `today` parameter. A date is a day number.
- The listing endpoints (`getAllTasksForCurrentUser`, `getAllGoalsForCurrentUser`) and the controllers. They only filter by owner and map to DTOs.
- Task.java, User.java, UserMapper and the repositories are not part of this model. Their behaviour is inferred from their use:
  - A new user has experience 0 and level 1.
  - A mapper copies the same-named fields.
  - `findById` is a map lookup.
  - A task's `parentTask` is taken to be mapped like a goal's `parentGoal` (Goal.java:24-29): the parent must exist, and deleting a task deletes its sub-tasks. This is why `TaskService.DeleteTaskAs` removes the task's whole cascade.
- GoalService.UpdateGoalAs: the mapper copies a present body id onto the loaded goal (GoalMapper.java:28-29 ignores nothing). A different id is modelled as a save that fails with `IdentifierAltered` and changes nothing. This assumes that the goal is still managed when it is saved, which holds under Spring's default open session per request. The exception type, and whether it surfaces at `save` or when the request ends, are not modelled.
- Store.State: goals and tasks draw their generated ids from one counter (`nextId`). With `GenerationType.AUTO` the persistence provider may use one sequence per entity. The model captures only that a new id is fresh and greater than every existing one, not the actual id values.
- TaskService.UpdateTask: `taskMapper.toEntity(taskDto, taskToUpdate)` is modelled as copying the same five fields that `toEntity(taskDto)` copies.
- TaskService.UpdateTask and GoalService.UpdateGoal compare the database ids of the users. The model compares Firebase uids. Under the invariant (one user per uid), the two agree.
- Java `int` overflow of HP, experience and level is not modelled. Integers are unbounded.
- JavaLang.ParseLong accepts ASCII digits only. Java also accepts other Unicode decimal digits.
- The ownership test compares the stored owner's uid with the caller's, as the source does. Spring Security's rejection of an empty username is not modelled.
- CloudFunction.CompleteTask:
  - The difficulty lookup does not model JavaScript prototype keys such as `"constructor"`. Only the four own keys are recognised.
  - A missing `currentHp` would give `NaN` and is not modelled. HP is an integer.
  - A `taskId`, a task's `bossId`, or a task's or boss's `userId` that is not a string is not modelled; all of them are strings or absent here. A non-string `bossId` makes `doc` throw (functions/index.js:66), so the source reports internal, which the model cannot show.
  - The document maps are keyed by paths relative to their collection, so a document of a sub-collection is a key that contains `/`. An id is looked up by the path `doc` resolves it to (`CloudFunction.DocKey`, which strips a single leading or trailing `/`), and the paths `doc` rejects are modelled (`CloudFunction.DocumentPath`).
- BossIndex.IndexFromId:
  - Numbers are safe integers, of magnitude at most 2^53 - 1 (`BossIndex.SafeInteger`). Above that, a double holds only some integers and `String` writes the shortest digits that round-trip to the double (`String(2**60)` is `"1152921504606847000"`), not the exact decimal. Non-integers are written differently too.
- BossIndex.JsString: writes a number as its exact decimal, which is `String`'s result only for the safe integers that `BossIndex.JsId` admits; larger ids and non-integers are not modelled.
  - A non-integer or `undefined` length is not modelled.
- The duplicate `src/features/bosses/Boss.js` is not part of this model. Neither are the client-side damage tables.
- The back end and the Cloud Function disagree on recurring tasks:
  - The back end's `completeTask` reopens a due recurring task without damage (TaskService.java:132-140).
  - The Cloud Function damages the boss on every call (`CloudFunction.RecurringTaskDamagesAgain`).
- The back end's tests disagree with its code in three places. The model follows the code:
  - The test at TaskServiceTest.java:356-375 expects a second completion with damage. The code reopens the task (`TaskService.RecurringDueTodayReopens`).
  - The tests at TaskServiceTest.java:337-353 and 378-394 expect no save. The code saves the task unchanged at TaskService.java:161. The saved row equals the stored one, so the tables do not change.
- Nothing checks `currentHp <= maxHp`, and a goal or task may be made its own parent. These are stated as lemmas, not excluded.
