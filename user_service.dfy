/** `UserService`: the get-or-create of the signed-in user that every other
    service call starts with, and the experience/level rule. The caller's
    Firebase uid, which the source reads from the security context, is a
    parameter. */
module UserService {
  import opened Common
  import opened GoalEntity
  import opened Store
  import opened Text

  /** The user created for a uid seen for the first time. User.java is not
      part of this model: a new user is taken to start at level 1 with no
      experience, as the service tests' fixture does. */
  function NewUser(uid: Uid): User
    requires JavaLength(uid) >= 8
  {
    User(uid, Utf16("User_") + Utf16(uid)[..8], uid + "@example.com", 0, 1)
  }

  /** `getCurrentUserEntity` (and `getOrCreateCurrentUser`, which maps the
      same user to a DTO): the stored user for `uid`, or a new one, saved;
      `substring(0, 8)` fails on a shorter uid. */
  function CurrentUserSpec(s: State, uid: Uid): (r: Reply<User>)
    ensures r.state.goals == s.goals && r.state.tasks == s.tasks && r.state.nextId == s.nextId
    ensures uid in s.users ==> r == Reply(Ok(s.users[uid]), s)
    ensures r.result.Ok? ==> r.state.users == s.users[uid := r.result.value]
    ensures r.result.Ok? ==> uid in r.state.users && r.state.users[uid] == r.result.value
    ensures r.result.Err? <==> uid !in s.users && JavaLength(uid) < 8
    ensures r.result.Err? ==> r.state == s && r.result.error == IndexOutOfBounds
  {
    if uid in s.users then Reply(Ok(s.users[uid]), s)
    else if JavaLength(uid) < 8 then Reply(Err(IndexOutOfBounds), s)
    else
      var u := NewUser(uid);
      Reply(Ok(u), s.(users := s.users[uid := u]))
  }

  /** The caller can be served: a stored user, or a uid long enough (eight
      UTF-16 code units) to create one. */
  predicate Served(s: State, uid: Uid)
  {
    uid in s.users || JavaLength(uid) >= 8
  }

  /** The single-carry level rule: experience is added, and if it reaches
      100 the level goes up by one and 100 is taken off. */
  function LevelUp(u: User, amount: int): (v: User)
    ensures 100 * v.level + v.experience == 100 * u.level + u.experience + amount
    ensures v == u.(experience := v.experience, level := v.level)
  {
    var e := u.experience + amount;
    if e >= 100 then u.(experience := e - 100, level := u.level + 1) else u.(experience := e)
  }

  /** `addExperience(firebaseUid, experience)`. */
  function AddExperienceSpec(s: State, uid: Uid, amount: int): Reply<()>
  {
    if uid !in s.users then Reply(Err(UserNotFound), s)
    else Reply(Ok(()), s.(users := s.users[uid := LevelUp(s.users[uid], amount)]))
  }

  // ---------------------------------------------------------------- lemmas

  /** An unknown uid is rejected with "User not found" and nothing is
      saved. */
  lemma AddExperienceUnknownUser(s: State, uid: Uid, amount: int)
    requires uid !in s.users
    ensures AddExperienceSpec(s, uid, amount) == Reply(Err(UserNotFound), s)
  {
  }

  /** For a known user, experience and level change and nothing else: the
      total `100 * level + experience` grows by exactly `amount`, the level
      rises by one exactly when the new experience reaches 100, and never
      by more than one, however large the sum. */
  lemma AddExperienceCarry(s: State, uid: Uid, amount: int)
    requires uid in s.users
    ensures var r := AddExperienceSpec(s, uid, amount);
      var u, v := s.users[uid], r.state.users[uid];
      && r.result.Ok?
      && r.state == s.(users := s.users[uid := v])
      && v == u.(experience := v.experience, level := v.level)
      && 100 * v.level + v.experience == 100 * u.level + u.experience + amount
      && (v.level == u.level + 1 <==> u.experience + amount >= 100)
      && (v.level == u.level || v.level == u.level + 1)
  {
  }

  /** Experience below 100 stays below 100 for a gain of at most 100; a
      larger gain can leave it at 100 or more after the single carry. */
  lemma ExperienceBelowHundred(u: User, amount: int)
    requires 0 <= u.experience < 100 && 0 <= amount
    ensures amount <= 100 ==> 0 <= LevelUp(u, amount).experience < 100
    ensures u.experience + amount >= 200 ==> LevelUp(u, amount).experience >= 100
  {
  }

  /** The two scenarios of the service tests: 50 + 30 stays at level 1 with
      80; 90 + 20 goes to level 2 with 10. */
  lemma AddExperienceExamples(u: User)
    ensures u.level == 1 && u.experience == 50 ==> LevelUp(u, 30).experience == 80 && LevelUp(u, 30).level == 1
    ensures u.level == 1 && u.experience == 90 ==> LevelUp(u, 20).experience == 10 && LevelUp(u, 20).level == 2
  {
  }

  /** Get-or-create is idempotent: asking again returns the same user and
      saves nothing. */
  lemma {:induction false} CurrentUserIdempotent(s: State, uid: Uid)
    ensures var r := CurrentUserSpec(s, uid);
      r.result.Ok? ==> CurrentUserSpec(r.state, uid) == r
  {
  }

  /** A first-time uid of at least eight UTF-16 code units gets a saved user
      named `User_` followed by its first eight code units, with the e-mail
      `<uid>@example.com`, no experience and level 1. */
  lemma CurrentUserCreated(s: State, uid: Uid)
    requires uid !in s.users && JavaLength(uid) >= 8
    ensures var r := CurrentUserSpec(s, uid);
      && r.result.Ok?
      && r.result.value.firebaseUid == uid
      && r.result.value.username == Utf16("User_") + Utf16(uid)[..8]
      && |r.result.value.username| == 13
      && r.result.value.experience == 0 && r.result.value.level == 1
      && r.result.value.email == uid + "@example.com"
      && r.state.users == s.users[uid := r.result.value]
  {
    JavaLengthBounds("User_");
  }

  /** Get-or-create keeps the store invariant, changes no goal or task and
      no other user, and in a valid store returns the caller's own user. */
  lemma CurrentUserKeepsInvariant(s: State, uid: Uid)
    requires Valid(s)
    ensures var r := CurrentUserSpec(s, uid);
      && Valid(r.state) && OthersUnchanged(s, r.state, uid) && DefeatedKept(s, r.state)
      && (r.result.Ok? ==> r.result.value.firebaseUid == uid)
      && (HpNonNegative(s) ==> HpNonNegative(r.state))
  {
  }

  /** Adding experience keeps the store invariant and touches no other
      user. */
  lemma AddExperienceKeepsInvariant(s: State, uid: Uid, amount: int)
    requires Valid(s)
    ensures var r := AddExperienceSpec(s, uid, amount);
      Valid(r.state) && OthersUnchanged(s, r.state, uid) && DefeatedKept(s, r.state)
  {
  }

  // --------------------------------------------------------------- methods

  method GetCurrentUserEntity(db: Db, uid: Uid) returns (r: Result<User>)
    modifies db
    ensures Reply(r, db.Snapshot()) == CurrentUserSpec(old(db.Snapshot()), uid)
  {
    if uid in db.users {
      return Ok(db.users[uid]);
    }
    if JavaLength(uid) < 8 {
      return Err(IndexOutOfBounds);
    }
    var user := User(uid, Utf16("User_") + Utf16(uid)[..8], uid + "@example.com", 0, 1);
    db.users := db.users[uid := user];
    r := Ok(user);
  }

  method AddExperience(db: Db, uid: Uid, experience: int) returns (r: Result<()>)
    modifies db
    ensures Reply(r, db.Snapshot()) == AddExperienceSpec(old(db.Snapshot()), uid, experience)
  {
    if uid !in db.users {
      return Err(UserNotFound);
    }
    var user := db.users[uid];
    var newExperience := user.experience + experience;
    var newLevel := user.level;
    if newExperience >= 100 {
      newLevel := newLevel + 1;
      newExperience := newExperience - 100;
    }
    user := user.(experience := newExperience, level := newLevel);
    db.users := db.users[uid := user];
    r := Ok(());
  }
}
