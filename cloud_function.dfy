/** The `completeTask` callable of the Cloud Functions back end: the
    Firestore variant of completing a task. It reads the task and its boss
    document, writes the boss's new HP and then marks the task completed.

    Firestore is a class whose two collections are maps from document id
    to document; the callable is a method on it, specified by the function
    `CompleteTaskCall` on a snapshot of both collections. The caller's
    authentication context, the server timestamp and the failure of a
    document read or write (a network or permission error of the SDK) are
    parameters. */
module CloudFunction {
  import opened Common

  /** A task document. A field the document lacks reads as `undefined`:
      `None` here; `completed` is only ever tested for truthiness, so a
      missing one is `false`. */
  datatype TaskDoc = TaskDoc(
    userId: Option<string>,
    completed: bool,
    recurrenceDays: Option<int>,
    bossId: Option<string>,
    difficulty: Option<string>,
    lastCompleted: Option<int>,
    isDue: Option<bool>)

  datatype BossDoc = BossDoc(userId: Option<string>, currentHp: int, maxHp: int)

  /** The `HttpsError` codes the callable throws. */
  datatype Code = Unauthenticated | InvalidArgument | NotFound | PermissionDenied | FailedPrecondition | Internal

  /** The success object carries the new HP and the two document ids. */
  datatype Outcome =
    | Success(newBossHp: int, bossId: string, taskId: string)
    | Failure(code: Code)

  /** Which awaited SDK call, if any, rejects with an error that is not an
      `HttpsError` (the catch block turns it into `internal`). */
  datatype Fault = NoFault | TaskReadFails | BossReadFails | BossWriteFails | TaskWriteFails

  datatype Docs = Docs(tasks: map<string, TaskDoc>, bosses: map<string, BossDoc>)

  datatype CallReply = CallReply(outcome: Outcome, docs: Docs)

  /** The fields the callable writes into the task: `completed`,
      `lastCompleted` and, for a recurring task only, `isDue`. */
  datatype TaskUpdate = TaskUpdate(completed: bool, lastCompleted: int, isDue: Option<bool>)

  /** `DIFFICULTY_DAMAGE_MAP[difficulty] || 0`. */
  function DamageFor(difficulty: Option<string>): (d: int)
    ensures d in {0, 5, 10, 20, 50}
    ensures d > 0 <==> difficulty in {Some("Easy"), Some("Medium"), Some("Hard"), Some("Epic")}
  {
    match difficulty
    case Some("Easy") => 5
    case Some("Medium") => 10
    case Some("Hard") => 20
    case Some("Epic") => 50
    case _ => 0
  }

  /** JavaScript truthiness of a string-valued argument. */
  predicate Truthy(s: Option<string>)
  {
    s.Some? && s.value != ""
  }

  /** Firestore's `update`: the fields named are overwritten, the rest of
      the document is kept. */
  function ApplyUpdate(t: TaskDoc, u: TaskUpdate): (t': TaskDoc)
    ensures t'.completed == u.completed && t'.lastCompleted == Some(u.lastCompleted)
    ensures u.isDue.Some? ==> t'.isDue == u.isDue
    ensures u.isDue.None? ==> t'.isDue == t.isDue
    ensures t' == t.(completed := t'.completed, lastCompleted := t'.lastCompleted, isDue := t'.isDue)
  {
    t.(completed := u.completed, lastCompleted := Some(u.lastCompleted),
       isDue := if u.isDue.Some? then u.isDue else t.isDue)
  }

  /** A path in the form `doc` resolves it to: its `/`-separated segments
      are all non-empty and there is an odd number of them (one names a
      document of the collection itself, three a document of one of its
      sub-collections, and so on). The document maps are keyed by such
      paths. */
  predicate CanonicalDocPath(path: string)
  {
    && path != []
    && path[0] != '/' && path[|path| - 1] != '/'
    && (forall i :: 0 <= i < |path| - 1 && path[i] == '/' ==> path[i + 1] != '/')
    && multiset(path)['/'] % 2 == 0
  }

  /** The path `doc(path)` addresses: splitting on `/` drops the empty
      segment a single leading or trailing `/` leaves, so one of each is
      stripped. */
  function DocKey(path: string): (k: string)
    ensures |k| <= |path|
    ensures k == path || k == path[1..] || k == path[..|path| - 1] || (2 <= |path| && k == path[1..|path| - 1])
    ensures |path| > 0 && path[0] != '/' && path[|path| - 1] != '/' ==> k == path
  {
    var a := if path != [] && path[0] == '/' then path[1..] else path;
    if a != [] && a[|a| - 1] == '/' then a[..|a| - 1] else a
  }

  /** Whether `doc(path)` accepts `path` as a document below a collection:
      the string is not empty, holds no `//`, and its non-empty segments
      are odd in number; any other string makes `doc` throw. A single
      leading or trailing `/` is allowed, so this is `CanonicalDocPath` of
      the stripped path. */
  predicate DocumentPath(path: string)
  {
    CanonicalDocPath(DocKey(path))
  }

  /** A reference's `id`: the last segment of its path, so the path itself
      for a document of the collection. */
  function RefId(path: string): string
  {
    if path == [] || path[|path| - 1] == '/' then []
    else RefId(path[..|path| - 1]) + [path[|path| - 1]]
  }

  /** `RefId` is the longest suffix of the path without `/`: it is a
      suffix, holds no `/`, and is preceded by a `/` unless it is the whole
      path. */
  lemma {:induction false} RefIdLastSegment(path: string)
    ensures var id := RefId(path);
      && '/' !in id
      && |id| <= |path| && path[|path| - |id|..] == id
      && (|id| < |path| ==> path[|path| - |id| - 1] == '/')
      && ('/' !in path ==> id == path)
  {
    if path != [] && path[|path| - 1] != '/' {
      var p := path[..|path| - 1];
      RefIdLastSegment(p);
      assert '/' !in path ==> '/' !in p by {
        if '/' in p {
          var i :| 0 <= i < |p| && p[i] == '/';
          assert path[i] == '/';
        }
      }
      assert path == p + [path[|path| - 1]];
    }
  }

  /** A completed task that does not recur (`recurrenceDays === 0`). */
  predicate SettledOneShot(t: TaskDoc)
  {
    t.completed && t.recurrenceDays == Some(0)
  }

  /** Whether the task is a recurring one (`recurrenceDays > 0`). */
  predicate Recurring(t: TaskDoc)
  {
    t.recurrenceDays.Some? && t.recurrenceDays.value > 0
  }

  /** The completion transition. `auth` is the caller's uid when the call
      is authenticated; `now` is the server timestamp. */
  function CompleteTaskCall(st: Docs, auth: Option<string>, taskId: Option<string>, now: int, fault: Fault): CallReply
  {
    if auth.None? then CallReply(Failure(Unauthenticated), st)
    else if !Truthy(taskId) then CallReply(Failure(InvalidArgument), st)
    else if !DocumentPath(taskId.value) || fault == TaskReadFails then CallReply(Failure(Internal), st)
    else
      var tid := DocKey(taskId.value);
      if tid !in st.tasks then CallReply(Failure(NotFound), st)
      else
        var task := st.tasks[tid];
        if task.userId != auth then CallReply(Failure(PermissionDenied), st)
        else if SettledOneShot(task) then CallReply(Failure(FailedPrecondition), st)
        else if task.bossId.None? || !DocumentPath(task.bossId.value) || fault == BossReadFails then CallReply(Failure(Internal), st)
        else
          var bid := DocKey(task.bossId.value);
          if bid !in st.bosses then CallReply(Failure(NotFound), st)
          else
            var boss := st.bosses[bid];
            if boss.userId != auth then CallReply(Failure(PermissionDenied), st)
            else if fault == BossWriteFails then CallReply(Failure(Internal), st)
            else
              var hp := Max(0, boss.currentHp - DamageFor(task.difficulty));
              var st1 := st.(bosses := st.bosses[bid := boss.(currentHp := hp)]);
              if fault == TaskWriteFails then CallReply(Failure(Internal), st1)
              else
                var u := TaskUpdate(true, now, if Recurring(task) then Some(false) else None);
                CallReply(Success(hp, RefId(bid), RefId(tid)),
                          st1.(tasks := st.tasks[tid := ApplyUpdate(task, u)]))
  }

  /** The task's checks pass: the caller is authenticated, the id is a
      document path, the read succeeds, and the task exists, is the
      caller's and is not a settled one-shot task. */
  predicate TaskAccepted(st: Docs, auth: Option<string>, taskId: Option<string>)
  {
    && auth.Some? && Truthy(taskId) && DocumentPath(taskId.value) && DocKey(taskId.value) in st.tasks
    && var task := st.tasks[DocKey(taskId.value)];
    && task.userId == auth
    && !SettledOneShot(task)
  }

  /** Every check the callable makes passes for this task and boss. */
  predicate Accepted(st: Docs, auth: Option<string>, taskId: Option<string>)
  {
    && TaskAccepted(st, auth, taskId)
    && var task := st.tasks[DocKey(taskId.value)];
    && task.bossId.Some? && DocumentPath(task.bossId.value) && DocKey(task.bossId.value) in st.bosses
    && st.bosses[DocKey(task.bossId.value)].userId == auth
  }

  /** No boss document has negative HP. */
  ghost predicate BossHpNonNegative(st: Docs)
  {
    forall b :: b in st.bosses ==> st.bosses[b].currentHp >= 0
  }

  // ---------------------------------------------------------------- lemmas

  /** The call succeeds exactly when every check passes and no SDK call
      fails. A successful call writes the boss's HP, lowered by the
      difficulty's damage and floored at 0, and marks the task completed
      at `now`, clearing `isDue` only for a recurring task; no other
      document and no other field changes. */
  lemma CallSucceedsIff(st: Docs, auth: Option<string>, taskId: Option<string>, now: int, fault: Fault)
    ensures var r := CompleteTaskCall(st, auth, taskId, now, fault);
      r.outcome.Success? <==> Accepted(st, auth, taskId) && fault == NoFault
    ensures var r := CompleteTaskCall(st, auth, taskId, now, fault);
      r.outcome.Success? ==>
        var tid := DocKey(taskId.value);
        var task := st.tasks[tid];
        var bid := DocKey(task.bossId.value);
        var boss := st.bosses[bid];
        && r.outcome == Success(Max(0, boss.currentHp - DamageFor(task.difficulty)), RefId(bid), RefId(tid))
        && r.docs.bosses == st.bosses[bid := boss.(currentHp := r.outcome.newBossHp)]
        && r.docs.tasks.Keys == st.tasks.Keys
        && r.docs.tasks[tid].completed
        && r.docs.tasks[tid].lastCompleted == Some(now)
        && r.docs.tasks[tid].isDue == (if Recurring(task) then Some(false) else task.isDue)
        && (forall t :: t in st.tasks && t != tid ==> r.docs.tasks[t] == st.tasks[t])
  {
  }

  /** The rejections, each with its code, in the order the callable makes
      its checks: first those about the task, then, once the task's checks
      pass, those about its boss and the two writes. A rejection writes
      nothing, except that a failing task write comes after the boss
      write. */
  lemma CallRejections(st: Docs, auth: Option<string>, taskId: Option<string>, now: int, fault: Fault)
    ensures var r := CompleteTaskCall(st, auth, taskId, now, fault);
      && (auth.None? ==> r.outcome == Failure(Unauthenticated))
      && (auth.Some? && !Truthy(taskId) ==> r.outcome == Failure(InvalidArgument))
      && (auth.Some? && Truthy(taskId) && (!DocumentPath(taskId.value) || fault == TaskReadFails) ==>
            r.outcome == Failure(Internal))
      && (auth.Some? && Truthy(taskId) && DocumentPath(taskId.value) && fault != TaskReadFails ==>
            var id := DocKey(taskId.value);
            && (id !in st.tasks ==> r.outcome == Failure(NotFound))
            && (id in st.tasks && st.tasks[id].userId != auth ==> r.outcome == Failure(PermissionDenied))
            && (id in st.tasks && st.tasks[id].userId == auth && SettledOneShot(st.tasks[id]) ==>
                  r.outcome == Failure(FailedPrecondition)))
    ensures var r := CompleteTaskCall(st, auth, taskId, now, fault);
      TaskAccepted(st, auth, taskId) && fault != TaskReadFails ==>
        var task := st.tasks[DocKey(taskId.value)];
        && (task.bossId.None? || !DocumentPath(task.bossId.value) || fault == BossReadFails ==>
              r.outcome == Failure(Internal))
        && (task.bossId.Some? && DocumentPath(task.bossId.value) && fault != BossReadFails ==>
              var bid := DocKey(task.bossId.value);
              && (bid !in st.bosses ==> r.outcome == Failure(NotFound))
              && (bid in st.bosses && st.bosses[bid].userId != auth ==> r.outcome == Failure(PermissionDenied))
              && (bid in st.bosses && st.bosses[bid].userId == auth && fault in {BossWriteFails, TaskWriteFails} ==>
                    r.outcome == Failure(Internal)))
    ensures var r := CompleteTaskCall(st, auth, taskId, now, fault);
      r.outcome.Failure? && fault != TaskWriteFails ==> r.docs == st
  {
  }

  /** A non-empty string without `/` is a canonical document path. */
  lemma PlainIdCanonical(id: string)
    requires id != [] && '/' !in id
    ensures CanonicalDocPath(id)
  {
    assert multiset(id)['/'] == 0;
  }

  /** Two `/`-free segments name a collection, not a document. */
  lemma TwoSegmentsNotDocument(a: string, b: string)
    requires a != [] && b != [] && '/' !in a && '/' !in b
    ensures !DocumentPath(a + "/" + b)
  {
    var ab := a + "/" + b;
    assert ab[0] == a[0] && ab[|ab| - 1] == b[|b| - 1];
    assert DocKey(ab) == ab;
    assert multiset(ab) == multiset(a) + multiset("/") + multiset(b);
  }

  /** A single leading or trailing `/`, or both, is stripped. */
  lemma SlashedKeys(id: string)
    requires id != [] && '/' !in id
    ensures DocKey(id) == id
    ensures DocKey("/" + id) == id
    ensures DocKey(id + "/") == id
    ensures DocKey("/" + id + "/") == id
  {
    assert id[0] != '/' && id[|id| - 1] != '/';
    assert ("/" + id)[1..] == id;
    assert (id + "/")[..|id|] == id;
    assert ("/" + id + "/")[1..] == id + "/";
  }

  /** A non-empty id without `/` names a document of the collection
      itself, and so does that id with a leading or a trailing `/`, or
      both; an id of two segments names a collection, and an empty id, a
      lone `/` and a `//` name nothing, so `doc` rejects them. */
  lemma DocumentPaths(id: string, a: string, b: string)
    requires id != [] && '/' !in id
    requires a != [] && b != [] && '/' !in a && '/' !in b
    ensures DocumentPath(id) && DocKey(id) == id
    ensures DocumentPath("/" + id) && DocKey("/" + id) == id
    ensures DocumentPath(id + "/") && DocKey(id + "/") == id
    ensures DocumentPath("/" + id + "/") && DocKey("/" + id + "/") == id
    ensures !DocumentPath(a + "/" + b)
    ensures !DocumentPath("") && !DocumentPath("/") && !DocumentPath("//")
  {
    PlainIdCanonical(id);
    SlashedKeys(id);
    TwoSegmentsNotDocument(a, b);
    EmptyPathsRejected();
  }

  /** Strings with no segment at all. */
  lemma EmptyPathsRejected()
    ensures !DocumentPath("") && !DocumentPath("/") && !DocumentPath("//")
  {
    assert DocKey("/") == "";
    assert DocKey("//") == "";
  }

  /** A task write that fails after the boss write leaves the boss damaged
      and the task as it was: the two writes are not atomic. */
  lemma TaskWriteFailureKeepsDamage(st: Docs, auth: Option<string>, taskId: Option<string>, now: int)
    requires Accepted(st, auth, taskId)
    ensures var r := CompleteTaskCall(st, auth, taskId, now, TaskWriteFails);
      var task := st.tasks[DocKey(taskId.value)];
      var bid := DocKey(task.bossId.value);
      && r.outcome == Failure(Internal)
      && r.docs.tasks == st.tasks
      && r.docs.bosses == CompleteTaskCall(st, auth, taskId, now, NoFault).docs.bosses
      && r.docs.bosses[bid].currentHp == Max(0, st.bosses[bid].currentHp - DamageFor(task.difficulty))
  {
  }

  /** No call ever gives a boss negative HP, and none raises a boss's HP. */
  lemma CallKeepsHpNonNegative(st: Docs, auth: Option<string>, taskId: Option<string>, now: int, fault: Fault)
    requires BossHpNonNegative(st)
    ensures var r := CompleteTaskCall(st, auth, taskId, now, fault);
      && BossHpNonNegative(r.docs)
      && r.docs.bosses.Keys == st.bosses.Keys
      && (forall b :: b in st.bosses ==> r.docs.bosses[b].currentHp <= st.bosses[b].currentHp)
  {
  }

  /** A one-shot task (`recurrenceDays` 0) that was completed is refused
      the second time with `failed-precondition`, and the boss takes no
      second hit. */
  lemma {:induction false} OneShotSecondCallRejected(st: Docs, uid: string, taskId: string, now: int, later: int, fault: Fault)
    requires var r := CompleteTaskCall(st, Some(uid), Some(taskId), now, NoFault);
      r.outcome.Success? && st.tasks[DocKey(taskId)].recurrenceDays == Some(0)
    ensures var r := CompleteTaskCall(st, Some(uid), Some(taskId), now, NoFault);
      var r2 := CompleteTaskCall(r.docs, Some(uid), Some(taskId), later, fault);
      fault != TaskReadFails ==> r2 == CallReply(Failure(FailedPrecondition), r.docs)
  {
    CallSucceedsIff(st, Some(uid), Some(taskId), now, NoFault);
  }

  /** A recurring task is never refused for being completed: each call
      damages its boss again, whatever the last completion time. (The
      backend's `completeTask` instead reopens such a task without
      damage.) */
  lemma {:induction false} RecurringTaskDamagesAgain(st: Docs, uid: string, taskId: string, now: int, later: int)
    requires var r := CompleteTaskCall(st, Some(uid), Some(taskId), now, NoFault);
      r.outcome.Success? && Recurring(st.tasks[DocKey(taskId)])
    ensures var r := CompleteTaskCall(st, Some(uid), Some(taskId), now, NoFault);
      var r2 := CompleteTaskCall(r.docs, Some(uid), Some(taskId), later, NoFault);
      var d := DamageFor(st.tasks[DocKey(taskId)].difficulty);
      && r2.outcome.Success?
      && r2.outcome.newBossHp == Max(0, r.outcome.newBossHp - d)
      && r2.docs.tasks[DocKey(taskId)].lastCompleted == Some(later)
      && r2.docs.tasks[DocKey(taskId)].isDue == Some(false)
  {
    CallSucceedsIff(st, Some(uid), Some(taskId), now, NoFault);
    var r := CompleteTaskCall(st, Some(uid), Some(taskId), now, NoFault);
    CallSucceedsIff(r.docs, Some(uid), Some(taskId), later, NoFault);
  }

  // --------------------------------------------------------------- methods

  class Firestore {
    var tasks: map<string, TaskDoc>
    var bosses: map<string, BossDoc>

    constructor (ts: map<string, TaskDoc>, bs: map<string, BossDoc>)
      ensures tasks == ts && bosses == bs
    {
      tasks, bosses := ts, bs;
    }

    function Snapshot(): Docs
      reads this
    {
      Docs(tasks, bosses)
    }
  }

  /** The callable. Each `throw` becomes a `return` of its code; a failing
      SDK call becomes `internal`, as the catch block rethrows it. */
  method CompleteTask(db: Firestore, auth: Option<string>, taskId: Option<string>, now: int, fault: Fault)
    returns (out: Outcome)
    modifies db
    ensures CallReply(out, db.Snapshot()) == CompleteTaskCall(old(db.Snapshot()), auth, taskId, now, fault)
  {
    if auth.None? {
      return Failure(Unauthenticated);
    }
    var userId := auth.value;
    if taskId.None? || taskId.value == "" {
      return Failure(InvalidArgument);
    }
    // `doc` throws on a path that names no document
    if !DocumentPath(taskId.value) || fault == TaskReadFails {
      return Failure(Internal);
    }
    var taskRef := DocKey(taskId.value);
    if taskRef !in db.tasks {
      return Failure(NotFound);
    }
    var taskData := db.tasks[taskRef];
    if taskData.userId != Some(userId) {
      return Failure(PermissionDenied);
    }
    if taskData.completed && taskData.recurrenceDays == Some(0) {
      return Failure(FailedPrecondition);
    }
    if taskData.bossId.None? || !DocumentPath(taskData.bossId.value) || fault == BossReadFails {
      return Failure(Internal);
    }
    var bossRef := DocKey(taskData.bossId.value);
    if bossRef !in db.bosses {
      return Failure(NotFound);
    }
    var bossData := db.bosses[bossRef];
    if bossData.userId != Some(userId) {
      return Failure(PermissionDenied);
    }

    var damage := DamageFor(taskData.difficulty);
    var newBossHp := bossData.currentHp - damage;
    if newBossHp < 0 {
      newBossHp := 0;
    }
    if fault == BossWriteFails {
      return Failure(Internal);
    }
    db.bosses := db.bosses[bossRef := bossData.(currentHp := newBossHp)];

    var updateTaskData := TaskUpdate(true, now, None);
    if taskData.recurrenceDays.Some? && taskData.recurrenceDays.value > 0 {
      updateTaskData := updateTaskData.(isDue := Some(false));
    }
    if fault == TaskWriteFails {
      return Failure(Internal);
    }
    db.tasks := db.tasks[taskRef := ApplyUpdate(taskData, updateTaskData)];

    out := Success(newBossHp, RefId(bossRef), RefId(taskRef));
  }
}
