/** `NotficationService` and `batchNotification` of
    `src/modules/employee/services/NotificationService.ts`: the notifications
    raised by task changes and by answers to time-off requests. */
module NotificationService {
  import opened Wrappers
  import opened Seqs
  import opened Entities
  import opened UserRepo
  import opened TaskRepo
  import opened EmployeeRepo
  import EmployeeService

  const TaskNotFound := Error(NotFound, "Task not found")
  /** Reading `this.taskRepo` in a method that was passed on unbound, so
      that `this` is undefined. */
  const UnboundThis := Error(TypeError, "Cannot read properties of undefined (reading 'taskRepo')")

  // ------------------------------------------------------------ texts

  /** `lastName[0]` inside a template literal: the first character, or the
      text "undefined" when the name is empty. */
  function Initial(name: string): string
  {
    if name == [] then "undefined" else [name[0]]
  }

  /** How the acting user is named in every text: first name and initial. */
  function Signature(u: User): string
  {
    u.firstName + " " + Initial(u.lastName) + "."
  }

  function UpdateText(u: User, title: string): string { Signature(u) + " updated task " + title }
  function AssignText(u: User, title: string): string { Signature(u) + " assigned you to task " + title }
  function RemoveText(u: User, title: string): string { Signature(u) + " removed you from task " + title }

  /** The verb a time-off answer is reported with. */
  function Answer(status: Status): (r: string)
    ensures r == "approved" <==> status == APPROVED
    ensures r != "approved" ==> r == "denied"
  {
    if status == APPROVED then "approved" else "denied"
  }

  function TimeOffText(admin: User, status: Status): string
  {
    Signature(admin) + " " + Answer(status) + " your time off request"
  }

  // ------------------------------------------------------------ fan-out

  /** One notification per item, in item order. */
  function Notices<T>(items: seq<T>, notice: T -> Notification): (r: seq<Notification>)
    ensures |r| == |items|
  {
    seq(|items|, i requires 0 <= i < |items| => notice(items[i]))
  }

  lemma NoticesAppend<T>(a: seq<T>, b: seq<T>, notice: T -> Notification)
    ensures Notices(a + b, notice) == Notices(a, notice) + Notices(b, notice)
  {
    var l, r := Notices(a + b, notice), Notices(a, notice) + Notices(b, notice);
    forall i | 0 <= i < |l|
      ensures l[i] == r[i]
    {
      if i < |a| {
        assert (a + b)[i] == a[i];
      } else {
        assert (a + b)[i] == b[i - |a|];
      }
    }
  }

  /** The loop `createNotification` runs over `items`, one at a time. */
  method SendAll<T>(notes: NotificationRepository, items: seq<T>, notice: T -> Notification)
    modifies notes
    ensures notes.notifications == old(notes.notifications) + Notices(items, notice)
  {
    var k := 0;
    while k < |items|
      invariant 0 <= k <= |items|
      invariant notes.notifications == old(notes.notifications) + Notices(items[..k], notice)
    {
      notes.CreateNotification(notice(items[k]));
      NoticesAppend(items[..k], [items[k]], notice);
      assert items[..k + 1] == items[..k] + [items[k]];
      k := k + 1;
    }
    assert items[..k] == items;
  }

  /** Where the chunk of `batchNotification` that starts at `start` ends:
      `limit` items on, or the end of the input. */
  function ChunkEnd(start: nat, limit: nat, n: nat): (r: nat)
    requires start <= n
    ensures start <= r <= n && r <= start + limit
    ensures r == n || r == start + limit
  {
    if start + limit > n then n else start + limit
  }

  /** `batchNotification(sub, limit, processFn)` as written: the body of
      its loop ends in `return`, so the loop runs at most once and is an
      `if` here. Only the first chunk is processed, and an empty input
      leaves the result `undefined` (`None`). The result is the number of
      entries of `results`. */
  method BatchNotificationAsWritten<T>(notes: NotificationRepository, sub: seq<T>, limit: nat,
                                       notice: T -> Notification)
    returns (r: Option<nat>)
    modifies notes
    ensures sub == [] ==> r == None && notes.notifications == old(notes.notifications)
    ensures sub != [] ==> r == Some(ChunkEnd(0, limit, |sub|))
                          && notes.notifications == old(notes.notifications)
                                                    + Notices(sub[..ChunkEnd(0, limit, |sub|)], notice)
    ensures limit < |sub| ==> r == Some(limit) && |notes.notifications| == |old(notes.notifications)| + limit
  {
    var results := 0;
    var start := 0;
    if start < |sub| {
      var end := ChunkEnd(start, limit, |sub|);
      SendAll(notes, sub[start..end], notice);
      results := results + (end - start);
      return Some(results);
    }
    return None;
  }

  /** `batchNotification` with the `return` after the loop: every chunk is
      processed, so every item gets its notification, in order. */
  method BatchNotification<T>(notes: NotificationRepository, sub: seq<T>, limit: nat, notice: T -> Notification)
    returns (r: Option<nat>)
    requires limit > 0
    modifies notes
    ensures r == Some(|sub|)
    ensures notes.notifications == old(notes.notifications) + Notices(sub, notice)
  {
    var results := 0;
    var start := 0;
    while start < |sub|
      invariant 0 <= start <= |sub| && results == start
      invariant notes.notifications == old(notes.notifications) + Notices(sub[..start], notice)
    {
      var end := ChunkEnd(start, limit, |sub|);
      SendAll(notes, sub[start..end], notice);
      NoticesAppend(sub[..start], sub[start..end], notice);
      assert sub[..start] + sub[start..end] == sub[..end];
      results := results + (end - start);
      start := end;
    }
    assert sub[..start] == sub;
    return Some(results);
  }

  // ------------------------------------------------------------ task notifications

  /** The collaborators `sendUpdateTask` notifies: every link of the task,
      removed or not, of a user other than the one who made the change. */
  function Receivers(links: seq<EmployeeTask>, userId: Id): (r: seq<EmployeeTask>)
    ensures forall l :: l in r <==> l in links && l.userId != userId
  {
    Filter(links, (l: EmployeeTask) => l.userId != userId)
  }

  /** The notice one collaborator link receives. */
  function LinkNotice(userId: Id, tagId: Id, text: string): EmployeeTask -> Notification
  {
    (l: EmployeeTask) => Notification(l.userId, userId, tagId, TASK, text)
  }

  /** The notifications of one `sendUpdateTask`, in creation order: the
      other collaborators, then the owner unless the owner made the change. */
  function UpdateNotices(task: FullTask, userId: Id, text: string): seq<Notification>
  {
    Notices(Receivers(task.links, userId), LinkNotice(userId, task.task.id, text))
    + (if task.task.userId != userId then [Notification(task.task.userId, userId, task.task.id, TASK, text)] else [])
  }

  /** Nobody is told of their own change; one notification goes to each
      other collaborator link, in order; the owner is told last, exactly
      when the owner did not make the change. */
  lemma UpdateNoticesReachOthers(task: FullTask, userId: Id, text: string)
    ensures var r := UpdateNotices(task, userId, text);
            && (forall n :: n in r ==> n.userId != userId && n.triggerUserId == userId
                                       && n.tagId == task.task.id && n.kind == TASK && n.activity == text)
            && |r| == |Receivers(task.links, userId)| + (if task.task.userId != userId then 1 else 0)
            && (forall i :: 0 <= i < |Receivers(task.links, userId)| ==> r[i].userId == Receivers(task.links, userId)[i].userId)
            && (task.task.userId != userId <==> |r| > |Receivers(task.links, userId)|)
            && (task.task.userId != userId ==> r[|r| - 1].userId == task.task.userId)
  {
    var rs := Receivers(task.links, userId);
    var c := Notices(rs, LinkNotice(userId, task.task.id, text));
    var r := UpdateNotices(task, userId, text);
    forall n | n in r
      ensures n.userId != userId
    {
      if n in c {
        var i :| 0 <= i < |c| && c[i] == n;
        assert rs[i] in rs;
      }
    }
  }

  /** What `sendUpdateTask(taskId, userId)` sends: "Task not found" for a
      missing or deleted task, "User not found" for a missing acting user,
      and otherwise the notifications of `UpdateNotices`. */
  function UpdatePlan(auth: AuthRepository, store: TaskStore, taskId: Id, userId: Id): (r: Result<seq<Notification>>)
    reads auth, store
    ensures store.FindTaskById(taskId).None? ==> r == Err(TaskNotFound)
    ensures store.FindTaskById(taskId).Some? && auth.FindUserByIdOrThrow(userId).Err? ==> r == Err(UserNotFound)
    ensures r.Ok? <==> store.FindTaskById(taskId).Some? && auth.FindUserByIdOrThrow(userId).Ok?
    ensures r.Ok? ==> forall n :: n in r.value ==> n.userId != userId && n.tagId == taskId
  {
    match store.FindTaskById(taskId)
    case None => Err(TaskNotFound)
    case Some(t) =>
      match auth.FindUserByIdOrThrow(userId)
      case Err(e) => Err(e)
      case Ok(u) =>
        UpdateNoticesReachOthers(t, userId, UpdateText(u, t.task.title));
        Ok(UpdateNotices(t, userId, UpdateText(u, t.task.title)))
  }

  /** `sendUpdateTask(taskId, userId)`: the task and the acting user are
      looked up, then the notifications of `UpdatePlan` are created. */
  method SendUpdateTask(auth: AuthRepository, store: TaskStore, notes: NotificationRepository, taskId: Id, userId: Id)
    returns (r: Outcome)
    modifies notes
    ensures old(UpdatePlan(auth, store, taskId, userId)).Err? ==>
              r == Fail(old(UpdatePlan(auth, store, taskId, userId)).error) && unchanged(notes)
    ensures old(UpdatePlan(auth, store, taskId, userId)).Ok? ==>
              r == Pass && notes.notifications == old(notes.notifications) + old(UpdatePlan(auth, store, taskId, userId)).value
  {
    var task := store.FindTaskById(taskId);
    if task.None? {
      return Fail(TaskNotFound);
    }
    var trigger := auth.FindUserByIdOrThrow(userId);
    if trigger.Err? {
      return Fail(trigger.error);
    }
    var t := task.value;
    var text := UpdateText(trigger.value, t.task.title);
    SendAll(notes, Receivers(t.links, userId), LinkNotice(userId, taskId, text));
    if t.task.userId != userId {
      notes.CreateNotification(Notification(t.task.userId, userId, taskId, TASK, text));
    }
    return Pass;
  }

  /** `sendCreateTaskNotification(userTask)`: tells the collaborator that the
      task owner assigned them. */
  method SendCreateTaskNotification(auth: AuthRepository, store: TaskStore, notes: NotificationRepository,
                                    userTask: EmployeeTask)
    returns (r: Outcome)
    modifies notes
    ensures store.FindTaskById(userTask.taskId).None? ==> r == Fail(TaskNotFound) && unchanged(notes)
    ensures store.FindTaskById(userTask.taskId).Some? && auth.FindUserById(store.FindTaskById(userTask.taskId).value.task.userId).None? ==>
              r == Fail(MissingRelation) && unchanged(notes)
    ensures r == Pass ==>
              var t := store.FindTaskById(userTask.taskId).value.task;
              var owner := auth.FindUserById(t.userId).value;
              notes.notifications == old(notes.notifications)
                                     + [Notification(userTask.userId, t.userId, t.id, TASK, AssignText(owner, t.title))]
    ensures r == Pass <==> store.FindTaskById(userTask.taskId).Some?
                           && auth.FindUserById(store.FindTaskById(userTask.taskId).value.task.userId).Some?
  {
    var task := store.FindTaskById(userTask.taskId);
    if task.None? {
      return Fail(TaskNotFound);
    }
    var t := task.value.task;
    var owner := auth.FindUserById(t.userId);
    if owner.None? {
      return Fail(MissingRelation);
    }
    notes.CreateNotification(Notification(userTask.userId, t.userId, t.id, TASK, AssignText(owner.value, t.title)));
    return Pass;
  }

  /** `createTask(taskId)` as written: `batchNotification` is handed
      `this.sendCreateTaskNotification` unbound, so its first call fails on
      `this.taskRepo` and nothing is sent; only a task without any
      collaborator link gets through. */
  function CreateTaskAsWritten(store: TaskStore, taskId: Id): (r: Outcome)
    reads store
    ensures store.FindTaskById(taskId).None? ==> r == Fail(TaskNotFound)
    ensures r == Pass <==> store.FindTaskById(taskId).Some? && store.FindTaskById(taskId).value.links == []
    ensures r != Pass && store.FindTaskById(taskId).Some? ==> r == Fail(UnboundThis)
  {
    match store.FindTaskById(taskId)
    case None => Fail(TaskNotFound)
    case Some(t) => if t.links == [] then Pass else Fail(UnboundThis)
  }

  /** The notice of `sendCreateTaskNotification` for a link of task `t` owned by `owner`. */
  function AssignNotice(t: Task, owner: User): EmployeeTask -> Notification
  {
    (l: EmployeeTask) => Notification(l.userId, t.userId, t.id, TASK, AssignText(owner, t.title))
  }

  /** `createTask(taskId)` with the notifier bound and every chunk sent:
      each collaborator link of the task, removed or not, gets an
      "assigned you" notification from the owner, in link order. */
  method CreateTask(auth: AuthRepository, store: TaskStore, notes: NotificationRepository, taskId: Id)
    returns (r: Outcome)
    modifies notes
    ensures store.FindTaskById(taskId).None? ==> r == Fail(TaskNotFound) && unchanged(notes)
    ensures store.FindTaskById(taskId).Some? ==>
              var t := store.FindTaskById(taskId).value;
              && (t.links != [] && auth.FindUserById(t.task.userId).None? ==> r == Fail(MissingRelation) && unchanged(notes))
              && (t.links == [] ==> r == Pass && unchanged(notes))
              && (auth.FindUserById(t.task.userId).Some? ==>
                    r == Pass && notes.notifications == old(notes.notifications)
                                 + Notices(t.links, AssignNotice(t.task, auth.FindUserById(t.task.userId).value)))
  {
    var task := store.FindTaskById(taskId);
    if task.None? {
      return Fail(TaskNotFound);
    }
    var t := task.value;
    if t.links == [] {
      return Pass;
    }
    var owner := auth.FindUserById(t.task.userId);
    if owner.None? {
      return Fail(MissingRelation);
    }
    var _ := BatchNotification(notes, t.links, 100, AssignNotice(t.task, owner.value));
    return Pass;
  }

  /** `removeNotification(taskId, userId, adminId)`: one notice to the removed user. */
  method RemoveNotification(auth: AuthRepository, store: TaskStore, notes: NotificationRepository,
                            taskId: Id, userId: Id, adminId: Id)
    returns (r: Outcome)
    modifies notes
    ensures auth.FindUserByIdOrThrow(adminId).Err? ==> r == Fail(UserNotFound) && unchanged(notes)
    ensures auth.FindUserByIdOrThrow(adminId).Ok? && store.FindTaskById(taskId).None? ==>
              r == Fail(TaskNotFound) && unchanged(notes)
    ensures auth.FindUserByIdOrThrow(adminId).Ok? && store.FindTaskById(taskId).Some? ==>
              r == Pass && notes.notifications == old(notes.notifications)
                 + [Notification(userId, adminId, taskId, TASK,
                                 RemoveText(auth.FindUserByIdOrThrow(adminId).value, store.FindTaskById(taskId).value.task.title))]
  {
    var admin := auth.FindUserByIdOrThrow(adminId);
    if admin.Err? {
      return Fail(admin.error);
    }
    var task := store.FindTaskById(taskId);
    if task.None? {
      return Fail(TaskNotFound);
    }
    notes.CreateNotification(Notification(userId, adminId, taskId, TASK, RemoveText(admin.value, task.value.task.title)));
    return Pass;
  }

  /** `addTaskNotification(taskId, userId, adminId)`: one notice to the added user. */
  method AddTaskNotification(auth: AuthRepository, store: TaskStore, notes: NotificationRepository,
                             taskId: Id, userId: Id, adminId: Id)
    returns (r: Outcome)
    modifies notes
    ensures auth.FindUserByIdOrThrow(adminId).Err? ==> r == Fail(UserNotFound) && unchanged(notes)
    ensures auth.FindUserByIdOrThrow(adminId).Ok? && store.FindTaskById(taskId).None? ==>
              r == Fail(TaskNotFound) && unchanged(notes)
    ensures auth.FindUserByIdOrThrow(adminId).Ok? && store.FindTaskById(taskId).Some? ==>
              r == Pass && notes.notifications == old(notes.notifications)
                 + [Notification(userId, adminId, taskId, TASK,
                                 AssignText(auth.FindUserByIdOrThrow(adminId).value, store.FindTaskById(taskId).value.task.title))]
  {
    var admin := auth.FindUserByIdOrThrow(adminId);
    if admin.Err? {
      return Fail(admin.error);
    }
    var task := store.FindTaskById(taskId);
    if task.None? {
      return Fail(TaskNotFound);
    }
    notes.CreateNotification(Notification(userId, adminId, taskId, TASK, AssignText(admin.value, task.value.task.title)));
    return Pass;
  }

  // ------------------------------------------------------------ time off

  /** `timeOffResponse(requestId, adminId)`: the owner of the request is
      told whether it was approved; any status but APPROVED reads "denied". */
  method TimeOffResponse(auth: AuthRepository, timeOff: TimeOffRepository, notes: NotificationRepository,
                         requestId: Id, adminId: Id)
    returns (r: Outcome)
    modifies notes
    ensures auth.FindUserByIdOrThrow(adminId).Err? ==> r == Fail(UserNotFound) && unchanged(notes)
    ensures auth.FindUserByIdOrThrow(adminId).Ok? && timeOff.FindById(requestId).None? ==>
              r == Fail(EmployeeService.RequestNotFound) && unchanged(notes)
    ensures auth.FindUserByIdOrThrow(adminId).Ok? && timeOff.FindById(requestId).Some? ==>
              r == Pass && notes.notifications == old(notes.notifications)
                 + [Notification(timeOff.FindById(requestId).value.userId, adminId, requestId, TIME_OFF,
                                 TimeOffText(auth.FindUserByIdOrThrow(adminId).value, timeOff.FindById(requestId).value.status))]
  {
    var admin := auth.FindUserByIdOrThrow(adminId);
    if admin.Err? {
      return Fail(admin.error);
    }
    var request := timeOff.FindById(requestId);
    if request.None? {
      return Fail(EmployeeService.RequestNotFound);
    }
    notes.CreateNotification(Notification(request.value.userId, adminId, requestId, TIME_OFF,
                                          TimeOffText(admin.value, request.value.status)));
    return Pass;
  }
}
