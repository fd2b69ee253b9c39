/** `TaskService` and `taskSchema` of `src/modules/task/services/TaskService.ts`:
    creating and publishing tasks, ticking checklist notes, and adding and
    removing collaborators, each answered with the task's view. */
module TaskService {
  import opened Wrappers
  import opened Seqs
  import opened Entities
  import opened UserRepo
  import opened TaskRepo
  import opened EmployeeRepo
  import opened NotificationService

  const PermissionDenied := Error(NotFound, "You do not have the permission to perform this action")
  const TitleTaken := Error(NotFound, "You already have a task with this title")
  const TaskMissing := Error(NotFound, "Task does not exist")
  const NoteMissing := Error(NotFound, "This note does not exist")
  const SameNoteStatus := Error(NotFound, "Cannot change status of note to same")
  const AlreadyPublished := Error(Conflict, "Task is already published")
  const NotCollaborator := Error(NotFound, "User is not a collaborator on this task")
  const AlreadyCollaborator := Error(NotFound, "User already exists as a collaborator")

  // ------------------------------------------------------------ the task view

  datatype TaskMember = TaskMember(id: Id, userId: Id, avatar: Option<string>, fullName: string, isTaskLead: bool)
  datatype NoteView = NoteView(id: Id, note: string, checked: bool)
  datatype TaskDetails = TaskDetails(
    id: Id, title: string, description: string,
    ownerId: Id, owner: string, ownerAvatar: Option<string>,
    startDate: Option<int>, endDate: Option<int>, status: string, priority: string,
    notes: seq<NoteView>, members: seq<TaskMember>)

  /** The user row a relation joins by id. */
  function UserRow(users: seq<User>, id: Id): (r: Option<User>)
    ensures r.Some? <==> exists u :: u in users && u.id == id
    ensures r.Some? ==> r.value in users && r.value.id == id
  {
    Find(users, (u: User) => u.id == id)
  }

  /** The members `taskSchema` pushes, link by link. A removed link is
      skipped. So is a live link whose user row is missing: the push sits in
      an `async` callback, which then fails before pushing. */
  function MembersOf(users: seq<User>, links: seq<EmployeeTask>): (r: seq<TaskMember>)
    ensures |r| <= |links|
  {
    if links == [] then []
    else
      var l := links[|links| - 1];
      var pre := MembersOf(users, links[..|links| - 1]);
      var u := UserRow(users, l.userId);
      if Live(l.deletedAt) && u.Some? then pre + [TaskMember(l.id, l.userId, u.value.avatar, u.value.fullName, l.isTaskLead)]
      else pre
  }

  /** Every member shown comes from a live link, with its id, user and lead flag. */
  lemma {:induction false} MembersFromLiveLinks(users: seq<User>, links: seq<EmployeeTask>)
    ensures forall m :: m in MembersOf(users, links) ==>
              exists l :: l in links && Live(l.deletedAt) && l.id == m.id && l.userId == m.userId && l.isTaskLead == m.isTaskLead
  {
    if links != [] {
      var pre := links[..|links| - 1];
      MembersFromLiveLinks(users, pre);
      assert forall x :: x in pre ==> x in links;
      assert links[|links| - 1] in links;
    }
  }

  /** Every live link whose user exists is shown. */
  lemma {:induction false} LiveLinksShown(users: seq<User>, links: seq<EmployeeTask>)
    ensures forall l :: l in links && Live(l.deletedAt) && UserRow(users, l.userId).Some? ==>
              exists m :: m in MembersOf(users, links) && m.id == l.id && m.userId == l.userId
  {
    if links != [] {
      var pre := links[..|links| - 1];
      var l := links[|links| - 1];
      LiveLinksShown(users, pre);
      assert forall x :: x in links ==> x in pre || x == l;
      var u := UserRow(users, l.userId);
      if Live(l.deletedAt) && u.Some? {
        var m := TaskMember(l.id, l.userId, u.value.avatar, u.value.fullName, l.isTaskLead);
        assert MembersOf(users, links) == MembersOf(users, pre) + [m];
        assert m in MembersOf(users, links);
      }
    }
  }

  function ViewOf(n: TaskNote): NoteView { NoteView(n.id, n.note, n.checked) }

  /** The notes `taskSchema` pushes: the live ones, in order. */
  function LiveNotes(notes: seq<TaskNote>): (r: seq<NoteView>)
    ensures |r| <= |notes|
    ensures forall v :: v in r ==> exists n :: n in notes && Live(n.deletedAt) && v == ViewOf(n)
    ensures forall n :: n in notes && Live(n.deletedAt) ==> ViewOf(n) in r
  {
    if notes == [] then []
    else
      var n := notes[|notes| - 1];
      var pre := LiveNotes(notes[..|notes| - 1]);
      assert forall x :: x in notes[..|notes| - 1] ==> x in notes;
      assert forall x :: x in notes ==> x in notes[..|notes| - 1] || x == n;
      if Live(n.deletedAt) then pre + [ViewOf(n)] else pre
  }

  /** `taskSchema(task)` given the `user` relation the row was read with
      (`None` when there is none) and the `TypeError` reading through it
      raises: the owner's fields are read unguarded. */
  function SchemaWith(owner: Option<User>, users: seq<User>, t: FullTask, missing: Error): (r: Result<TaskDetails>)
    ensures r.Err? <==> owner.None?
    ensures r.Err? ==> r.error == missing
    ensures r.Ok? ==> r.value.id == t.task.id && r.value.ownerId == owner.value.id
                      && r.value.title == t.task.title && r.value.status == t.task.status
                      && r.value.members == MembersOf(users, t.links) && r.value.notes == LiveNotes(t.notes)
  {
    match owner
    case None => Err(missing)
    case Some(u) =>
      Ok(TaskDetails(t.task.id, t.task.title, t.task.description, u.id, u.fullName, u.avatar,
                     t.task.startDate, t.task.endDate, t.task.status, t.task.priority,
                     LiveNotes(t.notes), MembersOf(users, t.links)))
  }

  /** `taskSchema` of a task read by `findTaskById`, which joins the owner
      row: a missing owner is the `TypeError` of reading through `null`. */
  function SchemaOf(users: seq<User>, t: FullTask): (r: Result<TaskDetails>)
    ensures r.Err? <==> UserRow(users, t.task.userId).None?
    ensures r.Err? ==> r.error == MissingRelation
    ensures r.Ok? ==> r.value.ownerId == t.task.userId
  {
    SchemaWith(UserRow(users, t.task.userId), users, t, MissingRelation)
  }

  /** The view never shows a removed collaborator or a removed note. */
  lemma SchemaOmitsRemoved(users: seq<User>, t: FullTask)
    requires SchemaOf(users, t).Ok?
    ensures forall m :: m in SchemaOf(users, t).value.members ==>
              exists l :: l in t.links && Live(l.deletedAt) && l.id == m.id
    ensures forall v :: v in SchemaOf(users, t).value.notes ==>
              exists n :: n in t.notes && Live(n.deletedAt) && n.id == v.id
  {
    MembersFromLiveLinks(users, t.links);
    forall v | v in SchemaOf(users, t).value.notes
      ensures exists n :: n in t.notes && Live(n.deletedAt) && n.id == v.id
    {
      var n :| n in t.notes && Live(n.deletedAt) && v == ViewOf(n);
    }
  }

  /** `taskSchema` with its two loops pushing into `members` and `notes`. */
  method TaskSchema(auth: AuthRepository, t: FullTask) returns (r: Result<TaskDetails>)
    ensures r == SchemaOf(auth.users, t)
  {
    var members: seq<TaskMember> := [];
    var k := 0;
    while k < |t.links|
      invariant 0 <= k <= |t.links|
      invariant members == MembersOf(auth.users, t.links[..k])
    {
      var l := t.links[k];
      assert t.links[..k + 1][..k] == t.links[..k];
      if Live(l.deletedAt) {
        var u := UserRow(auth.users, l.userId);
        if u.Some? {
          members := members + [TaskMember(l.id, l.userId, u.value.avatar, u.value.fullName, l.isTaskLead)];
        }
      }
      k := k + 1;
    }
    assert t.links[..k] == t.links;
    var notes: seq<NoteView> := [];
    k := 0;
    while k < |t.notes|
      invariant 0 <= k <= |t.notes|
      invariant notes == LiveNotes(t.notes[..k])
    {
      assert t.notes[..k + 1][..k] == t.notes[..k];
      if Live(t.notes[k].deletedAt) {
        notes := notes + [ViewOf(t.notes[k])];
      }
      k := k + 1;
    }
    assert t.notes[..k] == t.notes;
    var owner := UserRow(auth.users, t.task.userId);
    if owner.None? {
      return Err(MissingRelation);
    }
    return Ok(TaskDetails(t.task.id, t.task.title, t.task.description, owner.value.id, owner.value.fullName,
                          owner.value.avatar, t.task.startDate, t.task.endDate, t.task.status, t.task.priority,
                          notes, members));
  }

  /** `getTask(taskId, companyId)`: the view of a live task of the company. */
  function TaskResponse(auth: AuthRepository, store: TaskStore, taskId: Id, companyId: Id): (r: Result<TaskDetails>)
    reads auth, store
    ensures store.FindTaskById(taskId).None? ==> r == Err(TaskMissing)
    ensures store.FindTaskById(taskId).Some? && store.FindTaskById(taskId).value.task.companyId != companyId ==>
              r == Err(TaskMissing)
    ensures r.Ok? ==> store.FindTaskById(taskId).Some? && store.FindTaskById(taskId).value.task.companyId == companyId
                      && r == SchemaOf(auth.users, store.FindTaskById(taskId).value) && r.value.id == taskId
  {
    match store.FindTaskById(taskId)
    case None => Err(TaskMissing)
    case Some(t) => if t.task.companyId != companyId then Err(TaskMissing) else SchemaOf(auth.users, t)
  }

  method GetTask(auth: AuthRepository, store: TaskStore, taskId: Id, companyId: Id) returns (r: Result<TaskDetails>)
    ensures r == TaskResponse(auth, store, taskId, companyId)
  {
    var t := store.FindTaskById(taskId);
    if t.None? || t.value.task.companyId != companyId {
      return Err(TaskMissing);
    }
    r := TaskSchema(auth, t.value);
  }

  // ------------------------------------------------------------ createTask

  datatype MemberRequest = MemberRequest(id: Id, isTaskLead: bool)

  /** The body of `createTask`. An absent `employees` or `notes` list is
      the empty one: both only drive a loop. */
  datatype CreateTaskBody = CreateTaskBody(
    title: string, description: string, isDraft: bool, startDate: Option<int>, endDate: Option<int>,
    assignType: string, status: string, priority: string,
    employees: seq<MemberRequest>, notes: seq<string>)

  /** The guards of `createTask`: an ADMIN user, and a title no live task of
      the company already has. */
  function CreateCheck(auth: AuthRepository, store: TaskStore, userId: Id, companyId: Id, title: string): (r: Outcome)
    reads auth, store
    ensures auth.FindUserByIdOrThrow(userId).Err? ==> r == Fail(UserNotFound)
    ensures r == Pass <==> auth.FindUserByIdOrThrow(userId).Ok? && auth.FindUserByIdOrThrow(userId).value.userType == ADMIN
                           && store.FindTaskByTitle(companyId, title).None?
    ensures r.Fail? && r.error == TitleTaken ==> store.FindTaskByTitle(companyId, title).Some?
  {
    match auth.FindUserByIdOrThrow(userId)
    case Err(e) => Fail(e)
    case Ok(user) =>
      if user.userType != ADMIN then Fail(PermissionDenied)
      else if store.FindTaskByTitle(companyId, title).Some? then Fail(TitleTaken)
      else Pass
  }

  function NewTask(taskId: Id, body: CreateTaskBody, userId: Id, companyId: Id): Task
  {
    Task(taskId, body.title, body.description, body.isDraft, body.startDate, body.endDate, body.assignType,
         body.status, body.priority, userId, companyId, None)
  }

  /** The collaborator links `createTask` creates: one per requested member
      when the task is assigned to MEMBERS, none otherwise. */
  function NewLinks(taskId: Id, body: CreateTaskBody, ids: seq<Id>): (r: seq<EmployeeTask>)
    requires |ids| == |body.employees|
    ensures body.assignType != "MEMBERS" ==> r == []
    ensures body.assignType == "MEMBERS" ==> |r| == |body.employees|
    ensures forall l :: l in r ==> l.taskId == taskId && Live(l.deletedAt)
    ensures forall i :: 0 <= i < |r| ==> r[i].id == ids[i] && r[i].userId == body.employees[i].id
  {
    if body.assignType != "MEMBERS" then []
    else seq(|ids|, i requires 0 <= i < |ids| =>
               EmployeeTask(ids[i], taskId, body.employees[i].id, body.employees[i].isTaskLead, None))
  }

  /** The checklist notes `createTask` creates, unticked. */
  function NewNotes(taskId: Id, body: CreateTaskBody, ids: seq<Id>): (r: seq<TaskNote>)
    requires |ids| == |body.notes|
    ensures |r| == |body.notes|
    ensures forall n :: n in r ==> n.taskId == taskId && !n.checked && Live(n.deletedAt)
    ensures forall i :: 0 <= i < |r| ==> r[i].id == ids[i] && r[i].note == body.notes[i]
  {
    seq(|ids|, i requires 0 <= i < |ids| => TaskNote(ids[i], taskId, body.notes[i], false, None))
  }

  predicate Distinct(ids: seq<Id>)
  {
    forall i, j :: 0 <= i < j < |ids| ==> ids[i] != ids[j]
  }

  /** The loop of `createEmployeeTask` calls. */
  method AddLinks(store: TaskStore, rows: seq<EmployeeTask>)
    requires store.Valid()
    requires forall i, j :: 0 <= i < j < |rows| ==> rows[i].id != rows[j].id
    requires forall l :: l in rows ==> !store.HasLink(l.id)
    modifies store
    ensures store.Valid()
    ensures store.links == old(store.links) + rows && store.tasks == old(store.tasks) && store.notes == old(store.notes)
  {
    var k := 0;
    while k < |rows|
      invariant 0 <= k <= |rows| && store.Valid()
      invariant store.links == old(store.links) + rows[..k]
      invariant store.tasks == old(store.tasks) && store.notes == old(store.notes)
      invariant forall i :: k <= i < |rows| ==> !store.HasLink(rows[i].id)
    {
      assert rows[k] in rows;
      var o := store.CreateEmployeeTask(rows[k]);
      assert rows[..k + 1] == rows[..k] + [rows[k]];
      k := k + 1;
    }
    assert rows[..k] == rows;
  }

  /** The loop of `createTaskList` calls. */
  method AddNotes(store: TaskStore, rows: seq<TaskNote>)
    requires store.Valid()
    requires forall i, j :: 0 <= i < j < |rows| ==> rows[i].id != rows[j].id
    requires forall n :: n in rows ==> !store.HasNote(n.id)
    modifies store
    ensures store.Valid()
    ensures store.notes == old(store.notes) + rows && store.tasks == old(store.tasks) && store.links == old(store.links)
  {
    var k := 0;
    while k < |rows|
      invariant 0 <= k <= |rows| && store.Valid()
      invariant store.notes == old(store.notes) + rows[..k]
      invariant store.tasks == old(store.tasks) && store.links == old(store.links)
      invariant forall i :: k <= i < |rows| ==> !store.HasNote(rows[i].id)
    {
      assert rows[k] in rows;
      var o := store.CreateTaskList(rows[k]);
      assert rows[..k + 1] == rows[..k] + [rows[k]];
      k := k + 1;
    }
    assert rows[..k] == rows;
  }

  /** `createTask(body, userId, companyId)`: after the guards, one task, its
      collaborator links and its notes are stored; a published (non-draft)
      task notifies each of its collaborators, a draft nobody. The store
      generates the ids, here given and fresh. */
  method CreateTask(auth: AuthRepository, store: TaskStore, inbox: NotificationRepository, body: CreateTaskBody,
                    userId: Id, companyId: Id, taskId: Id, linkIds: seq<Id>, noteIds: seq<Id>)
    returns (r: Outcome)
    requires store.Valid() && !store.HasTask(taskId)
    requires |linkIds| == |body.employees| && Distinct(linkIds) && forall id :: id in linkIds ==> !store.HasLink(id)
    requires |noteIds| == |body.notes| && Distinct(noteIds) && forall id :: id in noteIds ==> !store.HasNote(id)
    modifies store, inbox
    ensures store.Valid()
    ensures old(CreateCheck(auth, store, userId, companyId, body.title)).Fail? ==>
              r == old(CreateCheck(auth, store, userId, companyId, body.title)) && unchanged(store) && unchanged(inbox)
    ensures old(CreateCheck(auth, store, userId, companyId, body.title)).Pass? ==>
              && r == Pass
              && store.tasks == old(store.tasks) + [NewTask(taskId, body, userId, companyId)]
              && store.links == old(store.links) + NewLinks(taskId, body, linkIds)
              && store.notes == old(store.notes) + NewNotes(taskId, body, noteIds)
              && (body.isDraft ==> unchanged(inbox))
              && (!body.isDraft ==>
                    inbox.notifications == old(inbox.notifications)
                      + Notices(store.LinksOf(taskId), AssignNotice(NewTask(taskId, body, userId, companyId),
                                                                    auth.FindUserById(userId).value)))
  {
    var check := CreateCheck(auth, store, userId, companyId, body.title);
    if check.Fail? {
      return check;
    }
    var task := NewTask(taskId, body, userId, companyId);
    StoreTask(store, body, task, linkIds, noteIds);
    if !task.isDraft {
      NewTaskFound(store, task);
      var sent := NotificationService.CreateTask(auth, store, inbox, taskId);
    }
    return Pass;
  }

  /** The writes of `createTask`: the task row, its links, its notes. */
  method StoreTask(store: TaskStore, body: CreateTaskBody, task: Task, linkIds: seq<Id>, noteIds: seq<Id>)
    requires store.Valid() && !store.HasTask(task.id)
    requires |linkIds| == |body.employees| && Distinct(linkIds) && forall id :: id in linkIds ==> !store.HasLink(id)
    requires |noteIds| == |body.notes| && Distinct(noteIds) && forall id :: id in noteIds ==> !store.HasNote(id)
    modifies store
    ensures store.Valid()
    ensures store.tasks == old(store.tasks) + [task]
    ensures store.links == old(store.links) + NewLinks(task.id, body, linkIds)
    ensures store.notes == old(store.notes) + NewNotes(task.id, body, noteIds)
  {
    var o := store.CreateTask(task);
    var links := NewLinks(task.id, body, linkIds);
    forall l | l in links
      ensures !store.HasLink(l.id)
    {
      var i :| 0 <= i < |links| && links[i] == l;
      assert linkIds[i] in linkIds;
    }
    AddLinks(store, links);
    var rows := NewNotes(task.id, body, noteIds);
    forall n | n in rows
      ensures !store.HasNote(n.id)
    {
      var i :| 0 <= i < |rows| && rows[i] == n;
      assert noteIds[i] in noteIds;
    }
    AddNotes(store, rows);
  }

  /** A task just appended under a fresh id is the one found by that id. */
  lemma NewTaskFound(store: TaskStore, t: Task)
    requires store.Valid() && t in store.tasks && Live(t.deletedAt)
    ensures store.FindTaskById(t.id).Some? && store.FindTaskById(t.id).value.task == t
  {
    var f := store.FindTaskById(t.id).value.task;
    var i :| 0 <= i < |store.tasks| && store.tasks[i] == f;
    var j :| 0 <= j < |store.tasks| && store.tasks[j] == t;
    assert i == j;
  }

  // ------------------------------------------------------------ toggleTask

  /** The guards of `toggleTask`: a member of the company, a note (removed or
      not) of one of its tasks, and a value different from the note's. */
  function ToggleCheck(auth: AuthRepository, store: TaskStore, userId: Id, companyId: Id, noteId: Id, value: bool)
    : (r: Result<TaskNote>)
    reads auth, store
    ensures auth.FindUserByIdInCompany(userId, companyId).Err? ==> r == Err(UserNotFound)
    ensures auth.FindUserByIdInCompany(userId, companyId).Ok? && store.FindListItemById(noteId).None? ==>
              r == Err(NoteMissing)
    ensures r.Ok? <==> auth.FindUserByIdInCompany(userId, companyId).Ok? && store.FindListItemById(noteId).Some?
                       && store.FindListItemById(noteId).value.task.Some?
                       && store.FindListItemById(noteId).value.task.value.companyId == companyId
                       && store.FindListItemById(noteId).value.note.checked != value
    ensures r.Ok? ==> r.value == store.FindListItemById(noteId).value.note && r.value.id == noteId
    ensures r.Err? && r.error == SameNoteStatus ==> store.FindListItemById(noteId).value.note.checked == value
  {
    match auth.FindUserByIdInCompany(userId, companyId)
    case Err(e) => Err(e)
    case Ok(_) =>
      match store.FindListItemById(noteId)
      case None => Err(NoteMissing)
      case Some(item) =>
        if item.task.None? then Err(MissingRelation)
        else if item.task.value.companyId != companyId then Err(NoteMissing)
        else if item.note.checked == value then Err(SameNoteStatus)
        else Ok(item.note)
  }

  /** `toggleTask(userId, companyId, noteId, value)`: the live note gets the
      new `checked` value and nothing else changes; the collaborators are
      told of the update and the reply is the task's view. A removed note
      passes the guards but its update finds no row. */
  method ToggleTask(auth: AuthRepository, store: TaskStore, inbox: NotificationRepository,
                    userId: Id, companyId: Id, noteId: Id, value: bool)
    returns (r: Result<TaskDetails>)
    requires store.Valid()
    modifies store, inbox
    ensures store.Valid()
    ensures old(ToggleCheck(auth, store, userId, companyId, noteId, value)).Err? ==>
              r == Err(old(ToggleCheck(auth, store, userId, companyId, noteId, value)).error)
              && unchanged(store) && unchanged(inbox)
    ensures old(ToggleCheck(auth, store, userId, companyId, noteId, value)).Ok? && !old(store.HasLiveNote(noteId)) ==>
              r == Err(RecordNotFound) && unchanged(store) && unchanged(inbox)
    ensures old(ToggleCheck(auth, store, userId, companyId, noteId, value)).Ok? && old(store.HasLiveNote(noteId)) ==>
              var taskId := old(ToggleCheck(auth, store, userId, companyId, noteId, value)).value.taskId;
              && store.notes == PatchLiveNotes(old(store.notes), noteId, NotePatch(None, Some(value)))
              && store.tasks == old(store.tasks) && store.links == old(store.links)
              && (UpdatePlan(auth, store, taskId, userId).Err? ==>
                    r == Err(UpdatePlan(auth, store, taskId, userId).error) && unchanged(inbox))
              && (UpdatePlan(auth, store, taskId, userId).Ok? ==>
                    inbox.notifications == old(inbox.notifications) + UpdatePlan(auth, store, taskId, userId).value
                    && r == TaskResponse(auth, store, taskId, companyId))
  {
    var note := ToggleCheck(auth, store, userId, companyId, noteId, value);
    if note.Err? {
      return Err(note.error);
    }
    var o := store.UpdateListTask(NotePatch(None, Some(value)), noteId);
    if o.Fail? {
      return Err(o.error);
    }
    r := UpdatedView(auth, store, inbox, note.value.taskId, userId, companyId);
  }

  /** The tail of every task edit: `sendUpdateTask`, then `getTask`. */
  method UpdatedView(auth: AuthRepository, store: TaskStore, inbox: NotificationRepository,
                     taskId: Id, userId: Id, companyId: Id)
    returns (r: Result<TaskDetails>)
    modifies inbox
    ensures UpdatePlan(auth, store, taskId, userId).Err? ==>
              r == Err(UpdatePlan(auth, store, taskId, userId).error) && unchanged(inbox)
    ensures UpdatePlan(auth, store, taskId, userId).Ok? ==>
              inbox.notifications == old(inbox.notifications) + UpdatePlan(auth, store, taskId, userId).value
              && r == TaskResponse(auth, store, taskId, companyId)
  {
    var sent := SendUpdateTask(auth, store, inbox, taskId, userId);
    if sent.Fail? {
      return Err(sent.error);
    }
    r := GetTask(auth, store, taskId, companyId);
  }

  /** After the toggle, every live copy of the note carries the new value. */
  lemma ToggleSetsValue(rows: seq<TaskNote>, noteId: Id, value: bool)
    ensures forall n :: (n in PatchLiveNotes(rows, noteId, NotePatch(None, Some(value))) && n.id == noteId
                         && Live(n.deletedAt)) ==> n.checked == value
  {
    var s := PatchLiveNotes(rows, noteId, NotePatch(None, Some(value)));
    forall n | n in s && n.id == noteId && Live(n.deletedAt)
      ensures n.checked == value
    {
      var i :| 0 <= i < |s| && s[i] == n;
    }
  }

  // ------------------------------------------------------------ publishTask

  /** The guards of `publishTask`: a live task of the company that is still a draft. */
  function PublishCheck(store: TaskStore, taskId: Id, companyId: Id): (r: Result<FullTask>)
    reads store
    ensures r.Ok? <==> store.FindTaskById(taskId).Some? && store.FindTaskById(taskId).value.task.companyId == companyId
                       && store.FindTaskById(taskId).value.task.isDraft
    ensures r.Err? && r.error == AlreadyPublished ==>
              store.FindTaskById(taskId).Some? && !store.FindTaskById(taskId).value.task.isDraft
    ensures r.Err? ==> r.error == TaskMissing || r.error == AlreadyPublished
    ensures r.Ok? ==> Some(r.value) == store.FindTaskById(taskId)
  {
    match store.FindTaskById(taskId)
    case None => Err(TaskMissing)
    case Some(t) =>
      if t.task.companyId != companyId then Err(TaskMissing)
      else if !t.task.isDraft then Err(AlreadyPublished)
      else Ok(t)
  }

  const Publish := TaskPatch(Some(false), None, None)

  /** Reading `task.user.id` on a row fetched without its relations. */
  const UnjoinedOwner := Error(TypeError, "Cannot read properties of undefined (reading 'id')")

  /** The reply of `publishTask` as written: `taskSchema` is given the row
      `updateTask` returns, which carries no `user` relation, so reading the
      owner fails whatever the row holds. */
  function PublishReplyAsWritten(users: seq<User>, updated: Task): (r: Result<TaskDetails>)
    ensures r == Err(UnjoinedOwner)
  {
    SchemaWith(None, users, FullTask(updated, [], []), UnjoinedOwner)
  }

  /** After the publishing write, the task is found again, no longer a draft. */
  lemma PublishedTaskFound(rows: seq<Task>, t: Task)
    requires forall i, j :: 0 <= i < j < |rows| ==> rows[i].id != rows[j].id
    requires t in rows && Live(t.deletedAt)
    ensures var after := PatchTasks(rows, t.id, Publish);
            var f := Find(after, (x: Task) => x.id == t.id && Live(x.deletedAt));
            && f.Some? && !f.value.isDraft && f.value.companyId == t.companyId
  {
    var after := PatchTasks(rows, t.id, Publish);
    var k :| 0 <= k < |rows| && rows[k] == t;
    assert after[k] == ApplyTaskPatch(Publish, t) && after[k] in after;
    var f := Find(after, (x: Task) => x.id == t.id && Live(x.deletedAt));
    var i :| 0 <= i < |after| && after[i] == f.value;
    assert rows[i].id == t.id;
    assert i == k;
  }

  /** `publishTask(taskId, companyId)`: a draft of the company becomes
      published and nothing else of it changes; every collaborator is told
      they were assigned. */
  method PublishTask(auth: AuthRepository, store: TaskStore, inbox: NotificationRepository, taskId: Id, companyId: Id)
    returns (r: Result<TaskDetails>)
    requires store.Valid()
    modifies store, inbox
    ensures store.Valid()
    ensures old(PublishCheck(store, taskId, companyId)).Err? ==>
              r == Err(old(PublishCheck(store, taskId, companyId)).error) && unchanged(store) && unchanged(inbox)
    ensures old(PublishCheck(store, taskId, companyId)).Ok? ==>
              && store.tasks == PatchTasks(old(store.tasks), taskId, Publish)
              && store.links == old(store.links) && store.notes == old(store.notes)
              && store.FindTaskById(taskId).Some? && !store.FindTaskById(taskId).value.task.isDraft
              && var t := store.FindTaskById(taskId).value;
                 (t.links != [] && auth.FindUserById(t.task.userId).None? ==> r == Err(MissingRelation) && unchanged(inbox))
                 && (t.links == [] ==> unchanged(inbox) && r == TaskResponse(auth, store, taskId, companyId))
                 && (auth.FindUserById(t.task.userId).Some? ==>
                       inbox.notifications == old(inbox.notifications)
                         + Notices(t.links, AssignNotice(t.task, auth.FindUserById(t.task.userId).value))
                       && r == TaskResponse(auth, store, taskId, companyId))
  {
    var task := PublishCheck(store, taskId, companyId);
    if task.Err? {
      return Err(task.error);
    }
    r := PublishAndAnnounce(auth, store, inbox, taskId, companyId, task.value.task);
  }

  /** What `publishTask` does once its guards passed: the write, `createTask`'s
      notifications, then the task's view read back. */
  method PublishAndAnnounce(auth: AuthRepository, store: TaskStore, inbox: NotificationRepository,
                            taskId: Id, companyId: Id, task: Task)
    returns (r: Result<TaskDetails>)
    requires store.Valid() && task in store.tasks && task.id == taskId && Live(task.deletedAt)
    modifies store, inbox
    ensures store.Valid()
    ensures store.tasks == PatchTasks(old(store.tasks), taskId, Publish)
    ensures store.links == old(store.links) && store.notes == old(store.notes)
    ensures store.FindTaskById(taskId).Some? && !store.FindTaskById(taskId).value.task.isDraft
    ensures var t := store.FindTaskById(taskId).value;
            && (t.links != [] && auth.FindUserById(t.task.userId).None? ==> r == Err(MissingRelation) && unchanged(inbox))
            && (t.links == [] ==> unchanged(inbox) && r == TaskResponse(auth, store, taskId, companyId))
            && (auth.FindUserById(t.task.userId).Some? ==>
                  inbox.notifications == old(inbox.notifications)
                    + Notices(t.links, AssignNotice(t.task, auth.FindUserById(t.task.userId).value))
                  && r == TaskResponse(auth, store, taskId, companyId))
  {
    var updated := store.UpdateTask(Publish, taskId);
    PublishedTaskFound(old(store.tasks), task);
    r := PublishedView(auth, store, inbox, taskId, companyId);
  }

  /** The tail of `publishTask`: `createTask`'s notifications, then the
      task's view read back. */
  method PublishedView(auth: AuthRepository, store: TaskStore, inbox: NotificationRepository, taskId: Id, companyId: Id)
    returns (r: Result<TaskDetails>)
    requires store.FindTaskById(taskId).Some?
    modifies inbox
    ensures var t := store.FindTaskById(taskId).value;
            && (t.links != [] && auth.FindUserById(t.task.userId).None? ==> r == Err(MissingRelation) && unchanged(inbox))
            && (t.links == [] ==> unchanged(inbox) && r == TaskResponse(auth, store, taskId, companyId))
            && (auth.FindUserById(t.task.userId).Some? ==>
                  inbox.notifications == old(inbox.notifications)
                    + Notices(t.links, AssignNotice(t.task, auth.FindUserById(t.task.userId).value))
                  && r == TaskResponse(auth, store, taskId, companyId))
  {
    var sent := NotificationService.CreateTask(auth, store, inbox, taskId);
    if sent.Fail? {
      return Err(sent.error);
    }
    r := GetTask(auth, store, taskId, companyId);
  }

  // ------------------------------------------------------------ collaborators

  /** The acting admin: a live user of the company of type ADMIN. */
  function AdminOf(auth: AuthRepository, adminId: Id, companyId: Id): (r: Result<User>)
    reads auth
    ensures auth.FindUserByIdInCompany(adminId, companyId).Err? ==> r == Err(UserNotFound)
    ensures r.Ok? <==> auth.FindUserByIdInCompany(adminId, companyId).Ok?
                       && auth.FindUserByIdInCompany(adminId, companyId).value.userType == ADMIN
    ensures r.Ok? ==> r.value.userType == ADMIN && auth.FindUserByIdOrThrow(adminId).Ok?
  {
    match auth.FindUserByIdInCompany(adminId, companyId)
    case Err(e) => Err(e)
    case Ok(admin) => if admin.userType != ADMIN then Err(PermissionDenied) else Ok(admin)
  }

  /** The live task of the company an admin works on. */
  function CompanyTask(store: TaskStore, taskId: Id, companyId: Id): (r: Result<FullTask>)
    reads store
    ensures r.Ok? <==> store.FindTaskById(taskId).Some? && store.FindTaskById(taskId).value.task.companyId == companyId
    ensures r.Err? ==> r.error == TaskMissing
    ensures r.Ok? ==> Some(r.value) == store.FindTaskById(taskId)
  {
    match store.FindTaskById(taskId)
    case None => Err(TaskMissing)
    case Some(t) => if t.task.companyId != companyId then Err(TaskMissing) else Ok(t)
  }

  /** The guards of `addTaskCollaborator`: the admin, the task, the user in
      the company, and no live link of the user to the task. The result is
      the user's removed link to revive, if any. */
  function AddCheck(auth: AuthRepository, store: TaskStore, adminId: Id, taskId: Id, userId: Id, companyId: Id)
    : (r: Result<Option<EmployeeTask>>)
    reads auth, store
    ensures AdminOf(auth, adminId, companyId).Err? ==> r == Err(AdminOf(auth, adminId, companyId).error)
    ensures r.Ok? <==> AdminOf(auth, adminId, companyId).Ok? && CompanyTask(store, taskId, companyId).Ok?
                       && auth.FindUserByIdInCompany(userId, companyId).Ok?
                       && (store.FindByUserAndTask(userId, taskId).Some? ==>
                             !Live(store.FindByUserAndTask(userId, taskId).value.deletedAt))
    ensures r.Err? && r.error == AlreadyCollaborator ==>
              store.FindByUserAndTask(userId, taskId).Some? && Live(store.FindByUserAndTask(userId, taskId).value.deletedAt)
    ensures r.Ok? ==> r.value == store.FindByUserAndTask(userId, taskId)
  {
    match AdminOf(auth, adminId, companyId)
    case Err(e) => Err(e)
    case Ok(_) =>
      match CompanyTask(store, taskId, companyId)
      case Err(e) => Err(e)
      case Ok(_) =>
        match auth.FindUserByIdInCompany(userId, companyId)
        case Err(e) => Err(e)
        case Ok(_) =>
          var link := store.FindByUserAndTask(userId, taskId);
          if link.Some? && Live(link.value.deletedAt) then Err(AlreadyCollaborator)
          else Ok(link)
  }

  /** The links after a collaborator was added: the removed link revived, or
      a new one appended. */
  function AddedLinks(rows: seq<EmployeeTask>, existing: Option<EmployeeTask>, added: EmployeeTask): seq<EmployeeTask>
  {
    if existing.Some? then StampLinks(rows, existing.value.id, None) else rows + [added]
  }

  /** Either way the user ends up a live collaborator of the task. */
  lemma AddedLinksMakeCollaborator(rows: seq<EmployeeTask>, existing: Option<EmployeeTask>, added: EmployeeTask)
    requires existing.Some? ==> existing.value in rows
    requires existing.None? ==> Live(added.deletedAt)
    ensures var l := if existing.Some? then existing.value else added;
            exists x :: x in AddedLinks(rows, existing, added) && x.id == l.id && x.userId == l.userId
                        && x.taskId == l.taskId && Live(x.deletedAt)
  {
    if existing.Some? {
      var e := existing.value;
      var k :| 0 <= k < |rows| && rows[k] == e;
      assert StampLinks(rows, e.id, None)[k] == e.(deletedAt := None);
    } else {
      assert (rows + [added])[|rows|] == added;
    }
  }

  /** The write of `addTaskCollaborator`: `updateCollaboration` revives the
      removed link, `createEmployeeTask` stores a new one. */
  method JoinCollaborator(store: TaskStore, taskId: Id, existing: Option<EmployeeTask>, added: EmployeeTask)
    requires store.Valid() && store.FindTaskById(taskId).Some?
    requires existing.Some? ==> existing.value in store.links
    requires existing.None? ==> !store.HasLink(added.id) && Live(added.deletedAt)
    modifies store
    ensures store.Valid()
    ensures store.links == AddedLinks(old(store.links), existing, added)
    ensures store.tasks == old(store.tasks) && store.notes == old(store.notes)
    ensures var l := if existing.Some? then existing.value else added;
            exists x :: x in store.links && x.userId == l.userId && x.taskId == l.taskId && Live(x.deletedAt)
    ensures store.FindTaskById(taskId).Some? && store.FindTaskById(taskId).value.task == old(store.FindTaskById(taskId)).value.task
  {
    AddedLinksMakeCollaborator(store.links, existing, added);
    var found := store.FindTaskById(taskId);
    if existing.Some? {
      var o := store.UpdateCollaboration(existing.value.id, None);
    } else {
      var o := store.CreateEmployeeTask(added);
    }
    assert store.FindTaskById(taskId) == Some(found.value.(links := store.LinksOf(taskId)));
  }

  /** `addTaskCollaborator(adminId, taskId, userId, companyId)`: a removed
      link of the user to the task is revived, and without one a new link is
      created; the user is told and the reply is the task's view. */
  method AddTaskCollaborator(auth: AuthRepository, store: TaskStore, inbox: NotificationRepository,
                             adminId: Id, taskId: Id, userId: Id, companyId: Id, linkId: Id)
    returns (r: Result<TaskDetails>)
    requires store.Valid() && !store.HasLink(linkId)
    modifies store, inbox
    ensures store.Valid()
    ensures old(AddCheck(auth, store, adminId, taskId, userId, companyId)).Err? ==>
              r == Err(old(AddCheck(auth, store, adminId, taskId, userId, companyId)).error)
              && unchanged(store) && unchanged(inbox)
    ensures old(AddCheck(auth, store, adminId, taskId, userId, companyId)).Ok? ==>
              var existing := old(AddCheck(auth, store, adminId, taskId, userId, companyId)).value;
              && store.links == AddedLinks(old(store.links), existing, EmployeeTask(linkId, taskId, userId, false, None))
              && store.tasks == old(store.tasks) && store.notes == old(store.notes)
              && (exists x :: x in store.links && x.userId == userId && x.taskId == taskId && Live(x.deletedAt))
              && inbox.notifications == old(inbox.notifications)
                   + [Notification(userId, adminId, taskId, TASK,
                                   AssignText(auth.FindUserByIdOrThrow(adminId).value, store.FindTaskById(taskId).value.task.title))]
              && r == TaskResponse(auth, store, taskId, companyId)
  {
    var check := AddCheck(auth, store, adminId, taskId, userId, companyId);
    if check.Err? {
      return Err(check.error);
    }
    r := JoinAndAnnounce(auth, store, inbox, adminId, taskId, userId, companyId, check.value,
                         EmployeeTask(linkId, taskId, userId, false, None));
  }

  /** What `addTaskCollaborator` does once its guards passed: the write,
      `addTaskNotification`, then `getTask`. */
  method JoinAndAnnounce(auth: AuthRepository, store: TaskStore, inbox: NotificationRepository,
                         adminId: Id, taskId: Id, userId: Id, companyId: Id,
                         existing: Option<EmployeeTask>, added: EmployeeTask)
    returns (r: Result<TaskDetails>)
    requires store.Valid() && store.FindTaskById(taskId).Some? && auth.FindUserByIdOrThrow(adminId).Ok?
    requires existing.Some? ==> existing.value in store.links && existing.value.userId == userId
                                && existing.value.taskId == taskId
    requires existing.None? ==> !store.HasLink(added.id) && added.userId == userId && added.taskId == taskId
                                && Live(added.deletedAt)
    modifies store, inbox
    ensures store.Valid()
    ensures store.links == AddedLinks(old(store.links), existing, added)
    ensures store.tasks == old(store.tasks) && store.notes == old(store.notes)
    ensures exists x :: x in store.links && x.userId == userId && x.taskId == taskId && Live(x.deletedAt)
    ensures inbox.notifications == old(inbox.notifications)
              + [Notification(userId, adminId, taskId, TASK,
                              AssignText(auth.FindUserByIdOrThrow(adminId).value, store.FindTaskById(taskId).value.task.title))]
    ensures r == TaskResponse(auth, store, taskId, companyId)
  {
    JoinCollaborator(store, taskId, existing, added);
    r := AddedView(auth, store, inbox, taskId, userId, adminId, companyId);
  }

  /** The tail of `addTaskCollaborator`: `addTaskNotification`, then `getTask`. */
  method AddedView(auth: AuthRepository, store: TaskStore, inbox: NotificationRepository,
                   taskId: Id, userId: Id, adminId: Id, companyId: Id)
    returns (r: Result<TaskDetails>)
    requires auth.FindUserByIdOrThrow(adminId).Ok? && store.FindTaskById(taskId).Some?
    modifies inbox
    ensures inbox.notifications == old(inbox.notifications)
              + [Notification(userId, adminId, taskId, TASK,
                              AssignText(auth.FindUserByIdOrThrow(adminId).value, store.FindTaskById(taskId).value.task.title))]
    ensures r == TaskResponse(auth, store, taskId, companyId)
  {
    var sent := AddTaskNotification(auth, store, inbox, taskId, userId, adminId);
    r := GetTask(auth, store, taskId, companyId);
  }

  /** The guards of `removeTaskCollaborator`: the admin, the task, and a live
      link that belongs to this task. */
  function RemoveCheck(auth: AuthRepository, store: TaskStore, adminId: Id, taskId: Id, collaborationId: Id,
                       companyId: Id)
    : (r: Result<EmployeeTask>)
    reads auth, store
    ensures AdminOf(auth, adminId, companyId).Err? ==> r == Err(AdminOf(auth, adminId, companyId).error)
    ensures r.Ok? <==> AdminOf(auth, adminId, companyId).Ok? && CompanyTask(store, taskId, companyId).Ok?
                       && store.FindLinkById(collaborationId).Some? && store.FindLinkById(collaborationId).value.taskId == taskId
    ensures AdminOf(auth, adminId, companyId).Ok? && CompanyTask(store, taskId, companyId).Ok?
            && store.FindLinkById(collaborationId).Some? && store.FindLinkById(collaborationId).value.taskId != taskId ==>
              r == Err(NotCollaborator)
    ensures r.Ok? ==> r.value == store.FindLinkById(collaborationId).value
  {
    match AdminOf(auth, adminId, companyId)
    case Err(e) => Err(e)
    case Ok(_) =>
      match CompanyTask(store, taskId, companyId)
      case Err(e) => Err(e)
      case Ok(_) =>
        match store.FindLinkById(collaborationId)
        case None => Err(NotCollaborator)
        case Some(l) => if l.taskId != taskId then Err(NotCollaborator) else Ok(l)
  }

  /** `removeTaskCollaborator(adminId, taskId, collaborationId, companyId)`:
      the link is stamped as removed at `now`, so it no longer counts as a
      collaborator; the user is told and the reply is the task's view. */
  method RemoveTaskCollaborator(auth: AuthRepository, store: TaskStore, inbox: NotificationRepository,
                                adminId: Id, taskId: Id, collaborationId: Id, companyId: Id, now: int)
    returns (r: Result<TaskDetails>)
    requires store.Valid()
    modifies store, inbox
    ensures store.Valid()
    ensures old(RemoveCheck(auth, store, adminId, taskId, collaborationId, companyId)).Err? ==>
              r == Err(old(RemoveCheck(auth, store, adminId, taskId, collaborationId, companyId)).error)
              && unchanged(store) && unchanged(inbox)
    ensures old(RemoveCheck(auth, store, adminId, taskId, collaborationId, companyId)).Ok? ==>
              var l := old(RemoveCheck(auth, store, adminId, taskId, collaborationId, companyId)).value;
              && store.links == StampLinks(old(store.links), collaborationId, Some(now))
              && store.tasks == old(store.tasks) && store.notes == old(store.notes)
              && store.FindLinkById(collaborationId).None?
              && inbox.notifications == old(inbox.notifications)
                   + [Notification(l.userId, adminId, taskId, TASK,
                                   RemoveText(auth.FindUserByIdOrThrow(adminId).value, store.FindTaskById(taskId).value.task.title))]
              && r == TaskResponse(auth, store, taskId, companyId)
  {
    var link := RemoveCheck(auth, store, adminId, taskId, collaborationId, companyId);
    if link.Err? {
      return Err(link.error);
    }
    r := LeaveAndAnnounce(auth, store, inbox, adminId, taskId, collaborationId, companyId, link.value.userId, now);
  }

  /** What `removeTaskCollaborator` does once its guards passed: the write,
      `removeNotification`, then `getTask`. */
  method LeaveAndAnnounce(auth: AuthRepository, store: TaskStore, inbox: NotificationRepository,
                          adminId: Id, taskId: Id, collaborationId: Id, companyId: Id, userId: Id, now: int)
    returns (r: Result<TaskDetails>)
    requires store.Valid() && store.FindTaskById(taskId).Some? && store.FindLinkById(collaborationId).Some?
    requires auth.FindUserByIdOrThrow(adminId).Ok?
    modifies store, inbox
    ensures store.Valid()
    ensures store.links == StampLinks(old(store.links), collaborationId, Some(now))
    ensures store.tasks == old(store.tasks) && store.notes == old(store.notes)
    ensures store.FindLinkById(collaborationId).None?
    ensures inbox.notifications == old(inbox.notifications)
              + [Notification(userId, adminId, taskId, TASK,
                              RemoveText(auth.FindUserByIdOrThrow(adminId).value, store.FindTaskById(taskId).value.task.title))]
    ensures r == TaskResponse(auth, store, taskId, companyId)
  {
    LeaveCollaboration(store, taskId, collaborationId, now);
    r := RemovedView(auth, store, inbox, taskId, userId, adminId, companyId);
  }

  /** The tail of `removeTaskCollaborator`: `removeNotification`, then `getTask`. */
  method RemovedView(auth: AuthRepository, store: TaskStore, inbox: NotificationRepository,
                     taskId: Id, userId: Id, adminId: Id, companyId: Id)
    returns (r: Result<TaskDetails>)
    requires auth.FindUserByIdOrThrow(adminId).Ok? && store.FindTaskById(taskId).Some?
    modifies inbox
    ensures inbox.notifications == old(inbox.notifications)
              + [Notification(userId, adminId, taskId, TASK,
                              RemoveText(auth.FindUserByIdOrThrow(adminId).value, store.FindTaskById(taskId).value.task.title))]
    ensures r == TaskResponse(auth, store, taskId, companyId)
  {
    var sent := RemoveNotification(auth, store, inbox, taskId, userId, adminId);
    r := GetTask(auth, store, taskId, companyId);
  }

  /** The write of `removeTaskCollaborator`: `deleteEmployeeTask` stamps the link. */
  method LeaveCollaboration(store: TaskStore, taskId: Id, id: Id, now: int)
    requires store.Valid() && store.FindTaskById(taskId).Some? && store.FindLinkById(id).Some?
    modifies store
    ensures store.Valid()
    ensures store.links == StampLinks(old(store.links), id, Some(now))
    ensures store.tasks == old(store.tasks) && store.notes == old(store.notes)
    ensures store.FindLinkById(id).None?
    ensures store.FindTaskById(taskId).Some? && store.FindTaskById(taskId).value.task == old(store.FindTaskById(taskId)).value.task
  {
    var found := store.FindTaskById(taskId);
    var o := store.UpdateCollaboration(id, Some(now));
    StampHidesLink(old(store.links), id, now);
    assert store.FindTaskById(taskId) == Some(found.value.(links := store.LinksOf(taskId)));
  }

  /** After stamping every link with that id as removed, none of them is live. */
  lemma StampHidesLink(rows: seq<EmployeeTask>, id: Id, now: int)
    ensures forall l :: l in StampLinks(rows, id, Some(now)) && l.id == id ==> !Live(l.deletedAt)
  {
    var s := StampLinks(rows, id, Some(now));
    forall l | l in s && l.id == id
      ensures !Live(l.deletedAt)
    {
      var i :| 0 <= i < |s| && s[i] == l;
      assert rows[i].id == id;
    }
  }
}
