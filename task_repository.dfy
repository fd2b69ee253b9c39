/** `TaskRepository`, `TaskListRepository` and `EmployeeTaskRepository` of
    `src/modules/task/repository/TaskRepository.ts`, kept together as one
    store because `findTaskById` joins a task with the rows of the other two
    tables. */
module TaskRepo {
  import opened Wrappers
  import opened Seqs
  import opened Entities

  /** A task with the collaborator links and notes its `include` joins:
      all of them, soft-deleted or not. */
  datatype FullTask = FullTask(task: Task, links: seq<EmployeeTask>, notes: seq<TaskNote>)

  /** A note with the task its `include` joins, if that row exists. */
  datatype NoteWithTask = NoteWithTask(note: TaskNote, task: Option<Task>)

  /** The columns `updateTask` is called with. */
  datatype TaskPatch = TaskPatch(isDraft: Option<bool>, status: Option<string>, deletedAt: Option<Option<int>>)

  function ApplyTaskPatch(p: TaskPatch, t: Task): (r: Task)
    ensures r.id == t.id && r.title == t.title && r.companyId == t.companyId && r.userId == t.userId
    ensures r.isDraft == Patch(p.isDraft, t.isDraft) && r.status == Patch(p.status, t.status)
    ensures r.deletedAt == Patch(p.deletedAt, t.deletedAt)
  {
    t.(isDraft := Patch(p.isDraft, t.isDraft), status := Patch(p.status, t.status),
       deletedAt := Patch(p.deletedAt, t.deletedAt))
  }

  /** The columns `updateListTask` is called with. */
  datatype NotePatch = NotePatch(note: Option<string>, checked: Option<bool>)

  function ApplyNotePatch(p: NotePatch, n: TaskNote): (r: TaskNote)
    ensures r.id == n.id && r.taskId == n.taskId && r.deletedAt == n.deletedAt
    ensures r.note == Patch(p.note, n.note) && r.checked == Patch(p.checked, n.checked)
  {
    n.(note := Patch(p.note, n.note), checked := Patch(p.checked, n.checked))
  }

  function PatchTasks(rows: seq<Task>, id: Id, p: TaskPatch): (r: seq<Task>)
    ensures |r| == |rows|
    ensures forall i :: 0 <= i < |r| ==> r[i] == if rows[i].id == id then ApplyTaskPatch(p, rows[i]) else rows[i]
  {
    seq(|rows|, i requires 0 <= i < |rows| => if rows[i].id == id then ApplyTaskPatch(p, rows[i]) else rows[i])
  }

  /** `update({ where: { id, deletedAt: null }, data })` on the notes. */
  function PatchLiveNotes(rows: seq<TaskNote>, id: Id, p: NotePatch): (r: seq<TaskNote>)
    ensures |r| == |rows|
    ensures forall i :: 0 <= i < |r| ==>
              r[i] == if rows[i].id == id && Live(rows[i].deletedAt) then ApplyNotePatch(p, rows[i]) else rows[i]
  {
    seq(|rows|, i requires 0 <= i < |rows| =>
      if rows[i].id == id && Live(rows[i].deletedAt) then ApplyNotePatch(p, rows[i]) else rows[i])
  }

  function StampLinks(rows: seq<EmployeeTask>, id: Id, deletedAt: Option<int>): (r: seq<EmployeeTask>)
    ensures |r| == |rows|
    ensures forall i :: 0 <= i < |r| ==> r[i] == if rows[i].id == id then rows[i].(deletedAt := deletedAt) else rows[i]
  {
    seq(|rows|, i requires 0 <= i < |rows| => if rows[i].id == id then rows[i].(deletedAt := deletedAt) else rows[i])
  }

  class TaskStore {
    var tasks: seq<Task>
    var notes: seq<TaskNote>
    var links: seq<EmployeeTask>

    predicate Valid()
      reads this
    {
      (forall i, j :: 0 <= i < j < |tasks| ==> tasks[i].id != tasks[j].id) &&
      (forall i, j :: 0 <= i < j < |notes| ==> notes[i].id != notes[j].id) &&
      (forall i, j :: 0 <= i < j < |links| ==> links[i].id != links[j].id)
    }

    constructor ()
      ensures Valid() && tasks == [] && notes == [] && links == []
    {
      tasks, notes, links := [], [], [];
    }

    predicate HasTask(id: Id) reads this { exists t :: t in tasks && t.id == id }
    predicate HasNote(id: Id) reads this { exists n :: n in notes && n.id == id }
    predicate HasLink(id: Id) reads this { exists l :: l in links && l.id == id }

    // ------------------------------------------------------------ tasks

    /** `createTask`. */
    method CreateTask(t: Task) returns (r: Outcome)
      requires Valid()
      modifies this
      ensures Valid()
      ensures old(HasTask(t.id)) ==> r == Fail(DuplicateKey) && unchanged(this)
      ensures !old(HasTask(t.id)) ==> r == Pass && tasks == old(tasks) + [t]
                                      && notes == old(notes) && links == old(links)
    {
      if HasTask(t.id) {
        return Fail(DuplicateKey);
      }
      tasks := tasks + [t];
      return Pass;
    }

    function LinksOf(taskId: Id): (r: seq<EmployeeTask>)
      reads this
      ensures forall l :: l in r <==> l in links && l.taskId == taskId
    {
      Filter(links, (l: EmployeeTask) => l.taskId == taskId)
    }

    function NotesOf(taskId: Id): (r: seq<TaskNote>)
      reads this
      ensures forall n :: n in r <==> n in notes && n.taskId == taskId
    {
      Filter(notes, (n: TaskNote) => n.taskId == taskId)
    }

    /** `findTaskById`: a live task with every link and note it has. */
    function FindTaskById(id: Id): (r: Option<FullTask>)
      reads this
      ensures r.Some? <==> exists t :: t in tasks && t.id == id && Live(t.deletedAt)
      ensures r.Some? ==> r.value.task in tasks && r.value.task.id == id && Live(r.value.task.deletedAt)
      ensures r.Some? ==> r.value.links == LinksOf(id) && r.value.notes == NotesOf(id)
    {
      match Find(tasks, (t: Task) => t.id == id && Live(t.deletedAt))
      case None => None
      case Some(t) => Some(FullTask(t, LinksOf(id), NotesOf(id)))
    }

    /** `findTaskByTitle(companyId, title)`: a live task of the company with that title. */
    function FindTaskByTitle(companyId: Id, title: string): (r: Option<Task>)
      reads this
      ensures r.Some? <==> exists t :: t in tasks && t.companyId == companyId && t.title == title && Live(t.deletedAt)
      ensures r.Some? ==> r.value in tasks && r.value.companyId == companyId && r.value.title == title
    {
      Find(tasks, (t: Task) => t.companyId == companyId && t.title == title && Live(t.deletedAt))
    }

    /** `updateTask(body, id)`: patches the task with that id and returns the
        plain row, without the joined links, notes and owner. */
    method UpdateTask(p: TaskPatch, id: Id) returns (r: Result<Task>)
      requires Valid()
      modifies this
      ensures Valid()
      ensures !old(HasTask(id)) ==> r == Err(RecordNotFound) && unchanged(this)
      ensures old(HasTask(id)) ==> r.Ok? && r.value in tasks && r.value.id == id
                                   && tasks == PatchTasks(old(tasks), id, p)
                                   && notes == old(notes) && links == old(links)
    {
      var t := Find(tasks, (t: Task) => t.id == id);
      if t.None? {
        return Err(RecordNotFound);
      }
      var k :| 0 <= k < |tasks| && tasks[k] == t.value;
      tasks := PatchTasks(tasks, id, p);
      assert tasks[k] == ApplyTaskPatch(p, t.value);
      return Ok(ApplyTaskPatch(p, t.value));
    }

    // ------------------------------------------------------------ notes

    /** `createTaskList`. */
    method CreateTaskList(n: TaskNote) returns (r: Outcome)
      requires Valid()
      modifies this
      ensures Valid()
      ensures old(HasNote(n.id)) ==> r == Fail(DuplicateKey) && unchanged(this)
      ensures !old(HasNote(n.id)) ==> r == Pass && notes == old(notes) + [n]
                                      && tasks == old(tasks) && links == old(links)
    {
      if HasNote(n.id) {
        return Fail(DuplicateKey);
      }
      notes := notes + [n];
      return Pass;
    }

    /** `findListItemById`: the note with that id, deleted or not, with its task row. */
    function FindListItemById(id: Id): (r: Option<NoteWithTask>)
      reads this
      ensures r.Some? <==> HasNote(id)
      ensures r.Some? ==> r.value.note in notes && r.value.note.id == id
      ensures r.Some? ==> r.value.task == Find(tasks, (t: Task) => t.id == r.value.note.taskId)
    {
      match Find(notes, (n: TaskNote) => n.id == id)
      case None => None
      case Some(n) => Some(NoteWithTask(n, Find(tasks, (t: Task) => t.id == n.taskId)))
    }

    predicate HasLiveNote(id: Id) reads this { exists n :: n in notes && n.id == id && Live(n.deletedAt) }

    /** `updateListTask(body, id)`: only a live note can be updated. */
    method UpdateListTask(p: NotePatch, id: Id) returns (r: Outcome)
      requires Valid()
      modifies this
      ensures Valid()
      ensures !old(HasLiveNote(id)) ==> r == Fail(RecordNotFound) && unchanged(this)
      ensures old(HasLiveNote(id)) ==> r == Pass && notes == PatchLiveNotes(old(notes), id, p)
                                       && tasks == old(tasks) && links == old(links)
    {
      if !HasLiveNote(id) {
        return Fail(RecordNotFound);
      }
      notes := PatchLiveNotes(notes, id, p);
      return Pass;
    }

    // ------------------------------------------------------------ collaborators

    /** `createEmployeeTask`. */
    method CreateEmployeeTask(l: EmployeeTask) returns (r: Outcome)
      requires Valid()
      modifies this
      ensures Valid()
      ensures old(HasLink(l.id)) ==> r == Fail(DuplicateKey) && unchanged(this)
      ensures !old(HasLink(l.id)) ==> r == Pass && links == old(links) + [l]
                                      && tasks == old(tasks) && notes == old(notes)
    {
      if HasLink(l.id) {
        return Fail(DuplicateKey);
      }
      links := links + [l];
      return Pass;
    }

    /** `findById`: the live link with that id. */
    function FindLinkById(id: Id): (r: Option<EmployeeTask>)
      reads this
      ensures r.Some? <==> exists l :: l in links && l.id == id && Live(l.deletedAt)
      ensures r.Some? ==> r.value in links && r.value.id == id && Live(r.value.deletedAt)
    {
      Find(links, (l: EmployeeTask) => l.id == id && Live(l.deletedAt))
    }

    /** `findByUserAndTask`: the link of that user to that task, deleted or not. */
    function FindByUserAndTask(userId: Id, taskId: Id): (r: Option<EmployeeTask>)
      reads this
      ensures r.Some? <==> exists l :: l in links && l.userId == userId && l.taskId == taskId
      ensures r.Some? ==> r.value in links && r.value.userId == userId && r.value.taskId == taskId
    {
      Find(links, (l: EmployeeTask) => l.userId == userId && l.taskId == taskId)
    }

    /** `deleteEmployeeTask(id)` with `deletedAt` the current instant, and
        `updateCollaboration({ deletedAt: null }, id)`. */
    method UpdateCollaboration(id: Id, deletedAt: Option<int>) returns (r: Outcome)
      requires Valid()
      modifies this
      ensures Valid()
      ensures !old(HasLink(id)) ==> r == Fail(RecordNotFound) && unchanged(this)
      ensures old(HasLink(id)) ==> r == Pass && links == StampLinks(old(links), id, deletedAt)
                                   && tasks == old(tasks) && notes == old(notes)
    {
      if !HasLink(id) {
        return Fail(RecordNotFound);
      }
      links := StampLinks(links, id, deletedAt);
      return Pass;
    }
  }
}
