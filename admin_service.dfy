/** `AdminService` of `src/modules/admin/services/AdminService.ts`: removing
    and blacklisting employees, security questions, and the answers to
    time-off requests. */
module AdminService {
  import opened Wrappers
  import opened Js
  import opened Seqs
  import opened Pagination
  import opened Entities
  import opened UserRepo
  import opened EmployeeRepo
  import opened NotificationService
  import EmployeeService
  import ScheduleService

  const EmployeeMissing := Error(NotFound, "Employee does not exist")
  const SelfBlacklist := Error(Conflict, "You cannot blacklist yourself")
  const NoPassword := Error(NotFound, "Kindly set a password to proceed")
  const WrongPassword := Error(NotFound, "Incorrect password. Please try again.")
  const IncompleteDetails := Error(BadRequest, "Incomplete details provided")
  const TimeOffMissing := Error(NotFound, "Request does not exist")


  // ------------------------------------------------------------ employees

  /** The employee an admin acts on: the admin must be a live user of the
      company, the employee a live user of the same company. */
  function Target(auth: AuthRepository, employeeId: Id, userId: Id, companyId: Id): (r: Result<User>)
    reads auth
    ensures auth.FindUserByIdInCompany(userId, companyId).Err? ==> r == Err(UserNotFound)
    ensures auth.FindUserByIdInCompany(userId, companyId).Ok? && auth.FindUserByIdOrThrow(employeeId).Err? ==>
              r == Err(UserNotFound)
    ensures (auth.FindUserByIdInCompany(userId, companyId).Ok? && auth.FindUserByIdOrThrow(employeeId).Ok?
             && auth.FindUserByIdOrThrow(employeeId).value.companyId != companyId) ==> r == Err(EmployeeMissing)
    ensures r.Ok? <==> auth.FindUserByIdInCompany(userId, companyId).Ok? && auth.FindUserByIdOrThrow(employeeId).Ok?
                       && auth.FindUserByIdOrThrow(employeeId).value.companyId == companyId
    ensures r.Ok? ==> r.value in auth.users && r.value.id == employeeId && r.value.companyId == companyId
                      && Live(r.value.deletedAt)
  {
    match auth.FindUserByIdInCompany(userId, companyId)
    case Err(e) => Err(e)
    case Ok(_) =>
      match auth.FindUserByIdOrThrow(employeeId)
      case Err(e) => Err(e)
      case Ok(employee) => if employee.companyId != companyId then Err(EmployeeMissing) else Ok(employee)
  }

  /** After stamping every row with that id, no live user has it. */
  lemma SoftDeleteHidesUser(rows: seq<User>, id: Id, now: int)
    ensures forall u :: u in SoftDeleteById(rows, id, now) && u.id == id ==> !Live(u.deletedAt)
  {
    var s := SoftDeleteById(rows, id, now);
    forall u | u in s && u.id == id
      ensures !Live(u.deletedAt)
    {
      var i :| 0 <= i < |s| && s[i] == u;
      assert rows[i].id == id;
    }
  }

  /** `deleteUser(employeeId, userId, companyId)`: soft-deletes an employee
      of the admin's own company; afterwards the employee can no longer be
      looked up. Another company's employee is refused. The reply lists the
      company's users through `getAllCompanyUser`, whose first step looks the
      admin up again: an admin who deleted their own account is no longer
      found, so the request fails with "User not found" after the write. */
  method DeleteUser(auth: AuthRepository, employeeId: Id, userId: Id, companyId: Id, now: int)
    returns (r: Outcome)
    requires auth.Valid()
    modifies auth
    ensures auth.Valid()
    ensures old(Target(auth, employeeId, userId, companyId)).Err? ==>
              r == Fail(old(Target(auth, employeeId, userId, companyId)).error) && unchanged(auth)
    ensures old(Target(auth, employeeId, userId, companyId)).Ok? ==>
              auth.users == SoftDeleteById(old(auth.users), employeeId, now)
              && auth.FindUserByIdOrThrow(employeeId).Err?
              && (employeeId == userId ==> r == Fail(UserNotFound))
              && (employeeId != userId ==> r == Pass)
  {
    var employee := Target(auth, employeeId, userId, companyId);
    if employee.Err? {
      return Fail(employee.error);
    }
    var admin := auth.FindUserByIdInCompany(userId, companyId).value;
    var o := auth.DeleteUser(employeeId, now);
    SoftDeleteHidesUser(old(auth.users), employeeId, now);
    if employeeId != userId {
      ghost var k :| 0 <= k < |old(auth.users)| && old(auth.users)[k] == admin;
      assert auth.users[k] == admin;
    }
    var again := auth.FindUserByIdInCompany(userId, companyId);
    if again.Err? {
      return Fail(again.error);
    }
    return Pass;
  }

  /** The guards of `toggleUserStatus`: those of `Target`, then "You cannot
      blacklist yourself" when the admin is the employee. */
  function ToggleCheck(auth: AuthRepository, employeeId: Id, userId: Id, companyId: Id): (r: Result<User>)
    reads auth
    ensures Target(auth, employeeId, userId, companyId).Err? ==> r == Target(auth, employeeId, userId, companyId)
    ensures Target(auth, employeeId, userId, companyId).Ok? && userId == employeeId ==> r == Err(SelfBlacklist)
    ensures r.Ok? <==> Target(auth, employeeId, userId, companyId).Ok? && userId != employeeId
    ensures r.Ok? ==> r == Target(auth, employeeId, userId, companyId)
  {
    match Target(auth, employeeId, userId, companyId)
    case Err(e) => Err(e)
    case Ok(employee) => if userId == employee.id then Err(SelfBlacklist) else Ok(employee)
  }

  /** The new blacklist flag as written: the negation of the ACTING admin's
      own flag. */
  function BlacklistValueAsWritten(admin: User, employee: User): bool
  {
    !admin.isBlacklisted
  }

  /** The evidently intended new flag: the negation of the employee's. */
  function BlacklistValue(admin: User, employee: User): (r: bool)
    ensures r != employee.isBlacklisted
  {
    !employee.isBlacklisted
  }

  /** As written, an admin who is not blacklisted themselves (any admin that
      can log in) always writes `true`: a blacklisted employee can never be
      taken off the list, where the toggle lifts it. */
  lemma ToggleAsWrittenNeverLifts(admin: User, employee: User)
    requires !admin.isBlacklisted && employee.isBlacklisted
    ensures BlacklistValueAsWritten(admin, employee)
    ensures !BlacklistValue(admin, employee)
  {
  }

  /** `toggleUserStatus(employeeId, userId, companyId)` with the employee's
      flag negated: the employee's blacklist flag flips and nothing else of
      any user changes; the response is the updated employee. */
  method ToggleUserStatus(auth: AuthRepository, employeeId: Id, userId: Id, companyId: Id)
    returns (r: Result<UserSchema>)
    requires auth.Valid()
    modifies auth
    ensures auth.Valid()
    ensures old(ToggleCheck(auth, employeeId, userId, companyId)).Err? ==>
              r == Err(old(ToggleCheck(auth, employeeId, userId, companyId)).error) && unchanged(auth)
    ensures old(ToggleCheck(auth, employeeId, userId, companyId)).Ok? ==>
              var e := old(ToggleCheck(auth, employeeId, userId, companyId)).value;
              var p := NoUserChange.(isBlacklisted := Some(!e.isBlacklisted));
              && auth.users == PatchLiveByEmail(old(auth.users), e.email, p)
              && r == Ok(SchemaToUser(ApplyUserPatch(p, e)))
              && r.value.id == employeeId && r.value.isBlacklisted == !e.isBlacklisted
  {
    var employee := ToggleCheck(auth, employeeId, userId, companyId);
    if employee.Err? {
      return Err(employee.error);
    }
    var e := employee.value;
    var admin := auth.FindUserByIdInCompany(userId, companyId);
    var p := NoUserChange.(isBlacklisted := Some(BlacklistValue(admin.value, e)));
    var live := auth.LiveByEmail(e.email);
    EmailIdentifies(auth, live.value, e);
    var updated := auth.UpdateUser(p, e.email);
    return Ok(SchemaToUser(updated.value));
  }

  // ------------------------------------------------------------ security questions

  /** The body of `setSecurityQuestions`. */
  datatype QuestionsBody = QuestionsBody(password: string, questionOne: Option<string>, questionTwo: Option<string>,
                                         answerOne: Option<string>, answerTwo: Option<string>)

  /** The questions a response shows. */
  datatype Questions = Questions(questionOne: Option<string>, questionTwo: Option<string>)

  /** The completeness test of `setSecurityQuestions`: a given question needs
      its answer, and at least one question and one answer must be given. */
  predicate Incomplete(b: QuestionsBody)
  {
    (Present(b.questionOne) && !Present(b.answerOne)) || (Present(b.questionTwo) && !Present(b.answerTwo))
    || (!Present(b.questionOne) && !Present(b.questionTwo)) || (!Present(b.answerOne) && !Present(b.answerTwo))
  }

  /** A complete body is exactly one where some question is given and every
      given question comes with its answer (an answer without its question
      is let through). */
  lemma CompleteMeansAnswered(b: QuestionsBody)
    ensures !Incomplete(b) <==> (Present(b.questionOne) || Present(b.questionTwo))
                                && (Present(b.questionOne) ==> Present(b.answerOne))
                                && (Present(b.questionTwo) ==> Present(b.answerTwo))
  {
  }

  /** The checks before any write: the admin, a password set, the password
      matching (`compare` stands for bcrypt's), and a complete body. */
  function QuestionsCheck(auth: AuthRepository, userId: Id, companyId: Id, body: QuestionsBody,
                          compare: (string, string) -> bool): (r: Outcome)
    reads auth
    ensures auth.FindUserByIdInCompany(userId, companyId).Err? ==> r == Fail(UserNotFound)
    ensures r.Fail? && r.error == IncompleteDetails ==> Incomplete(body)
    ensures r == Pass <==> auth.FindUserByIdInCompany(userId, companyId).Ok?
                           && Present(auth.FindUserByIdInCompany(userId, companyId).value.password)
                           && compare(body.password, auth.FindUserByIdInCompany(userId, companyId).value.password.value)
                           && !Incomplete(body)
  {
    match auth.FindUserByIdInCompany(userId, companyId)
    case Err(e) => Fail(e)
    case Ok(user) =>
      if !Present(user.password) then Fail(NoPassword)
      else if !compare(body.password, user.password.value) then Fail(WrongPassword)
      else if Incomplete(body) then Fail(IncompleteDetails)
      else Pass
  }

  /** The `data` written: each given question, and the hash of each given
      answer (`hash` stands for bcrypt's, with its salt); nothing else. */
  function QuestionsData(body: QuestionsBody, hash: string -> string): (r: QuestionsPatch)
    ensures r.questionOne == (if Present(body.questionOne) then body.questionOne else None)
    ensures r.questionTwo == (if Present(body.questionTwo) then body.questionTwo else None)
    ensures r.answerOne == (if Present(body.answerOne) then Some(hash(body.answerOne.value)) else None)
    ensures r.answerTwo == (if Present(body.answerTwo) then Some(hash(body.answerTwo.value)) else None)
  {
    QuestionsPatch(if Present(body.questionOne) then body.questionOne else None,
                   if Present(body.questionTwo) then body.questionTwo else None,
                   if Present(body.answerOne) then Some(hash(body.answerOne.value)) else None,
                   if Present(body.answerTwo) then Some(hash(body.answerTwo.value)) else None)
  }

  /** The response: the question just written, or else the one stored before
      the call. */
  function QuestionsReply(data: QuestionsPatch, stored: SecurityQuestions): (r: Questions)
  {
    Questions(if Present(data.questionOne) then data.questionOne else stored.questionOne,
              if Present(data.questionTwo) then data.questionTwo else stored.questionTwo)
  }

  /** The reply shows a stored question only where none was given, and the
      stored record after the write holds what the reply shows. */
  lemma ReplyMatchesStored(body: QuestionsBody, hash: string -> string, stored: SecurityQuestions)
    ensures var data := QuestionsData(body, hash);
            var r := QuestionsReply(data, stored);
            var after := ApplyQuestionsPatch(data, stored);
            && (Present(body.questionOne) ==> r.questionOne == body.questionOne)
            && (!Present(body.questionOne) ==> r.questionOne == stored.questionOne)
            && (Present(body.questionTwo) ==> r.questionTwo == body.questionTwo)
            && (!Present(body.questionTwo) ==> r.questionTwo == stored.questionTwo)
            && r == Questions(after.questionOne, after.questionTwo)
  {
  }

  /** `setSecurityQuestions(userId, companyId, body)`: after the checks, the
      user's question record (created empty with the fresh id `newId` when
      missing) gets the given questions and hashed answers. */
  method SetSecurityQuestions(auth: AuthRepository, security: SecurityRepository, userId: Id, companyId: Id,
                              body: QuestionsBody, compare: (string, string) -> bool, hash: string -> string,
                              newId: Id)
    returns (r: Result<Questions>)
    requires security.Valid() && !security.Has(newId)
    modifies security
    ensures security.Valid()
    ensures old(QuestionsCheck(auth, userId, companyId, body, compare)).Fail? ==>
              r == Err(old(QuestionsCheck(auth, userId, companyId, body, compare)).error) && unchanged(security)
    ensures old(QuestionsCheck(auth, userId, companyId, body, compare)).Pass? ==>
              var stored := if old(security.FindUserQuestions(userId)).Some? then old(security.FindUserQuestions(userId)).value
                            else SecurityQuestions(newId, userId, None, None, None, None);
              var rows := if old(security.FindUserQuestions(userId)).Some? then old(security.questions)
                          else old(security.questions) + [stored];
              && r == Ok(QuestionsReply(QuestionsData(body, hash), stored))
              && |security.questions| == |rows|
              && forall i :: 0 <= i < |rows| ==>
                   security.questions[i] == if rows[i].id == stored.id
                                            then ApplyQuestionsPatch(QuestionsData(body, hash), rows[i]) else rows[i]
  {
    var check := QuestionsCheck(auth, userId, companyId, body, compare);
    if check.Fail? {
      return Err(check.error);
    }
    var found := security.FindUserQuestions(userId);
    var stored: SecurityQuestions;
    if found.Some? {
      stored := found.value;
    } else {
      var created := security.CreateSecurityFields(newId, userId);
      stored := created.value;
    }
    assert security.Has(stored.id);
    var data := QuestionsData(body, hash);
    var o := security.UpdateQuestion(data, stored.id);
    return Ok(QuestionsReply(data, stored));
  }

  // ------------------------------------------------------------ time off

  /** `status ? status : "PENDING"`. */
  function StatusOf(status: Option<Status>): (r: Status)
    ensures status.None? ==> r == PENDING
    ensures status.Some? ==> r == status.value
  {
    if status.Some? then status.value else PENDING
  }

  /** `viewTimeOffRequests(userId, companyId, status, limit, page)`: one page
      of the company's requests with that status, PENDING when none is
      given, paginated with the page's own length as the total. */
  function ViewTimeOffRequests(auth: AuthRepository, timeOff: TimeOffRepository, userId: Id, companyId: Id,
                               status: Option<Status>, q: Query): (r: Result<Page<EmployeeService.TimeOffView>>)
    reads auth, timeOff
    ensures r.Err? <==> auth.FindUserByIdInCompany(userId, companyId).Err?
    ensures r.Err? ==> r.error == UserNotFound
    ensures r.Ok? ==> |r.value.data| <= LimitOf(q) && r.value.currentpage == PageOf(q) && r.value.nextpage.None?
    ensures r.Ok? ==> forall i :: 0 <= i < |r.value.data| ==>
                        exists t :: t in timeOff.requests && t.companyId == companyId && t.status == StatusOf(status)
                                    && r.value.data[i] == EmployeeService.TimeOffSchema(t)
  {
    match auth.FindUserByIdInCompany(userId, companyId)
    case Err(e) => Err(e)
    case Ok(_) =>
      var rows := timeOff.GetAllTimeOffRequests(companyId, StatusOf(status), LimitOf(q), SkipOf(q));
      var data := EmployeeService.TimeOffSchemas(rows);
      assert |data| <= LimitOf(q);
      ScheduleService.PageOfOwnLengthIsLast(data, PageOf(q), LimitOf(q));
      assert forall i :: 0 <= i < |data| ==>
               rows[i] in timeOff.requests && rows[i].companyId == companyId && rows[i].status == StatusOf(status)
               && data[i] == EmployeeService.TimeOffSchema(rows[i]);
      Ok(Paginate(data, PageOf(q), LimitOf(q), |data|))
  }

  /** The guards of `acceptOrRejectRequest`: the admin, the request, and its
      requests of the admin's company only; an expired request cannot be
      answered, any other can, including one already answered. */
  function AnswerCheck(admin: Result<User>, request: Option<TimeOff>, companyId: Id): (r: Outcome)
    ensures admin.Err? ==> r == Fail(admin.error)
    ensures admin.Ok? && request.None? ==> r == Fail(TimeOffMissing)
    ensures admin.Ok? && request.Some? && request.value.companyId != companyId ==> r == Fail(TimeOffMissing)
    ensures r == Pass <==> admin.Ok? && request.Some? && request.value.companyId == companyId
                           && request.value.status != EXPIRED
  {
    if admin.Err? then Fail(admin.error)
    else if request.None? || request.value.companyId != companyId then Fail(TimeOffMissing)
    else if request.value.status == EXPIRED then Fail(EmployeeService.ExpiredRequest)
    else Pass
  }

  /** The same guards as written: the request is found by id alone, so an
      admin may answer a request of any company. */
  function AnswerCheckAsWritten(admin: Result<User>, request: Option<TimeOff>): (r: Outcome)
    ensures r == Pass <==> admin.Ok? && request.Some? && request.value.status != EXPIRED
  {
    if admin.Err? then Fail(admin.error)
    else if request.None? then Fail(TimeOffMissing)
    else if request.value.status == EXPIRED then Fail(EmployeeService.ExpiredRequest)
    else Pass
  }

  /** As written, a pending request of another company passes the guards,
      where the company test refuses it. */
  lemma AnswerAsWrittenCrossesCompanies(admin: User, request: TimeOff, companyId: Id)
    requires request.companyId != companyId && request.status == PENDING
    ensures AnswerCheckAsWritten(Ok(admin), Some(request)) == Pass
    ensures AnswerCheck(Ok(admin), Some(request), companyId) == Fail(TimeOffMissing)
  {
  }

  function AnswerStatus(approve: bool): (r: Status)
    ensures r == APPROVED <==> approve
    ensures r == DENIED <==> !approve
  {
    if approve then APPROVED else DENIED
  }

  /** The `updateOne` of an answer: the status column only. */
  function AnswerPatch(approve: bool): TimeOffPatch
  {
    TimeOffPatch(None, None, None, None, None, Some(AnswerStatus(approve)))
  }

  /** The answer changes the status of the request and no other field. */
  lemma AnswerPatchSetsStatus(approve: bool, t: TimeOff)
    ensures ApplyTimeOffPatch(AnswerPatch(approve), t) == t.(status := AnswerStatus(approve))
  {
  }

  /** The writes of an answer: the status of request `t`, then the
      notification of its owner. */
  method StoreAnswer(auth: AuthRepository, timeOff: TimeOffRepository, notes: NotificationRepository,
                     admin: User, t: TimeOff, approve: bool)
    requires timeOff.Valid() && t in timeOff.requests && auth.FindUserByIdOrThrow(admin.id) == Ok(admin)
    modifies timeOff, notes
    ensures timeOff.Valid()
    ensures |timeOff.requests| == |old(timeOff.requests)|
    ensures forall i :: 0 <= i < |timeOff.requests| ==>
              timeOff.requests[i] == if old(timeOff.requests[i]).id == t.id
                                     then ApplyTimeOffPatch(AnswerPatch(approve), old(timeOff.requests[i]))
                                     else old(timeOff.requests[i])
    ensures notes.notifications == old(notes.notifications)
              + [Notification(t.userId, admin.id, t.id, TIME_OFF, TimeOffText(admin, AnswerStatus(approve)))]
  {
    SetAnswer(timeOff, t, approve);
    var sent := TimeOffResponse(auth, timeOff, notes, t.id, admin.id);
  }

  /** The status write of an answer; the request then reads back with its new status. */
  method SetAnswer(timeOff: TimeOffRepository, t: TimeOff, approve: bool)
    requires timeOff.Valid() && t in timeOff.requests
    modifies timeOff
    ensures timeOff.Valid()
    ensures |timeOff.requests| == |old(timeOff.requests)|
    ensures forall i :: 0 <= i < |timeOff.requests| ==>
              timeOff.requests[i] == if old(timeOff.requests[i]).id == t.id
                                     then ApplyTimeOffPatch(AnswerPatch(approve), old(timeOff.requests[i]))
                                     else old(timeOff.requests[i])
    ensures timeOff.FindById(t.id) == Some(ApplyTimeOffPatch(AnswerPatch(approve), t))
  {
    var p := AnswerPatch(approve);
    var o := timeOff.UpdateOne(t.id, p);
    AnsweredRequest(old(timeOff.requests), timeOff.requests, t.id, p, t);
  }

  /** `acceptOrRejectRequest(userId, companyId, requestId, status)`: the
      request gets APPROVED or DENIED and nothing else changes; its owner is
      told, with "approved" exactly when it was approved; the reply lists the
      company's requests of the status the request had before. */
  method AcceptOrRejectRequest(auth: AuthRepository, timeOff: TimeOffRepository, notes: NotificationRepository,
                               userId: Id, companyId: Id, requestId: Id, approve: bool)
    returns (r: Result<Page<EmployeeService.TimeOffView>>)
    requires auth.Valid() && timeOff.Valid()
    modifies timeOff, notes
    ensures timeOff.Valid()
    ensures var c := old(AnswerCheck(auth.FindUserByIdInCompany(userId, companyId), timeOff.FindById(requestId), companyId));
            c.Fail? ==> r == Err(c.error) && unchanged(timeOff) && unchanged(notes)
    ensures old(AnswerCheck(auth.FindUserByIdInCompany(userId, companyId), timeOff.FindById(requestId), companyId)).Pass? ==>
              var t := old(timeOff.FindById(requestId)).value;
              var admin := auth.FindUserByIdInCompany(userId, companyId).value;
              && |timeOff.requests| == |old(timeOff.requests)|
              && (forall i :: 0 <= i < |timeOff.requests| ==>
                    timeOff.requests[i] == if old(timeOff.requests[i]).id == requestId
                                           then ApplyTimeOffPatch(AnswerPatch(approve), old(timeOff.requests[i]))
                                           else old(timeOff.requests[i]))
              && notes.notifications == old(notes.notifications)
                 + [Notification(t.userId, userId, requestId, TIME_OFF, TimeOffText(admin, AnswerStatus(approve)))]
              && r == ViewTimeOffRequests(auth, timeOff, userId, companyId, Some(t.status), Query(None, None))
  {
    var admin := auth.FindUserByIdInCompany(userId, companyId);
    var request := timeOff.FindById(requestId);
    var check := AnswerCheck(admin, request, companyId);
    if check.Fail? {
      return Err(check.error);
    }
    IdIdentifies(auth, admin.value, auth.FindUserByIdOrThrow(userId).value);
    StoreAnswer(auth, timeOff, notes, admin.value, request.value, approve);
    r := ViewTimeOffRequests(auth, timeOff, userId, companyId, Some(request.value.status), Query(None, None));
  }

  /** After the status write, looking the request up again finds it with
      the new status. */
  lemma AnsweredRequest(rows: seq<TimeOff>, after: seq<TimeOff>, id: Id, p: TimeOffPatch, t: TimeOff)
    requires t in rows && t.id == id
    requires forall i, j :: 0 <= i < j < |rows| ==> rows[i].id != rows[j].id
    requires |after| == |rows|
    requires forall i :: 0 <= i < |after| ==> after[i] == if rows[i].id == id then ApplyTimeOffPatch(p, rows[i]) else rows[i]
    ensures Find(after, (x: TimeOff) => x.id == id) == Some(ApplyTimeOffPatch(p, t))
  {
    var k :| 0 <= k < |rows| && rows[k] == t;
    assert after[k] == ApplyTimeOffPatch(p, t);
    FindUnique(after, k, id);
  }

  /** In a table with at most one row of a given id, finding by that id
      gives that row. */
  lemma {:induction false} FindUnique(rows: seq<TimeOff>, k: nat, id: Id)
    requires k < |rows| && rows[k].id == id
    requires forall i :: 0 <= i < |rows| && i != k ==> rows[i].id != id
    ensures Find(rows, (x: TimeOff) => x.id == id) == Some(rows[k])
  {
    if k > 0 {
      FindUnique(rows[1..], k - 1, id);
    }
  }
}
