/** `AuthRepository`, `SecurityRepository` and `CompanyRepository` of
    `src/modules/user/repository/` as in-memory tables of users, security
    questions and companies. */
module UserRepo {
  import opened Wrappers
  import opened Seqs
  import opened Entities
  import opened FormatDate

  const UserNotFound := Error(NotFound, "User not found")

  /** The users table after `update({ where: { email, deletedAt: null }, data })`. */
  function PatchLiveByEmail(rows: seq<User>, email: string, p: UserPatch): (r: seq<User>)
    ensures |r| == |rows|
    ensures forall i :: 0 <= i < |r| ==>
              r[i] == if rows[i].email == email && Live(rows[i].deletedAt) then ApplyUserPatch(p, rows[i]) else rows[i]
  {
    seq(|rows|, i requires 0 <= i < |rows| =>
      if rows[i].email == email && Live(rows[i].deletedAt) then ApplyUserPatch(p, rows[i]) else rows[i])
  }

  /** The first live user with that email: the row `update({ where: { email, deletedAt: null } })` writes. */
  function LiveWithEmail(rows: seq<User>, email: string): (r: Option<User>)
    ensures r.Some? <==> exists u :: u in rows && u.email == email && Live(u.deletedAt)
    ensures r.Some? ==> r.value in rows && r.value.email == email && Live(r.value.deletedAt)
  {
    Find(rows, (u: User) => u.email == email && Live(u.deletedAt))
  }

  /** A patch that leaves `deletedAt` alone turns the live user with that
      email into the patched one, and that is the row the email then finds. */
  lemma LiveWithEmailAfterPatch(rows: seq<User>, email: string, p: UserPatch)
    requires p.deletedAt.None? && LiveWithEmail(rows, email).Some?
    ensures LiveWithEmail(PatchLiveByEmail(rows, email, p), email) == Some(ApplyUserPatch(p, LiveWithEmail(rows, email).value))
  {
    var match_ := (u: User) => u.email == email && Live(u.deletedAt);
    var after := PatchLiveByEmail(rows, email, p);
    var i :| 0 <= i < |rows| && rows[i] == LiveWithEmail(rows, email).value && forall j :: 0 <= j < i ==> !match_(rows[j]);
    assert after[i] == ApplyUserPatch(p, rows[i]) && after[i] in after;
    forall j | 0 <= j < i
      ensures !match_(after[j])
    {
      assert after[j] == rows[j];
    }
    var f := LiveWithEmail(after, email).value;
    var k :| 0 <= k < |after| && after[k] == f && forall j :: 0 <= j < k ==> !match_(after[j]);
    assert match_(after[k]) && match_(after[i]);
    assert k == i;
  }

  /** The first row with that id, whatever its deletion state. */
  function WithId(rows: seq<User>, id: Id): (r: Option<User>)
    ensures r.Some? <==> exists u :: u in rows && u.id == id
    ensures r.Some? ==> r.value in rows && r.value.id == id
  {
    if rows == [] then None
    else if rows[0].id == id then Some(rows[0])
    else
      var rest := WithId(rows[1..], id);
      assert forall u :: u in rows && u != rows[0] ==> u in rows[1..];
      rest
  }

  /** The users table after `update({ where: { id }, data: { deletedAt } })`. */
  function SoftDeleteById(rows: seq<User>, id: Id, now: int): (r: seq<User>)
    ensures |r| == |rows|
    ensures forall i :: 0 <= i < |r| ==> r[i] == if rows[i].id == id then rows[i].(deletedAt := Some(now)) else rows[i]
  {
    seq(|rows|, i requires 0 <= i < |rows| => if rows[i].id == id then rows[i].(deletedAt := Some(now)) else rows[i])
  }

  class AuthRepository {
    var users: seq<User>

    /** Ids and emails are unique columns. */
    predicate Valid()
      reads this
    {
      (forall i, j :: 0 <= i < j < |users| ==> users[i].id != users[j].id) &&
      (forall i, j :: 0 <= i < j < |users| ==> users[i].email != users[j].email)
    }

    constructor ()
      ensures Valid() && users == []
    {
      users := [];
    }

    predicate HasUser(id: Id) reads this { exists u :: u in users && u.id == id }
    predicate HasEmail(email: string) reads this { exists u :: u in users && u.email == email }

    /** `createUser`: refused when the id or the email is taken. */
    method CreateUser(u: User) returns (r: Outcome)
      requires Valid()
      modifies this
      ensures Valid()
      ensures old(HasUser(u.id)) ==> r == Fail(DuplicateKey) && unchanged(this)
      ensures !old(HasUser(u.id)) && old(HasEmail(u.email)) ==> r == Fail(DuplicateEmail) && unchanged(this)
      ensures !old(HasUser(u.id)) && !old(HasEmail(u.email)) ==> r == Pass && users == old(users) + [u]
    {
      if HasUser(u.id) {
        return Fail(DuplicateKey);
      }
      if HasEmail(u.email) {
        return Fail(DuplicateEmail);
      }
      users := users + [u];
      return Pass;
    }

    /** `findUserByEmail`: the user with that email, deleted or not. */
    function FindUserByEmail(email: string): (r: Option<User>)
      reads this
      ensures r.Some? <==> HasEmail(email)
      ensures r.Some? ==> r.value in users && r.value.email == email
    {
      Find(users, (u: User) => u.email == email)
    }

    /** The live user with that email, the one `updateUser` writes. */
    function LiveByEmail(email: string): (r: Option<User>)
      reads this
      ensures r.Some? <==> exists u :: u in users && u.email == email && Live(u.deletedAt)
      ensures r.Some? ==> r.value in users && r.value.email == email && Live(r.value.deletedAt)
    {
      LiveWithEmail(users, email)
    }

    /** `findUserByIdInCompany`: the live user with that id in that company,
        or "User not found". */
    function FindUserByIdInCompany(id: Id, companyId: Id): (r: Result<User>)
      reads this
      ensures r.Ok? <==> exists u :: u in users && u.id == id && u.companyId == companyId && Live(u.deletedAt)
      ensures r.Ok? ==> r.value in users && r.value.id == id && r.value.companyId == companyId
                        && Live(r.value.deletedAt)
      ensures r.Err? ==> r.error == UserNotFound
    {
      match Find(users, (u: User) => u.companyId == companyId && u.id == id && Live(u.deletedAt))
      case None => Err(UserNotFound)
      case Some(u) => Ok(u)
    }

    /** `findUserByIdOrThrow`: the live user with that id, or "User not found". */
    function FindUserByIdOrThrow(id: Id): (r: Result<User>)
      reads this
      ensures r.Ok? <==> exists u :: u in users && u.id == id && Live(u.deletedAt)
      ensures r.Ok? ==> r.value in users && r.value.id == id && Live(r.value.deletedAt)
      ensures r.Err? ==> r.error == UserNotFound
    {
      match Find(users, (u: User) => u.id == id && Live(u.deletedAt))
      case None => Err(UserNotFound)
      case Some(u) => Ok(u)
    }

    /** The user a relation joins by id, whatever its deletion state. */
    function FindUserById(id: Id): (r: Option<User>)
      reads this
      ensures r.Some? <==> HasUser(id)
      ensures r.Some? ==> r.value in users && r.value.id == id
    {
      WithId(users, id)
    }

    /** `findUserByVerificationCode(code, id)`: a live user holding that code. */
    function FindUserByVerificationCode(code: string, id: Id): (r: Option<User>)
      reads this
      ensures r.Some? <==> exists u :: u in users && u.verificationCode == Some(code) && u.id == id && Live(u.deletedAt)
      ensures r.Some? ==> r.value in users && r.value.id == id && r.value.verificationCode == Some(code)
    {
      Find(users, (u: User) => u.verificationCode == Some(code) && u.id == id && Live(u.deletedAt))
    }

    /** `findUserByPasswordToken(token, id)`: a user holding that token, deleted or not. */
    function FindUserByPasswordToken(token: string, id: Id): (r: Option<User>)
      reads this
      ensures r.Some? <==> exists u :: u in users && u.passwordToken == Some(token) && u.id == id
      ensures r.Some? ==> r.value in users && r.value.id == id && r.value.passwordToken == Some(token)
    {
      Find(users, (u: User) => u.passwordToken == Some(token) && u.id == id)
    }

    /** `findInactiveUsers(companyId)`: the live users of the company that
        have neither activated their account nor verified their email. */
    function FindInactiveUsers(companyId: Id): (r: seq<User>)
      reads this
      ensures forall u :: u in r <==> u in users && !u.isActive && u.companyId == companyId
                                      && Live(u.deletedAt) && !u.emailVerified
    {
      Filter(users, (u: User) => !u.isActive && u.companyId == companyId && Live(u.deletedAt) && !u.emailVerified)
    }

    /** `updateUser(body, email)`: patches the live user with that email and
        returns it; fails when there is none. */
    method UpdateUser(p: UserPatch, email: string) returns (r: Result<User>)
      requires Valid()
      modifies this
      ensures Valid()
      ensures old(LiveByEmail(email)).None? ==> r == Err(RecordNotFound) && unchanged(this)
      ensures old(LiveByEmail(email)).Some? ==>
                r == Ok(ApplyUserPatch(p, old(LiveByEmail(email)).value))
                && users == PatchLiveByEmail(old(users), email, p)
    {
      var u := LiveByEmail(email);
      if u.None? {
        return Err(RecordNotFound);
      }
      users := PatchLiveByEmail(users, email, p);
      return Ok(ApplyUserPatch(p, u.value));
    }

    /** `deleteUser(id)`: stamps the user with that id, live or not, as deleted now. */
    method DeleteUser(id: Id, now: int) returns (r: Outcome)
      requires Valid()
      modifies this
      ensures Valid()
      ensures !old(HasUser(id)) ==> r == Fail(RecordNotFound) && unchanged(this)
      ensures old(HasUser(id)) ==> r == Pass && users == SoftDeleteById(old(users), id, now)
    {
      if !HasUser(id) {
        return Fail(RecordNotFound);
      }
      users := SoftDeleteById(users, id, now);
      return Pass;
    }
  }

  /** Two rows of a valid users table with the same email are one row. */
  lemma EmailIdentifies(auth: AuthRepository, a: User, b: User)
    requires auth.Valid() && a in auth.users && b in auth.users && a.email == b.email
    ensures a == b
  {
    var i :| 0 <= i < |auth.users| && auth.users[i] == a;
    var j :| 0 <= j < |auth.users| && auth.users[j] == b;
  }

  /** Two rows of a valid users table with the same id are one row. */
  lemma IdIdentifies(auth: AuthRepository, a: User, b: User)
    requires auth.Valid() && a in auth.users && b in auth.users && a.id == b.id
    ensures a == b
  {
    var i :| 0 <= i < |auth.users| && auth.users[i] == a;
    var j :| 0 <= j < |auth.users| && auth.users[j] == b;
  }

  /** The question and hashed-answer columns `updateQuestion` is given. */
  datatype QuestionsPatch = QuestionsPatch(questionOne: Option<string>, questionTwo: Option<string>,
                                           answerOne: Option<string>, answerTwo: Option<string>)

  function ApplyQuestionsPatch(p: QuestionsPatch, q: SecurityQuestions): (r: SecurityQuestions)
    ensures r.id == q.id && r.userId == q.userId
    ensures r.questionOne == (if p.questionOne.Some? then p.questionOne else q.questionOne)
    ensures r.questionTwo == (if p.questionTwo.Some? then p.questionTwo else q.questionTwo)
    ensures r.answerOne == (if p.answerOne.Some? then p.answerOne else q.answerOne)
    ensures r.answerTwo == (if p.answerTwo.Some? then p.answerTwo else q.answerTwo)
  {
    q.(questionOne := if p.questionOne.Some? then p.questionOne else q.questionOne,
       questionTwo := if p.questionTwo.Some? then p.questionTwo else q.questionTwo,
       answerOne := if p.answerOne.Some? then p.answerOne else q.answerOne,
       answerTwo := if p.answerTwo.Some? then p.answerTwo else q.answerTwo)
  }

  class SecurityRepository {
    var questions: seq<SecurityQuestions>

    predicate Valid()
      reads this
    {
      forall i, j :: 0 <= i < j < |questions| ==> questions[i].id != questions[j].id
    }

    constructor ()
      ensures Valid() && questions == []
    {
      questions := [];
    }

    predicate Has(id: Id) reads this { exists q :: q in questions && q.id == id }

    /** `createSecurityFiels(userId)`: an empty question record for the user. */
    method CreateSecurityFields(id: Id, userId: Id) returns (r: Result<SecurityQuestions>)
      requires Valid()
      modifies this
      ensures Valid()
      ensures old(Has(id)) ==> r == Err(DuplicateKey) && unchanged(this)
      ensures !old(Has(id)) ==> r == Ok(SecurityQuestions(id, userId, None, None, None, None))
                                && questions == old(questions) + [r.value]
    {
      if Has(id) {
        return Err(DuplicateKey);
      }
      var q := SecurityQuestions(id, userId, None, None, None, None);
      questions := questions + [q];
      return Ok(q);
    }

    /** `findUserQuestions(userId)`. */
    function FindUserQuestions(userId: Id): (r: Option<SecurityQuestions>)
      reads this
      ensures r.Some? <==> exists q :: q in questions && q.userId == userId
      ensures r.Some? ==> r.value in questions && r.value.userId == userId
    {
      Find(questions, (q: SecurityQuestions) => q.userId == userId)
    }

    /** `updateQuestion(body, id)`: only the given columns of that record change. */
    method UpdateQuestion(p: QuestionsPatch, id: Id) returns (r: Outcome)
      requires Valid()
      modifies this
      ensures Valid()
      ensures !old(Has(id)) ==> r == Fail(RecordNotFound) && unchanged(this)
      ensures old(Has(id)) ==> r == Pass && |questions| == |old(questions)|
                               && forall i :: 0 <= i < |questions| ==>
                                    questions[i] == if old(questions[i]).id == id
                                                    then ApplyQuestionsPatch(p, old(questions[i])) else old(questions[i])
    {
      if !Has(id) {
        return Fail(RecordNotFound);
      }
      var rows := questions;
      questions := seq(|rows|, i requires 0 <= i < |rows| =>
        if rows[i].id == id then ApplyQuestionsPatch(p, rows[i]) else rows[i]);
      return Pass;
    }
  }

  /** The `data` object handed to `updateCompany`: the known columns, and the
      names of any keys that are not columns of the company table. */
  datatype CompanyPatch = CompanyPatch(name: Option<string>, address: Option<string>,
                                       scheduleStartDay: Option<DayOfWeek>, unknownKeys: seq<string>)

  function ApplyCompanyPatch(p: CompanyPatch, c: Company): (r: Company)
    ensures r.id == c.id
    ensures r.name == Patch(p.name, c.name) && r.address == Patch(p.address, c.address)
    ensures r.scheduleStartDay == (if p.scheduleStartDay.Some? then p.scheduleStartDay else c.scheduleStartDay)
  {
    c.(name := Patch(p.name, c.name), address := Patch(p.address, c.address),
       scheduleStartDay := if p.scheduleStartDay.Some? then p.scheduleStartDay else c.scheduleStartDay)
  }

  /** Prisma's validation error for a key that is not a column. */
  function UnknownArgument(key: string): Error
  {
    Error(StoreFailure, "Unknown argument `" + key + "`.")
  }

  class CompanyRepository {
    var companies: seq<Company>

    predicate Valid()
      reads this
    {
      forall i, j :: 0 <= i < j < |companies| ==> companies[i].id != companies[j].id
    }

    constructor ()
      ensures Valid() && companies == []
    {
      companies := [];
    }

    predicate Has(id: Id) reads this { exists c :: c in companies && c.id == id }

    /** `createCompany`. */
    method CreateCompany(c: Company) returns (r: Outcome)
      requires Valid()
      modifies this
      ensures Valid()
      ensures old(Has(c.id)) ==> r == Fail(DuplicateKey) && unchanged(this)
      ensures !old(Has(c.id)) ==> r == Pass && companies == old(companies) + [c]
    {
      if Has(c.id) {
        return Fail(DuplicateKey);
      }
      companies := companies + [c];
      return Pass;
    }

    /** `findCompanyById`. */
    function FindCompanyById(id: Id): (r: Option<Company>)
      reads this
      ensures r.Some? <==> Has(id)
      ensures r.Some? ==> r.value in companies && r.value.id == id
    {
      Find(companies, (c: Company) => c.id == id)
    }

    /** `updateCompany(body, id)`: a key that is not a column makes the whole
        update fail before anything is written. */
    method UpdateCompany(p: CompanyPatch, id: Id) returns (r: Outcome)
      requires Valid()
      modifies this
      ensures Valid()
      ensures p.unknownKeys != [] ==> r == Fail(UnknownArgument(p.unknownKeys[0])) && unchanged(this)
      ensures p.unknownKeys == [] && !old(Has(id)) ==> r == Fail(RecordNotFound) && unchanged(this)
      ensures p.unknownKeys == [] && old(Has(id)) ==>
                r == Pass && |companies| == |old(companies)|
                && forall i :: 0 <= i < |companies| ==>
                     companies[i] == if old(companies[i]).id == id
                                     then ApplyCompanyPatch(p, old(companies[i])) else old(companies[i])
    {
      if p.unknownKeys != [] {
        return Fail(UnknownArgument(p.unknownKeys[0]));
      }
      if !Has(id) {
        return Fail(RecordNotFound);
      }
      var rows := companies;
      companies := seq(|rows|, i requires 0 <= i < |rows| =>
        if rows[i].id == id then ApplyCompanyPatch(p, rows[i]) else rows[i]);
      return Pass;
    }
  }
}
