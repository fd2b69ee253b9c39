/** `TeamService.ts`: the list of pending invitations, revoking and
    resending an invitation, and the organization settings. */
module TeamService {
  import opened Wrappers
  import Js
  import opened FormatDate
  import opened Entities
  import opened UserRepo
  import AuthService

  const OrganizationMissing := Error(NotFound, "Organization does not exist. Kindly contact support")
  const NotInCompany := Error(NotFound, "User does not exist. Kindly contact support")
  const RevokeActive := Error(NotFound, "Unable to revoke invitation for active user")
  const ResendActive := Error(NotFound, "Unable to resend invitation for active user")

  // ---------------------------------------------------------------- invitations

  datatype InviteStatus = Pending | Revoked

  /** One entry of `pendingInvites`, without the role title. */
  datatype Invite = Invite(id: Id, email: string, fullName: string, employeeType: UserType, status: InviteStatus)

  /** An invitation is pending while the user holds a verification code. */
  function InviteOf(u: User): (r: Invite)
    ensures r.id == u.id && r.email == u.email && r.fullName == u.fullName && r.employeeType == u.userType
    ensures r.status == Pending <==> Js.Present(u.verificationCode)
  {
    Invite(u.id, u.email, u.fullName, u.userType,
           if Js.Present(u.verificationCode) then Pending else Revoked)
  }

  function InvitesOf(users: seq<User>): (r: seq<Invite>)
    ensures |r| == |users| && forall i :: 0 <= i < |r| ==> r[i] == InviteOf(users[i])
  {
    seq(|users|, i requires 0 <= i < |users| => InviteOf(users[i]))
  }

  /** `pendingInvites(companyId)`: one entry per live user of the company
      that is neither active nor verified. */
  function PendingInvites(companies: CompanyRepository, auth: AuthRepository, companyId: Id): (r: Result<seq<Invite>>)
    reads companies, auth
    ensures r.Err? <==> !companies.Has(companyId)
    ensures r.Err? ==> r.error == OrganizationMissing
    ensures r.Ok? ==> r.value == InvitesOf(auth.FindInactiveUsers(companyId))
  {
    if companies.FindCompanyById(companyId).None? then Err(OrganizationMissing)
    else Ok(InvitesOf(auth.FindInactiveUsers(companyId)))
  }

  /** Every invited user of the company is listed, and only they are. */
  lemma InvitesListInactive(companies: CompanyRepository, auth: AuthRepository, companyId: Id)
    requires companies.Has(companyId)
    ensures forall u :: (u in auth.users && !u.isActive && !u.emailVerified && u.companyId == companyId
                         && Live(u.deletedAt)) ==> InviteOf(u) in PendingInvites(companies, auth, companyId).value
    ensures forall v :: v in PendingInvites(companies, auth, companyId).value ==>
              exists u :: u in auth.users && !u.isActive && !u.emailVerified && u.companyId == companyId
                          && Live(u.deletedAt) && v == InviteOf(u)
  {
    var rows := auth.FindInactiveUsers(companyId);
    var listed := PendingInvites(companies, auth, companyId).value;
    forall u | u in auth.users && !u.isActive && !u.emailVerified && u.companyId == companyId && Live(u.deletedAt)
      ensures InviteOf(u) in listed
    {
      var k :| 0 <= k < |rows| && rows[k] == u;
      assert listed[k] == InviteOf(u);
    }
    forall v | v in listed
      ensures exists u :: u in auth.users && !u.isActive && !u.emailVerified && u.companyId == companyId
                          && Live(u.deletedAt) && v == InviteOf(u)
    {
      var k :| 0 <= k < |listed| && listed[k] == v;
      assert rows[k] in rows;
    }
  }

  /** The checks `revokeInvite` and `resendInvite` share: a live user of the
      company that has not activated the account. */
  function InviteCheck(auth: AuthRepository, companyId: Id, userId: Id, active: Error): (r: Result<User>)
    reads auth
    ensures auth.FindUserByIdOrThrow(userId).Err? ==> r == Err(UserNotFound)
    ensures auth.FindUserByIdOrThrow(userId).Ok? ==>
              var u := auth.FindUserByIdOrThrow(userId).value;
              (u.companyId != companyId ==> r == Err(NotInCompany)) &&
              (u.companyId == companyId && u.isActive ==> r == Err(active)) &&
              (u.companyId == companyId && !u.isActive ==> r == Ok(u))
    ensures r.Ok? ==> r.value in auth.users && r.value.id == userId && r.value.companyId == companyId
                      && !r.value.isActive && Live(r.value.deletedAt)
  {
    match auth.FindUserByIdOrThrow(userId)
    case Err(e) => Err(e)
    case Ok(u) =>
      if u.companyId != companyId then Err(NotInCompany)
      else if u.isActive then Err(active)
      else Ok(u)
  }

  /** The `updateUser` data of `revokeInvite`: it clears the code and its
      timestamp and nothing else. */
  function RevokePatch(): (p: UserPatch)
    ensures p.deletedAt.None?
    ensures forall u :: ApplyUserPatch(p, u) == u.(verificationCode := None, verificationCodeCreatedAt := None)
  {
    NoUserChange.(verificationCode := Some(None), verificationCodeCreatedAt := Some(None))
  }

  /** `revokeInvite`: takes the code away from the invited user, then lists
      the invitations of the company, where that user now shows as revoked. */
  method RevokeInvite(companies: CompanyRepository, auth: AuthRepository, companyId: Id, userId: Id)
    returns (r: Result<seq<Invite>>)
    requires auth.Valid()
    modifies auth
    ensures auth.Valid()
    ensures old(InviteCheck(auth, companyId, userId, RevokeActive)).Err? ==>
              r == Err(old(InviteCheck(auth, companyId, userId, RevokeActive)).error) && unchanged(auth)
    ensures old(InviteCheck(auth, companyId, userId, RevokeActive)).Ok? ==>
              var u := old(InviteCheck(auth, companyId, userId, RevokeActive)).value;
              auth.users == PatchLiveByEmail(old(auth.users), u.email, RevokePatch()) &&
              r == PendingInvites(companies, auth, companyId) &&
              (r.Ok? && !u.emailVerified ==>
                 InviteOf(ApplyUserPatch(RevokePatch(), u)) in r.value &&
                 InviteOf(ApplyUserPatch(RevokePatch(), u)).status == Revoked)
  {
    var check := InviteCheck(auth, companyId, userId, RevokeActive);
    if check.Err? {
      return Err(check.error);
    }
    var u := check.value;
    EmailIdentifies(auth, u, auth.LiveByEmail(u.email).value);
    var rows := auth.users;
    var w := auth.UpdateUser(RevokePatch(), u.email);
    r := PendingInvites(companies, auth, companyId);
    if r.Ok? && !u.emailVerified {
      RevokedShown(companies, auth, rows, u);
    }
  }

  /** A revoked user that never verified the email is still listed, now as revoked. */
  lemma RevokedShown(companies: CompanyRepository, auth: AuthRepository, rows: seq<User>, u: User)
    requires companies.Has(u.companyId) && !u.isActive && !u.emailVerified
    requires LiveWithEmail(rows, u.email) == Some(u)
    requires auth.users == PatchLiveByEmail(rows, u.email, RevokePatch())
    ensures InviteOf(ApplyUserPatch(RevokePatch(), u)) in PendingInvites(companies, auth, u.companyId).value
  {
    LiveWithEmailAfterPatch(rows, u.email, RevokePatch());
    InvitesListInactive(companies, auth, u.companyId);
  }

  /** `resendInvite`: sends the invited user a verification code, unless the
      current one is less than an hour old. */
  method ResendInvite(companies: CompanyRepository, auth: AuthRepository, companyId: Id, userId: Id,
                      code: string, now: int) returns (r: Outcome)
    requires auth.Valid()
    modifies auth
    ensures auth.Valid()
    ensures old(InviteCheck(auth, companyId, userId, ResendActive)).Err? ==>
              r == Fail(old(InviteCheck(auth, companyId, userId, ResendActive)).error) && unchanged(auth)
    ensures old(InviteCheck(auth, companyId, userId, ResendActive)).Ok? ==>
              var u := old(InviteCheck(auth, companyId, userId, ResendActive)).value;
              (!companies.Has(u.companyId) ==> r == Fail(MissingRelation) && unchanged(auth)) &&
              (companies.Has(u.companyId) ==>
                 r == Pass && auth.users == AuthService.CodeWrite(old(auth.users), u, now, code))
  {
    var check := InviteCheck(auth, companyId, userId, ResendActive);
    if check.Err? {
      return Fail(check.error);
    }
    var u := check.value;
    var c := AuthService.CompanyOf(companies, u);
    if c.Err? {
      return Fail(c.error);
    }
    EmailIdentifies(auth, u, auth.LiveByEmail(u.email).value);
    var sent := AuthService.SendEmailVerification(auth, u, now, code);
    return Pass;
  }

  // ---------------------------------------------------------------- organization settings

  datatype EditOrganizationBody = EditOrganizationBody(companyName: Option<string>, companyAddress: Option<string>,
                                                       scheduleStartDay: Option<DayOfWeek>)

  /** `companySchema`. */
  datatype CompanySchema = CompanySchema(id: Id, name: string, address: string, startDate: Option<DayOfWeek>)

  function SchemaOf(c: Company): (r: CompanySchema)
    ensures r.id == c.id && r.name == c.name && r.address == c.address && r.startDate == c.scheduleStartDay
  {
    CompanySchema(c.id, c.name, c.address, c.scheduleStartDay)
  }

  /** The `data` object as the source builds it: the address under `address`,
      the start day under `scheduleStartDay`, but the name under
      `companyName`, which is not a column of the company table. */
  function EditPatchAsWritten(body: EditOrganizationBody): (p: CompanyPatch)
    ensures Js.Present(body.companyName) ==> p.unknownKeys == ["companyName"]
    ensures !Js.Present(body.companyName) ==> p.unknownKeys == []
    ensures p.name.None?
  {
    CompanyPatch(None,
                 if Js.Present(body.companyAddress) then body.companyAddress else None,
                 body.scheduleStartDay,
                 if Js.Present(body.companyName) then ["companyName"] else [])
  }

  /** The evidently intended `data`: each field that was given (non-empty)
      under its column name. */
  function EditPatch(body: EditOrganizationBody): (p: CompanyPatch)
    ensures p.unknownKeys == []
    ensures p.name.Some? <==> Js.Present(body.companyName)
    ensures p.address.Some? <==> Js.Present(body.companyAddress)
    ensures p.scheduleStartDay == body.scheduleStartDay
    ensures p.name.Some? ==> p.name == body.companyName
    ensures p.address.Some? ==> p.address == body.companyAddress
  {
    CompanyPatch(if Js.Present(body.companyName) then body.companyName else None,
                 if Js.Present(body.companyAddress) then body.companyAddress else None,
                 body.scheduleStartDay, [])
  }

  /** With the intended data, the fields that were given are written and
      every other field keeps its value. */
  lemma EditWritesGivenFields(body: EditOrganizationBody, c: Company)
    ensures var e := ApplyCompanyPatch(EditPatch(body), c);
            e.id == c.id &&
            e.name == (if Js.Present(body.companyName) then body.companyName.value else c.name) &&
            e.address == (if Js.Present(body.companyAddress) then body.companyAddress.value else c.address) &&
            e.scheduleStartDay == (if body.scheduleStartDay.Some? then body.scheduleStartDay else c.scheduleStartDay)
  {
  }

  /** The body of `editOrganizationSetting` once the data is built: the
      company must exist, the update is made, and the company is read back. */
  method EditOrganization(companies: CompanyRepository, companyId: Id, p: CompanyPatch) returns (r: Result<CompanySchema>)
    requires companies.Valid()
    modifies companies
    ensures companies.Valid()
    ensures !old(companies.Has(companyId)) ==> r == Err(OrganizationMissing) && unchanged(companies)
    ensures old(companies.Has(companyId)) && p.unknownKeys != [] ==>
              r == Err(UnknownArgument(p.unknownKeys[0])) && unchanged(companies)
    ensures old(companies.Has(companyId)) && p.unknownKeys == [] ==>
              |companies.companies| == |old(companies.companies)| &&
              (forall i :: 0 <= i < |companies.companies| ==>
                 companies.companies[i] == if old(companies.companies[i]).id == companyId
                                           then ApplyCompanyPatch(p, old(companies.companies[i]))
                                           else old(companies.companies[i])) &&
              r == Ok(SchemaOf(ApplyCompanyPatch(p, old(companies.FindCompanyById(companyId)).value)))
  {
    var before := companies.FindCompanyById(companyId);
    if before.None? {
      return Err(OrganizationMissing);
    }
    var w := companies.UpdateCompany(p, companyId);
    if w.Fail? {
      return Err(w.error);
    }
    var after := companies.FindCompanyById(companyId);
    ghost var k :| 0 <= k < |old(companies.companies)| && old(companies.companies)[k] == before.value;
    assert companies.companies[k] == ApplyCompanyPatch(p, before.value) && companies.companies[k] in companies.companies;
    ghost var j :| 0 <= j < |companies.companies| && companies.companies[j] == after.value;
    assert companies.companies[j].id == companies.companies[k].id;
    return Ok(SchemaOf(after.value));
  }

  /** `editOrganizationSetting` as written: a request that renames the
      organization fails on the unknown key and writes nothing, not even the
      address or the start day it also carries. */
  method EditOrganizationSettingAsWritten(companies: CompanyRepository, companyId: Id, body: EditOrganizationBody)
    returns (r: Result<CompanySchema>)
    requires companies.Valid()
    modifies companies
    ensures companies.Valid()
    ensures old(companies.Has(companyId)) && Js.Present(body.companyName) ==>
              r == Err(UnknownArgument("companyName")) && unchanged(companies)
  {
    r := EditOrganization(companies, companyId, EditPatchAsWritten(body));
  }

  /** `editOrganizationSetting` with the name written to the `name` column:
      the given fields are stored and the updated company is returned. */
  method EditOrganizationSetting(companies: CompanyRepository, companyId: Id, body: EditOrganizationBody)
    returns (r: Result<CompanySchema>)
    requires companies.Valid()
    modifies companies
    ensures companies.Valid()
    ensures !old(companies.Has(companyId)) ==> r == Err(OrganizationMissing) && unchanged(companies)
    ensures old(companies.Has(companyId)) ==>
              |companies.companies| == |old(companies.companies)| &&
              (forall i :: 0 <= i < |companies.companies| ==>
                 companies.companies[i] == if old(companies.companies[i]).id == companyId
                                           then ApplyCompanyPatch(EditPatch(body), old(companies.companies[i]))
                                           else old(companies.companies[i])) &&
              r == Ok(SchemaOf(ApplyCompanyPatch(EditPatch(body), old(companies.FindCompanyById(companyId)).value)))
  {
    r := EditOrganization(companies, companyId, EditPatch(body));
  }
}
