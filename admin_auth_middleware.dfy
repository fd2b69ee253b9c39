/** The route guard for the organisation's administrators: the same bearer
    header checks as the user guard, then `verifyAdminToken`, and only a
    MANAGER is let through. Failures are handed to `next`. */
module AdminAuthMiddleware {
  import opened Wrappers
  import opened Js
  import opened Entities
  import opened UserRepo
  import opened AuthService
  import opened UserAuthMiddleware

  /** The refusal text, leading space included. */
  const NotManager := Error(Unauthorized, " You are not authorized to view this page. Kindly contact your organization admin")

  /** `AdminAuthMiddleware`'s checks. There is no e-mail verification check
      here, unlike the user guard. */
  function AdminGate(auth: AuthRepository, header: Option<string>, decode: string -> Result<Option<string>>): (r: Result<User>)
    reads auth
    ensures BearerToken(header).Err? ==> r == Err(BearerToken(header).error)
    ensures BearerToken(header).Ok? ==>
              var v := VerifyAdminToken(auth, decode(BearerToken(header).value));
              (v.Err? ==> r == Err(v.error)) &&
              (v.Ok? && v.value.userType != MANAGER ==> r == Err(NotManager)) &&
              (v.Ok? && v.value.userType == MANAGER ==> r == v)
    ensures r.Ok? ==> r.value in auth.users && r.value.userType == MANAGER
  {
    match BearerToken(header)
    case Err(e) => Err(e)
    case Ok(token) =>
      match VerifyAdminToken(auth, decode(token))
      case Err(e) => Err(e)
      case Ok(u) => if u.userType != MANAGER then Err(NotManager) else Ok(u)
  }

  /** The admin guard lets a token through exactly when it names an existing
      MANAGER: the EMPLOYEE refusal of `verifyAdminToken` comes first, every
      other non-MANAGER (an ADMIN) meets the guard's own refusal. */
  lemma AdminGateAdmits(auth: AuthRepository, t: string, decode: string -> Result<Option<string>>)
    requires !Contains(t, BearerSep)
    ensures AdminGate(auth, Some(BearerSep + t), decode).Ok? <==>
              decode(t).Ok? && Present(decode(t).value) && auth.HasEmail(decode(t).value.value) &&
              auth.FindUserByEmail(decode(t).value.value).value.userType == MANAGER
    ensures (decode(t).Ok? && Present(decode(t).value) && auth.HasEmail(decode(t).value.value) &&
             auth.FindUserByEmail(decode(t).value.value).value.userType == ADMIN) ==>
              AdminGate(auth, Some(BearerSep + t), decode) == Err(NotManager)
  {
    BearerTokenOf(t);
  }

  /** The account the password signup creates is an ADMIN, so a token for
      it is refused by the admin guard while the row stays as created. */
  lemma SignupAdminRefused(auth: AuthRepository, t: string, decode: string -> Result<Option<string>>,
                           body: SignupBody, userId: Id, companyId: Id, hashed: string)
    requires !Contains(t, BearerSep) && decode(t).Ok? && Present(decode(t).value)
    requires auth.FindUserByEmail(decode(t).value.value) == Some(NewAdmin(body, userId, companyId, hashed))
    ensures AdminGate(auth, Some(BearerSep + t), decode) == Err(NotManager)
  {
    BearerTokenOf(t);
  }

  /** `AdminAuthMiddleware.use`. */
  method AuthenticateAdmin(req: UserRequest, auth: AuthRepository, decode: string -> Result<Option<string>>)
    returns (next: NextCall)
    modifies req
    ensures var g := AdminGate(auth, req.authorization, decode);
            (g.Ok? ==> next == Proceed && req.userId == Some(g.value.id) && req.companyId == Some(g.value.companyId)) &&
            (g.Err? ==> next == Reject(g.error) && req.userId == old(req.userId) && req.companyId == old(req.companyId))
  {
    next := Admit(req, AdminGate(auth, req.authorization, decode));
  }
}
