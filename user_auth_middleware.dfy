/** The route guards for signed-in users and for employees: a bearer token
    from the `Authorization` header, checked with `verifyToken`; on success
    the request carries the user's id and company id, and every failure is
    handed to `next` rather than thrown. */
module UserAuthMiddleware {
  import opened Wrappers
  import opened Js
  import opened Entities
  import opened UserRepo
  import opened AuthService

  const NoAuthorization := Error(Unauthorized, "No authorization provided")
  const InvalidAuthToken := Error(Unauthorized, "Invalid auth token")
  const NotVerified := Error(Unauthorized, "User is not verified")
  const NotEmployee := Error(Unauthorized, "User is not an employee")

  const BearerSep := "Bearer "

  /** The token of an `Authorization` header: the header must be truthy,
      start with `Bearer`, and split around `"Bearer "` into exactly two
      pieces, the second being the token. */
  function BearerToken(header: Option<string>): (r: Result<string>)
    ensures !Present(header) ==> r == Err(NoAuthorization)
    ensures Present(header) && !StartsWith(header.value, "Bearer") ==> r == Err(InvalidAuthToken)
    ensures r.Err? ==> r.error in {NoAuthorization, InvalidAuthToken}
  {
    if !Present(header) then Err(NoAuthorization)
    else if !StartsWith(header.value, "Bearer") then Err(InvalidAuthToken)
    else
      var split := Split(header.value, BearerSep);
      if |split| != 2 then Err(InvalidAuthToken) else Ok(split[1])
  }

  /** A string holding the separator splits into at least two pieces. */
  lemma SplitOfContaining(s: string, sep: string)
    requires |sep| > 0 && Contains(s, sep)
    ensures |Split(s, sep)| >= 2
  {
  }

  /** The header `Bearer <t>` yields `t`, exactly when `t` does not itself
      hold `"Bearer "`; otherwise it is an invalid token. */
  lemma {:induction false} BearerTokenOf(t: string)
    ensures BearerToken(Some(BearerSep + t)) == if Contains(t, BearerSep) then Err(InvalidAuthToken) else Ok(t)
  {
    var h := BearerSep + t;
    assert h[..6] == "Bearer";
    SplitLeading(BearerSep, t);
    if Contains(t, BearerSep) {
      SplitOfContaining(t, BearerSep);
    } else {
      SplitFree(t, BearerSep);
    }
  }

  /** An accepted header is some text without `"Bearer "`, then `"Bearer "`,
      then the token, which holds no `"Bearer "` either. */
  lemma {:induction false} BearerTokenShape(header: Option<string>)
    requires BearerToken(header).Ok?
    ensures StartsWith(header.value, "Bearer")
    ensures var lead := Split(header.value, BearerSep)[0];
            header.value == lead + BearerSep + BearerToken(header).value &&
            !Contains(lead, BearerSep) && !Contains(BearerToken(header).value, BearerSep)
  {
    var split := Split(header.value, BearerSep);
    JoinSplit(header.value, BearerSep);
    SplitPiecesFree(header.value, BearerSep);
    assert split[1..] == [split[1]];
    assert Join(split, BearerSep) == split[0] + BearerSep + Join(split[1..], BearerSep);
  }

  /** `UserAuthMiddleware`'s checks: a well-formed header, a token naming
      an existing user (`verifyToken`), and a verified e-mail. */
  function UserGate(auth: AuthRepository, header: Option<string>, decode: string -> Result<Option<string>>): (r: Result<User>)
    reads auth
    ensures BearerToken(header).Err? ==> r == Err(BearerToken(header).error)
    ensures BearerToken(header).Ok? ==>
              var v := VerifyToken(auth, decode(BearerToken(header).value));
              (v.Err? ==> r == Err(v.error)) &&
              (v.Ok? && !v.value.emailVerified ==> r == Err(NotVerified)) &&
              (v.Ok? && v.value.emailVerified ==> r == v)
    ensures r.Ok? ==> r.value in auth.users && r.value.emailVerified
  {
    match BearerToken(header)
    case Err(e) => Err(e)
    case Ok(token) =>
      match VerifyToken(auth, decode(token))
      case Err(e) => Err(e)
      case Ok(u) => if !u.emailVerified then Err(NotVerified) else Ok(u)
  }

  /** `EmployeeAuthMiddleware`'s checks: those of `UserGate`, and the user
      must be an EMPLOYEE. */
  function EmployeeGate(auth: AuthRepository, header: Option<string>, decode: string -> Result<Option<string>>): (r: Result<User>)
    reads auth
    ensures UserGate(auth, header, decode).Err? ==> r == UserGate(auth, header, decode)
    ensures UserGate(auth, header, decode).Ok? && UserGate(auth, header, decode).value.userType != EMPLOYEE ==>
              r == Err(NotEmployee)
    ensures r.Ok? <==> UserGate(auth, header, decode).Ok? && UserGate(auth, header, decode).value.userType == EMPLOYEE
    ensures r.Ok? ==> r == UserGate(auth, header, decode)
  {
    match UserGate(auth, header, decode)
    case Err(e) => Err(e)
    case Ok(u) => if u.userType != EMPLOYEE then Err(NotEmployee) else Ok(u)
  }

  /** A guarded route admits a well-formed bearer header only for a user the
      token's e-mail names, and only once that user has verified it. */
  lemma UserGateAdmits(auth: AuthRepository, t: string, decode: string -> Result<Option<string>>)
    requires !Contains(t, BearerSep)
    ensures UserGate(auth, Some(BearerSep + t), decode).Ok? <==>
              decode(t).Ok? && Present(decode(t).value) && auth.HasEmail(decode(t).value.value) &&
              auth.FindUserByEmail(decode(t).value.value).value.emailVerified
  {
    BearerTokenOf(t);
  }

  /** The request as the guards see it: its `Authorization` header, and the
      ids the guards attach. */
  class UserRequest {
    const authorization: Option<string>
    var userId: Option<Id>
    var companyId: Option<Id>

    constructor (header: Option<string>)
      ensures authorization == header && userId.None? && companyId.None?
    {
      authorization := header;
      userId, companyId := None, None;
    }
  }

  /** What a guard hands to `next`: nothing, or the error. */
  datatype NextCall = Proceed | Reject(error: Error)

  /** Attaches the admitted user's ids to the request, or hands on the error. */
  method Admit(req: UserRequest, gate: Result<User>) returns (next: NextCall)
    modifies req
    ensures gate.Ok? ==> next == Proceed && req.userId == Some(gate.value.id) && req.companyId == Some(gate.value.companyId)
    ensures gate.Err? ==> next == Reject(gate.error) && req.userId == old(req.userId) && req.companyId == old(req.companyId)
  {
    match gate
    case Err(e) =>
      next := Reject(e);
    case Ok(u) =>
      req.userId := Some(u.id);
      req.companyId := Some(u.companyId);
      next := Proceed;
  }

  /** `UserAuthMiddleware.use`. */
  method AuthenticateUser(req: UserRequest, auth: AuthRepository, decode: string -> Result<Option<string>>)
    returns (next: NextCall)
    modifies req
    ensures var g := UserGate(auth, req.authorization, decode);
            (g.Ok? ==> next == Proceed && req.userId == Some(g.value.id) && req.companyId == Some(g.value.companyId)) &&
            (g.Err? ==> next == Reject(g.error) && req.userId == old(req.userId) && req.companyId == old(req.companyId))
  {
    next := Admit(req, UserGate(auth, req.authorization, decode));
  }

  /** `EmployeeAuthMiddleware.use`. */
  method AuthenticateEmployee(req: UserRequest, auth: AuthRepository, decode: string -> Result<Option<string>>)
    returns (next: NextCall)
    modifies req
    ensures var g := EmployeeGate(auth, req.authorization, decode);
            (g.Ok? ==> next == Proceed && req.userId == Some(g.value.id) && req.companyId == Some(g.value.companyId)) &&
            (g.Err? ==> next == Reject(g.error) && req.userId == old(req.userId) && req.companyId == old(req.companyId))
  {
    next := Admit(req, EmployeeGate(auth, req.authorization, decode));
  }
}
