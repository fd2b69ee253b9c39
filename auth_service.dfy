/** The account rules of `AuthService.ts`: the split of a full name into
    first and last name, signup, the order of the login checks, the one-hour
    windows of email verification codes and password reset links, and the
    token checks behind the auth middlewares.

    bcrypt, jwt and the uuid generator are inputs: a hashed password, a
    `matches(plain, hashed)` predicate, a `sign(email)` function and fresh
    codes, tokens and ids. Emails are sent by the source after the writes
    modelled here and are not part of this model. */
module AuthService {
  import opened Wrappers
  import opened Js
  import opened FormatDate
  import opened Entities
  import opened UserRepo

  /** One hour in milliseconds: the life of a verification code and of a reset link. */
  const CodeWindow := 3600000

  const AccountExists := Error(Conflict, "An account already exists with this email address. Please login.")
  const SignupMismatch := Error(BadRequest, "Mismtached password")
  const NoAccount := Error(NotFound, "No account exists for this email.")
  const ContactAdmin := Error(NotFound, "Kindly contact your organization adminstration")
  const NoPasswordYet := Error(Unauthorized, "Seems you haven't created a password for your account. Please check your email for a password creation link.")
  const WrongPassword := Error(NotFound, "Incorrect password. Please try again.")
  const UnverifiedEmail := Error(Unauthorized, "Please check your email for a link to verify your email.")
  const InvalidLink := Error(Unauthorized, "Invalid link. Please contact support")
  const ResetMismatch := Error(BadRequest, "Mismatched password")
  const CannotVerify := Error(BadRequest, "Cannot verify the account associated with this link. Please contact support.")
  const CannotVerifyLink := Error(Unauthorized, "Cannot verify the account associated with this link. Please contact support.")
  const LinkExpired := Error(Unauthorized, "Link is no longer valid. A new link has been sent to your email.")
  const AlreadyVerified := Error(Unauthorized, "Email has been verified already")
  const UserMissing := Error(NotFound, "User does not exist")
  const NotAuthorized := Error(Unauthorized, "User is not unathorized")
  const InvalidUser := Error(Unauthorized, "Invalid user.")

  // ---------------------------------------------------------------- names

  datatype Names = Names(firstName: string, lastName: string)

  /** `const [firstName, ...rest] = fullName.trim().split(/\s+/)` and
      `lastName = rest.join(" ")`. */
  function SplitName(fullName: string): (r: Names)
    ensures forall i :: 0 <= i < |r.firstName| ==> !IsSpace(r.firstName[i])
    ensures Trim(fullName) == [] ==> r == Names([], [])
    ensures Trim(fullName) != [] ==> r.firstName != []
    ensures var t := Trim(fullName);
            |r.firstName| <= |t| && r.firstName == t[..|r.firstName|]
            && (|r.firstName| == |t| || IsSpace(t[|r.firstName|]))
  {
    var parts := SplitSpaces(Trim(fullName));
    assert Trim(fullName) != [] ==> parts[0] != [] by {
      if Trim(fullName) != [] {
        SplitSpacesNonEmpty(Trim(fullName));
      }
    }
    Names(parts[0], Join(parts[1..], " "))
  }

  /** The first name is the first word of the trimmed name and the last name
      is the remaining words, joined by single spaces: splitting the last name
      again gives back exactly those words. */
  lemma SplitNameWords(fullName: string)
    ensures var words := SplitSpaces(Trim(fullName));
            var n := SplitName(fullName);
            words[0] == n.firstName
            && (|words| == 1 ==> n.lastName == [])
            && (|words| > 1 ==> words == [n.firstName] + SplitSpaces(n.lastName))
  {
    var t := Trim(fullName);
    var words := SplitSpaces(t);
    if |words| > 1 {
      SplitSpacesNonEmpty(t);
      var rest := words[1..];
      forall k | 0 <= k < |rest|
        ensures Word(rest[k])
      {
        assert rest[k] == words[k + 1];
      }
      SplitSpacesJoin(rest);
      assert words == [words[0]] + rest;
    }
  }

  /** The characters of `s` that are not whitespace, in order. */
  function Letters(s: string): string
  {
    if s == [] then [] else Kept(s[0]) + Letters(s[1..])
  }

  function Kept(c: char): string
  {
    if IsSpace(c) then [] else [c]
  }

  lemma {:induction false} LettersAppend(a: string, b: string)
    ensures Letters(a + b) == Letters(a) + Letters(b)
  {
    if a == [] {
      assert a + b == b;
    } else {
      assert (a + b)[0] == a[0] && (a + b)[1..] == a[1..] + b;
      LettersAppend(a[1..], b);
    }
  }

  /** Only whitespace. */
  predicate Blank(s: string)
  {
    forall i :: 0 <= i < |s| ==> IsSpace(s[i])
  }

  lemma {:induction false} LettersOfSpaces(s: string)
    requires Blank(s)
    ensures Letters(s) == []
  {
    if s != [] {
      assert IsSpace(s[0]);
      assert Blank(s[1..]) by {
        forall i | 0 <= i < |s[1..]|
          ensures IsSpace(s[1..][i])
        {
          assert s[1..][i] == s[i + 1];
        }
      }
      LettersOfSpaces(s[1..]);
    }
  }

  /** Whitespace between two strings adds no letters. */
  lemma LettersAroundSpaces(a: string, b: string, c: string)
    requires Blank(b)
    ensures Letters(a + b + c) == Letters(a) + Letters(c)
  {
    var ab := a + b;
    LettersAppend(ab, c);
    LettersAppend(a, b);
    LettersOfSpaces(b);
  }

  lemma LettersTrimStart(s: string)
    ensures Letters(TrimStart(s)) == Letters(s)
  {
    var t := TrimStart(s);
    var lead := s[..|s| - |t|];
    assert s == lead + t;
    assert Blank(lead);
    LettersAppend(lead, t);
    LettersOfSpaces(lead);
  }

  lemma LettersTrimEnd(t: string)
    ensures Letters(TrimEnd(t)) == Letters(t)
  {
    var u := TrimEnd(t);
    var trail := t[|u|..];
    assert t == u + trail;
    assert Blank(trail);
    LettersAppend(u, trail);
    LettersOfSpaces(trail);
  }

  lemma LettersTrim(s: string)
    ensures Letters(Trim(s)) == Letters(s)
  {
    LettersTrimStart(s);
    LettersTrimEnd(TrimStart(s));
  }

  /** Rejoining the words with single spaces keeps every other character. */
  lemma {:induction false} LettersJoinSplit(s: string)
    ensures Letters(Join(SplitSpaces(s), " ")) == Letters(s)
    decreases |s|
  {
    var i := NextSpace(s, 0);
    if i < |s| {
      var j := SkipSpace(s, i);
      var word, gap, tail := s[..i], s[i..j], s[j..];
      var joined := Join(SplitSpaces(tail), " ");
      assert Join(SplitSpaces(s), " ") == word + " " + joined by {
        var parts := SplitSpaces(s);
        assert parts == [word] + SplitSpaces(tail);
        assert |parts| > 1 && parts[0] == word && parts[1..] == SplitSpaces(tail);
        JoinWordsHead(parts);
      }
      assert Letters(word + " " + joined) == Letters(word) + Letters(tail) by {
        LettersJoinSplit(tail);
        assert Blank(" ");
        LettersAroundSpaces(word, " ", joined);
      }
      assert Letters(s) == Letters(word) + Letters(tail) by {
        assert s == word + gap + tail;
        assert Blank(gap);
        LettersAroundSpaces(word, gap, tail);
      }
    } else {
      assert SplitSpaces(s) == [s];
    }
  }

  /** First and last name together hold exactly the non-whitespace characters
      of the full name, in order, and the last name is empty exactly when the
      name is a single word. */
  lemma SplitNameKeepsLetters(fullName: string)
    ensures var n := SplitName(fullName);
            Letters(n.firstName + n.lastName) == Letters(fullName)
    ensures Trim(fullName) != [] ==>
              (SplitName(fullName).lastName == [] <==> |SplitSpaces(Trim(fullName))| == 1)
  {
    var t := Trim(fullName);
    var parts := SplitSpaces(t);
    var n := SplitName(fullName);
    LettersTrim(fullName);
    LettersJoinSplit(t);
    if |parts| == 1 {
      assert n.lastName == [];
      assert n.firstName + n.lastName == Join(parts, " ");
    } else {
      assert Join(parts, " ") == n.firstName + " " + n.lastName;
      assert IsSpace(" "[0]);
      LettersAroundSpaces(n.firstName, " ", n.lastName);
      LettersAppend(n.firstName, n.lastName);
      if t != [] {
        SplitSpacesNonEmpty(t);
        assert parts[1] != [];
        assert n.lastName != [];
      }
    }
  }

  // ---------------------------------------------------------------- codes

  /** The user's verification code is less than an hour old. */
  predicate CodeFresh(u: User, now: int)
  {
    u.verificationCodeCreatedAt.Some? && now - u.verificationCodeCreatedAt.value < CodeWindow
  }

  function CodePatch(code: string, now: int): (p: UserPatch)
    ensures p.deletedAt.None?
  {
    NoUserChange.(verificationCode := Some(Some(code)), verificationCodeCreatedAt := Some(Some(now)))
  }

  /** The add-on `sendEmailVerification` makes to the users table. */
  function CodeWrite(rows: seq<User>, u: User, now: int, code: string): seq<User>
  {
    if CodeFresh(u, now) then rows else PatchLiveByEmail(rows, u.email, CodePatch(code, now))
  }

  /** `sendEmailVerification(user)`: does nothing while the current code is
      less than an hour old; otherwise stores a new code stamped now. */
  method SendEmailVerification(auth: AuthRepository, user: User, now: int, code: string) returns (r: Outcome)
    requires auth.Valid()
    modifies auth
    ensures auth.Valid()
    ensures CodeFresh(user, now) ==> r == Pass && unchanged(auth)
    ensures !CodeFresh(user, now) && old(auth.LiveByEmail(user.email)).None? ==> r == Fail(RecordNotFound) && unchanged(auth)
    ensures !CodeFresh(user, now) && old(auth.LiveByEmail(user.email)).Some? ==>
              r == Pass && auth.users == PatchLiveByEmail(old(auth.users), user.email, CodePatch(code, now))
  {
    if CodeFresh(user, now) {
      return Pass;
    }
    var w := auth.UpdateUser(CodePatch(code, now), user.email);
    if w.Err? {
      return Fail(w.error);
    }
    return Pass;
  }

  /** After a code is sent, a new request is ignored for exactly one hour. */
  lemma CodeSentThrottles(rows: seq<User>, email: string, code: string, now: int, later: int)
    requires LiveWithEmail(rows, email).Some?
    ensures var after := PatchLiveByEmail(rows, email, CodePatch(code, now));
            LiveWithEmail(after, email).Some? &&
            LiveWithEmail(after, email).value.verificationCode == Some(code) &&
            (CodeFresh(LiveWithEmail(after, email).value, later) <==> later - now < CodeWindow)
  {
    LiveWithEmailAfterPatch(rows, email, CodePatch(code, now));
  }

  // ---------------------------------------------------------------- replies

  /** The `loginResponse` body without its message. */
  datatype LoginReply = LoginReply(email: string, fullName: string, token: string, userId: Id,
                                   company: string, companyId: Id, avatar: Option<string>, userType: UserType)

  /** `user.company`, the relation the user queries include. */
  function CompanyOf(companies: CompanyRepository, u: User): (r: Result<Company>)
    reads companies
    ensures r.Ok? <==> companies.Has(u.companyId)
    ensures r.Ok? ==> r.value in companies.companies && r.value.id == u.companyId
    ensures r.Err? ==> r.error == MissingRelation
  {
    match companies.FindCompanyById(u.companyId)
    case None => Err(MissingRelation)
    case Some(c) => Ok(c)
  }

  // ---------------------------------------------------------------- login

  /** The verdict of the checks `login` makes, in the order it makes them. */
  datatype LoginStep = NoUser | Blocked | NoPassword(user: User) | BadPassword | Unverified(user: User) | Admitted(user: User)

  function LoginStepOf(auth: AuthRepository, email: string, password: string,
                       matches: (string, string) -> bool): (r: LoginStep)
    reads auth
    ensures r.NoUser? <==> auth.FindUserByEmail(email).None?
    ensures auth.FindUserByEmail(email).Some? ==>
              var u := auth.FindUserByEmail(email).value;
              (r.Blocked? <==> u.isBlacklisted || !Live(u.deletedAt)) &&
              (r.NoPassword? <==> !u.isBlacklisted && Live(u.deletedAt) && !Js.Present(u.password)) &&
              (r.BadPassword? <==> !u.isBlacklisted && Live(u.deletedAt) && Js.Present(u.password)
                                   && !matches(password, u.password.value)) &&
              (r.Unverified? <==> !u.isBlacklisted && Live(u.deletedAt) && Js.Present(u.password)
                                  && matches(password, u.password.value) && !u.emailVerified) &&
              (r.Admitted? <==> !u.isBlacklisted && Live(u.deletedAt) && Js.Present(u.password)
                                && matches(password, u.password.value) && u.emailVerified) &&
              ((r.NoPassword? || r.Unverified? || r.Admitted?) ==> r.user == u)
  {
    match auth.FindUserByEmail(email)
    case None => NoUser
    case Some(u) =>
      if u.isBlacklisted || u.deletedAt.Some? then Blocked
      else if !Js.Present(u.password) then NoPassword(u)
      else if !matches(password, u.password.value) then BadPassword
      else if !u.emailVerified then Unverified(u)
      else Admitted(u)
  }

  /** The password is consulted only for users that are neither missing,
      blocked nor without a password: for them any password gets the same answer. */
  lemma LoginChecksBeforePassword(auth: AuthRepository, email: string, p1: string, m1: (string, string) -> bool,
                                  p2: string, m2: (string, string) -> bool)
    requires LoginStepOf(auth, email, p1, m1).NoUser? || LoginStepOf(auth, email, p1, m1).Blocked?
             || LoginStepOf(auth, email, p1, m1).NoPassword?
    ensures LoginStepOf(auth, email, p2, m2) == LoginStepOf(auth, email, p1, m1)
  {
  }

  function ResetPatch(token: string, now: int): (p: UserPatch)
    ensures p.deletedAt.None?
  {
    NoUserChange.(passwordToken := Some(Some(token)), passwordTokenCreatedAt := Some(Some(now)))
  }

  /** `login`: a user without a password is sent a reset link (`resetToken`,
      stamped now); an unverified user is sent a verification code, unless
      the current one is less than an hour old; only a verified user with a
      matching password gets a signed token. */
  method Login(auth: AuthRepository, companies: CompanyRepository, email: string, password: string,
               matches: (string, string) -> bool, sign: string -> string,
               resetToken: string, code: string, now: int) returns (r: Result<LoginReply>)
    requires auth.Valid()
    modifies auth
    ensures auth.Valid()
    ensures old(LoginStepOf(auth, email, password, matches)).NoUser? ==> r == Err(NoAccount) && unchanged(auth)
    ensures old(LoginStepOf(auth, email, password, matches)).Blocked? ==> r == Err(ContactAdmin) && unchanged(auth)
    ensures old(LoginStepOf(auth, email, password, matches)).NoPassword? ==>
              r == Err(NoPasswordYet) && auth.users == PatchLiveByEmail(old(auth.users), email, ResetPatch(resetToken, now))
    ensures old(LoginStepOf(auth, email, password, matches)).BadPassword? ==> r == Err(WrongPassword) && unchanged(auth)
    ensures old(LoginStepOf(auth, email, password, matches)).Unverified? ==>
              var u := old(LoginStepOf(auth, email, password, matches)).user;
              (!companies.Has(u.companyId) ==> r == Err(MissingRelation) && unchanged(auth)) &&
              (companies.Has(u.companyId) ==> r == Err(UnverifiedEmail) && auth.users == CodeWrite(old(auth.users), u, now, code))
    ensures old(LoginStepOf(auth, email, password, matches)).Admitted? ==>
              var u := old(LoginStepOf(auth, email, password, matches)).user;
              unchanged(auth) &&
              (!companies.Has(u.companyId) ==> r == Err(MissingRelation)) &&
              (companies.Has(u.companyId) ==>
                 r == Ok(LoginReply(email, u.fullName, sign(email), u.id, CompanyOf(companies, u).value.name,
                                    u.companyId, u.avatar, u.userType)))
  {
    var step := LoginStepOf(auth, email, password, matches);
    match step
    case NoUser =>
      return Err(NoAccount);
    case Blocked =>
      return Err(ContactAdmin);
    case NoPassword(u) =>
      assert u in auth.users && u.email == email && Live(u.deletedAt);
      var w := auth.UpdateUser(ResetPatch(resetToken, now), email);
      return Err(NoPasswordYet);
    case BadPassword =>
      return Err(WrongPassword);
    case Unverified(u) =>
      var c := CompanyOf(companies, u);
      if c.Err? {
        return Err(c.error);
      }
      assert u in auth.users && u.email == email && Live(u.deletedAt);
      var sent := SendEmailVerification(auth, u, now, code);
      return Err(UnverifiedEmail);
    case Admitted(u) =>
      var c := CompanyOf(companies, u);
      if c.Err? {
        return Err(c.error);
      }
      return Ok(LoginReply(email, u.fullName, sign(email), u.id, c.value.name, u.companyId, u.avatar, u.userType));
  }

  // ---------------------------------------------------------------- password reset

  /** The checks of `resetPasswordComplete`, in order: the link, the
      confirmation, the token's timestamp, the one-hour window. */
  function ResetCheck(auth: AuthRepository, password: string, confirmPassword: string,
                      userId: Id, token: string, now: int): (r: Result<User>)
    reads auth
    ensures auth.FindUserByPasswordToken(token, userId).None? ==> r == Err(InvalidLink)
    ensures auth.FindUserByPasswordToken(token, userId).Some? ==>
              var u := auth.FindUserByPasswordToken(token, userId).value;
              (password != confirmPassword ==> r == Err(ResetMismatch)) &&
              (password == confirmPassword && u.passwordTokenCreatedAt.None? ==> r == Err(CannotVerify)) &&
              ((password == confirmPassword && u.passwordTokenCreatedAt.Some? &&
                now - u.passwordTokenCreatedAt.value >= CodeWindow) ==> r == Err(LinkExpired))
    ensures r.Ok? <==> auth.FindUserByPasswordToken(token, userId).Some? && password == confirmPassword &&
                       auth.FindUserByPasswordToken(token, userId).value.passwordTokenCreatedAt.Some? &&
                       now - auth.FindUserByPasswordToken(token, userId).value.passwordTokenCreatedAt.value < CodeWindow
    ensures r.Ok? ==> r.value.id == userId && r.value.passwordToken == Some(token) && r.value in auth.users
  {
    match auth.FindUserByPasswordToken(token, userId)
    case None => Err(InvalidLink)
    case Some(u) =>
      if password != confirmPassword then Err(ResetMismatch)
      else if u.passwordTokenCreatedAt.None? then Err(CannotVerify)
      else if now - u.passwordTokenCreatedAt.value >= CodeWindow then Err(LinkExpired)
      else Ok(u)
  }

  function NewPasswordPatch(hashed: string): (p: UserPatch)
    ensures p.deletedAt.None? && p.passwordToken == Some(None)
  {
    NoUserChange.(password := Some(Some(hashed)), passwordToken := Some(None))
  }

  /** Writing the new password clears the token of the row with that id, so
      the link works once. */
  lemma PasswordWriteSpendsToken(rows: seq<User>, u: User, p: UserPatch)
    requires forall i, j :: 0 <= i < j < |rows| ==> rows[i].id != rows[j].id
    requires u in rows && Live(u.deletedAt) && p.passwordToken == Some(None) && p.deletedAt.None?
    ensures forall v :: v in PatchLiveByEmail(rows, u.email, p) && v.id == u.id ==> v.passwordToken.None?
  {
    var after := PatchLiveByEmail(rows, u.email, p);
    var k :| 0 <= k < |rows| && rows[k] == u;
    forall v | v in after && v.id == u.id
      ensures v.passwordToken.None?
    {
      var i :| 0 <= i < |after| && after[i] == v;
      assert after[i].id == rows[i].id;
      assert i == k;
    }
  }

  /** `resetPasswordComplete`: stores the hashed password and clears the
      token of the user holding the link, then replies as a login. */
  method ResetPasswordComplete(auth: AuthRepository, companies: CompanyRepository, password: string,
                               confirmPassword: string, userId: Id, token: string, hashed: string,
                               sign: string -> string, now: int) returns (r: Result<LoginReply>)
    requires auth.Valid()
    modifies auth
    ensures auth.Valid()
    ensures old(ResetCheck(auth, password, confirmPassword, userId, token, now)).Err? ==>
              r == Err(old(ResetCheck(auth, password, confirmPassword, userId, token, now)).error) && unchanged(auth)
    ensures old(ResetCheck(auth, password, confirmPassword, userId, token, now)).Ok? ==>
              var u := old(ResetCheck(auth, password, confirmPassword, userId, token, now)).value;
              (!Live(u.deletedAt) ==> r == Err(RecordNotFound) && unchanged(auth)) &&
              (Live(u.deletedAt) ==>
                 auth.users == PatchLiveByEmail(old(auth.users), u.email, NewPasswordPatch(hashed)) &&
                 auth.FindUserByPasswordToken(token, userId).None? &&
                 (!companies.Has(u.companyId) ==> r == Err(MissingRelation)) &&
                 (companies.Has(u.companyId) ==>
                    r == Ok(LoginReply(u.email, u.fullName, sign(u.email), userId, CompanyOf(companies, u).value.name,
                                       u.companyId, u.avatar, u.userType))))
  {
    var check := ResetCheck(auth, password, confirmPassword, userId, token, now);
    if check.Err? {
      return Err(check.error);
    }
    r := StorePassword(auth, companies, check.value, hashed, sign);
  }

  /** The write and the reply of a reset whose link passed the checks. */
  method StorePassword(auth: AuthRepository, companies: CompanyRepository, u: User, hashed: string,
                       sign: string -> string) returns (r: Result<LoginReply>)
    requires auth.Valid() && u in auth.users
    modifies auth
    ensures auth.Valid()
    ensures !Live(u.deletedAt) ==> r == Err(RecordNotFound) && unchanged(auth)
    ensures Live(u.deletedAt) ==>
              auth.users == PatchLiveByEmail(old(auth.users), u.email, NewPasswordPatch(hashed)) &&
              (forall v :: v in auth.users && v.id == u.id ==> v.passwordToken.None?) &&
              (!companies.Has(u.companyId) ==> r == Err(MissingRelation)) &&
              (companies.Has(u.companyId) ==>
                 r == Ok(LoginReply(u.email, u.fullName, sign(u.email), u.id, CompanyOf(companies, u).value.name,
                                    u.companyId, u.avatar, u.userType)))
  {
    if auth.LiveByEmail(u.email).Some? {
      EmailIdentifies(auth, u, auth.LiveByEmail(u.email).value);
    }
    var rows := auth.users;
    var w := auth.UpdateUser(NewPasswordPatch(hashed), u.email);
    if w.Err? {
      return Err(w.error);
    }
    PasswordWriteSpendsToken(rows, u, NewPasswordPatch(hashed));
    var c := CompanyOf(companies, u);
    if c.Err? {
      return Err(c.error);
    }
    return Ok(LoginReply(u.email, u.fullName, sign(u.email), u.id, c.value.name, u.companyId, u.avatar, u.userType));
  }

  // ---------------------------------------------------------------- email verification

  /** The verdict of the checks `verifyUserEmail` makes, in order. */
  datatype VerifyStep = VerifyRejected(error: Error) | VerifyExpired(user: User) | VerifyAccepted(user: User)

  function VerifyStepOf(auth: AuthRepository, code: string, email: string, now: int): (r: VerifyStep)
    reads auth
    ensures auth.FindUserByEmail(email).None? ==> r == VerifyRejected(UserMissing)
    ensures auth.FindUserByEmail(email).Some? ==>
              var u := auth.FindUserByEmail(email).value;
              (auth.FindUserByVerificationCode(code, u.id).None? ==> r == VerifyRejected(CannotVerifyLink)) &&
              (auth.FindUserByVerificationCode(code, u.id).Some? ==>
                 (u.emailVerified ==> r == VerifyRejected(AlreadyVerified)) &&
                 (!u.emailVerified && u.verificationCodeCreatedAt.None? ==> r == VerifyRejected(CannotVerify)) &&
                 (!u.emailVerified && u.verificationCodeCreatedAt.Some? ==>
                    (now - u.verificationCodeCreatedAt.value >= CodeWindow ==> r == VerifyExpired(u)) &&
                    (now - u.verificationCodeCreatedAt.value < CodeWindow ==> r == VerifyAccepted(u))))
    ensures !r.VerifyRejected? ==> r.user in auth.users && r.user.email == email
                                   && auth.FindUserByVerificationCode(code, r.user.id).Some?
                                   && !r.user.emailVerified && r.user.verificationCodeCreatedAt.Some?
    ensures r.VerifyExpired? ==> !CodeFresh(r.user, now)
  {
    match auth.FindUserByEmail(email)
    case None => VerifyRejected(UserMissing)
    case Some(u) =>
      if auth.FindUserByVerificationCode(code, u.id).None? then VerifyRejected(CannotVerifyLink)
      else if u.emailVerified then VerifyRejected(AlreadyVerified)
      else if u.verificationCodeCreatedAt.None? then VerifyRejected(CannotVerify)
      else if now - u.verificationCodeCreatedAt.value >= CodeWindow then VerifyExpired(u)
      else VerifyAccepted(u)
  }

  /** A user that passes the lookups of `verifyUserEmail` is live: the code
      lookup only finds live users, and ids are unique. */
  lemma VerifiedUserLive(auth: AuthRepository, code: string, email: string, now: int)
    requires auth.Valid()
    ensures var r := VerifyStepOf(auth, code, email, now);
            !r.VerifyRejected? ==> Live(r.user.deletedAt)
  {
    var r := VerifyStepOf(auth, code, email, now);
    if !r.VerifyRejected? {
      IdIdentifies(auth, r.user, auth.FindUserByVerificationCode(code, r.user.id).value);
    }
  }

  const VerifiedPatch := NoUserChange.(verificationCode := Some(None), verificationCodeCreatedAt := Some(None),
                                       emailVerified := Some(true), isActive := Some(true))

  /** `verifyUserEmail`: an expired code is replaced by a new one (the old
      one is always at least an hour old, so the throttle never holds it
      back); an accepted code is spent, and the user becomes verified and
      active. */
  method VerifyUserEmail(auth: AuthRepository, companies: CompanyRepository, code: string, email: string,
                         newCode: string, sign: string -> string, now: int) returns (r: Result<LoginReply>)
    requires auth.Valid()
    modifies auth
    ensures auth.Valid()
    ensures old(VerifyStepOf(auth, code, email, now)).VerifyRejected? ==>
              r == Err(old(VerifyStepOf(auth, code, email, now)).error) && unchanged(auth)
    ensures old(VerifyStepOf(auth, code, email, now)).VerifyExpired? ==>
              var u := old(VerifyStepOf(auth, code, email, now)).user;
              (!companies.Has(u.companyId) ==> r == Err(MissingRelation) && unchanged(auth)) &&
              (companies.Has(u.companyId) ==>
                 r == Err(LinkExpired) && auth.users == PatchLiveByEmail(old(auth.users), email, CodePatch(newCode, now)))
    ensures old(VerifyStepOf(auth, code, email, now)).VerifyAccepted? ==>
              var u := old(VerifyStepOf(auth, code, email, now)).user;
              auth.users == PatchLiveByEmail(old(auth.users), email, VerifiedPatch) &&
              (forall later :: VerifyStepOf(auth, code, email, later) == VerifyRejected(CannotVerifyLink)) &&
              (!companies.Has(u.companyId) ==> r == Err(MissingRelation)) &&
              (companies.Has(u.companyId) ==>
                 r == Ok(LoginReply(u.email, u.fullName, sign(u.email), u.id, CompanyOf(companies, u).value.name,
                                    u.companyId, u.avatar, u.userType)))
  {
    var step := VerifyStepOf(auth, code, email, now);
    VerifiedUserLive(auth, code, email, now);
    match step
    case VerifyRejected(e) =>
      return Err(e);
    case VerifyExpired(u) =>
      var c := CompanyOf(companies, u);
      if c.Err? {
        return Err(c.error);
      }
      var sent := SendEmailVerification(auth, u, now, newCode);
      return Err(LinkExpired);
    case VerifyAccepted(u) =>
      r := AcceptCode(auth, companies, u, code, sign);
  }

  /** The write and the reply of an accepted verification code. */
  method AcceptCode(auth: AuthRepository, companies: CompanyRepository, u: User, code: string,
                    sign: string -> string) returns (r: Result<LoginReply>)
    requires auth.Valid() && u in auth.users && Live(u.deletedAt)
    modifies auth
    ensures auth.Valid()
    ensures auth.users == PatchLiveByEmail(old(auth.users), u.email, VerifiedPatch)
    ensures forall later :: VerifyStepOf(auth, code, u.email, later) == VerifyRejected(CannotVerifyLink)
    ensures !companies.Has(u.companyId) ==> r == Err(MissingRelation)
    ensures companies.Has(u.companyId) ==>
              r == Ok(LoginReply(u.email, u.fullName, sign(u.email), u.id, CompanyOf(companies, u).value.name,
                                 u.companyId, u.avatar, u.userType))
  {
    var rows := auth.users;
    var w := auth.UpdateUser(VerifiedPatch, u.email);
    CodeSpent(auth, rows, u);
    var c := CompanyOf(companies, u);
    if c.Err? {
      return Err(c.error);
    }
    return Ok(LoginReply(u.email, u.fullName, sign(u.email), u.id, c.value.name, u.companyId, u.avatar, u.userType));
  }

  /** Once the code is accepted the row holds no code, so the same link is
      refused from then on. */
  lemma CodeSpent(auth: AuthRepository, rows: seq<User>, u: User)
    requires auth.Valid() && u in rows && Live(u.deletedAt)
    requires forall i, j :: 0 <= i < j < |rows| ==> rows[i].id != rows[j].id
    requires auth.users == PatchLiveByEmail(rows, u.email, VerifiedPatch)
    ensures forall code, later :: VerifyStepOf(auth, code, u.email, later) == VerifyRejected(CannotVerifyLink)
  {
    var k :| 0 <= k < |rows| && rows[k] == u;
    var spent := auth.users[k];
    assert spent == ApplyUserPatch(VerifiedPatch, u) && spent in auth.users;
    forall code, later
      ensures VerifyStepOf(auth, code, u.email, later) == VerifyRejected(CannotVerifyLink)
    {
      var found := auth.FindUserByEmail(u.email).value;
      EmailIdentifies(auth, found, spent);
      if auth.FindUserByVerificationCode(code, found.id).Some? {
        var v := auth.FindUserByVerificationCode(code, found.id).value;
        IdIdentifies(auth, v, spent);
        assert false;
      }
    }
  }

  // ---------------------------------------------------------------- tokens

  /** `verifyToken`: `decoded` is what `jwt.verify` gives, an error or the
      email the token carries. */
  function VerifyToken(auth: AuthRepository, decoded: Result<Option<string>>): (r: Result<User>)
    reads auth
    ensures decoded.Err? ==> r == Err(decoded.error)
    ensures decoded.Ok? && !Js.Present(decoded.value) ==> r == Err(NotAuthorized)
    ensures decoded.Ok? && Js.Present(decoded.value) ==>
              (r.Ok? <==> auth.HasEmail(decoded.value.value)) &&
              (r.Ok? ==> r.value in auth.users && r.value.email == decoded.value.value) &&
              (r.Err? ==> r.error == InvalidUser)
  {
    if decoded.Err? then Err(decoded.error)
    else if !Js.Present(decoded.value) then Err(NotAuthorized)
    else match auth.FindUserByEmail(decoded.value.value)
      case None => Err(InvalidUser)
      case Some(u) => Ok(u)
  }

  /** `verifyAdminToken`: the same checks, and EMPLOYEE users are refused. */
  function VerifyAdminToken(auth: AuthRepository, decoded: Result<Option<string>>): (r: Result<User>)
    reads auth
    ensures r.Ok? <==> VerifyToken(auth, decoded).Ok? && VerifyToken(auth, decoded).value.userType != EMPLOYEE
    ensures r.Ok? ==> r.value == VerifyToken(auth, decoded).value
    ensures VerifyToken(auth, decoded).Err? ==> r == VerifyToken(auth, decoded)
    ensures VerifyToken(auth, decoded).Ok? && VerifyToken(auth, decoded).value.userType == EMPLOYEE ==> r == Err(InvalidUser)
  {
    match VerifyToken(auth, decoded)
    case Err(e) => Err(e)
    case Ok(u) => if u.userType == EMPLOYEE then Err(InvalidUser) else Ok(u)
  }

  // ---------------------------------------------------------------- signup

  datatype SignupBody = SignupBody(email: string, password: string, confirmPassword: string, fullName: string,
                                   companyName: string, companyAddress: string, scheduleStartDay: Option<DayOfWeek>)

  /** The two refusals before anything is written: an account with that
      email, then a confirmation that differs. */
  function SignupCheck(auth: AuthRepository, body: SignupBody): (r: Outcome)
    reads auth
    ensures r.Pass? <==> !auth.HasEmail(body.email) && body.password == body.confirmPassword
    ensures auth.HasEmail(body.email) ==> r == Fail(AccountExists)
    ensures !auth.HasEmail(body.email) && body.password != body.confirmPassword ==> r == Fail(SignupMismatch)
  {
    if auth.FindUserByEmail(body.email).Some? then Fail(AccountExists)
    else if body.password != body.confirmPassword then Fail(SignupMismatch)
    else Pass
  }

  /** The admin `createUser` is given: the lowercased email, the split name,
      the hashed password, active but not yet verified. */
  function NewAdmin(body: SignupBody, userId: Id, companyId: Id, hashed: string): (u: User)
    ensures u.email == ToLower(body.email) && u.fullName == body.fullName
    ensures u.firstName == SplitName(body.fullName).firstName && u.lastName == SplitName(body.fullName).lastName
    ensures u.userType == ADMIN && u.companyId == companyId && u.id == userId && u.password == Some(hashed)
    ensures u.isActive && !u.emailVerified && !u.isBlacklisted && Live(u.deletedAt)
    ensures u.verificationCodeCreatedAt.None? && u.passwordToken.None?
  {
    var n := SplitName(body.fullName);
    User(userId, ToLower(body.email), n.firstName, n.lastName, body.fullName, None, Some(hashed), ADMIN,
         companyId, true, false, false, None, None, None, None, None)
  }

  /** Patching the live row of an email that only a new last row holds
      patches that row alone. */
  lemma PatchAppended(rows: seq<User>, u: User, p: UserPatch)
    requires forall v :: v in rows ==> v.email != u.email
    requires Live(u.deletedAt)
    ensures PatchLiveByEmail(rows + [u], u.email, p) == rows + [ApplyUserPatch(p, u)]
  {
    var after := PatchLiveByEmail(rows + [u], u.email, p);
    forall i | 0 <= i < |rows|
      ensures after[i] == rows[i]
    {
      assert (rows + [u])[i] == rows[i] && rows[i] in rows;
    }
    assert after[|rows|] == ApplyUserPatch(p, u);
  }

  /** `createUserWithPassword`: after the two checks, the company, the admin
      (with a first verification code) and an empty security-question record
      are created. The checks look at the email as given while the admin is
      stored with the lowercased email, so an email that differs from a
      stored one only in case passes the checks and then fails on the unique
      email column after the company was created. */
  method Signup(auth: AuthRepository, companies: CompanyRepository, security: SecurityRepository,
                body: SignupBody, companyId: Id, userId: Id, questionsId: Id, hashed: string,
                code: string, now: int) returns (r: Outcome)
    requires auth.Valid() && companies.Valid() && security.Valid()
    requires !companies.Has(companyId) && !auth.HasUser(userId) && !security.Has(questionsId)
    modifies auth, companies, security
    ensures auth.Valid() && companies.Valid() && security.Valid()
    ensures old(SignupCheck(auth, body)).Fail? ==>
              r == old(SignupCheck(auth, body)) && unchanged(auth) && unchanged(companies) && unchanged(security)
    ensures old(SignupCheck(auth, body)).Pass? ==>
              companies.companies == old(companies.companies) +
                                     [Company(companyId, body.companyName, body.companyAddress, body.scheduleStartDay)]
    ensures old(SignupCheck(auth, body)).Pass? && old(auth.HasEmail(ToLower(body.email))) ==>
              r == Fail(DuplicateEmail) && unchanged(auth) && unchanged(security)
    ensures old(SignupCheck(auth, body)).Pass? && !old(auth.HasEmail(ToLower(body.email))) ==>
              r == Pass &&
              auth.users == old(auth.users) + [ApplyUserPatch(CodePatch(code, now), NewAdmin(body, userId, companyId, hashed))] &&
              security.questions == old(security.questions) + [SecurityQuestions(questionsId, userId, None, None, None, None)]
  {
    var check := SignupCheck(auth, body);
    if check.Fail? {
      return check;
    }
    var made := companies.CreateCompany(Company(companyId, body.companyName, body.companyAddress, body.scheduleStartDay));
    r := CreateAdmin(auth, security, NewAdmin(body, userId, companyId, hashed), questionsId, code, now);
  }

  /** The admin row, its first verification code and its question record. */
  method CreateAdmin(auth: AuthRepository, security: SecurityRepository, u: User, questionsId: Id,
                     code: string, now: int) returns (r: Outcome)
    requires auth.Valid() && security.Valid() && !auth.HasUser(u.id) && !security.Has(questionsId)
    requires Live(u.deletedAt) && u.verificationCodeCreatedAt.None?
    modifies auth, security
    ensures auth.Valid() && security.Valid()
    ensures old(auth.HasEmail(u.email)) ==> r == Fail(DuplicateEmail) && unchanged(auth) && unchanged(security)
    ensures !old(auth.HasEmail(u.email)) ==>
              r == Pass && auth.users == old(auth.users) + [ApplyUserPatch(CodePatch(code, now), u)] &&
              security.questions == old(security.questions) + [SecurityQuestions(questionsId, u.id, None, None, None, None)]
  {
    var rows := auth.users;
    var made := auth.CreateUser(u);
    if made.Fail? {
      return made;
    }
    assert u in auth.users;
    var sent := SendEmailVerification(auth, u, now, code);
    PatchAppended(rows, u, CodePatch(code, now));
    var q := security.CreateSecurityFields(questionsId, u.id);
    return Pass;
  }
}
