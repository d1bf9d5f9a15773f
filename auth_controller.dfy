/** The account handlers of controllers/authenticationController.js. As for
    the relationship handlers, each is specified by a function from the old
    store to an outcome and the new store, and the method that runs it on a
    `Database` is proved equal to that function.

    The clock is the parameter `now` (milliseconds), the random reset token
    the parameter `random`, and the outcome of sending mail the parameter
    `delivered`. */
module AuthController {
  import opened Outcomes
  import opened Tokens
  import opened UserModel
  import opened Store

  /** The outcome of one handler and the store after it. */
  datatype AuthStep<T> = AuthStep(outcome: Outcome<T>, store: StoreState)

  /** What a handler that signs a user in reports: who, the two tokens (the
      access token in the cookie, the refresh token in the body), and the
      `password` field of the user document the body carries as `data`. */
  datatype Session = Session(user: UserId, issued: Issued, shownPassword: Option<Password>)

  const MissingCredentials := "please enter your email and password"
  const BadCredentials := "incorect email or password"
  const UnknownEmail := "incorect email"
  const MailFailed := "there was an error sending to email. please try again later"
  const BadResetToken := "password reset token is invalid or expird in"
  const NotAuthorizedOp := "you are not authorized for this operation"
  const NoSuchAccount := "this user does not exist"
  const NotAuthorized := "you are not authorized"
  const NoRefreshToken := "you are not authorized "

  /** A body field as `!field` tests it: absent and empty are both missing. */
  predicate Present(field: Option<string>)
  {
    field.Some? && field.value != ""
  }

  // ---------------------------------------------------------------------
  // Specifications

  /** `registerUser` with the ObjectIds the two new documents get. The
      UserInfo document is created first; a save that then fails (a required
      field empty, a taken email or id) leaves it behind. */
  function RegisterUserStep(s: StoreState, firstName: string, lastName: string, email: string,
                            password: string, id: UserId, info: InfoId, now: nat): AuthStep<Session>
  {
    if info in s.infos then AuthStep(Crash, s)
    else
      var infos := s.infos + {info};
      if firstName == "" || lastName == "" || email == "" || password == "" || id in s.users ||
         exists v | v in s.users :: s.users[v].email == email
      then AuthStep(Crash, s.(infos := infos))
      else
        var saved := Save(NewUser(firstName, lastName, email, password).(userInfo := Some(info)),
                          {FirstNamePath, LastNamePath, PasswordPath, OtherPath});
        var issued := SignToken(now, Claims(id, saved.role));
        AuthStep(Ok(Session(id, issued, Some(saved.password))),
                 StoreState(s.users[id := saved], infos, s.refreshers + multiset{issued.refresher}))
  }

  /** `registerUser` as it evidently means to reply: with the password
      removed from the document, as `logInUser` and `resetPassword` do. */
  function IntendedRegisterUserStep(s: StoreState, firstName: string, lastName: string, email: string,
                                    password: string, id: UserId, info: InfoId, now: nat): AuthStep<Session>
  {
    var step := RegisterUserStep(s, firstName, lastName, email, password, id, info, now);
    if step.outcome.Ok? then AuthStep(Ok(step.outcome.value.(shownPassword := None)), step.store)
    else step
  }

  /** `checkDeactivatedUser`: `updateOne` reactivates the first deactivated
      user with the email (it is not a find query, so it sees them), and the
      user is then looked up again through `findOne`. */
  function ReactivateByEmail(users: Users, email: string): (r: (Option<UserId>, Users))
    ensures r.0.Some? ==> r.0.value in r.1 && r.1[r.0.value].active && r.1[r.0.value].email == email
  {
    match FindDeactivatedByEmail(users, email)
    case None => (None, users)
    case Some(u) =>
      var users' := users[u := users[u].(active := true)];
      (FindActiveByEmail(users', email), users')
  }

  /** `findOne({ email })`, falling back to `checkDeactivatedUser`: the
      lookup both `logInUser` and `forgotPassword` start with. */
  function FindOrReactivate(users: Users, email: string): (r: (Option<UserId>, Users))
    ensures r.0.Some? ==> r.0.value in r.1 && r.1[r.0.value].active && r.1[r.0.value].email == email
  {
    match FindActiveByEmail(users, email)
    case Some(u) => (Some(u), users)
    case None => ReactivateByEmail(users, email)
  }

  function LogInStep(s: StoreState, email: Option<string>, password: Option<string>, now: nat): AuthStep<Session>
  {
    if !Present(email) || !Present(password) then AuthStep(Fail(400, MissingCredentials), s)
    else
      var (found, users) := FindOrReactivate(s.users, email.value);
      match found
      case None => AuthStep(Fail(401, BadCredentials), s.(users := users))
      case Some(u) =>
        if !CheckPassword(password.value, users[u].password) then
          AuthStep(Fail(401, BadCredentials), s.(users := users))
        else
          var issued := SignToken(now, Claims(u, users[u].role));
          AuthStep(Ok(Session(u, issued, None)),
                   StoreState(users, s.infos, s.refreshers + multiset{issued.refresher}))
  }

  /** `forgotPassword`. On success the value is the plaintext token the mail
      carried. `delivered` is whether the mail transport accepts a message
      with a recipient. The document `checkDeactivatedUser` reads back is
      projected without `email`, so for a reactivated account the message
      has no recipient and is refused whatever the transport. When the mail
      fails the handler clears the token and assigns `passwordResetExpired`,
      a path the schema does not have, so the expiry stays as it was. */
  function ForgotPasswordStep(s: StoreState, email: string, now: nat, random: string, delivered: bool): AuthStep<string>
  {
    var addressed := FindActiveByEmail(s.users, email).Some?;
    var (found, users) := FindOrReactivate(s.users, email);
    match found
    case None => AuthStep(Fail(401, UnknownEmail), s.(users := users))
    case Some(u) =>
      var (token, withToken) := CreatePasswordResetToken(users[u], random, now);
      var saved := Save(withToken, {OtherPath});
      if delivered && addressed then AuthStep(Ok(token), s.(users := users[u := saved]))
      else
        var cleared := Save(saved.(passwordResetToken := None), {OtherPath});
        AuthStep(Fail(500, MailFailed), s.(users := users[u := cleared]))
  }

  /** `resetPassword`. An empty new password fails the `required` validator
      when the document is saved. The reply carries the user with the
      password cleared and the new tokens. */
  function ResetPasswordStep(s: StoreState, token: string, newPassword: string, now: nat): AuthStep<Session>
  {
    match FindByResetToken(s.users, token, now)
    case None => AuthStep(Fail(400, BadResetToken), s)
    case Some(u) =>
      if newPassword == "" then AuthStep(Crash, s)
      else
        var updated := s.users[u].(password := Plain(newPassword),
                                   passwordResetExpires := None, passwordResetToken := None);
        var saved := Save(updated, {PasswordPath, OtherPath});
        var issued := SignToken(now, Claims(u, saved.role));
        AuthStep(Ok(Session(u, issued, None)),
                 StoreState(s.users[u := saved], s.infos, s.refreshers + multiset{issued.refresher}))
  }

  /** `deactivateUser` for the route id `id`, called with the verified
      claims `caller`. */
  function DeactivateUserStep(s: StoreState, caller: Claims, id: UserId): AuthStep<()>
  {
    if id != caller.id then AuthStep(Fail(403, NotAuthorizedOp), s)
    else
      match FindById(s.users, caller.id)
      case None => AuthStep(Fail(403, NoSuchAccount), s)
      case Some(u) => AuthStep(Ok(()), s.(users := s.users[caller.id := Save(u.(active := false), {OtherPath})]))
  }

  /** `deleteUserPermanently`. `findByIdAndDelete` is a find query, so a
      deactivated or missing user yields null, and reading its `userInfo`
      throws. */
  function DeleteUserPermanentlyStep(s: StoreState, caller: Claims, id: UserId): AuthStep<()>
  {
    if caller.id != id && caller.role != AdminRole then AuthStep(Fail(403, NotAuthorizedOp), s)
    else
      match FindById(s.users, id)
      case None => AuthStep(Crash, s)
      case Some(u) =>
        var infos := match u.userInfo
                     case None => s.infos
                     case Some(i) => s.infos - {i};
        AuthStep(Ok(()), s.(users := s.users - {id}, infos := infos))
  }

  /** `verify`: the claims of the access token in the `authorization`
      cookie; a token that does not verify makes the library throw. */
  function Verify(cookie: Option<Jwt>, now: nat): (r: Outcome<Claims>)
    ensures r.Ok? <==> cookie.Some? && VerifyToken(cookie.value, false, now).Some?
    ensures r.Ok? ==> r.value == cookie.value.claims
    ensures cookie.None? ==> r == Fail(401, NotAuthorized)
  {
    match cookie
    case None => Fail(401, NotAuthorized)
    case Some(t) =>
      match VerifyToken(t, false, now)
      case None => Crash
      case Some(c) => Ok(c)
  }

  /** `restriction(...roles)`: passes the request on, claims unchanged,
      exactly when it carries claims whose role is listed. */
  function Restriction(roles: seq<Role>, user: Option<Claims>): (r: Outcome<Claims>)
    ensures r.Ok? <==> user.Some? && user.value.role in roles
    ensures r.Ok? ==> r.value == user.value
    ensures !r.Ok? ==> r == Fail(403, NotAuthorizedOp)
  {
    if user.Some? && user.value.role in roles then Ok(user.value) else Fail(403, NotAuthorizedOp)
  }

  /** `refreshToken`, with the `Authorization` header. The presented
      token's Refresher record is deleted (if there is one) and a new pair is
      signed with the user's current role. */
  function RefreshTokenStep(s: StoreState, header: Option<Jwt>, now: nat): AuthStep<Jwt>
  {
    match header
    case None => AuthStep(Fail(401, NoRefreshToken), s)
    case Some(t) =>
      match VerifyToken(t, true, now)
      case None => AuthStep(Crash, s)
      case Some(claims) =>
        match FindById(s.users, claims.id)
        case None => AuthStep(Fail(403, NotAuthorized), s)
        case Some(u) =>
          var issued := SignToken(now, Claims(claims.id, u.role));
          AuthStep(Ok(issued.refresher),
                   s.(refreshers := s.refreshers - multiset{t} + multiset{issued.refresher}))
  }

  // ---------------------------------------------------------------------
  // The handlers, run on the store

  /** `signToken`: the Refresher record is created, the pair returned. */
  method IssueTokens(db: Database, now: nat, claims: Claims) returns (issued: Issued)
    modifies db`refreshers
    ensures issued == SignToken(now, claims)
    ensures db.refreshers == old(db.refreshers) + multiset{issued.refresher}
  {
    issued := SignToken(now, claims);
    db.refreshers := db.refreshers + multiset{issued.refresher};
  }

  method RegisterUser(db: Database, firstName: string, lastName: string, email: string,
                      password: string, id: UserId, info: InfoId, now: nat) returns (r: Outcome<Session>)
    modifies db
    ensures AuthStep(r, db.State()) == RegisterUserStep(old(db.State()), firstName, lastName, email, password, id, info, now)
  {
    if info in db.infos {
      return Crash;
    }
    db.infos := db.infos + {info};
    var user := NewUser(firstName, lastName, email, password);
    user := user.(userInfo := Some(info));
    if firstName == "" || lastName == "" || email == "" || password == "" || id in db.users ||
       exists v | v in db.users :: db.users[v].email == email {
      return Crash;
    }
    user := Save(user, {FirstNamePath, LastNamePath, PasswordPath, OtherPath});
    db.users := db.users[id := user];
    var issued := IssueTokens(db, now, Claims(id, user.role));
    r := Ok(Session(id, issued, Some(user.password)));
  }

  method CheckDeactivatedUser(db: Database, email: string) returns (found: Option<UserId>)
    modifies db`users
    ensures (found, db.users) == ReactivateByEmail(old(db.users), email)
  {
    var dormant := FindDeactivatedByEmail(db.users, email);
    if dormant.None? {
      return None;
    }
    var u := dormant.value;
    db.users := db.users[u := db.users[u].(active := true)];
    found := FindActiveByEmail(db.users, email);
  }

  method LogInUser(db: Database, email: Option<string>, password: Option<string>, now: nat) returns (r: Outcome<Session>)
    modifies db
    ensures AuthStep(r, db.State()) == LogInStep(old(db.State()), email, password, now)
  {
    if !Present(email) || !Present(password) {
      return Fail(400, MissingCredentials);
    }
    var user := FindActiveByEmail(db.users, email.value);
    if user.None? {
      user := CheckDeactivatedUser(db, email.value);
    }
    if user.None? {
      return Fail(401, BadCredentials);
    }
    var u := user.value;
    if !CheckPassword(password.value, db.users[u].password) {
      return Fail(401, BadCredentials);
    }
    var issued := IssueTokens(db, now, Claims(u, db.users[u].role));
    r := Ok(Session(u, issued, None));
  }

  method ForgotPassword(db: Database, email: string, now: nat, random: string, delivered: bool) returns (r: Outcome<string>)
    modifies db
    ensures AuthStep(r, db.State()) == ForgotPasswordStep(old(db.State()), email, now, random, delivered)
  {
    var user := FindActiveByEmail(db.users, email);
    var addressed := true;
    if user.None? {
      addressed := false;
      user := CheckDeactivatedUser(db, email);
    }
    if user.None? {
      return Fail(401, UnknownEmail);
    }
    var u := user.value;
    var (token, doc) := CreatePasswordResetToken(db.users[u], random, now);
    doc := Save(doc, {OtherPath});
    db.users := db.users[u := doc];
    if delivered && addressed {
      return Ok(token);
    }
    doc := doc.(passwordResetToken := None);
    doc := Save(doc, {OtherPath});
    db.users := db.users[u := doc];
    r := Fail(500, MailFailed);
  }

  method ResetPassword(db: Database, token: string, newPassword: string, now: nat) returns (r: Outcome<Session>)
    modifies db
    ensures AuthStep(r, db.State()) == ResetPasswordStep(old(db.State()), token, newPassword, now)
  {
    var user := FindByResetToken(db.users, token, now);
    if user.None? {
      return Fail(400, BadResetToken);
    }
    var u := user.value;
    if newPassword == "" {
      return Crash;
    }
    var doc := db.users[u];
    doc := doc.(password := Plain(newPassword));
    doc := doc.(passwordResetExpires := None);
    doc := doc.(passwordResetToken := None);
    doc := Save(doc, {PasswordPath, OtherPath});
    db.users := db.users[u := doc];
    var issued := IssueTokens(db, now, Claims(u, doc.role));
    r := Ok(Session(u, issued, None));
  }

  method DeactivateUser(db: Database, caller: Claims, id: UserId) returns (r: Outcome<()>)
    modifies db
    ensures AuthStep(r, db.State()) == DeactivateUserStep(old(db.State()), caller, id)
  {
    if id != caller.id {
      return Fail(403, NotAuthorizedOp);
    }
    var user := FindById(db.users, caller.id);
    if user.None? {
      return Fail(403, NoSuchAccount);
    }
    var doc := user.value.(active := false);
    db.users := db.users[caller.id := Save(doc, {OtherPath})];
    r := Ok(());
  }

  method DeleteUserPermanently(db: Database, caller: Claims, id: UserId) returns (r: Outcome<()>)
    modifies db
    ensures AuthStep(r, db.State()) == DeleteUserPermanentlyStep(old(db.State()), caller, id)
  {
    if caller.id != id && caller.role != AdminRole {
      return Fail(403, NotAuthorizedOp);
    }
    var deleted := FindById(db.users, id);
    if deleted.None? {
      return Crash;
    }
    db.users := db.users - {id};
    if deleted.value.userInfo.Some? {
      db.infos := db.infos - {deleted.value.userInfo.value};
    }
    r := Ok(());
  }

  method RefreshToken(db: Database, header: Option<Jwt>, now: nat) returns (r: Outcome<Jwt>)
    modifies db
    ensures AuthStep(r, db.State()) == RefreshTokenStep(old(db.State()), header, now)
  {
    if header.None? {
      return Fail(401, NoRefreshToken);
    }
    var claims := VerifyToken(header.value, true, now);
    if claims.None? {
      return Crash;
    }
    var user := FindById(db.users, claims.value.id);
    if user.None? {
      return Fail(403, NotAuthorized);
    }
    db.refreshers := db.refreshers - multiset{header.value};
    var issued := IssueTokens(db, now, Claims(claims.value.id, user.value.role));
    r := Ok(issued.refresher);
  }
}
