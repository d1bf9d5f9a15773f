/** What the account handlers of controllers/authenticationController.js
    promise: who is let in, which records each accepted or refused call
    changes, the ten-minute reset window, and that none of them disturbs the
    relationship invariant. */
module AccountLifecycle {
  import opened Outcomes
  import opened Tokens
  import opened UserModel
  import opened Store
  import opened AuthController

  /** The account a login or a reset request for `email` acts on: the first
      active user with it, else the first deactivated one. */
  function AccountFor(users: Users, email: string): (r: Option<UserId>)
    ensures r.Some? ==> r.value in users && users[r.value].email == email
    ensures r.None? <==> forall u :: u in users ==> users[u].email != email
  {
    match FindActiveByEmail(users, email)
    case Some(u) => Some(u)
    case None => FindDeactivatedByEmail(users, email)
  }

  /** The lookup both handlers start with finds that account and
      reactivates it if it was deactivated, touching no other record. */
  lemma {:induction false} FindOrReactivateFindsAccount(users: Users, email: string)
    ensures var (found, users') := FindOrReactivate(users, email);
            found == AccountFor(users, email) &&
            (found.None? ==> users' == users) &&
            (found.Some? ==> users' == users[found.value := users[found.value].(active := true)])
  {
    if FindActiveByEmail(users, email).None? {
      match FindDeactivatedByEmail(users, email)
      case None =>
      case Some(u) =>
        var users' := users[u := users[u].(active := true)];
        assert u in users' && users'[u].active && users'[u].email == email;
        var again := FindActiveByEmail(users', email);
        assert again.Some?;
        assert again.value == u;
    }
  }

  // ---------------------------------------------------------------------
  // logInUser

  lemma LogInNeedsBothFields(s: StoreState, email: Option<string>, password: Option<string>, now: nat)
    requires !Present(email) || !Present(password)
    ensures LogInStep(s, email, password, now) == AuthStep(Fail(400, MissingCredentials), s)
  {
  }

  /** A login succeeds exactly when the account for the email exists and the
      password checks against it; every other login gets the same 401, so an
      unknown email and a wrong password cannot be told apart. */
  lemma LogInOutcome(s: StoreState, email: string, password: string, now: nat)
    requires email != "" && password != ""
    ensures var r := LogInStep(s, Some(email), Some(password), now).outcome;
            var account := AccountFor(s.users, email);
            (r.Ok? <==> account.Some? && CheckPassword(password, s.users[account.value].password)) &&
            (r.Ok? ==> r.value.user == account.value && r.value.shownPassword.None?) &&
            (!r.Ok? ==> r == Fail(401, BadCredentials))
  {
    FindOrReactivateFindsAccount(s.users, email);
  }

  /** When only a deactivated account has the email, a login reactivates it
      before the password is checked: a login with a wrong password
      reactivates it too. Nothing else in the User collection changes. */
  lemma LogInReactivates(s: StoreState, email: string, password: string, now: nat)
    requires email != "" && password != ""
    requires FindActiveByEmail(s.users, email).None?
    requires FindDeactivatedByEmail(s.users, email).Some?
    ensures var u := FindDeactivatedByEmail(s.users, email).value;
            LogInStep(s, Some(email), Some(password), now).store.users == s.users[u := s.users[u].(active := true)]
  {
    FindOrReactivateFindsAccount(s.users, email);
  }

  /** A successful login adds one Refresher record, signed for the account
      with its role, and keeps every earlier one: refresh tokens accumulate. */
  lemma LogInAddsRefresher(s: StoreState, email: Option<string>, password: Option<string>, now: nat)
    requires LogInStep(s, email, password, now).outcome.Ok?
    ensures var step := LogInStep(s, email, password, now);
            var session := step.outcome.value;
            session.user in step.store.users &&
            session.issued == SignToken(now, Claims(session.user, step.store.users[session.user].role)) &&
            step.store.refreshers == s.refreshers + multiset{session.issued.refresher} &&
            step.store.infos == s.infos
  {
  }

  // ---------------------------------------------------------------------
  // forgotPassword and resetPassword

  /** A reset succeeds exactly when an active user holds the digest of the
      token with an expiry not before `now` and the new password is not
      empty, and it changes the store exactly then. The first such user gets
      the new password, hashed, and both reset fields cleared; no other
      record changes, the Refresher record of the reply's refresh token is
      added, the token no longer works, and the reply carries no password.
      With no active holder of a valid token the reply is the 400; a refused
      reset changes nothing. */
  lemma ResetPasswordOutcome(s: StoreState, token: string, newPassword: string, now: nat)
    ensures var step := ResetPasswordStep(s, token, newPassword, now);
            (step.outcome.Ok? <==>
               newPassword != "" && exists u :: u in s.users && s.users[u].active && ResetTokenValid(s.users[u], token, now)) &&
            (step.outcome.Ok? <==> step.store != s) &&
            (step.outcome.Ok? ==>
               var u := step.outcome.value.user;
               u in s.users && s.users[u].active && ResetTokenValid(s.users[u], token, now) &&
               step.store.users == s.users[u := s.users[u].(password := BcryptOf(newPassword),
                                                           passwordResetToken := None,
                                                           passwordResetExpires := None)] &&
               step.store.infos == s.infos &&
               step.outcome.value.issued == SignToken(now, Claims(u, s.users[u].role)) &&
               step.store.refreshers == s.refreshers + multiset{step.outcome.value.issued.refresher} &&
               CheckPassword(newPassword, step.store.users[u].password) &&
               !ResetTokenValid(step.store.users[u], token, now) &&
               step.outcome.value.shownPassword.None?) &&
            ((forall u :: u in s.users && ResetTokenValid(s.users[u], token, now) ==> !s.users[u].active) ==>
               step.outcome == Fail(400, BadResetToken)) &&
            (!step.outcome.Ok? ==> step.outcome == Fail(400, BadResetToken) || step.outcome == Crash)
  {
  }

  /** The whole exchange: with a fresh random token that reached the user's
      mailbox, a reset at time `t` succeeds exactly when `t` is at most ten
      minutes after the request, and it is that account whose password
      changes. */
  lemma ForgotThenReset(s: StoreState, email: string, now: nat, random: string, newPassword: string, t: nat)
    requires newPassword != ""
    requires forall v :: v in s.users ==> s.users[v].passwordResetToken != Some(Sha256Of(random))
    requires ForgotPasswordStep(s, email, now, random, true).outcome.Ok?
    ensures var forgot := ForgotPasswordStep(s, email, now, random, true);
            var reset := ResetPasswordStep(forgot.store, forgot.outcome.value, newPassword, t);
            forgot.outcome.value == random &&
            (reset.outcome.Ok? <==> t <= now + ResetWindow) &&
            (reset.outcome.Ok? ==> Some(reset.outcome.value.user) == AccountFor(s.users, email))
  {
    FindOrReactivateFindsAccount(s.users, email);
    var forgot := ForgotPasswordStep(s, email, now, random, true);
    var u := AccountFor(s.users, email).value;
    var users1 := forgot.store.users;
    assert users1[u].active && ResetTokenValid(users1[u], random, t) <==> t <= now + ResetWindow;
    forall v | v in users1 && v != u
      ensures !ResetTokenValid(users1[v], random, t)
    {
      assert users1[v] == s.users[v];
    }
    if t <= now + ResetWindow {
      assert FindByResetToken(users1, random, t) == Some(u);
    } else {
      assert FindByResetToken(users1, random, t).None?;
    }
  }

  /** `forgotPassword` for an unknown email changes nothing; for a known one
      it reactivates the account, as a login does. */
  lemma ForgotPasswordFindsAccount(s: StoreState, email: string, now: nat, random: string, delivered: bool)
    ensures var step := ForgotPasswordStep(s, email, now, random, delivered);
            var account := AccountFor(s.users, email);
            (account.None? ==> step == AuthStep(Fail(401, UnknownEmail), s)) &&
            (account.Some? ==> account.value in step.store.users && step.store.users[account.value].active) &&
            step.store.infos == s.infos && step.store.refreshers == s.refreshers
  {
    FindOrReactivateFindsAccount(s.users, email);
  }

  /** When the mail cannot be sent the stored token is cleared and the
      request fails with 500, but the expiry survives: the handler clears a
      misspelt field instead. No token can be redeemed afterwards. */
  lemma ForgotPasswordMailFailure(s: StoreState, email: string, now: nat, random: string)
    requires AccountFor(s.users, email).Some?
    ensures var step := ForgotPasswordStep(s, email, now, random, false);
            var u := AccountFor(s.users, email).value;
            step.outcome == Fail(500, MailFailed) &&
            step.store.users[u].passwordResetToken == None &&
            step.store.users[u].passwordResetExpires == Some(now + ResetWindow) &&
            forall token, t :: !ResetTokenValid(step.store.users[u], token, t)
  {
    FindOrReactivateFindsAccount(s.users, email);
  }

  /** An account that only `checkDeactivatedUser` finds is reactivated, but
      the document it reads back has no `email`: the reset mail has no
      recipient, so the request fails as if the mail could not be sent,
      whatever the transport would have done. */
  lemma ForgotPasswordOnDeactivatedAccountFails(s: StoreState, email: string, now: nat, random: string, delivered: bool)
    requires FindActiveByEmail(s.users, email).None?
    requires FindDeactivatedByEmail(s.users, email).Some?
    ensures var step := ForgotPasswordStep(s, email, now, random, delivered);
            var u := FindDeactivatedByEmail(s.users, email).value;
            step == ForgotPasswordStep(s, email, now, random, false) &&
            step.outcome == Fail(500, MailFailed) &&
            step.store.users[u].active && step.store.users[u].passwordResetToken == None
  {
    FindOrReactivateFindsAccount(s.users, email);
  }

  // ---------------------------------------------------------------------
  // deactivateUser and deleteUserPermanently

  /** Deactivation is allowed only on one's own id, and of an active user; it
      sets `active` to false and changes nothing else, after which `findById`
      no longer sees the user. */
  lemma DeactivateUserOutcome(s: StoreState, caller: Claims, id: UserId)
    ensures var step := DeactivateUserStep(s, caller, id);
            (step.outcome.Ok? <==> id == caller.id && FindById(s.users, id).Some?) &&
            (id != caller.id ==> step.outcome == Fail(403, NotAuthorizedOp)) &&
            (!step.outcome.Ok? ==> step.store == s) &&
            (step.outcome.Ok? ==>
               step.store == s.(users := s.users[id := s.users[id].(active := false)]) &&
               FindById(step.store.users, id).None?)
  {
  }

  /** Permanent deletion is refused exactly when the caller is neither the
      target nor an admin. An allowed call on an active user removes that
      user and its UserInfo record and nothing else; on any other it throws
      without deleting anything. */
  lemma DeleteUserPermanentlyOutcome(s: StoreState, caller: Claims, id: UserId)
    ensures var step := DeleteUserPermanentlyStep(s, caller, id);
            (step.outcome == Fail(403, NotAuthorizedOp) <==> caller.id != id && caller.role != AdminRole) &&
            (step.outcome.Ok? <==> (caller.id == id || caller.role == AdminRole) && FindById(s.users, id).Some?) &&
            (!step.outcome.Ok? ==> step.store == s) &&
            (step.outcome.Ok? ==>
               step.store.users == s.users - {id} &&
               step.store.refreshers == s.refreshers &&
               (s.users[id].userInfo.Some? ==> step.store.infos == s.infos - {s.users[id].userInfo.value}) &&
               (s.users[id].userInfo.None? ==> step.store.infos == s.infos))
  {
  }

  // ---------------------------------------------------------------------
  // restriction and refreshToken

  /** Listing more roles never turns a request away that fewer roles let
      through. */
  lemma RestrictionMonotone(roles: seq<Role>, more: seq<Role>, user: Option<Claims>)
    requires forall r :: r in roles ==> r in more
    requires Restriction(roles, user).Ok?
    ensures Restriction(more, user).Ok?
  {
  }

  /** A refresh succeeds exactly when a refresh token is presented and its
      user is still active. No token is a 401, a token the library rejects
      throws, and a token whose user `findById` no longer sees is a 403. A
      refresh consumes one Refresher record for the token, if there is one,
      and adds one for the new token. */
  lemma RefreshTokenOutcome(s: StoreState, header: Option<Jwt>, now: nat)
    ensures var step := RefreshTokenStep(s, header, now);
            (header.None? ==> step.outcome == Fail(401, NoRefreshToken)) &&
            (header.Some? && header.value.secret != RefreshSecret ==> step.outcome == Crash) &&
            (header.Some? && header.value.secret == RefreshSecret && FindById(s.users, header.value.claims.id).None? ==>
               step.outcome == Fail(403, NotAuthorized)) &&
            (step.outcome.Ok? <==> header.Some? && header.value.secret == RefreshSecret &&
                                   FindById(s.users, header.value.claims.id).Some?) &&
            (!step.outcome.Ok? ==> step.store == s) &&
            (step.outcome.Ok? ==>
               var id := header.value.claims.id;
               step.outcome.value == SignToken(now, Claims(id, s.users[id].role)).refresher &&
               step.store == s.(refreshers := s.refreshers - multiset{header.value} + multiset{step.outcome.value}))
  {
  }

  /** The Refresher records are never consulted: whether the presented
      token has a record, or had one that an earlier refresh deleted, the
      outcome is the same. A refresh token can be replayed as long as its
      user is active. */
  lemma RefreshIgnoresStoredRecords(s: StoreState, records: multiset<Jwt>, header: Option<Jwt>, now: nat, later: nat)
    ensures RefreshTokenStep(s.(refreshers := records), header, now).outcome.Ok?
            == RefreshTokenStep(s, header, now).outcome.Ok?
    ensures var first := RefreshTokenStep(s, header, now);
            first.outcome.Ok? ==> RefreshTokenStep(first.store, header, later).outcome.Ok?
  {
  }

  // ---------------------------------------------------------------------
  // registerUser

  /** A registered user gets the schema defaults, a `userName` built from
      both names and the hash of the password; it is reached through its
      email by a login with that password. */
  lemma RegisterUserDefaults(s: StoreState, firstName: string, lastName: string, email: string,
                             password: string, id: UserId, info: InfoId, now: nat)
    requires RegisterUserStep(s, firstName, lastName, email, password, id, info, now).outcome.Ok?
    ensures var step := RegisterUserStep(s, firstName, lastName, email, password, id, info, now);
            var u := step.store.users[id];
            id in step.store.users && u.role == UserRole && u.active &&
            u.friends == [] && u.pendingRequests == [] && u.sentRequests == [] &&
            u.userName == Some(firstName + " " + lastName) &&
            u.password == BcryptOf(password) && u.userInfo == Some(info) &&
            info in step.store.infos &&
            AccountFor(step.store.users, email) == Some(id) &&
            LogInStep(step.store, Some(email), Some(password), now).outcome.Ok?
  {
    var step := RegisterUserStep(s, firstName, lastName, email, password, id, info, now);
    var users' := step.store.users;
    assert users'[id].active && users'[id].email == email;
    assert FindActiveByEmail(users', email) == Some(id);
    LogInOutcome(step.store, email, password, now);
  }

  /** A registration that fails after the UserInfo document was created (an
      empty required field, a taken email, a taken id) leaves that document
      behind and changes nothing else. */
  lemma RegisterUserFailureLeavesInfo(s: StoreState, firstName: string, lastName: string, email: string,
                                      password: string, id: UserId, info: InfoId, now: nat)
    requires info !in s.infos
    requires !RegisterUserStep(s, firstName, lastName, email, password, id, info, now).outcome.Ok?
    ensures RegisterUserStep(s, firstName, lastName, email, password, id, info, now)
            == AuthStep(Crash, s.(infos := s.infos + {info}))
  {
  }

  /** `registerUser` replies with the new document as saved, which still
      holds the password's hash. */
  lemma RegistrationReplyCarriesHash(s: StoreState, firstName: string, lastName: string, email: string,
                                     password: string, id: UserId, info: InfoId, now: nat)
    requires RegisterUserStep(s, firstName, lastName, email, password, id, info, now).outcome.Ok?
    ensures RegisterUserStep(s, firstName, lastName, email, password, id, info, now).outcome.value.shownPassword
            == Some(BcryptOf(password))
  {
  }

  /** With registration corrected, no reply that carries a user document
      carries its password; the correction changes the reply only. */
  lemma RepliesHidePassword(s: StoreState, firstName: string, lastName: string, email: string,
                            password: string, id: UserId, info: InfoId, now: nat,
                            token: string, newPassword: string)
    ensures var r := IntendedRegisterUserStep(s, firstName, lastName, email, password, id, info, now);
            (r.outcome.Ok? ==> r.outcome.value.shownPassword.None?) &&
            r.store == RegisterUserStep(s, firstName, lastName, email, password, id, info, now).store &&
            (r.outcome.Ok? <==> RegisterUserStep(s, firstName, lastName, email, password, id, info, now).outcome.Ok?)
    ensures var r := LogInStep(s, Some(email), Some(password), now).outcome;
            r.Ok? ==> r.value.shownPassword.None?
    ensures var r := ResetPasswordStep(s, token, newPassword, now).outcome;
            r.Ok? ==> r.value.shownPassword.None?
  {
  }

  // ---------------------------------------------------------------------
  // The relationship invariant

  /** No account handler disturbs the relationship invariant: they change
      fields outside the three lists, add a user with empty lists, or remove
      a user. */
  lemma LogInKeepsGraphConsistent(s: StoreState, email: string, password: string, now: nat)
    requires GraphConsistent(s.users)
    ensures GraphConsistent(LogInStep(s, Some(email), Some(password), now).store.users)
  {
    var users' := LogInStep(s, Some(email), Some(password), now).store.users;
    if email != "" && password != "" {
      assert users' == FindOrReactivate(s.users, email).1;
      ReactivationKeepsLists(s.users, email);
    }
    ListsDecideConsistency(s.users, users');
  }

  lemma ReactivationKeepsLists(users: Users, email: string)
    ensures SameLists(users, FindOrReactivate(users, email).1)
  {
    FindOrReactivateFindsAccount(users, email);
  }

  lemma ForgotPasswordKeepsGraphConsistent(s: StoreState, email: string, now: nat, random: string, delivered: bool)
    requires GraphConsistent(s.users)
    ensures GraphConsistent(ForgotPasswordStep(s, email, now, random, delivered).store.users)
  {
    var (found, users) := FindOrReactivate(s.users, email);
    var users' := ForgotPasswordStep(s, email, now, random, delivered).store.users;
    ReactivationKeepsLists(s.users, email);
    ListsDecideConsistency(s.users, users);
    if found.Some? {
      var u := found.value;
      assert users' == users[u := users'[u]];
      StoringSameListsKeepsLists(users, u, users'[u]);
    } else {
      assert users' == users;
    }
    ListsDecideConsistency(users, users');
  }

  /** Storing a record with the same three lists as the stored one changes
      no user's lists. */
  lemma StoringSameListsKeepsLists(users: Users, u: UserId, v: User)
    requires u in users
    requires v.friends == users[u].friends && v.pendingRequests == users[u].pendingRequests &&
             v.sentRequests == users[u].sentRequests
    ensures SameLists(users, users[u := v])
  {
  }

  lemma ResetPasswordKeepsGraphConsistent(s: StoreState, token: string, password: string, now: nat)
    requires GraphConsistent(s.users)
    ensures GraphConsistent(ResetPasswordStep(s, token, password, now).store.users)
  {
    ListsDecideConsistency(s.users, ResetPasswordStep(s, token, password, now).store.users);
  }

  lemma DeactivateUserKeepsGraphConsistent(s: StoreState, caller: Claims, id: UserId)
    requires GraphConsistent(s.users)
    ensures GraphConsistent(DeactivateUserStep(s, caller, id).store.users)
  {
    ListsDecideConsistency(s.users, DeactivateUserStep(s, caller, id).store.users);
  }

  lemma DeleteUserPermanentlyKeepsGraphConsistent(s: StoreState, caller: Claims, id: UserId)
    requires GraphConsistent(s.users)
    ensures GraphConsistent(DeleteUserPermanentlyStep(s, caller, id).store.users)
  {
    RemovalKeepsConsistency(s.users, id);
  }

  /** A new user starts with empty lists; so long as no stored list names
      its id already, the invariant survives registration. */
  lemma RegisterUserKeepsGraphConsistent(s: StoreState, firstName: string, lastName: string, email: string,
                                         password: string, id: UserId, info: InfoId, now: nat)
    requires GraphConsistent(s.users)
    requires forall v :: v in s.users ==>
               id !in s.users[v].friends && id !in s.users[v].pendingRequests && id !in s.users[v].sentRequests
    ensures GraphConsistent(RegisterUserStep(s, firstName, lastName, email, password, id, info, now).store.users)
  {
    var reg := RegisterUserStep(s, firstName, lastName, email, password, id, info, now);
    if reg.outcome.Ok? {
      var users' := reg.store.users;
      assert users'[id].friends == [] && users'[id].pendingRequests == [] && users'[id].sentRequests == [];
      forall a, b | a in users' && b in users'
        ensures (b in users'[a].sentRequests <==> a in users'[b].pendingRequests) &&
                (b in users'[a].friends <==> a in users'[b].friends)
      {
        if a != id && b != id {
          assert users'[a] == s.users[a] && users'[b] == s.users[b];
        }
      }
    }
  }
}
