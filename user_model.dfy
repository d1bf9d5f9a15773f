/** The `User` record (models/userModel.js): its fields and defaults, the two
    `pre('save')` hooks, the `active` filter every `find*` query carries,
    `createPasswordResetToken`, and the invariant the friend handlers are meant
    to keep between the three id lists. */
module UserModel {
  import opened Outcomes
  import opened Tokens

  type InfoId = nat

  /** The `password` field. A handler assigns the plaintext; the save hook
      replaces a modified plaintext by its bcrypt hash. bcrypt is modelled
      symbolically: `BcryptOf(p)` is the hash of `p`. */
  datatype Password = Plain(text: string) | BcryptOf(text: string)

  /** A sha256 hex digest, modelled symbolically (and so without collisions). */
  datatype Digest = Sha256Of(preimage: string)

  datatype User = User(
    firstName: string,
    lastName: string,
    userName: Option<string>,
    email: string,
    password: Password,
    passwordResetToken: Option<Digest>,
    passwordResetExpires: Option<nat>,
    role: Role,
    active: bool,
    userInfo: Option<InfoId>,
    friends: seq<UserId>,
    pendingRequests: seq<UserId>,
    sentRequests: seq<UserId>)

  type Users = map<UserId, User>

  /** The paths a save can have modified; the hooks look at three of them. */
  datatype Path = FirstNamePath | LastNamePath | PasswordPath | OtherPath

  /** `new User({ email, firstName, lastName, password })`: the schema
      defaults fill in the rest (role `user`, `active`, three empty lists). */
  function NewUser(firstName: string, lastName: string, email: string, password: string): (u: User)
    ensures u.role == UserRole && u.active
    ensures u.friends == [] && u.pendingRequests == [] && u.sentRequests == []
    ensures u.password == Plain(password) && u.userName == None && u.userInfo == None
    ensures u.passwordResetToken == None && u.passwordResetExpires == None
    ensures u.firstName == firstName && u.lastName == lastName && u.email == email
  {
    User(firstName, lastName, None, email, Plain(password), None, None, UserRole, true, None, [], [], [])
  }

  /** First `pre('save')` hook: `userName` is rebuilt only when both names
      were modified by this save. */
  function SetUserName(u: User, modified: set<Path>): (v: User)
    ensures v.userName == if FirstNamePath in modified && LastNamePath in modified
                          then Some(u.firstName + " " + u.lastName) else u.userName
    ensures v.(userName := u.userName) == u
  {
    if FirstNamePath !in modified || LastNamePath !in modified then u
    else u.(userName := Some(u.firstName + " " + u.lastName))
  }

  /** Second `pre('save')` hook: a modified password is replaced by its hash
      (cost 12); an unmodified one is left as stored. */
  function HashPassword(u: User, modified: set<Path>): (v: User)
    ensures PasswordPath in modified ==> v.password == BcryptOf(u.password.text)
    ensures PasswordPath !in modified ==> v == u
    ensures v.(password := u.password) == u
  {
    if PasswordPath !in modified then u else u.(password := BcryptOf(u.password.text))
  }

  /** `doc.save()`: both hooks, in the order they are registered. */
  function Save(u: User, modified: set<Path>): (v: User)
    ensures v.userName == if FirstNamePath in modified && LastNamePath in modified
                          then Some(u.firstName + " " + u.lastName) else u.userName
    ensures v.password == if PasswordPath in modified then BcryptOf(u.password.text) else u.password
    ensures v.(userName := u.userName, password := u.password) == u
  {
    HashPassword(SetUserName(u, modified), modified)
  }

  /** A save that touches neither name nor the password stores the record as
      it is: the hooks only ever act on the paths they watch. */
  lemma SaveOnlyActsOnWatchedPaths(u: User, modified: set<Path>)
    requires modified !! {FirstNamePath, LastNamePath, PasswordPath}
    ensures Save(u, modified) == u
  {
  }

  /** `checkPassword` (`bcrypt.compare`): the candidate matches exactly when
      the stored value is its hash. */
  predicate CheckPassword(candidate: string, stored: Password)
  {
    stored == BcryptOf(candidate)
  }

  /** Saving a newly set password makes exactly that password check. */
  lemma SavedPasswordChecks(u: User, pw: string, modified: set<Path>, candidate: string)
    requires PasswordPath in modified
    ensures CheckPassword(candidate, Save(u.(password := Plain(pw)), modified).password)
            <==> candidate == pw
  {
  }

  /** Ten minutes, in milliseconds. */
  const ResetWindow: nat := 10 * 60 * 1000

  /** `createPasswordResetToken` with the fresh random hex string `random`
      and the clock `now` (ms): the record keeps only the digest and the
      expiry; the plaintext is returned to the caller. */
  function CreatePasswordResetToken(u: User, random: string, now: nat): (r: (string, User))
    ensures r.1.passwordResetToken == Some(Sha256Of(r.0))
    ensures r.1.passwordResetExpires == Some(now + 600000)
    ensures r.1.(passwordResetToken := u.passwordResetToken, passwordResetExpires := u.passwordResetExpires) == u
  {
    (random, u.(passwordResetToken := Some(Sha256Of(random)), passwordResetExpires := Some(now + ResetWindow)))
  }

  /** The filter `resetPassword` queries with: the stored digest is that of
      the presented token and the expiry is not before `now`. */
  predicate ResetTokenValid(u: User, token: string, now: nat)
  {
    u.passwordResetToken == Some(Sha256Of(token)) &&
    u.passwordResetExpires.Some? && u.passwordResetExpires.value >= now
  }

  /** A token just created is accepted up to and including ten minutes later,
      never after, and no other token is accepted in its place. */
  lemma ResetTokenAcceptedForTenMinutes(u: User, random: string, now: nat, token: string, t: nat)
    ensures var (plain, v) := CreatePasswordResetToken(u, random, now);
            ResetTokenValid(v, token, t) <==> token == plain && t <= now + ResetWindow
  {
  }

  // ---------------------------------------------------------------------
  // Queries. Every find* query carries `{ active: { $ne: false } }`.
  // "First match" is the least id: ObjectIds grow with insertion order.

  /** `User.findById(id)`: nothing for a missing or deactivated user. */
  function FindById(users: Users, id: UserId): (r: Option<User>)
    ensures r.Some? <==> id in users && users[id].active
    ensures r.Some? ==> r.value == users[id]
  {
    if id in users && users[id].active then Some(users[id]) else None
  }

  /** The least element of a non-empty set of ids. */
  function Least(s: set<UserId>): (m: UserId)
    requires s != {}
    ensures m in s && forall y :: y in s ==> m <= y
  {
    LeastExists(s);
    var m :| m in s && forall y | y in s :: m <= y; m
  }

  lemma {:induction false} LeastExists(s: set<UserId>)
    requires s != {}
    ensures exists m :: m in s && forall y :: y in s ==> m <= y
  {
    var x :| x in s;
    var below := set y | y in s && y < x;
    if below == {} {
      forall y | y in s ensures x <= y {
        assert y < x ==> y in below;
      }
    } else {
      assert below < s by { assert x in s && x !in below; }
      LeastExists(below);
      var m :| m in below && forall z :: z in below ==> m <= z;
      forall z | z in s ensures m <= z {
        if z < x { assert z in below; }
      }
      assert m in s;
    }
  }

  /** The first id satisfying the filter among `ids`, if any. */
  function FirstOf(ids: set<UserId>): (r: Option<UserId>)
    ensures r.Some? <==> ids != {}
    ensures r.Some? ==> r.value in ids && forall y :: y in ids ==> r.value <= y
  {
    if ids == {} then None else Some(Least(ids))
  }

  /** `User.findOne({ email })`: the first active user with that email. */
  function FindActiveByEmail(users: Users, email: string): (r: Option<UserId>)
    ensures r.Some? ==> r.value in users && users[r.value].active && users[r.value].email == email
    ensures r.None? <==> forall u :: u in users && users[u].email == email ==> !users[u].active
  {
    var ids := set u | u in users && users[u].active && users[u].email == email;
    assert forall u :: u in users && users[u].active && users[u].email == email ==> u in ids;
    FirstOf(ids)
  }

  /** The document `updateOne({ email, active: false }, ...)` matches: not a
      find query, so deactivated users are visible to it. */
  function FindDeactivatedByEmail(users: Users, email: string): (r: Option<UserId>)
    ensures r.Some? ==> r.value in users && !users[r.value].active && users[r.value].email == email
    ensures r.None? <==> forall u :: u in users && users[u].email == email ==> users[u].active
  {
    var ids := set u | u in users && !users[u].active && users[u].email == email;
    assert forall u :: u in users && !users[u].active && users[u].email == email ==> u in ids;
    FirstOf(ids)
  }

  /** `User.findOne({ passwordResetToken, passwordResetExpires: { $gte: now } })`. */
  function FindByResetToken(users: Users, token: string, now: nat): (r: Option<UserId>)
    ensures r.Some? ==> r.value in users && users[r.value].active && ResetTokenValid(users[r.value], token, now)
    ensures r.None? <==> forall u :: u in users && ResetTokenValid(users[u], token, now) ==> !users[u].active
  {
    var ids := set u | u in users && users[u].active && ResetTokenValid(users[u], token, now);
    assert forall u :: u in users && users[u].active && ResetTokenValid(users[u], token, now) ==> u in ids;
    FirstOf(ids)
  }

  // ---------------------------------------------------------------------
  // The relationship invariant of the three id lists.

  /** A sent request is mirrored by a pending one: `b` is in `a`'s
      `sentRequests` exactly when `a` is in `b`'s `pendingRequests`. */
  ghost predicate RequestsMirrored(users: Users)
  {
    forall a, b :: a in users && b in users ==>
      (b in users[a].sentRequests <==> a in users[b].pendingRequests)
  }

  /** Friendship is symmetric. */
  ghost predicate FriendsSymmetric(users: Users)
  {
    forall a, b :: a in users && b in users ==>
      (b in users[a].friends <==> a in users[b].friends)
  }

  /** Nobody lists themself. */
  ghost predicate NoSelfEntries(users: Users)
  {
    forall a :: a in users ==>
      a !in users[a].friends && a !in users[a].pendingRequests && a !in users[a].sentRequests
  }

  /** The invariant the relationship handlers are meant to keep. Pairs are
      taken among stored users only: a permanently deleted user leaves its id
      behind in other users' lists. */
  ghost predicate GraphConsistent(users: Users)
  {
    RequestsMirrored(users) && FriendsSymmetric(users) && NoSelfEntries(users)
  }

  /** Two stores that agree on every user's three lists agree on the
      invariant: fields outside the lists never affect it. */
  predicate SameLists(users: Users, users': Users)
  {
    users.Keys == users'.Keys &&
    forall u :: u in users ==>
      users'[u].friends == users[u].friends &&
      users'[u].pendingRequests == users[u].pendingRequests &&
      users'[u].sentRequests == users[u].sentRequests
  }

  lemma ListsDecideConsistency(users: Users, users': Users)
    requires SameLists(users, users')
    ensures GraphConsistent(users) <==> GraphConsistent(users')
  {
  }

  /** Removing a user keeps the invariant among those that remain. */
  lemma RemovalKeepsConsistency(users: Users, id: UserId)
    requires GraphConsistent(users)
    ensures GraphConsistent(users - {id})
  {
  }
}
