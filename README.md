# Social-App-Back: friend relationships and account lifecycle, in Dafny

This project models the core of the back end of a small social network. The
back end is an Express application over MongoDB, accessed through Mongoose.
The model covers three parts:

- **The relationship handlers** of `controllers/userController.js`: sending a
  friend request (`addFriend`), confirming it (`confirmFriend`), withdrawing it
  (`cancelRequest`), declining it (`deleteRequest`) and unfriending
  (`deleteFriend`). Also the mutual-friends filter (`getMuntualFriends`) and
  the guard `restrictedUpdate` that `updateMe` runs on a request body.
- **The account handlers** of `controllers/authenticationController.js`:
  registration, login with its reactivation of deactivated accounts
  (`checkDeactivatedUser`), the password-reset pair `forgotPassword` /
  `resetPassword`, deactivation, permanent deletion, the `verify` and
  `restriction` middlewares, and refresh-token rotation.
- **The User record** of `models/userModel.js`: its defaults, its two
  `pre('save')` hooks, the `active` filter that every `find*` query carries,
  `checkPassword` and `createPasswordResetToken`. The token helpers of
  `utils/jwt.js` are modelled as far as the handlers need them.

Modules:

| file | module | contents |
|---|---|---|
| `outcomes.dfy` | `Outcomes` | `Option`, and `Outcome` = `Ok` / `Fail(status, message)` / `Crash` |
| `tokens.dfy` | `Tokens` | user ids, roles, symbolic JWTs, `SignToken`, `VerifyToken` |
| `user_model.dfy` | `UserModel` | the `User` record, the save hooks, the queries, the relationship invariant |
| `store.dfy` | `Store` | the three collections (User, UserInfo, Refresher) as a `Database` class |
| `user_controller.dfy` | `UserController` | relationship handlers, mutual friends, `restrictedUpdate` |
| `friend_graph.dfy` | `FriendGraph` | what the relationship handlers promise |
| `auth_controller.dfy` | `AuthController` | the account handlers and middlewares |
| `account_lifecycle.dfy` | `AccountLifecycle` | what the account handlers promise |

How a handler is modelled:

- Each HTTP handler is one atomic step.
- Its specification is a pure function from the old collections to an
  `Outcome` and the new collections (`AddFriendStep`, `LogInStep`, …).
- The method that runs it on a `Database` changes the fields of the database
  and is proved to produce exactly what that function says.
- The properties are lemmas about the specification functions.

The outcome kinds:

- `Fail(status, message)` is an `AppError` that reaches the error handler.
- `Crash` is an exception nobody catches: a `TypeError` on a null document, a
  failed JWT verification, a failed validator. The error handler answers such
  an exception with 500.
- `next(400, message)`, as `addFriend` and `confirmFriend` call it, passes a
  bare number. The error handler finds no status code on it, so that reply is
  a 500 with no message (`UserController.BareStatus`).

Modelling choices:

- **First match.** "The first match" of `findOne` is the least matching id,
  because ObjectIds grow with insertion order.
- **Route ids.** The id in the route is a string. `RouteId(target, canonical)`
  stands for it: `target` is the user it names once cast to an ObjectId, and
  `canonical` says whether it is the lowercase hex spelling that
  `req.user.id` and `toString()` produce. String comparisons with the
  caller's id (`Spells`) and `.some(... === id)` over a list (`ListsRoute`)
  succeed only for the canonical spelling. `findById` casts the string and
  sees `target`. The handlers then drop entries with
  `.filter((x) => x.toString() !== id)`, also a string comparison, but they
  reach it only after `ListsRoute` has required the canonical spelling, so
  removing `target` (`RemoveAll`) is what the filter does.
- **Saves.** A save writes only the paths it modified. A `$push` needs no
  version check, but replacing a whole array does: the save then matches on
  the version the document was loaded with and increments it. When a handler
  loads the same user twice and saves both copies, the first save lands and
  the second throws a VersionError (`Crash`).
- **Active filter.** The `find*` queries see only active users (`FindById`,
  `FindActiveByEmail`, `FindByResetToken`). `updateOne` is not a find query,
  so it also sees deactivated ones (`FindDeactivatedByEmail`).
- **Hashing.** Bcrypt and SHA-256 are symbolic and collision-free:
  `BcryptOf(text)` and `Sha256Of(preimage)`.
- **JWTs.** A JWT records its secret, its claims and its issue time in
  seconds. An access token expires one hour after issue; a refresh token
  never expires.
- **Clock, randomness, mail.** The clock (`now`, in milliseconds), the random
  reset token (`random`) and the outcome of sending the mail (`delivered`)
  are parameters.

The relationship invariant (`UserModel.GraphConsistent`) has three parts:

- A sent request is mirrored by a pending one.
- Friendship is symmetric.
- Nobody lists themself.

It is stated over pairs of stored users, because permanent deletion leaves
the deleted id behind in other users' lists.

## Model

| member | source | states |
|---|---|---|
| `Tokens.SignToken` | utils/jwt.js:5-22 | both tokens carry the given claims; the access token is signed with the access secret and the refresh token with the refresh secret; the issue time is the current second |
| `Tokens.VerifyToken` | utils/jwt.js:24-33 | verification yields the token's claims exactly when the secret matches and, for an access token, the hour since issue has not passed |
| `Tokens.AccessTokenWindow` | utils/jwt.js:9 | a freshly signed access token verifies for one hour after issue and no longer |
| `Tokens.RefreshTokenNeverExpires` | utils/jwt.js:10 | a refresh token verifies at any later time, and only under the refresh secret; an access token never verifies as a refresh token |
| `UserModel.NewUser` | models/userModel.js:51-95 | a new user has role `user`, is active, has three empty lists, no reset token, and the password as given |
| `UserModel.SetUserName` | models/userModel.js:100-104 | `userName` becomes "first last" exactly when both names were modified; nothing else changes |
| `UserModel.HashPassword` | models/userModel.js:112-118 | a modified password is replaced by its hash; an unmodified record is left as it is |
| `UserModel.Save` | models/userModel.js:100-118 | a save rebuilds `userName` exactly when both names were modified, stores the hash of a modified password, and changes no other field |
| `UserModel.SaveOnlyActsOnWatchedPaths` | models/userModel.js:100-118 | a save that modifies neither name nor the password stores the record unchanged |
| `UserModel.SavedPasswordChecks` | models/userModel.js:112-132 | after a new password is set and saved, `checkPassword` accepts exactly that password |
| `UserModel.CheckPassword` | models/userModel.js:130-132 | a candidate matches exactly the password whose hash is stored (its property is `UserModel.SavedPasswordChecks`) |
| `UserModel.CreatePasswordResetToken` | models/userModel.js:134-141 | the record stores the digest of the returned token and an expiry ten minutes on; no other field changes |
| `UserModel.ResetTokenValid` | controllers/authenticationController.js:106-111 | the reset filter: the stored digest is that of the token and the expiry is not before now (its property is `UserModel.ResetTokenAcceptedForTenMinutes`) |
| `UserModel.ResetTokenAcceptedForTenMinutes` | models/userModel.js:134-141 | a new reset token is accepted up to and including ten minutes later, never after, and no other token is accepted in its place |
| `UserModel.FindById` | models/userModel.js:125-128 | `findById` finds exactly the stored, active users |
| `UserModel.LeastExists` | controllers/authenticationController.js:48 | every non-empty set of ids has a least element: the first match of a query exists |
| `UserModel.FirstOf` | controllers/authenticationController.js:48 | the first match is a member of the matches and precedes all of them; there is none only when nothing matches |
| `UserModel.FindActiveByEmail` | models/userModel.js:125-128 | `findOne({ email })` returns an active user with that email, and returns nothing only when no active user has it |
| `UserModel.FindDeactivatedByEmail` | controllers/authenticationController.js:222-227 | `updateOne({ email, active: false })` matches a deactivated user with that email, and matches nothing only when there is none |
| `UserModel.FindByResetToken` | controllers/authenticationController.js:102-110 | the reset query returns an active user holding the token's digest with an unexpired expiry, and returns nothing only when there is none |
| `UserModel.ListsDecideConsistency` | models/userModel.js:78-95 | two collections with the same three lists per user agree on the relationship invariant |
| `UserModel.RemovalKeepsConsistency` | controllers/authenticationController.js:167-180 | removing a user keeps the relationship invariant among the users that remain |
| `UserController.RemoveAll` | controllers/userController.js:213-219 | the filter removes every occurrence of the id, keeps the other elements with their multiplicities and in their order (a subsequence), and is the identity when the id is absent |
| `UserController.AddFriendStep` | controllers/userController.js:177-193 | the specification of `addFriend`: the self check on the spelling, the active-filtered push on the caller, the saved push on the addressee; its properties are the `FriendGraph.AddFriend*` lemmas |
| `UserController.ConfirmFriendStep` | controllers/userController.js:195-225 | the specification of `confirmFriend`, including the version failure of the second save when the route names the caller; properties in `FriendGraph.ConfirmFriend*` |
| `UserController.CancelRequestStep` | controllers/userController.js:227-249 | the specification of `cancelRequest`; properties in `FriendGraph.CancelRequest*` |
| `UserController.DeleteRequestStep` | controllers/userController.js:251-275 | the specification of `deleteRequest`; properties in `FriendGraph.DeleteRequest*` |
| `UserController.DeleteFriendStep` | controllers/userController.js:286-308 | the specification of `deleteFriend`; properties in `FriendGraph.DeleteFriend*` |
| `UserController.AddFriend` | controllers/userController.js:177-193 | running `addFriend` on the database, with the route id as spelt, yields the outcome and User collection of `AddFriendStep` |
| `UserController.ConfirmFriend` | controllers/userController.js:195-225 | running `confirmFriend` yields the outcome and collection of `ConfirmFriendStep`; on a route naming the caller the first save lands and the second crashes |
| `UserController.CancelRequest` | controllers/userController.js:227-249 | running `cancelRequest` yields the outcome and collection of `CancelRequestStep`, with the same crash after the first save on a route naming the caller |
| `UserController.DeleteRequest` | controllers/userController.js:251-275 | running `deleteRequest` yields the outcome and collection of `DeleteRequestStep`, with the same crash after the first save on a route naming the caller |
| `UserController.DeleteFriend` | controllers/userController.js:286-308 | running `deleteFriend` yields the outcome and collection of `DeleteFriendStep` |
| `UserController.MutualFriends` | controllers/userController.js:318-336 | the filter keeps exactly the visited user's friends that are also the caller's, with the visited user's multiplicities and order |
| `UserController.GetMutualFriends` | controllers/userController.js:318-336 | the handler answers when both users are active and crashes otherwise; each kept id comes back as itself when that user is active and as null otherwise |
| `UserController.MutualFriendsAreFriendsOfBoth` | controllers/userController.js:318-336 | under symmetric friendship, every stored user the filter keeps lists both the caller and the visited user as friends |
| `UserController.Verdict` | controllers/userController.js:340-389 | a list of inspected words is restricted exactly when the verdict differs from "unrestricted", and a restriction always carries one of the four messages the guard sends |
| `UserController.VerdictRestrictsIffRestrictedWord` | controllers/userController.js:340-389 | the guard restricts a list of inspected words exactly when one of them is `active`, `password`, `email`, `role` or a profile field |
| `UserController.FirstEntryWords` | controllers/userController.js:341 | the inspected words are the first entry's key and its value |
| `UserController.UpdateVerdict` | controllers/userController.js:340-389 | the guard crashes exactly on an empty body; otherwise it restricts exactly when the first entry's key or value is a restricted word |
| `UserController.RestrictedUpdate` | controllers/userController.js:340-389 | the loop over the inspected words computes the verdict of `UpdateVerdict`: crash on an empty body, else the verdict on the first entry, with the last matching check's message |
| `UserController.OnlyFirstEntryInspected` | controllers/userController.js:341 | entries after the first never change the guard's verdict |
| `UserController.IntendedUpdateVerdict` | controllers/userController.js:340-389 | corrected guard: a body is restricted exactly when one of its keys is a restricted word |
| `UserController.RoleAfterFirstKeyPasses` | controllers/userController.js:341 | a body whose second key is `role` passes the guard as written but is restricted by the corrected guard |
| `UserController.FieldNameAsValueRefused` | controllers/userController.js:341 | a harmless update whose value is the text `role` is refused as written but passes the corrected guard |
| `FriendGraph.AddFriendOutcome` | controllers/userController.js:177-193 | a request is accepted exactly when the route does not spell the caller's own id and names a stored, active user; a refused request is a bare-status 500 and changes nothing |
| `FriendGraph.AddFriendEffect` | controllers/userController.js:177-193 | an accepted request to another user appends the caller to the addressee's pending requests, and the addressee to an active caller's sent requests, duplicates included; a deactivated caller's record and every other record stay as they were |
| `FriendGraph.AddFriendKeepsConsistency` | controllers/userController.js:177-193 | a request from an active caller, with the caller's own id not spelt another way, keeps the relationship invariant |
| `FriendGraph.AddFriendFromDeactivatedCallerBreaksMirror` | controllers/userController.js:183-190 | a deactivated caller with a valid token leaves a pending request that no sent request mirrors |
| `FriendGraph.SelfRequestInOtherSpelling` | controllers/userController.js:181-190 | the caller's own id spelt another way passes the self check: the request is accepted, the caller lands in both of its own request lists and the invariant breaks; confirming it then crashes on the second save after making the caller its own friend |
| `FriendGraph.IntendedAddFriendStep` | controllers/userController.js:177-193 | corrected request: accepted exactly when the route names another user and both users are active; a refusal is the bare-status 500 and changes nothing |
| `FriendGraph.IntendedAddFriendKeepsConsistency` | controllers/userController.js:177-193 | the corrected request keeps the relationship invariant with no condition on the caller or the spelling |
| `FriendGraph.ConfirmFriendOutcome` | controllers/userController.js:195-225 | a confirmation succeeds exactly when the route spells another, active user and the request is mirrored on both sides; an unknown addressee is a bare-status 500 that changes nothing; between two active users any other refusal is a 400; only a self-addressed call that crashes after its first save changes anything without succeeding |
| `FriendGraph.ConfirmFriendEffect` | controllers/userController.js:195-225 | a confirmation is between two different users; each record gains the other as a friend and loses every mirrored request entry for the pair, with every other field unchanged; no other record changes |
| `FriendGraph.ConfirmFriendKeepsConsistency` | controllers/userController.js:195-225 | confirming keeps the relationship invariant |
| `FriendGraph.ConfirmKeepsMirror` | controllers/userController.js:195-225 | confirming keeps sent and pending requests mirrored |
| `FriendGraph.ConfirmKeepsFriendSymmetry` | controllers/userController.js:195-225 | confirming keeps friendship symmetric |
| `FriendGraph.CancelRequestOutcome` | controllers/userController.js:227-249 | withdrawing succeeds exactly when the route spells another, active user and the request is mirrored; a refusal is a 400 or a crash, and the 400 between two active users; only a self-addressed call that crashes after its first save changes anything without succeeding |
| `FriendGraph.CancelRequestEffect` | controllers/userController.js:227-249 | withdrawing is between two different users and removes exactly the pair "caller sent, addressee pending", touching no friends list |
| `FriendGraph.CancelRequestKeepsConsistency` | controllers/userController.js:227-249 | withdrawing keeps the relationship invariant |
| `FriendGraph.DeleteRequestOutcome` | controllers/userController.js:251-275 | declining succeeds exactly when the route spells another, active user and the request is mirrored; a refusal is a 400 or a crash, and the 400 between two active users; only a self-addressed call that crashes after its first save changes anything without succeeding |
| `FriendGraph.DeleteRequestEffect` | controllers/userController.js:251-275 | declining is between two different users, removes exactly the pair "caller pending, sender sent" and adds no friend |
| `FriendGraph.DeleteRequestKeepsConsistency` | controllers/userController.js:251-275 | declining keeps the relationship invariant |
| `FriendGraph.DeleteFriendOutcome` | controllers/userController.js:286-308 | unfriending succeeds exactly when the route spells another, active user and each lists the other as a friend; the caller's own id is the 400 "can't delete yourself"; between two active users any other refusal is the 400 "no such user"; a refused call changes nothing |
| `FriendGraph.DeleteFriendEffect` | controllers/userController.js:286-308 | unfriending removes each user from the other's friends, every occurrence, and changes nothing else |
| `FriendGraph.DeleteFriendKeepsConsistency` | controllers/userController.js:286-308 | unfriending keeps the relationship invariant |
| `FriendGraph.DeleteFriendTwiceFails` | controllers/userController.js:286-308 | a second unfriending with the same route is the 400 "no such user" and changes nothing |
| `FriendGraph.SendThenConfirmMakesFriends` | controllers/userController.js:177-225 | a request between two active users followed by its confirmation leaves them friends |
| `FriendGraph.SelfAddressedCallsRejected` | controllers/userController.js:177-308 | a canonically spelt route naming the caller is refused by `addFriend` and changes nothing; no other relationship handler accepts a route naming the caller, however spelt; `deleteFriend` then changes nothing, and in a collection where nobody lists themself neither do the others |
| `AuthController.Verify` | controllers/authenticationController.js:182-192 | a missing cookie is a 401; otherwise the request passes with the token's claims exactly when the access token verifies |
| `AuthController.Restriction` | controllers/authenticationController.js:194-202 | a request passes, its claims unchanged, exactly when it carries a listed role; otherwise it is a 403 |
| `AuthController.ReactivateByEmail` | controllers/authenticationController.js:222-231 | a user found after reactivation is active and has the email |
| `AuthController.FindOrReactivate` | controllers/authenticationController.js:48-54 | a user found by the login lookup is active and has the email |
| `AuthController.IssueTokens` | utils/jwt.js:5-22 | signing stores one new Refresher record for the refresh token |
| `AuthController.RegisterUserStep` | controllers/authenticationController.js:10-31 | the specification of `registerUser`; properties in `AccountLifecycle.RegisterUser*` and `AccountLifecycle.RegistrationReplyCarriesHash` |
| `AuthController.IntendedRegisterUserStep` | controllers/authenticationController.js:10-31 | corrected registration whose reply does not carry the password; property in `AccountLifecycle.RepliesHidePassword` |
| `AuthController.LogInStep` | controllers/authenticationController.js:33-67 | the specification of `logInUser`; properties in `AccountLifecycle.LogIn*` |
| `AuthController.ForgotPasswordStep` | controllers/authenticationController.js:69-100 | the specification of `forgotPassword`, including the re-read without the email on the reactivation path; properties in `AccountLifecycle.ForgotPassword*` |
| `AuthController.ResetPasswordStep` | controllers/authenticationController.js:102-127 | the specification of `resetPassword`: the reset query, the validator crash on an empty password, the save, the cleared password and the reply with the new tokens; properties in `AccountLifecycle.ResetPasswordOutcome` and `AccountLifecycle.ForgotThenReset` |
| `AuthController.DeactivateUserStep` | controllers/authenticationController.js:147-165 | the specification of `deactivateUser`; properties in `AccountLifecycle.DeactivateUserOutcome` |
| `AuthController.DeleteUserPermanentlyStep` | controllers/authenticationController.js:167-180 | the specification of `deleteUserPermanently`; properties in `AccountLifecycle.DeleteUserPermanentlyOutcome` |
| `AuthController.RefreshTokenStep` | controllers/authenticationController.js:204-220 | the specification of `refreshToken`; properties in `AccountLifecycle.Refresh*` |
| `AuthController.RegisterUser` | controllers/authenticationController.js:10-31 | running `registerUser` on the database yields `RegisterUserStep` |
| `AuthController.CheckDeactivatedUser` | controllers/authenticationController.js:222-231 | running `checkDeactivatedUser` yields `ReactivateByEmail` |
| `AuthController.LogInUser` | controllers/authenticationController.js:33-67 | running `logInUser` yields `LogInStep` |
| `AuthController.ForgotPassword` | controllers/authenticationController.js:69-100 | running `forgotPassword` yields `ForgotPasswordStep`, tracking whether the document it mails to still holds the email |
| `AuthController.ResetPassword` | controllers/authenticationController.js:102-127 | running `resetPassword` yields `ResetPasswordStep` |
| `AuthController.DeactivateUser` | controllers/authenticationController.js:147-165 | running `deactivateUser` yields `DeactivateUserStep` |
| `AuthController.DeleteUserPermanently` | controllers/authenticationController.js:167-180 | running `deleteUserPermanently` yields `DeleteUserPermanentlyStep` |
| `AuthController.RefreshToken` | controllers/authenticationController.js:204-220 | running `refreshToken` yields `RefreshTokenStep` |
| `AccountLifecycle.AccountFor` | controllers/authenticationController.js:48-54 | the account a login acts on has the email, and there is none only when no user has it |
| `AccountLifecycle.FindOrReactivateFindsAccount` | controllers/authenticationController.js:48-54 | the login lookup finds that account, reactivates it if it was deactivated, and touches no other record |
| `AccountLifecycle.LogInNeedsBothFields` | controllers/authenticationController.js:37 | a login without email or password is a 400 that changes nothing |
| `AccountLifecycle.LogInOutcome` | controllers/authenticationController.js:33-67 | a login succeeds exactly when the account exists and the password checks, and it is that account that logs in, with no password in the reply; every other login gets the same 401 |
| `AccountLifecycle.LogInReactivates` | controllers/authenticationController.js:48-60 | a login for an email held only by deactivated users reactivates the first of them, even when the password is wrong |
| `AccountLifecycle.LogInAddsRefresher` | controllers/authenticationController.js:58-66 | a successful login signs tokens for the account with its role and adds one Refresher record, keeping the earlier ones |
| `AccountLifecycle.ResetPasswordOutcome` | controllers/authenticationController.js:102-127 | a reset succeeds exactly when an active user holds a valid token and the new password is not empty, and exactly then changes the store; that user gets the hashed password and cleared reset fields, the reply's refresh token gets its Refresher record, the token no longer works and the reply carries no password; with no active holder of a valid token the reply is the 400; a refused reset changes nothing |
| `AccountLifecycle.ForgotThenReset` | controllers/authenticationController.js:69-127 | with a fresh, delivered token, a reset succeeds exactly within ten minutes of the request, and on the requesting account |
| `AccountLifecycle.ForgotPasswordFindsAccount` | controllers/authenticationController.js:69-78 | an unknown email is a 401 that changes nothing; a known one is reactivated |
| `AccountLifecycle.ForgotPasswordMailFailure` | controllers/authenticationController.js:86-99 | when the mail fails, the reply is a 500, the stored token is cleared, the expiry stays, and no token can be redeemed |
| `AccountLifecycle.ForgotPasswordOnDeactivatedAccountFails` | controllers/authenticationController.js:69-100 | for an email held only by deactivated users the reset request reactivates the account but always fails as if the mail could not be sent: a 500 with the token cleared |
| `AccountLifecycle.DeactivateUserOutcome` | controllers/authenticationController.js:147-165 | deactivation succeeds exactly on one's own active account; it clears `active` and nothing else, after which `findById` no longer finds the user |
| `AccountLifecycle.DeleteUserPermanentlyOutcome` | controllers/authenticationController.js:167-180 | deletion is a 403 exactly when the caller is neither the target nor an admin; an allowed deletion of an active user removes the user and its UserInfo record only |
| `AccountLifecycle.RestrictionMonotone` | controllers/authenticationController.js:194-202 | listing more roles never refuses a request that fewer roles let through |
| `AccountLifecycle.RefreshTokenOutcome` | controllers/authenticationController.js:204-220 | no token is a 401, a token not signed with the refresh secret throws, a refresh token whose user `findById` cannot see is a 403; a refresh succeeds exactly in the remaining case and replaces that token's Refresher record by one for the new token; a refused refresh changes nothing |
| `AccountLifecycle.RefreshIgnoresStoredRecords` | controllers/authenticationController.js:204-220 | the Refresher records never decide a refresh, so a refresh token can be replayed |
| `AccountLifecycle.RegisterUserDefaults` | controllers/authenticationController.js:10-31 | a registered user has the defaults, the user name and the hashed password, and can log in with that password |
| `AccountLifecycle.RegisterUserFailureLeavesInfo` | controllers/authenticationController.js:10-31 | any registration that fails (empty required field, taken email, taken id) crashes after creating its UserInfo document and leaves that document behind, with nothing else changed |
| `AccountLifecycle.RegistrationReplyCarriesHash` | controllers/authenticationController.js:30 | a successful registration replies with the saved document, which carries the bcrypt hash of the password |
| `AccountLifecycle.RepliesHidePassword` | controllers/authenticationController.js:10-127 | with the corrected registration no reply that carries a user document carries its password, and the correction changes the reply only; login and reset replies never carry it |
| `AccountLifecycle.ReactivationKeepsLists` | controllers/authenticationController.js:222-231 | reactivation changes no user's three lists |
| `AccountLifecycle.LogInKeepsGraphConsistent` | controllers/authenticationController.js:33-67 | login keeps the relationship invariant |
| `AccountLifecycle.ForgotPasswordKeepsGraphConsistent` | controllers/authenticationController.js:69-100 | `forgotPassword` keeps the relationship invariant |
| `AccountLifecycle.ResetPasswordKeepsGraphConsistent` | controllers/authenticationController.js:102-127 | `resetPassword` keeps the relationship invariant |
| `AccountLifecycle.DeactivateUserKeepsGraphConsistent` | controllers/authenticationController.js:147-165 | deactivation keeps the relationship invariant |
| `AccountLifecycle.DeleteUserPermanentlyKeepsGraphConsistent` | controllers/authenticationController.js:167-180 | permanent deletion keeps the relationship invariant among the remaining users |
| `AccountLifecycle.RegisterUserKeepsGraphConsistent` | controllers/authenticationController.js:10-31 | registering a user under an id no list mentions keeps the relationship invariant |

## Left out

- `updateMe`, apart from its guard: its `$set: body` writes the caller's own User record, and the image fields, `updateMyInfo` and `updateUserEmbededInfo` work on uploads and on the UserInfo collection. The guard never restricts `friends`, `pendingRequests` or `sentRequests`, so a body such as `{ "friends": [<id>] }` passes it and rewrites the caller's list, which can break `UserModel.GraphConsistent`. The `*KeepsConsistency` lemmas cover only the modelled handlers.
- `updatePassword`, `getMe`, `getUser`, `searchUser`, `getTimelinePosts`, `getRequest` and `getFriends` are reads or operations outside the relationship and account core.
- `blockUser` has an empty body.
- Populated image references (`profileImg`, `coverImg`), `passwordConfirm`, the validators other than `required`, and timestamps are not modelled; no handler in the model reads them.
- Reply bodies are modelled only by the user id, the tokens and `shownPassword`, the password field of the `data` document. The `select: false` projection is modelled where it decides something: it is why `logInUser` and `resetPassword` clear the password before replying, and `registerUser` does not (see Findings).
- Cookies, HTTP headers and response bodies are reduced to the values the handlers read and return. Mail delivery is the `delivered` parameter, the clock is `now` and the random bytes are `random`.
- Concurrency: each handler is one atomic step. The interleaving of two requests between a handler's load and its save, which can lose an update, is not modelled.
- Bcrypt and SHA-256 are symbolic and collision-free. Their cost and salt are not modelled.
- ObjectIds are natural numbers. A route id that is not a valid ObjectId makes `findById` throw a CastError; the model has no such spelling, only the canonical and the non-canonical spelling of a valid id.
- `FriendGraph.AddFriendKeepsConsistency` requires the caller to be active and the caller's own id not to be spelt another way, because each of these breaks the invariant (see Findings); `FriendGraph.IntendedAddFriendKeepsConsistency` needs neither.
- `AccountLifecycle.RegisterUserKeepsGraphConsistent` requires that no stored list already names the new id, which fresh ObjectIds guarantee.
- The VersionError of a self-addressed `confirmFriend`, `cancelRequest` or `deleteRequest` is modelled as the uncaught `Crash` after the first save; the error text is not modelled.

## Findings

| source | as written | input that shows it | evidently intended | confidence | as-written member | corrected member |
|---|---|---|---|---|---|---|
| controllers/userController.js:341 | `const [properties] = Object.entries(body)` takes only the first `[key, value]` pair and checks the key and the value of that pair against the restricted words | body `{ firstName: "Ann", role: "admin" }` passes the guard, so `updateMe` sets `role`; body `{ firstName: "role" }` is refused | every key of the body is checked and values are not | high, not executed | `UserController.RoleAfterFirstKeyPasses`, `UserController.FieldNameAsValueRefused` | `UserController.IntendedUpdateVerdict` |
| controllers/userController.js:181 | the self check compares the route string with `req.user.id`, the lowercase hex of the caller's id | the caller's own id in uppercase hex: `findById` casts it to the caller, who is pushed onto both of its own request lists; a later `confirmFriend` on the canonical id makes the caller its own friend and then fails with a VersionError | a request addressed to the caller, however spelt, is refused | medium, not executed | `FriendGraph.SelfRequestInOtherSpelling` | `FriendGraph.IntendedAddFriendKeepsConsistency` |
| controllers/userController.js:183-190 | the caller's `sentRequests` is updated through `findByIdAndUpdate`, which skips a deactivated user, while the addressee's `pendingRequests` is saved regardless | a deactivated user whose access token has not expired sends a request: the addressee holds a pending request that no sent request mirrors | a deactivated caller is refused, so both lists change or neither does | medium, not executed | `FriendGraph.AddFriendFromDeactivatedCallerBreaksMirror` | `FriendGraph.IntendedAddFriendKeepsConsistency` |
| controllers/authenticationController.js:30 | the reply's `data` is the saved document, whose `password` is still set; `logInUser` and `resetPassword` clear it first | any successful registration replies with the bcrypt hash of the password | the hash stays on the server, as `select: false` on the schema intends | high, not executed | `AccountLifecycle.RegistrationReplyCarriesHash` | `AccountLifecycle.RepliesHidePassword` |
