/** The relationship handlers of controllers/userController.js, the
    mutual-friends filter, and the guard `updateMe` runs on its body.

    Each relationship handler loads the caller's and the addressee's
    documents, checks membership on both, then edits the two lists and saves
    both documents. A handler is one atomic step here: its specification is a
    function from the old User collection to an outcome and the new
    collection, and the method that runs it on a `Database` is proved equal to
    that function. */
module UserController {
  import opened Outcomes
  import opened Tokens
  import opened UserModel
  import opened Store

  /** `r` is obtained from `s` by deleting elements, keeping the order of
      the rest. */
  predicate IsSubsequence(r: seq<UserId>, s: seq<UserId>)
    decreases |s|
  {
    if s == [] then r == []
    else (r != [] && r[0] == s[0] && IsSubsequence(r[1..], s[1..])) || IsSubsequence(r, s[1..])
  }

  /** `list.filter((x) => x.toString() !== id)`: every occurrence of `id`
      removed, everything else kept in order. */
  function RemoveAll(s: seq<UserId>, id: UserId): (r: seq<UserId>)
    ensures forall y :: y in r <==> y in s && y != id
    ensures id !in s ==> r == s
    ensures multiset(r) == multiset(s)[id := 0]
    ensures IsSubsequence(r, s)
  {
    if s == [] then []
    else
      assert s == [s[0]] + s[1..];
      var rest := RemoveAll(s[1..], id);
      if s[0] == id then rest
      else
        assert ([s[0]] + rest)[1..] == rest;
        [s[0]] + rest
  }

  /** The outcome of one handler and the User collection after it. */
  datatype Step = Step(outcome: Outcome<string>, users: Users)

  /** `next(400, message)` passes a bare number as the error; the error
      handler finds no status code on it and answers 500 with no message. */
  const BareStatus: Outcome<string> := Fail(500, "")

  const RequestSent := "your request sent successfully"
  const NoSuchRequest := "there are no such friend request"
  const NowFriends := "now you are friends on lama social"
  const RequestDeleted := "your request deleted successfully"
  const CannotDeleteSelf := "you can't delete yourself"
  const NoSuchUser := "there are no such user"
  const FriendDeleted := "user deleted successfully"

  // ---------------------------------------------------------------------
  // The route parameter

  /** The `:id` route parameter. `target` is the ObjectId `findById` casts it
      to; `canonical` says whether it is spelt the way `toString()` spells
      that id (lower-case hex), which is also how the token's `user.id` is
      spelt. The cast accepts other spellings, upper-case hex among them. */
  datatype RouteId = RouteId(target: UserId, canonical: bool)

  /** `x.toString() === id`, or `id === user.id`: a string comparison, true
      only for the canonical spelling of `x`. */
  predicate Spells(route: RouteId, x: UserId)
  {
    route.canonical && route.target == x
  }

  /** `list.some((x) => x.toString() === id)`. */
  predicate ListsRoute(list: seq<UserId>, route: RouteId)
  {
    route.canonical && route.target in list
  }

  // ---------------------------------------------------------------------
  // Specifications of the five handlers
  //
  // A document save writes the paths it modified. Pushing onto an array
  // needs no version check; assigning a whole array makes the save match on
  // the version key the document was loaded with and increment it. When the
  // caller and the addressee are the same user, two copies of one record are
  // loaded: the first save increments the version and the second, on the
  // stale copy, throws a VersionError.

  /** `addFriend`: the caller's `sentRequests` gets the addressee through an
      active-filtered `findByIdAndUpdate` (no effect on a deactivated caller),
      and the loaded addressee gets the caller pushed onto `pendingRequests`.
      No duplicate check. The self check compares strings, so another
      spelling of the caller's own id passes it. */
  function AddFriendStep(users: Users, caller: UserId, route: RouteId): Step
  {
    if Spells(route, caller) then Step(BareStatus, users)
    else
      var id := route.target;
      match FindById(users, id)
      case None => Step(BareStatus, users)
      case Some(addressee) =>
        var users1 :=
          match FindById(users, caller)
          case None => users
          case Some(me) => users[caller := me.(sentRequests := me.sentRequests + [id])];
        var stored := users1[id];
        Step(Ok(RequestSent), users1[id := stored.(pendingRequests := stored.pendingRequests + [caller])])
  }

  /** `confirmFriend`: the caller accepts the request of the user the route
      names. */
  function ConfirmFriendStep(users: Users, caller: UserId, route: RouteId): Step
  {
    var id := route.target;
    match FindById(users, id)
    case None => Step(BareStatus, users)
    case Some(addressee) =>
      match FindById(users, caller)
      case None => Step(Crash, users)
      case Some(me) =>
        if !ListsRoute(me.pendingRequests, route) || caller !in addressee.sentRequests then
          Step(Fail(400, NoSuchRequest), users)
        else
          var me' := me.(friends := me.friends + [id],
                         pendingRequests := RemoveAll(me.pendingRequests, id));
          var addressee' := addressee.(friends := addressee.friends + [caller],
                                       sentRequests := RemoveAll(addressee.sentRequests, caller));
          if id == caller then Step(Crash, users[caller := me'])
          else Step(Ok(NowFriends), users[caller := me'][id := addressee'])
  }

  /** `cancelRequest`: the caller withdraws the request it sent. Both
      documents are loaded first; the membership tests read the caller's,
      then the addressee's, so a missing one fails where it is first read. */
  function CancelRequestStep(users: Users, caller: UserId, route: RouteId): Step
  {
    var id := route.target;
    match FindById(users, caller)
    case None => Step(Crash, users)
    case Some(me) =>
      if !ListsRoute(me.sentRequests, route) then Step(Fail(400, NoSuchRequest), users)
      else
        match FindById(users, id)
        case None => Step(Crash, users)
        case Some(addressee) =>
          if caller !in addressee.pendingRequests then Step(Fail(400, NoSuchRequest), users)
          else
            var me' := me.(sentRequests := RemoveAll(me.sentRequests, id));
            var addressee' := addressee.(pendingRequests := RemoveAll(addressee.pendingRequests, caller));
            if id == caller then Step(Crash, users[caller := me'])
            else Step(Ok(RequestDeleted), users[caller := me'][id := addressee'])
  }

  /** `deleteRequest`: the caller declines a request sent to it. */
  function DeleteRequestStep(users: Users, caller: UserId, route: RouteId): Step
  {
    var id := route.target;
    match FindById(users, caller)
    case None => Step(Crash, users)
    case Some(me) =>
      if !ListsRoute(me.pendingRequests, route) then Step(Fail(400, NoSuchRequest), users)
      else
        match FindById(users, id)
        case None => Step(Crash, users)
        case Some(addressee) =>
          if caller !in addressee.sentRequests then Step(Fail(400, NoSuchRequest), users)
          else
            var me' := me.(pendingRequests := RemoveAll(me.pendingRequests, id));
            var addressee' := addressee.(sentRequests := RemoveAll(addressee.sentRequests, caller));
            if id == caller then Step(Crash, users[caller := me'])
            else Step(Ok(RequestDeleted), users[caller := me'][id := addressee'])
  }

  /** `deleteFriend`: the caller unfriends the user the route names. */
  function DeleteFriendStep(users: Users, caller: UserId, route: RouteId): Step
  {
    var id := route.target;
    if Spells(route, caller) then Step(Fail(400, CannotDeleteSelf), users)
    else
      match FindById(users, caller)
      case None => Step(Crash, users)
      case Some(me) =>
        if !ListsRoute(me.friends, route) then Step(Fail(400, NoSuchUser), users)
        else
          match FindById(users, id)
          case None => Step(Crash, users)
          case Some(addressee) =>
            if caller !in addressee.friends then Step(Fail(400, NoSuchUser), users)
            else
              var me' := me.(friends := RemoveAll(me.friends, id));
              var addressee' := addressee.(friends := RemoveAll(addressee.friends, caller));
              Step(Ok(FriendDeleted), users[caller := me'][id := addressee'])
  }

  // ---------------------------------------------------------------------
  // The handlers, run on the store

  method AddFriend(db: Database, caller: UserId, route: RouteId) returns (r: Outcome<string>)
    modifies db`users
    ensures Step(r, db.users) == AddFriendStep(old(db.users), caller, route)
  {
    if Spells(route, caller) {
      return BareStatus;
    }
    var id := route.target;
    var addressee := FindById(db.users, id);
    if addressee.None? {
      return BareStatus;
    }
    var me := FindById(db.users, caller);
    if me.Some? {
      var sent := me.value.sentRequests + [id];
      db.users := db.users[caller := me.value.(sentRequests := sent)];
    }
    var pending := db.users[id].pendingRequests + [caller];
    db.users := db.users[id := db.users[id].(pendingRequests := pending)];
    r := Ok(RequestSent);
  }

  method ConfirmFriend(db: Database, caller: UserId, route: RouteId) returns (r: Outcome<string>)
    modifies db`users
    ensures Step(r, db.users) == ConfirmFriendStep(old(db.users), caller, route)
  {
    var id := route.target;
    var addressee := FindById(db.users, id);
    if addressee.None? {
      return BareStatus;
    }
    var me := FindById(db.users, caller);
    if me.None? {
      return Crash;
    }
    var cur, adr := me.value, addressee.value;
    if !ListsRoute(cur.pendingRequests, route) || caller !in adr.sentRequests {
      return Fail(400, NoSuchRequest);
    }
    cur := cur.(friends := cur.friends + [id]);
    adr := adr.(friends := adr.friends + [caller]);
    cur := cur.(pendingRequests := RemoveAll(cur.pendingRequests, id));
    adr := adr.(sentRequests := RemoveAll(adr.sentRequests, caller));
    db.users := db.users[caller := cur];
    if id == caller {
      return Crash;
    }
    db.users := db.users[id := adr];
    r := Ok(NowFriends);
  }

  method CancelRequest(db: Database, caller: UserId, route: RouteId) returns (r: Outcome<string>)
    modifies db`users
    ensures Step(r, db.users) == CancelRequestStep(old(db.users), caller, route)
  {
    var id := route.target;
    var me := FindById(db.users, caller);
    var addressee := FindById(db.users, id);
    if me.None? {
      return Crash;
    }
    if !ListsRoute(me.value.sentRequests, route) {
      return Fail(400, NoSuchRequest);
    }
    if addressee.None? {
      return Crash;
    }
    if caller !in addressee.value.pendingRequests {
      return Fail(400, NoSuchRequest);
    }
    var cur := me.value.(sentRequests := RemoveAll(me.value.sentRequests, id));
    var adr := addressee.value.(pendingRequests := RemoveAll(addressee.value.pendingRequests, caller));
    db.users := db.users[caller := cur];
    if id == caller {
      return Crash;
    }
    db.users := db.users[id := adr];
    r := Ok(RequestDeleted);
  }

  method DeleteRequest(db: Database, caller: UserId, route: RouteId) returns (r: Outcome<string>)
    modifies db`users
    ensures Step(r, db.users) == DeleteRequestStep(old(db.users), caller, route)
  {
    var id := route.target;
    var me := FindById(db.users, caller);
    var addressee := FindById(db.users, id);
    if me.None? {
      return Crash;
    }
    if !ListsRoute(me.value.pendingRequests, route) {
      return Fail(400, NoSuchRequest);
    }
    if addressee.None? {
      return Crash;
    }
    if caller !in addressee.value.sentRequests {
      return Fail(400, NoSuchRequest);
    }
    var cur := me.value.(pendingRequests := RemoveAll(me.value.pendingRequests, id));
    var adr := addressee.value.(sentRequests := RemoveAll(addressee.value.sentRequests, caller));
    db.users := db.users[caller := cur];
    if id == caller {
      return Crash;
    }
    db.users := db.users[id := adr];
    r := Ok(RequestDeleted);
  }

  method DeleteFriend(db: Database, caller: UserId, route: RouteId) returns (r: Outcome<string>)
    modifies db`users
    ensures Step(r, db.users) == DeleteFriendStep(old(db.users), caller, route)
  {
    if Spells(route, caller) {
      return Fail(400, CannotDeleteSelf);
    }
    var id := route.target;
    var me := FindById(db.users, caller);
    var addressee := FindById(db.users, id);
    if me.None? {
      return Crash;
    }
    if !ListsRoute(me.value.friends, route) {
      return Fail(400, NoSuchUser);
    }
    if addressee.None? {
      return Crash;
    }
    if caller !in addressee.value.friends {
      return Fail(400, NoSuchUser);
    }
    var cur := me.value.(friends := RemoveAll(me.value.friends, id));
    var adr := addressee.value.(friends := RemoveAll(addressee.value.friends, caller));
    db.users := db.users[caller := cur];
    db.users := db.users[id := adr];
    r := Ok(FriendDeleted);
  }

  // ---------------------------------------------------------------------
  // getMuntualFriends

  /** The filter `getMuntualFriends` applies to the visited user's friend
      list: it keeps the ids the caller's own list includes, in the visited
      user's order and with their repetitions. */
  function MutualFriends(visited: seq<UserId>, mine: seq<UserId>): (r: seq<UserId>)
    ensures forall x :: x in r <==> x in visited && x in mine
    ensures forall x :: x in mine ==> multiset(r)[x] == multiset(visited)[x]
    ensures IsSubsequence(r, visited)
  {
    if visited == [] then []
    else
      assert visited == [visited[0]] + visited[1..];
      var rest := MutualFriends(visited[1..], mine);
      if visited[0] in mine then
        assert ([visited[0]] + rest)[1..] == rest;
        [visited[0]] + rest
      else rest
  }

  /** `getMuntualFriends`: the caller's document, then the visited user's,
      then each kept id looked up again through `findById`, which yields
      null for a deactivated or deleted friend. */
  function GetMutualFriends(users: Users, caller: UserId, id: UserId): (r: Outcome<seq<Option<UserId>>>)
    ensures r.Ok? <==> FindById(users, caller).Some? && FindById(users, id).Some?
    ensures !r.Ok? ==> r == Crash
    ensures r.Ok? ==>
              var kept := MutualFriends(users[id].friends, users[caller].friends);
              |r.value| == |kept| &&
              forall i :: 0 <= i < |kept| ==>
                (r.value[i].Some? <==> kept[i] in users && users[kept[i]].active) &&
                (r.value[i].Some? ==> r.value[i].value == kept[i])
  {
    match FindById(users, caller)
    case None => Crash
    case Some(me) =>
      match FindById(users, id)
      case None => Crash
      case Some(visited) =>
        var kept := MutualFriends(visited.friends, me.friends);
        Ok(seq(|kept|, i requires 0 <= i < |kept| =>
                 if FindById(users, kept[i]).Some? then Some(kept[i]) else None))
  }

  /** In a symmetric friendship graph, every stored user the filter keeps is
      a friend of both the caller and the visited user. */
  lemma MutualFriendsAreFriendsOfBoth(users: Users, caller: UserId, id: UserId, x: UserId)
    requires FriendsSymmetric(users) && caller in users && id in users && x in users
    requires x in MutualFriends(users[id].friends, users[caller].friends)
    ensures caller in users[x].friends && id in users[x].friends
  {
  }

  // ---------------------------------------------------------------------
  // restrictedUpdate

  /** A value in a JSON request body; only a string can equal a field name. */
  datatype JsonValue = JStr(s: string) | JOther

  /** One `[key, value]` entry of the body, in the body's key order. */
  datatype Entry = Entry(key: string, value: JsonValue)

  /** The `{ restriction, message }` pair `restrictedUpdate` returns. */
  datatype Restriction = Restriction(restricted: bool, message: string)

  const ProfileFields: seq<string> :=
    ["hobbies", "relationship", "description", "phone", "education", "birthDate", "city", "from"]

  const UseDeactivate := "please use /deactivate route to deactivate your account"
  const NotAuthorizedHere := "you are not authorized for this operations"
  const UseUpdateEmail := "please use /updateEmail route to update your email"
  const UseUpdatePassword := "please use /updatePassword route to update your password"

  const Unrestricted := Restriction(false, "")

  predicate IsProfileField(w: JsonValue)
  {
    w.JStr? && w.s in ProfileFields
  }

  /** The names whose presence restricts an update. */
  predicate IsRestrictedWord(w: JsonValue)
  {
    w.JStr? && (w.s in ProfileFields || w.s in ["role", "email", "password", "active"])
  }

  /** The verdict on the words inspected, by precedence: `active` first, then
      `password`, `email`, `role`, then any profile field; nothing restricts
      when none of them occurs. */
  function Verdict(words: seq<JsonValue>): (r: Restriction)
    ensures r.restricted <==> r != Unrestricted
    ensures r.restricted ==> r.message in [UseDeactivate, UseUpdatePassword, UseUpdateEmail, NotAuthorizedHere]
  {
    if JStr("active") in words then Restriction(true, UseDeactivate)
    else if JStr("password") in words then Restriction(true, UseUpdatePassword)
    else if JStr("email") in words then Restriction(true, UseUpdateEmail)
    else if JStr("role") in words then Restriction(true, NotAuthorizedHere)
    else if exists w :: w in words && IsProfileField(w) then Restriction(true, UseDeactivate)
    else Unrestricted
  }

  /** A verdict restricts exactly when some inspected word is a restricted
      name. */
  lemma VerdictRestrictsIffRestrictedWord(words: seq<JsonValue>)
    ensures Verdict(words).restricted <==> exists w :: w in words && IsRestrictedWord(w)
  {
    if exists w :: w in words && IsRestrictedWord(w) {
      var w :| w in words && IsRestrictedWord(w);
      if !IsProfileField(w) {
        assert w.s in ["role", "email", "password", "active"];
        assert w == JStr("role") || w == JStr("email") || w == JStr("password") || w == JStr("active");
      }
    }
  }

  /** `const [properties] = Object.entries(body)`: the words looked at are
      the key and the value of the first entry only. */
  function FirstEntryWords(body: seq<Entry>): (words: seq<JsonValue>)
    requires body != []
    ensures |words| == 2 && words[0] == JStr(body[0].key) && words[1] == body[0].value
  {
    [JStr(body[0].key), body[0].value]
  }

  /** What `restrictedUpdate` decides on a body; an empty body has no first
      entry, and destructuring it throws. */
  function UpdateVerdict(body: seq<Entry>): (r: Outcome<Restriction>)
    ensures r.Crash? <==> body == []
    ensures r.Ok? ==> (r.value.restricted <==>
                       IsRestrictedWord(JStr(body[0].key)) || IsRestrictedWord(body[0].value))
  {
    if body == [] then Crash
    else
      var words := FirstEntryWords(body);
      VerdictRestrictsIffRestrictedWord(words);
      assert forall w :: w in words <==> w == JStr(body[0].key) || w == body[0].value;
      Ok(Verdict(words))
  }

  /** `restrictedUpdate`: a pass over the first entry's two words for the
      profile fields, then four overriding tests, the last one that matches
      deciding the message. */
  method RestrictedUpdate(body: seq<Entry>) returns (r: Outcome<Restriction>)
    ensures r == UpdateVerdict(body)
  {
    if body == [] {
      return Crash;
    }
    var properties := FirstEntryWords(body);
    var stand := Unrestricted;
    var i := 0;
    while i < |properties|
      invariant 0 <= i <= |properties|
      invariant stand == if exists k :: 0 <= k < i && IsProfileField(properties[k])
                         then Restriction(true, UseDeactivate) else Unrestricted
    {
      if IsProfileField(properties[i]) {
        stand := Restriction(true, UseDeactivate);
      }
      i := i + 1;
    }
    if JStr("role") in properties {
      stand := Restriction(true, NotAuthorizedHere);
    }
    if JStr("email") in properties {
      stand := Restriction(true, UseUpdateEmail);
    }
    if JStr("password") in properties {
      stand := Restriction(true, UseUpdatePassword);
    }
    if JStr("active") in properties {
      stand := Restriction(true, UseDeactivate);
    }
    assert (exists k :: 0 <= k < |properties| && IsProfileField(properties[k]))
           <==> (exists w :: w in properties && IsProfileField(w));
    r := Ok(stand);
  }

  /** Entries after the first never change the verdict. */
  lemma OnlyFirstEntryInspected(body: seq<Entry>, more: seq<Entry>)
    requires body != []
    ensures UpdateVerdict(body + more) == UpdateVerdict(body)
  {
    assert (body + more)[0] == body[0];
  }

  /** The check evidently meant: every key of the body, and keys only. */
  function IntendedUpdateVerdict(body: seq<Entry>): (r: Restriction)
    ensures r.restricted <==> exists e :: e in body && IsRestrictedWord(JStr(e.key))
  {
    var keys := seq(|body|, i requires 0 <= i < |body| => JStr(body[i].key));
    VerdictRestrictsIffRestrictedWord(keys);
    assert forall e :: e in body ==> JStr(e.key) in keys by {
      forall e | e in body ensures JStr(e.key) in keys {
        var i :| 0 <= i < |body| && body[i] == e;
        assert keys[i] == JStr(e.key);
      }
    }
    Verdict(keys)
  }

  /** As written, a `role` key after a harmless first key passes the guard,
      and `updateMe` then sets the role; the intended check refuses it. */
  lemma RoleAfterFirstKeyPasses()
    ensures var body := [Entry("firstName", JStr("Ann")), Entry("role", JStr("admin"))];
            UpdateVerdict(body) == Ok(Unrestricted) &&
            IntendedUpdateVerdict(body) == Restriction(true, NotAuthorizedHere)
  {
    var body := [Entry("firstName", JStr("Ann")), Entry("role", JStr("admin"))];
    var words := FirstEntryWords(body);
    assert JStr("active") !in words && JStr("password") !in words;
    assert JStr("email") !in words && JStr("role") !in words;
    assert !exists w :: w in words && IsProfileField(w);
    var keys := seq(|body|, i requires 0 <= i < |body| => JStr(body[i].key));
    assert keys == [JStr("firstName"), JStr("role")];
    assert JStr("active") !in keys && JStr("password") !in keys && JStr("email") !in keys;
  }

  /** As written, the first entry's value is inspected as if it were a key:
      a first name spelled "role" is refused; the intended check accepts it. */
  lemma FieldNameAsValueRefused()
    ensures var body := [Entry("firstName", JStr("role"))];
            UpdateVerdict(body) == Ok(Restriction(true, NotAuthorizedHere)) &&
            !IntendedUpdateVerdict(body).restricted
  {
    var body := [Entry("firstName", JStr("role"))];
    var words := FirstEntryWords(body);
    assert JStr("active") !in words && JStr("password") !in words && JStr("email") !in words;
    assert JStr("role") in words;
    assert !IsRestrictedWord(JStr("firstName"));
  }
}
