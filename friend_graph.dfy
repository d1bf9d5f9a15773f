/** What the five relationship handlers of controllers/userController.js
    promise: when each accepts or rejects, what an accepted call changes, and
    that an accepted call keeps the relationship invariant (sent requests
    mirrored by pending ones, friendship symmetric, nobody listing
    themself). */
module FriendGraph {
  import opened Outcomes
  import opened Tokens
  import opened UserModel
  import opened UserController

  /** Only the records of `a` and `b` may differ, and no user appears or
      disappears. */
  predicate OnlyPairChanged(users: Users, users': Users, a: UserId, b: UserId)
  {
    users'.Keys == users.Keys &&
    forall u :: u in users && u != a && u != b ==> users'[u] == users[u]
  }

  /** Both ends of the pair are active users. */
  predicate BothActive(users: Users, a: UserId, b: UserId)
  {
    FindById(users, a).Some? && FindById(users, b).Some?
  }

  // ---------------------------------------------------------------------
  // addFriend

  /** A request is refused, with nothing changed, exactly when the route
      spells the caller's own id or names a user `findById` cannot see. */
  lemma AddFriendOutcome(users: Users, caller: UserId, route: RouteId)
    ensures var s := AddFriendStep(users, caller, route);
            (s.outcome.Ok? <==> !Spells(route, caller) && route.target in users && users[route.target].active) &&
            (!s.outcome.Ok? ==> s.outcome == BareStatus && s.users == users)
  {
  }

  /** An accepted request to another user appends the caller to the
      addressee's `pendingRequests` and, when the caller is an active user,
      the addressee to the caller's `sentRequests`, even if the same entries
      are there already. Nothing else changes. */
  lemma AddFriendEffect(users: Users, caller: UserId, route: RouteId)
    requires route.target != caller
    requires AddFriendStep(users, caller, route).outcome.Ok?
    ensures var id := route.target;
            var users' := AddFriendStep(users, caller, route).users;
            OnlyPairChanged(users, users', caller, id) &&
            users'[id] == users[id].(pendingRequests := users[id].pendingRequests + [caller]) &&
            (caller in users && users[caller].active ==>
               users'[caller] == users[caller].(sentRequests := users[caller].sentRequests + [id])) &&
            (caller in users && !users[caller].active ==> users'[caller] == users[caller])
  {
  }

  /** A request from an active caller to another user keeps the invariant. */
  lemma AddFriendKeepsConsistency(users: Users, caller: UserId, route: RouteId)
    requires GraphConsistent(users)
    requires caller in users ==> users[caller].active
    requires route.target != caller || route.canonical
    ensures GraphConsistent(AddFriendStep(users, caller, route).users)
  {
    if AddFriendStep(users, caller, route).outcome.Ok? {
      AddFriendEffect(users, caller, route);
      AddingRequestKeepsConsistency(users, AddFriendStep(users, caller, route).users, caller, route.target);
    }
  }

  /** Adding one request at both ends, or only at the receiver's when the
      sender is not stored, keeps the invariant. */
  lemma AddingRequestKeepsConsistency(users: Users, users': Users, sender: UserId, receiver: UserId)
    requires GraphConsistent(users)
    requires sender != receiver && OnlyPairChanged(users, users', sender, receiver)
    requires receiver in users
    requires users'[receiver] == users[receiver].(pendingRequests := users[receiver].pendingRequests + [sender])
    requires sender in users ==>
               users'[sender] == users[sender].(sentRequests := users[sender].sentRequests + [receiver])
    ensures GraphConsistent(users')
  {
    forall a, b | a in users' && b in users'
      ensures b in users'[a].sentRequests <==> a in users'[b].pendingRequests
    {
      var sent := users'[a].sentRequests;
      var pending := users'[b].pendingRequests;
      if a == sender && b == receiver {
        assert b in sent && a in pending;
      } else {
        assert sent == users[a].sentRequests || (a == sender && sent == users[a].sentRequests + [receiver]);
        assert pending == users[b].pendingRequests || (b == receiver && pending == users[b].pendingRequests + [sender]);
        assert b in sent <==> b in users[a].sentRequests;
        assert a in pending <==> a in users[b].pendingRequests;
      }
    }
    forall a | a in users' ensures users'[a].friends == users[a].friends {
    }
  }

  /** The update of the caller goes through the active filter and the save
      of the addressee does not: a deactivated caller whose access token is
      still valid leaves a pending request that no sent request mirrors. */
  lemma AddFriendFromDeactivatedCallerBreaksMirror()
    ensures var dormant := NewUser("Ann", "Lee", "ann@example.com", "secret").(active := false);
            var other := NewUser("Bob", "Ray", "bob@example.com", "secret");
            var users := map[1 := dormant, 2 := other];
            GraphConsistent(users) &&
            AddFriendStep(users, 1, RouteId(2, true)).outcome.Ok? &&
            !RequestsMirrored(AddFriendStep(users, 1, RouteId(2, true)).users)
  {
    var dormant := NewUser("Ann", "Lee", "ann@example.com", "secret").(active := false);
    var other := NewUser("Bob", "Ray", "bob@example.com", "secret");
    var users := map[1 := dormant, 2 := other];
    var users' := AddFriendStep(users, 1, RouteId(2, true)).users;
    assert 1 in users'[2].pendingRequests;
    assert 2 !in users'[1].sentRequests;
  }

  /** The self check compares strings: the caller's own id in another
      spelling passes it, and the caller ends up in both of its own request
      lists. Confirming that request with the canonical spelling then passes
      both membership tests; the first save makes the caller its own friend
      and the second fails on the stale version. */
  lemma SelfRequestInOtherSpelling(users: Users, caller: UserId)
    requires FindById(users, caller).Some?
    ensures var s := AddFriendStep(users, caller, RouteId(caller, false));
            var me := users[caller];
            s.outcome.Ok? &&
            s.users == users[caller := me.(sentRequests := me.sentRequests + [caller],
                                           pendingRequests := me.pendingRequests + [caller])] &&
            !NoSelfEntries(s.users) &&
            var c := ConfirmFriendStep(s.users, caller, RouteId(caller, true));
            c.outcome == Crash && caller in c.users[caller].friends
  {
    var s := AddFriendStep(users, caller, RouteId(caller, false));
    var me' := s.users[caller];
    assert caller in me'.pendingRequests && caller in me'.sentRequests;
  }

  /** The check `addFriend` evidently means: the request is refused when the
      route names the caller, however spelt, or when the caller is not an
      active user. */
  function IntendedAddFriendStep(users: Users, caller: UserId, route: RouteId): (s: Step)
    ensures s.outcome.Ok? <==> route.target != caller && BothActive(users, caller, route.target)
    ensures !s.outcome.Ok? ==> s == Step(BareStatus, users)
  {
    if route.target == caller || FindById(users, caller).None? then Step(BareStatus, users)
    else AddFriendStep(users, caller, route)
  }

  /** The corrected request keeps the invariant with no condition on the
      caller or the spelling of the route. */
  lemma IntendedAddFriendKeepsConsistency(users: Users, caller: UserId, route: RouteId)
    requires GraphConsistent(users)
    ensures GraphConsistent(IntendedAddFriendStep(users, caller, route).users)
  {
    if route.target != caller && FindById(users, caller).Some? {
      AddFriendKeepsConsistency(users, caller, route);
    }
  }

  // ---------------------------------------------------------------------
  // confirmFriend

  /** Confirming succeeds exactly when the route spells another, active
      user whose request the caller holds and who holds the caller as sent.
      A refusal changes nothing unless the caller confirms a request from
      itself: then the first save lands and the second throws. A missing
      mirrored pair between two active users is a 400. */
  lemma ConfirmFriendOutcome(users: Users, caller: UserId, route: RouteId)
    ensures var id := route.target;
            var s := ConfirmFriendStep(users, caller, route);
            (s.outcome.Ok? <==> id != caller && route.canonical && BothActive(users, caller, id) &&
                                 id in users[caller].pendingRequests &&
                                 caller in users[id].sentRequests) &&
            (FindById(users, id).None? ==> s == Step(BareStatus, users)) &&
            (s.users != users ==> s.outcome.Ok? || (Spells(route, caller) && s.outcome == Crash)) &&
            (id != caller && BothActive(users, caller, id) && !s.outcome.Ok? ==> s.outcome == Fail(400, NoSuchRequest))
  {
  }

  /** After a confirmation each is in the other's `friends`; the caller's
      pending entries for the other and the other's sent entries for the
      caller are all gone, and no other field of theirs changes. */
  lemma ConfirmFriendEffect(users: Users, caller: UserId, route: RouteId)
    requires ConfirmFriendStep(users, caller, route).outcome.Ok?
    ensures var id := route.target;
            var users' := ConfirmFriendStep(users, caller, route).users;
            caller != id &&
            OnlyPairChanged(users, users', caller, id) &&
            users'[caller] == users[caller].(friends := users[caller].friends + [id],
                                             pendingRequests := RemoveAll(users[caller].pendingRequests, id)) &&
            users'[id] == users[id].(friends := users[id].friends + [caller],
                                     sentRequests := RemoveAll(users[id].sentRequests, caller)) &&
            id !in users'[caller].pendingRequests && caller !in users'[id].sentRequests
  {
    var id := route.target;
    assert id in users && caller in users;
    var me := users[caller];
    var addressee := users[id];
    var me' := me.(friends := me.friends + [id], pendingRequests := RemoveAll(me.pendingRequests, id));
    var addressee' := addressee.(friends := addressee.friends + [caller],
                                 sentRequests := RemoveAll(addressee.sentRequests, caller));
    assert id != caller;
    assert ConfirmFriendStep(users, caller, route).users == users[caller := me'][id := addressee'];
  }

  lemma ConfirmFriendKeepsConsistency(users: Users, caller: UserId, route: RouteId)
    requires GraphConsistent(users)
    ensures GraphConsistent(ConfirmFriendStep(users, caller, route).users)
  {
    var id := route.target;
    var users' := ConfirmFriendStep(users, caller, route).users;
    if ConfirmFriendStep(users, caller, route).outcome.Ok? {
      ConfirmFriendEffect(users, caller, route);
      ConfirmKeepsMirror(users, users', caller, id);
      ConfirmKeepsFriendSymmetry(users, users', caller, id);
    } else if id == caller {
      SelfAddressedCallsRejected(users, caller, route);
    } else {
      ConfirmFriendOutcome(users, caller, route);
    }
  }

  /** The request half of ConfirmFriendKeepsConsistency. */
  lemma ConfirmKeepsMirror(users: Users, users': Users, caller: UserId, id: UserId)
    requires RequestsMirrored(users) && caller != id
    requires OnlyPairChanged(users, users', caller, id)
    requires caller in users && id in users
    requires users'[caller].pendingRequests == RemoveAll(users[caller].pendingRequests, id)
    requires users'[id].sentRequests == RemoveAll(users[id].sentRequests, caller)
    requires users'[caller].sentRequests == users[caller].sentRequests
    requires users'[id].pendingRequests == users[id].pendingRequests
    ensures RequestsMirrored(users')
  {
    forall a, b | a in users' && b in users'
      ensures b in users'[a].sentRequests <==> a in users'[b].pendingRequests
    {
      if a == id && b == caller {
      } else {
        assert b in users'[a].sentRequests <==> b in users[a].sentRequests;
        assert a in users'[b].pendingRequests <==> a in users[b].pendingRequests;
      }
    }
  }

  /** The friendship half of ConfirmFriendKeepsConsistency. */
  lemma ConfirmKeepsFriendSymmetry(users: Users, users': Users, caller: UserId, id: UserId)
    requires FriendsSymmetric(users) && caller != id
    requires OnlyPairChanged(users, users', caller, id)
    requires caller in users && id in users
    requires users'[caller].friends == users[caller].friends + [id]
    requires users'[id].friends == users[id].friends + [caller]
    ensures FriendsSymmetric(users')
  {
    forall a, b | a in users' && b in users'
      ensures b in users'[a].friends <==> a in users'[b].friends
    {
      if (a == caller && b == id) || (a == id && b == caller) {
      } else {
        assert b in users'[a].friends <==> b in users[a].friends;
        assert a in users'[b].friends <==> a in users[b].friends;
      }
    }
  }

  // ---------------------------------------------------------------------
  // cancelRequest

  /** Withdrawing succeeds exactly when the route spells another, active
      user and the request is mirrored between the two. A refusal is a 400
      or a crash on a missing document; between two active users it is the
      400. It changes nothing unless the caller withdraws a request to
      itself. */
  lemma CancelRequestOutcome(users: Users, caller: UserId, route: RouteId)
    ensures var id := route.target;
            var s := CancelRequestStep(users, caller, route);
            (s.outcome.Ok? <==> id != caller && route.canonical && BothActive(users, caller, id) &&
                                 id in users[caller].sentRequests &&
                                 caller in users[id].pendingRequests) &&
            (!s.outcome.Ok? ==> s.outcome == Fail(400, NoSuchRequest) || s.outcome == Crash) &&
            (id != caller && BothActive(users, caller, id) && !s.outcome.Ok? ==> s.outcome == Fail(400, NoSuchRequest)) &&
            (s.users != users ==> s.outcome.Ok? || (Spells(route, caller) && s.outcome == Crash))
  {
  }

  /** Withdrawing removes exactly the mirrored pair "caller sent, addressee
      pending" and touches neither `friends` list. */
  lemma CancelRequestEffect(users: Users, caller: UserId, route: RouteId)
    requires CancelRequestStep(users, caller, route).outcome.Ok?
    ensures var id := route.target;
            var users' := CancelRequestStep(users, caller, route).users;
            caller != id &&
            OnlyPairChanged(users, users', caller, id) &&
            users'[caller] == users[caller].(sentRequests := RemoveAll(users[caller].sentRequests, id)) &&
            users'[id] == users[id].(pendingRequests := RemoveAll(users[id].pendingRequests, caller)) &&
            id !in users'[caller].sentRequests && caller !in users'[id].pendingRequests
  {
  }

  lemma CancelRequestKeepsConsistency(users: Users, caller: UserId, route: RouteId)
    requires GraphConsistent(users)
    ensures GraphConsistent(CancelRequestStep(users, caller, route).users)
  {
    if CancelRequestStep(users, caller, route).outcome.Ok? {
      CancelRequestEffect(users, caller, route);
      DroppingRequestKeepsConsistency(users, CancelRequestStep(users, caller, route).users, caller, route.target);
    } else if route.target == caller {
      SelfAddressedCallsRejected(users, caller, route);
    } else {
      CancelRequestOutcome(users, caller, route);
    }
  }

  /** Removing one request from both ends, the sender's `sentRequests` and
      the receiver's `pendingRequests`, keeps the invariant. */
  lemma DroppingRequestKeepsConsistency(users: Users, users': Users, sender: UserId, receiver: UserId)
    requires GraphConsistent(users)
    requires sender != receiver && OnlyPairChanged(users, users', sender, receiver)
    requires sender in users && receiver in users
    requires users'[sender] == users[sender].(sentRequests := RemoveAll(users[sender].sentRequests, receiver))
    requires users'[receiver] == users[receiver].(pendingRequests := RemoveAll(users[receiver].pendingRequests, sender))
    ensures GraphConsistent(users')
  {
    DroppingRequestKeepsMirror(users, users', sender, receiver);
    forall a | a in users' ensures users'[a].friends == users[a].friends {
    }
  }

  lemma DroppingRequestKeepsMirror(users: Users, users': Users, sender: UserId, receiver: UserId)
    requires RequestsMirrored(users)
    requires sender != receiver && OnlyPairChanged(users, users', sender, receiver)
    requires sender in users && receiver in users
    requires users'[sender] == users[sender].(sentRequests := RemoveAll(users[sender].sentRequests, receiver))
    requires users'[receiver] == users[receiver].(pendingRequests := RemoveAll(users[receiver].pendingRequests, sender))
    ensures RequestsMirrored(users')
  {
    forall a, b | a in users' && b in users'
      ensures b in users'[a].sentRequests <==> a in users'[b].pendingRequests
    {
      var sent := users'[a].sentRequests;
      var pending := users'[b].pendingRequests;
      if a == sender && b == receiver {
        assert b !in sent && a !in pending;
      } else {
        assert sent == users[a].sentRequests || (a == sender && sent == RemoveAll(users[a].sentRequests, receiver));
        assert pending == users[b].pendingRequests || (b == receiver && pending == RemoveAll(users[b].pendingRequests, sender));
        assert b in sent <==> b in users[a].sentRequests;
        assert a in pending <==> a in users[b].pendingRequests;
      }
    }
  }

  // ---------------------------------------------------------------------
  // deleteRequest

  /** Declining succeeds exactly when the route spells another, active user
      and the request is mirrored between the two. A refusal is a 400 or a
      crash on a missing document; between two active users it is the 400.
      It changes nothing unless the caller declines a request from itself. */
  lemma DeleteRequestOutcome(users: Users, caller: UserId, route: RouteId)
    ensures var id := route.target;
            var s := DeleteRequestStep(users, caller, route);
            (s.outcome.Ok? <==> id != caller && route.canonical && BothActive(users, caller, id) &&
                                 id in users[caller].pendingRequests &&
                                 caller in users[id].sentRequests) &&
            (!s.outcome.Ok? ==> s.outcome == Fail(400, NoSuchRequest) || s.outcome == Crash) &&
            (id != caller && BothActive(users, caller, id) && !s.outcome.Ok? ==> s.outcome == Fail(400, NoSuchRequest)) &&
            (s.users != users ==> s.outcome.Ok? || (Spells(route, caller) && s.outcome == Crash))
  {
  }

  /** Declining removes exactly the mirrored pair "caller pending, sender
      sent" and adds nobody to `friends`. */
  lemma DeleteRequestEffect(users: Users, caller: UserId, route: RouteId)
    requires DeleteRequestStep(users, caller, route).outcome.Ok?
    ensures var id := route.target;
            var users' := DeleteRequestStep(users, caller, route).users;
            caller != id &&
            OnlyPairChanged(users, users', caller, id) &&
            users'[caller] == users[caller].(pendingRequests := RemoveAll(users[caller].pendingRequests, id)) &&
            users'[id] == users[id].(sentRequests := RemoveAll(users[id].sentRequests, caller)) &&
            id !in users'[caller].pendingRequests && caller !in users'[id].sentRequests
  {
  }

  lemma DeleteRequestKeepsConsistency(users: Users, caller: UserId, route: RouteId)
    requires GraphConsistent(users)
    ensures GraphConsistent(DeleteRequestStep(users, caller, route).users)
  {
    if DeleteRequestStep(users, caller, route).outcome.Ok? {
      DeleteRequestEffect(users, caller, route);
      DroppingRequestKeepsConsistency(users, DeleteRequestStep(users, caller, route).users, route.target, caller);
    } else if route.target == caller {
      SelfAddressedCallsRejected(users, caller, route);
    } else {
      DeleteRequestOutcome(users, caller, route);
    }
  }

  // ---------------------------------------------------------------------
  // deleteFriend

  /** Unfriending succeeds exactly when the route spells another, active
      user and each lists the other as a friend. The caller's own id,
      canonically spelt, is a 400 "can't delete yourself"; between two active
      users any other refusal is the 400 "no such user". A refusal changes
      nothing. */
  lemma DeleteFriendOutcome(users: Users, caller: UserId, route: RouteId)
    ensures var id := route.target;
            var s := DeleteFriendStep(users, caller, route);
            (s.outcome.Ok? <==> id != caller && route.canonical && BothActive(users, caller, id) &&
                                 id in users[caller].friends && caller in users[id].friends) &&
            (!s.outcome.Ok? ==> s.users == users) &&
            (Spells(route, caller) ==> s.outcome == Fail(400, CannotDeleteSelf)) &&
            (!Spells(route, caller) && BothActive(users, caller, id) && !s.outcome.Ok? ==>
               s.outcome == Fail(400, NoSuchUser))
  {
  }

  /** Unfriending removes each from the other's `friends`, every
      occurrence, and changes nothing else. */
  lemma DeleteFriendEffect(users: Users, caller: UserId, route: RouteId)
    requires DeleteFriendStep(users, caller, route).outcome.Ok?
    ensures var id := route.target;
            var users' := DeleteFriendStep(users, caller, route).users;
            caller != id &&
            OnlyPairChanged(users, users', caller, id) &&
            users'[caller] == users[caller].(friends := RemoveAll(users[caller].friends, id)) &&
            users'[id] == users[id].(friends := RemoveAll(users[id].friends, caller)) &&
            id !in users'[caller].friends && caller !in users'[id].friends
  {
  }

  lemma DeleteFriendKeepsConsistency(users: Users, caller: UserId, route: RouteId)
    requires GraphConsistent(users)
    ensures GraphConsistent(DeleteFriendStep(users, caller, route).users)
  {
    if DeleteFriendStep(users, caller, route).outcome.Ok? {
      DeleteFriendEffect(users, caller, route);
      DroppingFriendshipKeepsConsistency(users, DeleteFriendStep(users, caller, route).users, caller, route.target);
    }
  }

  /** Removing each of two users from the other's `friends` keeps the
      invariant. */
  lemma DroppingFriendshipKeepsConsistency(users: Users, users': Users, a: UserId, b: UserId)
    requires GraphConsistent(users)
    requires a != b && OnlyPairChanged(users, users', a, b)
    requires a in users && b in users
    requires users'[a] == users[a].(friends := RemoveAll(users[a].friends, b))
    requires users'[b] == users[b].(friends := RemoveAll(users[b].friends, a))
    ensures GraphConsistent(users')
  {
    forall x, y | x in users' && y in users'
      ensures y in users'[x].friends <==> x in users'[y].friends
    {
      if (x == a && y == b) || (x == b && y == a) {
      } else {
        assert y in users'[x].friends <==> y in users[x].friends;
        assert x in users'[y].friends <==> x in users[y].friends;
      }
    }
    forall x | x in users'
      ensures users'[x].sentRequests == users[x].sentRequests && users'[x].pendingRequests == users[x].pendingRequests
    {
    }
  }

  /** Unfriending the same user twice: the second call is a 400 and changes
      nothing. */
  lemma DeleteFriendTwiceFails(users: Users, caller: UserId, route: RouteId)
    requires DeleteFriendStep(users, caller, route).outcome.Ok?
    ensures var users' := DeleteFriendStep(users, caller, route).users;
            DeleteFriendStep(users', caller, route) == Step(Fail(400, NoSuchUser), users')
  {
    DeleteFriendEffect(users, caller, route);
  }

  // ---------------------------------------------------------------------
  // Whole exchanges

  /** A request followed by its confirmation leaves the two users friends of
      each other, with no request between them left in either direction the
      request took. */
  lemma SendThenConfirmMakesFriends(users: Users, a: UserId, b: UserId)
    requires a != b && BothActive(users, a, b)
    ensures var s1 := AddFriendStep(users, a, RouteId(b, true));
            var s2 := ConfirmFriendStep(s1.users, b, RouteId(a, true));
            s1.outcome.Ok? && s2.outcome.Ok? &&
            b in s2.users[a].friends && a in s2.users[b].friends &&
            b !in s2.users[a].sentRequests && a !in s2.users[b].pendingRequests
  {
    var s1 := AddFriendStep(users, a, RouteId(b, true));
    AddFriendEffect(users, a, RouteId(b, true));
    assert a in s1.users[b].pendingRequests && b in s1.users[a].sentRequests;
    ConfirmFriendEffect(s1.users, b, RouteId(a, true));
  }

  /** A call whose route names the caller is never accepted, except by
      `addFriend` when the id is spelt another way. In a collection where
      nobody lists themself such a call changes nothing. */
  lemma SelfAddressedCallsRejected(users: Users, a: UserId, route: RouteId)
    requires route.target == a
    ensures route.canonical ==> AddFriendStep(users, a, route) == Step(BareStatus, users)
    ensures !ConfirmFriendStep(users, a, route).outcome.Ok?
    ensures !CancelRequestStep(users, a, route).outcome.Ok?
    ensures !DeleteRequestStep(users, a, route).outcome.Ok?
    ensures DeleteFriendStep(users, a, route).users == users && !DeleteFriendStep(users, a, route).outcome.Ok?
    ensures NoSelfEntries(users) ==>
              ConfirmFriendStep(users, a, route).users == users &&
              CancelRequestStep(users, a, route).users == users &&
              DeleteRequestStep(users, a, route).users == users
  {
  }
}
