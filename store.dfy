/** The document store the handlers share: the User collection, the ids of
    the UserInfo documents, and the Refresher collection (one record per
    refresh token ever issued and not yet presented). */
module Store {
  import opened Tokens
  import opened UserModel

  datatype StoreState = StoreState(users: Users, infos: set<InfoId>, refreshers: multiset<Jwt>)

  class Database {
    var users: Users
    var infos: set<InfoId>
    var refreshers: multiset<Jwt>

    function State(): StoreState
      reads this
    {
      StoreState(users, infos, refreshers)
    }

    constructor (s: StoreState)
      ensures State() == s
    {
      users, infos, refreshers := s.users, s.infos, s.refreshers;
    }
  }
}
