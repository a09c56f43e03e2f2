/** The document store the handlers work on: blogs and users, each keyed by its id. */
module Store {
  import opened Records

  /** No two stored users share a username. */
  predicate UniqueUsernames(users: map<UserId, User>)
  {
    forall u, v :: u in users && v in users && u != v ==> users[u].username != users[v].username
  }

  /** Whether a query by username finds a stored user. */
  predicate UsernameTaken(users: map<UserId, User>, username: string)
  {
    exists u :: u in users && users[u].username == username
  }

  class Database {
    var blogs: map<BlogId, Blog>
    var users: map<UserId, User>

    ghost predicate Valid()
      reads this
    {
      UniqueUsernames(users)
    }

    constructor ()
      ensures Valid() && blogs == map[] && users == map[]
    {
      blogs := map[];
      users := map[];
    }
  }
}
