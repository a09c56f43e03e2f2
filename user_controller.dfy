/** The user routes: registration with its ordered validation, and the listing of users. */
module UserController {
  import opened Records
  import opened Http
  import opened Store

  /** The JSON body of a registration request; every field may be absent. */
  datatype Registration = Registration(username: Option<string>, name: Option<string>, password: Option<string>)

  /** A string field that is absent, empty or shorter than three characters. */
  predicate TooShort(s: Option<string>)
  {
    s.None? || |s.value| < 3
  }

  /** The message of the first validation rule the request breaks, None when it breaks none.
      The rules, in order: username of three or more characters, a name, a password of three or
      more characters, a username no stored user has. */
  function RegistrationError(body: Registration, users: map<UserId, User>): (e: Option<string>)
    ensures e.None? <==>
      !TooShort(body.username) && !Missing(body.name) && !TooShort(body.password)
      && !UsernameTaken(users, body.username.value)
    ensures e == Some("username must be at least 3 characters long") <==> TooShort(body.username)
    ensures e == Some("name is required") <==> !TooShort(body.username) && Missing(body.name)
    ensures e == Some("password must be at least 3 characters long")
        <==> !TooShort(body.username) && !Missing(body.name) && TooShort(body.password)
    ensures e == Some("username must be unique")
        <==> !TooShort(body.username) && !Missing(body.name) && !TooShort(body.password)
             && UsernameTaken(users, body.username.value)
  {
    if TooShort(body.username) then Some("username must be at least 3 characters long")
    else if Missing(body.name) then Some("name is required")
    else if TooShort(body.password) then Some("password must be at least 3 characters long")
    else if UsernameTaken(users, body.username.value) then Some("username must be unique")
    else None
  }

  /** Adding a user whose username is not taken keeps the usernames distinct. */
  lemma InsertKeepsUsernamesUnique(users: map<UserId, User>, id: UserId, user: User)
    requires UniqueUsernames(users) && id !in users && !UsernameTaken(users, user.username)
    ensures UniqueUsernames(users[id := user])
  {
    var updated := users[id := user];
    forall u, v | u in updated && v in updated && u != v
      ensures updated[u].username != updated[v].username
    {
      if u == id {
        assert users[v].username != user.username;
      } else if v == id {
        assert users[u].username != user.username;
      }
    }
  }

  /** Validates the request and, when it breaks no rule, stores a new user under the id the
      database generates, keeping only the salted hash of the password (`hash` stands for the
      hashing of this call). Every rejection answers 400 and leaves the store unchanged. */
  method Register(db: Database, body: Registration, hash: string -> string, newId: UserId) returns (r: Response)
    requires db.Valid() && newId !in db.users
    modifies db
    ensures db.Valid() && db.blogs == old(db.blogs)
    ensures RegistrationError(body, old(db.users)).Some? ==>
      r == Response(400, Error(RegistrationError(body, old(db.users)).value)) && db.users == old(db.users)
    ensures RegistrationError(body, old(db.users)).None? ==>
      var user := User(body.username.value, body.name.value, hash(body.password.value), []);
      && db.users == old(db.users)[newId := user]
      && |db.users| == |old(db.users)| + 1
      && r == Response(201, UserJson(newId, user))
  {
    if TooShort(body.username) {
      return Response(400, Error("username must be at least 3 characters long"));
    }
    if Missing(body.name) {
      return Response(400, Error("name is required"));
    }
    if TooShort(body.password) {
      return Response(400, Error("password must be at least 3 characters long"));
    }
    var taken := UsernameTaken(db.users, body.username.value);
    if taken {
      return Response(400, Error("username must be unique"));
    }
    var user := User(body.username.value, body.name.value, hash(body.password.value), []);
    InsertKeepsUsernamesUnique(db.users, newId, user);
    db.users := db.users[newId := user];
    r := Response(201, UserJson(newId, user));
  }

  /** Lists every stored user. */
  method List(db: Database) returns (r: Response)
    ensures r == Response(200, UsersJson(db.users))
  {
    r := Response(200, UsersJson(db.users));
  }
}
