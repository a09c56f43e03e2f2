/** Responses, error objects and the outcome of one request-handling stage. */
module Http {
  import opened Records

  /** The body a handler sends. JSON documents carry their id beside the record. */
  datatype Payload =
    | Empty
    | Null
    | Error(message: string)
    | Text(text: string)
    | BlogJson(blogId: BlogId, blog: Blog)
    | BlogsJson(blogs: map<BlogId, Blog>)
    | UserJson(userId: UserId, user: User)
    | UsersJson(users: map<UserId, User>)
    | PersonJson(person: Person)
    | PersonsJson(persons: seq<Person>)

  datatype Response = Response(status: int, body: Payload)

  /** An error object handed to the error middleware: its `name`, its `message` and, for
      database driver errors, its numeric `code`. */
  datatype Failure = Failure(name: string, message: string, code: Option<int>)

  /** How a middleware or handler ends: it answered, it passed an error on, or it called `next()`. */
  datatype Step = Respond(response: Response) | Raise(failure: Failure) | Continue

  /** What the database driver throws when a lookup key is not an ObjectId. */
  function CastError(): Failure
  {
    Failure("CastError", "Cast to ObjectId failed", None)
  }

  /** What JavaScript throws when a handler reads a property of `null` or `undefined`. */
  function NullDereference(property: string): Failure
  {
    Failure("TypeError", "Cannot read properties of null (reading '" + property + "')", None)
  }
}
