/** Identifiers, documents and small JavaScript notions shared by every part of the model. */
module Records {

  datatype Option<+T> = None | Some(value: T)

  /** Document identifiers as the database hands them out and as they arrive in paths and tokens. */
  type BlogId = string
  type UserId = string

  predicate IsHexDigit(c: char)
  {
    '0' <= c <= '9' || 'a' <= c <= 'f' || 'A' <= c <= 'F'
  }

  /** Whether a string can be cast to a database ObjectId: 24 hexadecimal digits. */
  predicate IsObjectId(s: string)
  {
    |s| == 24 && forall i :: 0 <= i < |s| ==> IsHexDigit(s[i])
  }

  /** JavaScript truthiness of an optional string field: an absent field and "" are both falsy. */
  predicate Missing(s: Option<string>)
  {
    s.None? || s.value == ""
  }

  /** A stored blog. `owner` is the `user` reference; documents created before ownership existed lack it. */
  datatype Blog = Blog(title: string, author: Option<string>, url: string, likes: int, owner: Option<UserId>)

  /** A stored user: only the hash of the password is kept, and the ids of the blogs it created. */
  datatype User = User(username: string, name: string, passwordHash: string, blogs: seq<BlogId>)

  /** An entry of the in-memory phonebook. */
  datatype Person = Person(id: int, name: string, number: string)
}
