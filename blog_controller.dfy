/** The blog routes: list, show, create, delete and update likes, over the document store. Create
    and delete read the token and user that the identity middleware attached to the request. */
module BlogController {
  import opened Records
  import opened Http
  import opened Store
  import opened Middleware

  /** The JSON body of a create request; every field may be absent. */
  datatype BlogBody = BlogBody(title: Option<string>, author: Option<string>, url: Option<string>, likes: Option<int>)

  /** Where a handler's chain of guards ends: on a step it takes instead of the change, or on
      the go-ahead for the change. */
  datatype Verdict = Reject(step: Step) | Allow

  /** The likes a new blog starts with: those given, or 0 when absent. */
  function LikesOrZero(likes: Option<int>): (r: int)
    ensures likes.None? ==> r == 0
    ensures likes.Some? ==> r == likes.value
  {
    if likes.Some? then likes.value else 0
  }

  /** The blog a successful create stores: the body's fields, owned by the requester. */
  function NewBlog(body: BlogBody, owner: UserId): Blog
    requires body.title.Some? && body.url.Some?
  {
    Blog(body.title.value, body.author, body.url.value, LikesOrZero(body.likes), Some(owner))
  }

  /** The guards of create, in order: a token, a user on the request, a user id, the user's
      stored record being found, then title and url present, then the loaded user not null. */
  function CreateVerdict(token: Option<string>, user: Option<UserId>, users: map<UserId, User>, body: BlogBody): (v: Verdict)
    ensures v.Allow? <==>
      && !Missing(token) && user.Some? && IsObjectId(user.value) && user.value in users
      && !Missing(body.title) && !Missing(body.url)
    ensures Missing(token) ==> v == Reject(Raise(Failure("JsonWebTokenError", "jwt must be provided", None)))
    ensures && !Missing(token) && user.Some? && IsObjectId(user.value)
            && (Missing(body.title) || Missing(body.url))
            ==> v == Reject(Respond(Response(400, Error("Title and URL are required"))))
    ensures v.Reject? && v.step.Respond? ==>
      v.step.response == Response(400, Error("Title and URL are required")) && (Missing(body.title) || Missing(body.url))
    ensures v.Reject? ==> !v.step.Continue?
  {
    if Missing(token) then Reject(Raise(Failure("JsonWebTokenError", "jwt must be provided", None)))
    else if user.None? then Reject(Raise(NullDereference("_id")))
    else if user.value == "" then Reject(Raise(Failure("JsonWebTokenError", "Token missing or invalid", None)))
    else if !IsObjectId(user.value) then Reject(Raise(CastError()))
    else if Missing(body.title) || Missing(body.url) then Reject(Respond(Response(400, Error("Title and URL are required"))))
    else if user.value !in users then Reject(Raise(NullDereference("_id")))
    else Allow
  }

  /** The guards of delete, in order: the id casts, the blog exists, a token, a user on the
      request, a user id, the blog has an owner, and the owner is the requester. */
  function DeleteVerdict(blogs: map<BlogId, Blog>, id: BlogId, token: Option<string>, user: Option<UserId>): (v: Verdict)
    ensures v.Allow? <==>
      && IsObjectId(id) && id in blogs && !Missing(token)
      && user.Some? && user.value != "" && blogs[id].owner == user
    ensures IsObjectId(id) && id !in blogs ==> v == Reject(Respond(Response(404, Error("Blog not found"))))
    ensures IsObjectId(id) && id in blogs && Missing(token) ==> v == Reject(Respond(Response(401, Error("jwt must be provided"))))
    ensures IsObjectId(id) && id in blogs && !Missing(token) && user.Some? && user.value != ""
         && blogs[id].owner.Some? && blogs[id].owner != user
         ==> v == Reject(Respond(Response(401, Error("Unauthorized"))))
    ensures v.Reject? ==> !v.step.Continue?
  {
    if !IsObjectId(id) then Reject(Raise(CastError()))
    else if id !in blogs then Reject(Respond(Response(404, Error("Blog not found"))))
    else if Missing(token) then Reject(Respond(Response(401, Error("jwt must be provided"))))
    else if user.None? then Reject(Raise(NullDereference("_id")))
    else if user.value == "" then Reject(Respond(Response(401, Error("Token missing or invalid"))))
    else if blogs[id].owner.None? then Reject(Raise(NullDereference("toString")))
    else if blogs[id].owner != user then Reject(Respond(Response(401, Error("Unauthorized"))))
    else Allow
  }

  /** The answer to a successful delete: no content. */
  function DeletedReply(): (r: Response)
    ensures r.status == 204 && r.body == Empty
  {
    Response(204, Empty)
  }

  /** A response whose body is sent before its status is set: the body goes out with the status
      in force when it is sent, 200, and the status set afterwards has no effect. */
  function SendThenStatus(body: Payload, status: int): Response
  {
    Response(200, body)
  }

  /** The answer to a successful delete as written: the deleted document is sent first, then the
      status 204 is set. */
  function DeletedReplyAsWritten(id: BlogId, deleted: Blog): Response
  {
    SendThenStatus(BlogJson(id, deleted), 204)
  }

  /** As written, a successful delete answers 200 with the deleted document rather than 204 with
      no content. */
  lemma DeleteAnswersOkAsWritten(id: BlogId, deleted: Blog)
    ensures DeletedReplyAsWritten(id, deleted) == Response(200, BlogJson(id, deleted))
    ensures DeletedReplyAsWritten(id, deleted) != DeletedReply()
  {
  }

  /** Lists every stored blog. */
  method List(db: Database) returns (r: Response)
    ensures r == Response(200, BlogsJson(db.blogs))
  {
    r := Response(200, BlogsJson(db.blogs));
  }

  /** Shows one blog: a malformed id raises a cast error, an unknown id answers 404 with no body. */
  method Show(db: Database, id: BlogId) returns (step: Step)
    ensures !IsObjectId(id) ==> step == Raise(CastError())
    ensures IsObjectId(id) && id in db.blogs ==> step == Respond(Response(200, BlogJson(id, db.blogs[id])))
    ensures IsObjectId(id) && id !in db.blogs ==> step == Respond(Response(404, Empty))
  {
    if !IsObjectId(id) {
      return Raise(CastError());
    }
    if id in db.blogs {
      step := Respond(Response(200, BlogJson(id, db.blogs[id])));
    } else {
      step := Respond(Response(404, Empty));
    }
  }

  /** Creates a blog owned by the requester, under the id the database generates, and appends
      that id to the owner's list of blogs. A rejected request changes nothing. */
  method Create(db: Database, req: Request, body: BlogBody, newId: BlogId) returns (step: Step)
    requires db.Valid() && newId !in db.blogs
    modifies db
    ensures db.Valid()
    ensures CreateVerdict(req.token, req.user, old(db.users), body).Reject? ==>
      && step == CreateVerdict(req.token, req.user, old(db.users), body).step
      && db.blogs == old(db.blogs) && db.users == old(db.users)
    ensures CreateVerdict(req.token, req.user, old(db.users), body).Allow? ==>
      var owner := req.user.value;
      var blog := NewBlog(body, owner);
      && db.blogs == old(db.blogs)[newId := blog]
      && db.users == old(db.users)[owner := old(db.users)[owner].(blogs := old(db.users)[owner].blogs + [newId])]
      && step == Respond(Response(201, BlogJson(newId, blog)))
  {
    if Missing(req.token) {
      return Raise(Failure("JsonWebTokenError", "jwt must be provided", None));
    }
    if req.user.None? {
      return Raise(NullDereference("_id"));
    }
    var requester := req.user.value;
    if requester == "" {
      return Raise(Failure("JsonWebTokenError", "Token missing or invalid", None));
    }
    if !IsObjectId(requester) {
      return Raise(CastError());
    }
    var found := if requester in db.users then Some(db.users[requester]) else None;
    if Missing(body.title) || Missing(body.url) {
      return Respond(Response(400, Error("Title and URL are required")));
    }
    if found.None? {
      return Raise(NullDereference("_id"));
    }
    var blog := NewBlog(body, requester);
    db.blogs := db.blogs[newId := blog];
    var owner := found.value;
    db.users := db.users[requester := owner.(blogs := owner.blogs + [newId])];
    step := Respond(Response(201, BlogJson(newId, blog)));
  }

  /** Deletes a blog when the requester owns it. Every rejection leaves the store unchanged; a
      successful delete removes that blog only and leaves every user's list of blogs as it was,
      so the owner's list keeps the id of the deleted blog. */
  method Delete(db: Database, req: Request, id: BlogId) returns (step: Step)
    requires db.Valid()
    modifies db
    ensures db.Valid() && db.users == old(db.users)
    ensures DeleteVerdict(old(db.blogs), id, req.token, req.user).Reject? ==>
      step == DeleteVerdict(old(db.blogs), id, req.token, req.user).step && db.blogs == old(db.blogs)
    ensures DeleteVerdict(old(db.blogs), id, req.token, req.user).Allow? ==>
      db.blogs == old(db.blogs) - {id} && step == Respond(DeletedReply())
  {
    if !IsObjectId(id) {
      return Raise(CastError());
    }
    if id !in db.blogs {
      return Respond(Response(404, Error("Blog not found")));
    }
    var blog := db.blogs[id];
    if Missing(req.token) {
      return Respond(Response(401, Error("jwt must be provided")));
    }
    if req.user.None? {
      return Raise(NullDereference("_id"));
    }
    if req.user.value == "" {
      return Respond(Response(401, Error("Token missing or invalid")));
    }
    if blog.owner.None? {
      return Raise(NullDereference("toString"));
    }
    if blog.owner != req.user {
      return Respond(Response(401, Error("Unauthorized")));
    }
    db.blogs := db.blogs - {id};
    step := Respond(DeletedReply());
  }

  /** Replaces the likes of a blog, with no token or ownership check. An unknown id answers 200
      with a null body; absent likes leave the blog as it was. */
  method UpdateLikes(db: Database, id: BlogId, likes: Option<int>) returns (step: Step)
    requires db.Valid()
    modifies db
    ensures db.Valid() && db.users == old(db.users)
    ensures !IsObjectId(id) ==> step == Raise(CastError()) && db.blogs == old(db.blogs)
    ensures IsObjectId(id) && id !in old(db.blogs) ==> step == Respond(Response(200, Null)) && db.blogs == old(db.blogs)
    ensures IsObjectId(id) && id in old(db.blogs) ==>
      var before := old(db.blogs)[id];
      var after := before.(likes := if likes.Some? then likes.value else before.likes);
      && db.blogs == old(db.blogs)[id := after]
      && step == Respond(Response(200, BlogJson(id, after)))
  {
    if !IsObjectId(id) {
      return Raise(CastError());
    }
    if id !in db.blogs {
      return Respond(Response(200, Null));
    }
    var before := db.blogs[id];
    var after := before.(likes := if likes.Some? then likes.value else before.likes);
    db.blogs := db.blogs[id := after];
    step := Respond(Response(200, BlogJson(id, after)));
  }
}
