/** The blog API as the application wires it: every blog route runs behind the token extractor
    and the user extractor, and an error any stage raises goes to the error middleware. */
module App {
  import opened Records
  import opened Http
  import opened Store
  import opened Middleware
  import BlogController

  datatype BlogRoute =
    | ListBlogs
    | ShowBlog(id: BlogId)
    | CreateBlog(body: BlogController.BlogBody, newId: BlogId)
    | DeleteBlog(id: BlogId)
    | UpdateLikes(id: BlogId, likes: Option<int>)

  /** What the client receives once a stage ends the request: its answer; for a raised error,
      the error middleware's answer, or the framework's default 500 when it passes the error on;
      the unknown-endpoint answer when a stage continues past every route. */
  function Finish(step: Step): (r: Response)
    ensures step.Respond? ==> r == step.response
    ensures step.Raise? ==> r.status in {400, 401, 500}
    ensures step.Raise? && ErrorHandler(step.failure).Some? ==> r == ErrorHandler(step.failure).value
    ensures step.Raise? && ErrorHandler(step.failure).None? ==> r == Response(500, Text("Internal Server Error"))
    ensures step.Continue? ==> r.status == 404
  {
    match step
    case Respond(response) => response
    case Raise(failure) =>
      if ErrorHandler(failure).Some? then ErrorHandler(failure).value else Response(500, Text("Internal Server Error"))
    case Continue => UnknownEndpoint()
  }

  /** Whether the two identity stages let the request through: a bearer token whose verified
      payload carries an id that casts to an ObjectId. */
  predicate PassesIdentity(authorization: Option<string>, verify: string -> Verification)
  {
    var t := BearerToken(authorization);
    && !Missing(t)
    && verify(t.value).Verified?
    && !Missing(verify(t.value).id)
    && IsObjectId(verify(t.value).id.value)
  }

  /** The user the identity stages attach: the token's subject, when it names a stored user. */
  function Requester(authorization: Option<string>, verify: string -> Verification, users: map<UserId, User>): Option<UserId>
  {
    if PassesIdentity(authorization, verify) && verify(BearerToken(authorization).value).id.value in users
    then verify(BearerToken(authorization).value).id
    else None
  }

  /** Serves one request to a blog route. */
  method ServeBlogs(db: Database, authorization: Option<string>, route: BlogRoute, verify: string -> Verification)
    returns (r: Response)
    requires db.Valid()
    requires route.CreateBlog? ==> route.newId !in db.blogs
    modifies db
    ensures db.Valid()
    // A blog's owner, once set, is never reassigned.
    ensures forall b :: b in db.blogs && b in old(db.blogs) ==> db.blogs[b].owner == old(db.blogs)[b].owner
    // Without a bearer token every blog route, reads included, answers 401 and changes nothing.
    ensures Missing(BearerToken(authorization)) ==>
      r == Response(401, Error("token missing")) && db.blogs == old(db.blogs) && db.users == old(db.users)
    // Reads change nothing, and only a create changes the users.
    ensures route.ListBlogs? || route.ShowBlog? ==> db.blogs == old(db.blogs) && db.users == old(db.users)
    ensures !route.CreateBlog? ==> db.users == old(db.users)
    // Only a request that passes identity can change the store.
    ensures !PassesIdentity(authorization, verify) ==> db.blogs == old(db.blogs) && db.users == old(db.users)
    // A delete by an authenticated user who does not own the blog answers 401 and the blog stays.
    ensures (&& route.DeleteBlog? && IsObjectId(route.id) && route.id in old(db.blogs)
             && Requester(authorization, verify, old(db.users)).Some?
             && old(db.blogs)[route.id].owner.Some?
             && old(db.blogs)[route.id].owner != Requester(authorization, verify, old(db.users))) ==>
      r == Response(401, Error("Unauthorized")) && db.blogs == old(db.blogs)
    // A delete by the owner removes that blog and nothing else.
    ensures (&& route.DeleteBlog? && IsObjectId(route.id) && route.id in old(db.blogs)
             && Requester(authorization, verify, old(db.users)).Some?
             && old(db.blogs)[route.id].owner == Requester(authorization, verify, old(db.users))) ==>
      r == BlogController.DeletedReply() && db.blogs == old(db.blogs) - {route.id}
    // A create by an authenticated user with title and url stores one blog owned by that user.
    ensures (&& route.CreateBlog? && Requester(authorization, verify, old(db.users)).Some?
             && !Missing(route.body.title) && !Missing(route.body.url)) ==>
      var owner := Requester(authorization, verify, old(db.users)).value;
      && db.blogs == old(db.blogs)[route.newId := BlogController.NewBlog(route.body, owner)]
      && db.blogs[route.newId].owner == Some(owner)
      && db.users == old(db.users)[owner := old(db.users)[owner].(blogs := old(db.users)[owner].blogs + [route.newId])]
      && r.status == 201
    // Any request that passes identity may change the likes of any blog, owner or not.
    ensures (&& route.UpdateLikes? && PassesIdentity(authorization, verify) && IsObjectId(route.id)
             && route.id in old(db.blogs) && route.likes.Some?) ==>
      db.blogs == old(db.blogs)[route.id := old(db.blogs)[route.id].(likes := route.likes.value)]
      && r.status == 200
  {
    var req := new Request(authorization);
    req.TokenExtractor();
    var step := req.UserExtractor(db.users, verify);
    assert req.token == BearerToken(authorization);
    assert step.Continue? ==> PassesIdentity(authorization, verify) && req.user == Requester(authorization, verify, db.users);
    if step.Continue? {
      match route
      case ListBlogs =>
        var answer := BlogController.List(db);
        step := Respond(answer);
      case ShowBlog(id) =>
        step := BlogController.Show(db, id);
      case CreateBlog(body, newId) =>
        step := BlogController.Create(db, req, body, newId);
      case DeleteBlog(id) =>
        step := BlogController.Delete(db, req, id);
      case UpdateLikes(id, likes) =>
        step := BlogController.UpdateLikes(db, id, likes);
    }
    r := Finish(step);
  }
}
