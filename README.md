# Blog and phonebook API: a Dafny model

This project models the core of a small Express/Mongoose backend. It covers:

- the blog-list statistics (`utils/list_helper.js`): total likes, the favourite blog, and the
  author with the most blogs or the most likes;
- the request-identity middleware and error translation (`utils/middleware.js`): bearer-token
  extraction, resolution of the token's subject to a stored user, the mapping of error objects to
  status codes, and the unknown-endpoint answer;
- the blog routes (`controllers/blog.js`): list, show, create, delete and update likes, over a
  store of blogs and users. Create and delete are gated by the identity that the middleware
  attached, and only the owner may delete;
- user registration (`controllers/user.js`): an ordered, short-circuiting validation chain, a
  unique-username invariant, and storage of the password hash only;
- the in-memory phonebook (`index.js`): a list of persons with lookup, delete by filter, and an
  insert that takes the next id after the largest.

Modules, one per source file or component: `Records` (ids, documents, JavaScript truthiness),
`Http` (responses, error objects, middleware steps), `ListHelper`, `Middleware`, `Store` (the
document store as a class with two maps), `BlogController`, `UserController`, `Phonebook` (a
class over a `seq`), and `App`. `App` is the wiring of `app.js:17-26`: the token extractor, then
the user extractor, then the blog route, then the error middleware.

Collaborators the model does not see are parameters:
- the database's id generator is a `newId` argument, required to be fresh;
- bcrypt's salted hash for one call is a function `hash`;
- `jwt.verify` with the server secret is a function `verify` from a token to a `Verification`:
  a decoded `id` claim, or a malformed, expired or not-yet-active token.

Each route handler is one atomic step on the store.

The model follows the code, also where its behaviour is surprising:
- Every `/api/blogs` route, reads included, runs behind the user extractor (`app.js:20`). A
  request without a bearer token therefore gets 401 "token missing" even on GET.
- Create without a token raises a `JsonWebTokenError`. The error middleware turns it into 401
  "invalid token"; the message "jwt must be provided" is never sent.
- The duplicate-key message of the error middleware is "Username must be unique", with a capital U.

The two defects listed under Findings are the exception: each is modelled as written and
shown to differ, and the request pipeline then runs the corrected behaviour.

## Model

| member | source | states |
|---|---|---|
| ListHelper.Dummy | utils/list_helper.js:1-3 | the result is 1 for every list |
| ListHelper.TotalLikesAppend | utils/list_helper.js:5-7 | the likes of a concatenation are the sum of the likes of its parts (with 0 for the empty list, a monoid homomorphism) |
| ListHelper.TotalLikesBoundsEach | utils/list_helper.js:5-7 | with non-negative likes the total is non-negative and at least the likes of every single blog |
| ListHelper.FoldFavoriteWitness | utils/list_helper.js:10-13 | the reduction ends on its seed or on some blog, no blog has more likes, and every blog after the one it ends on has strictly fewer |
| ListHelper.FavoriteBlogIsLastMaximum | utils/list_helper.js:9-14 | no favourite exactly for the empty list; otherwise the favourite is an element of the list with the most likes, and ties go to the later blog |
| ListHelper.AuthorsAreKeys | utils/list_helper.js:17-20 | a name is a key of the tally exactly when some blog is tallied under it |
| ListHelper.TalliesSumToTotal | utils/list_helper.js:17-20 | the per-author counts add up to the number of blogs, and the per-author likes add up to the total likes |
| ListHelper.Tally | utils/list_helper.js:17-20 | one pass builds an entry for each distinct author, in order of first appearance, holding that author's count or like total |
| ListHelper.MaxEntry | utils/list_helper.js:22-25 | seeded with ("", 0): the result is at least 0 and at least every entry; it is the seed when every entry is negative, otherwise the last entry holding the maximum |
| ListHelper.Leader | utils/list_helper.js:17-25 | tallying then taking the maximum entry yields a total of at least 0 and at least every author's; it is ("", 0) when every total is negative, otherwise the last author in first-appearance order holding the greatest total |
| ListHelper.LeaderIsAuthor | utils/list_helper.js:22-25 | when some author's total is not negative, the leader is a real author, its total is that author's own, and no name has more |
| ListHelper.MostBlogs | utils/list_helper.js:16-26 | ("", 0) for the empty list; otherwise a real author, whose count is that author's number of blogs and is at least every name's count, with ties going to the author who appeared later |
| ListHelper.MostLikes | utils/list_helper.js:28-38 | ("", 0) for the empty list; with non-negative likes, a real author whose total is that author's like sum and at least every name's; in general the seed exactly when every author's total is negative |
| Middleware.UnknownEndpoint | utils/middleware.js:29-31 | always 404 with "unknown endpoint" |
| Middleware.ErrorHandler | utils/middleware.js:34-50 | answers 400 exactly for cast, validation and duplicate-key (code 11000) errors, 401 exactly for invalid and expired tokens, and passes every other error on; the messages are "malformatted id", the validation error's own message, "Username must be unique", "invalid token" and "token expired" |
| Middleware.IndexFrom | utils/middleware.js:55 | the first position at or after the start where the pattern occurs, or none when it occurs nowhere there |
| Middleware.ReplaceFirst | utils/middleware.js:55 | a string pattern that occurs nowhere leaves the string unchanged; otherwise only its first occurrence is replaced |
| Middleware.BearerTokenAsWritten | utils/middleware.js:52-56 | the token as the code strips it: set for exactly the same headers as the intended token, and equal to it when the scheme is spelt "Bearer " |
| Middleware.BearerToken | utils/middleware.js:52-56 | the token is set exactly when the header exists and passes the case-insensitive "bearer " test, and the header is the scheme followed by the token |
| Middleware.BearerTokenRoundTrip | utils/middleware.js:54-55 | any spelling of the scheme followed by a token yields exactly that token |
| Middleware.AsWrittenExactScheme | utils/middleware.js:54-55 | with the scheme spelt "Bearer ", the case-sensitive strip removes just those seven characters |
| Middleware.NoCapitalNoStrip | utils/middleware.js:55 | a header without a capital B contains no "Bearer ", so the strip leaves it as it is |
| Middleware.AsWrittenLowercaseKeepsPrefix | utils/middleware.js:54-55 | for every token, a header "bearer …" passes the scheme test and the token the code leaves still starts with "bearer " |
| Middleware.AsWrittenLowercaseScheme | utils/middleware.js:54-55 | a header "bearer …" passes the scheme test but keeps its prefix in the token, which differs from the intended token |
| Middleware.Request.TokenExtractor | utils/middleware.js:52-58 | sets the token only for a bearer header and otherwise leaves it as it was; it has no answer, so the request always continues; for a header spelt "Bearer …" the token is what the code's strip yields |
| Middleware.Request.UserExtractor | utils/middleware.js:60-71 | no token gives 401 "token missing"; a rejected token raises the verifier's error; a payload without an id gives 401 "token invalid"; otherwise the user is the lookup of the id, possibly absent, and the request continues; only this last case sets the user |
| BlogController.CreateVerdict | controllers/blog.js:27-50 | create goes ahead exactly when there is a token, a requester who is a stored user, a title and a url; with no token it raises a JsonWebTokenError "jwt must be provided"; its only direct answer is 400 "Title and URL are required", which a request with a token and a well-formed requester id gets exactly when the title or url is missing, before the requester is looked up |
| BlogController.DeleteVerdict | controllers/blog.js:61-80 | delete goes ahead exactly when the id is valid, the blog exists, there is a token and the requester is the blog's owner; the guards answer in order 404 "Blog not found", 401 "jwt must be provided", 401 "Unauthorized" |
| BlogController.LikesOrZero | controllers/blog.js:49 | a new blog's likes are those given, 0 when absent |
| BlogController.List | controllers/blog.js:6-11 | answers 200 with every stored blog |
| BlogController.Show | controllers/blog.js:13-21 | answers 200 with the stored blog when present and 404 with no body otherwise; a malformed id raises a cast error |
| BlogController.Create | controllers/blog.js:22-58 | a rejection changes nothing; success adds exactly one blog under the new id, owned by the requester, with likes defaulting to 0, appends its id to the end of the owner's list, and answers 201 |
| BlogController.Delete | controllers/blog.js:60-89 | a rejection changes nothing; success removes that blog only and leaves every user's list unchanged, so the owner keeps the stale id |
| BlogController.DeletedReply | controllers/blog.js:88 | the intended answer to a successful delete: 204 with no body |
| BlogController.DeleteAnswersOkAsWritten | controllers/blog.js:88 | as written, a successful delete answers 200 with the deleted document, which is not the intended 204 |
| BlogController.UpdateLikes | controllers/blog.js:91-101 | with no token or owner check, replaces only the likes and leaves title, url, author and owner unchanged; an unknown id answers 200 with null and changes nothing |
| App.Finish | app.js:25-26 | a direct answer is sent as it is; a raised error gets the error middleware's answer, or 500 when the middleware passes it on; a request no route ends gets 404 |
| App.ServeBlogs | app.js:17-26 | no bearer token gives 401 on every blog route and no change; reads change nothing; only a create changes the users, by appending the new id to the owner's list; only a request that passes identity changes the store; a non-owner's delete gives 401 "Unauthorized" and the blog stays; the owner's delete removes it; a create is owned by the requester; anyone authenticated may update likes; owners are never reassigned; unique usernames are kept |
| UserController.RegistrationError | controllers/user.js:9-35 | each of the four messages is returned exactly when every earlier rule passes and its own rule fails, and none is returned exactly when all four pass |
| UserController.InsertKeepsUsernamesUnique | controllers/user.js:27-48 | adding a user whose username is not taken keeps all usernames distinct |
| UserController.Register | controllers/user.js:5-50 | every rejection answers 400 with the first broken rule's message and leaves the users unchanged; success adds exactly one user with the given username and name and the password's hash, with no plaintext, and answers 201; usernames stay unique |
| UserController.List | controllers/user.js:52-59 | answers 200 with every stored user |
| Phonebook.WithoutIdContents | index.js:65-70 | after delete, an entry remains exactly when it was there and has another id |
| Phonebook.WithoutIdAppend | index.js:65-70 | the filter works piece by piece, so the remaining entries keep their order |
| Phonebook.WithoutIdIdempotent | index.js:65-70 | deleting an id twice is deleting it once |
| Phonebook.WithoutAbsentId | index.js:65-70 | deleting an id that no entry has changes nothing |
| Phonebook.WithoutIdKeepsUnique | index.js:65-70 | deleting keeps ids unique and names unique |
| Phonebook.Phonebook.constructor | index.js:24-45 | the list starts with the four listed persons, whose ids and names are unique |
| Phonebook.Phonebook.ListAll | index.js:51-53 | answers 200 with the whole list |
| Phonebook.Phonebook.Find | index.js:56 | the index of the first entry the test accepts, or none when it accepts no entry |
| Phonebook.Phonebook.Show | index.js:54-63 | answers 200 with the first entry with that numeric id exactly when one exists, otherwise 404 "Not Found" |
| Phonebook.Phonebook.Delete | index.js:65-70 | removes every entry with the id, keeps the others in order and keeps the invariants; it always answers 204 |
| Phonebook.NextId | index.js:72-75 | 1 for the empty list, otherwise one more than an id present, and greater than every id |
| Phonebook.Phonebook.GenerateId | index.js:72-75 | the loop computes exactly `NextId` of the list: 1 for the empty list, otherwise the largest id plus one |
| Phonebook.Phonebook.Create | index.js:77-101 | a missing name or number answers 400 "content missing", and an existing name answers 400 "name must be unique", both with no change; otherwise exactly one entry with id `NextId` of the old list (the largest id plus one, or 1) is appended at the end and returned; ids and names stay unique |

## Findings

| source | as written | input that shows it | evidently intended | confidence | as-written member | corrected member |
|---|---|---|---|---|---|---|
| utils/middleware.js:54-55 | the scheme test ignores case, but the strip removes only the first case-sensitive "Bearer " | the header `bearer abc` passes the test and yields the token `bearer abc` | the token `abc`, for every spelling of the scheme | medium, not executed | Middleware.AsWrittenLowercaseScheme | Middleware.BearerTokenRoundTrip |
| controllers/blog.js:88 | the deleted document is sent before the status is set, so the later 204 has no effect | any delete by the owner answers 200 with the deleted document | 204 with no body | high, not executed | BlogController.DeleteAnswersOkAsWritten | BlogController.DeletedReply |

The rest of the model uses the corrected behaviour; "## Left out" names the three members
where this departs from what the code does.

## Left out

- I/O and process concerns are not modelled: request logging and morgan formatting
  (`index.js:9-22`, `utils/middleware.js:7-27`), CORS, JSON body parsing, configuration
  loading, and the MongoDB command-line script `mongo.js`.
- The login route and the token's issuing are not part of this model; tokens enter only
  through `verify`.
- bcrypt and `jwt.verify` are parameters. Their cryptography, salts, expiry clock and secret
  are not modelled.
- The `/info` route (`index.js:103-108`) is not modelled; it depends on the current date.
- Listings (`BlogController.List`, `UserController.List`) return the stored maps. The store's
  natural order, `populate` projections and `toJSON` shaping are not modelled, so neither is
  the response representation without the password hash.
- Asynchrony is not modelled. Each handler is one atomic step, so the second "Blog not found"
  check after `findByIdAndDelete` (`controllers/blog.js:84-86`) cannot fire. Concurrent
  requests are not modelled, and neither is the gap between create's two writes.
- The database's own schema validation and unique index are not modelled. In particular, a
  save that fails with a validation error or duplicate key after the handler's checks is left out.
- Records.IsObjectId: only the 24-hex-digit form of an ObjectId casts; the 12-character binary
  string form accepted by some driver versions is left out.
- Middleware.LowerAscii: only ASCII letters are lower-cased. No other character lower-cases to
  a letter of "bearer ", so the scheme test is exact.
- ListHelper.Tally: entries are enumerated in order of first appearance. JavaScript lists
  integer-like property names ("12") first in numeric order, which changes only how ties are
  broken; that ordering is not modelled.
- ListHelper.Tally: author names that collide with inherited object properties (`constructor`,
  `toString`, `__proto__`) are treated like any other name. The source's behaviour for them is
  not modelled.
- ListHelper.TotalLikes: likes are unbounded integers. Floating-point numbers, missing likes
  (NaN) and non-numeric values are not modelled.
- BlogController.UpdateLikes: absent likes leave the blog unchanged, which assumes a Mongoose
  version that drops an undefined field from an update (6 and later, as far as is known; the
  package manifest is not part of this model). Versions that store null instead are not
  modelled. Non-numeric likes, which would raise a cast error, are not modelled either.
- Phonebook.Phonebook.Show: the path segment's conversion with `Number()` is not modelled. The
  handlers take its numeric value, with None when it is not an integer, and then no entry matches.
- Phonebook.Phonebook.GenerateId: the limit on the number of arguments of `Math.max` for very
  large lists is not modelled.
- The unknown-endpoint handler of `index.js:110-112` is the same as `Middleware.UnknownEndpoint`
  and is not modelled separately.
- In `UserController.Register`, a username or password that is not a string is not modelled
  (the source would compare an undefined length); fields are strings or absent.
- Middleware.Request.TokenExtractor: sets the intended token (the header without its
  seven-character scheme), not what `replace('Bearer ', '')` yields. The two agree when the
  scheme is spelt "Bearer ". For any other spelling the code keeps the prefix in the token, which
  the verifier then rejects; the model does not capture that 401 "invalid token", nor that the
  bare header "bearer " gets 401 "invalid token" rather than "token missing".
- BlogController.Delete: a successful delete answers the intended 204 with no body
  (`DeletedReply`), not the 200 with the deleted document that the code sends
  (`DeletedReplyAsWritten`).
- App.ServeBlogs: its identity and delete clauses inherit both corrections above. Requests whose
  scheme is not spelt "Bearer " pass identity in the model, and the owner's delete answers 204.
- UserController.TooShort: lengths are counted in Unicode scalar values, whereas `.length` at
  `controllers/user.js:9,21` counts UTF-16 code units. A username or password with characters
  outside the Basic Multilingual Plane, such as "a😀" (length 3 in the source), may be rejected
  by `UserController.Register` where the source accepts it.
- Records.IsObjectId: ids are compared as raw strings. Casting to an ObjectId ignores the case of
  the hex digits, so the source finds a stored blog or user under an upper-case spelling of its
  id, where the model answers as for an unknown id.
- App.Finish: assumes that an error raised inside a blog handler reaches the error middleware.
  The `express-async-errors` patch is loaded at `app.js:13`, after the routers are built at
  `app.js:4-6`; if it wraps only handlers registered after it loads, such rejections (a cast
  error, a null user) never reach the error middleware and the request gets no answer. That
  behaviour is not modelled.
