/** Request-identity middleware (bearer token extraction and user resolution), the translation of
    error objects into responses, and the catch-all for unrouted paths. */
module Middleware {
  import opened Records
  import opened Http

  /** The answer to any path no router matched. */
  function UnknownEndpoint(): (r: Response)
    ensures r.status == 404 && r.body == Error("unknown endpoint")
  {
    Response(404, Error("unknown endpoint"))
  }

  /** The error middleware: answers the error kinds it knows and passes every other error on
      (None), including a driver error whose code is not the duplicate-key code 11000. */
  function ErrorHandler(e: Failure): (r: Option<Response>)
    ensures r.Some? ==> r.value.status in {400, 401} && r.value.body.Error?
    ensures (r.Some? && r.value.status == 400)
        <==> e.name in {"CastError", "ValidationError"} || (e.name == "MongoError" && e.code == Some(11000))
    ensures (r.Some? && r.value.status == 401) <==> e.name in {"JsonWebTokenError", "TokenExpiredError"}
    ensures e.name == "ValidationError" ==> r == Some(Response(400, Error(e.message)))
    ensures e.name == "CastError" ==> r == Some(Response(400, Error("malformatted id")))
    ensures e.name == "MongoError" && e.code == Some(11000) ==> r == Some(Response(400, Error("Username must be unique")))
    ensures e.name == "JsonWebTokenError" ==> r == Some(Response(401, Error("invalid token")))
    ensures e.name == "TokenExpiredError" ==> r == Some(Response(401, Error("token expired")))
  {
    if e.name == "CastError" then Some(Response(400, Error("malformatted id")))
    else if e.name == "ValidationError" then Some(Response(400, Error(e.message)))
    else if e.name == "MongoError" && e.code == Some(11000) then Some(Response(400, Error("Username must be unique")))
    else if e.name == "JsonWebTokenError" then Some(Response(401, Error("invalid token")))
    else if e.name == "TokenExpiredError" then Some(Response(401, Error("token expired")))
    else None
  }

  // ---------------------------------------------------------------------------
  // String operations the token extraction relies on

  /** Lower-casing of one character; only ASCII letters change. No other character lower-cases to
      a letter of "bearer ", so the scheme test below is exact. */
  function LowerAscii(c: char): char
  {
    if 'A' <= c <= 'Z' then (c as int + 32) as char else c
  }

  function ToLower(s: string): string
  {
    seq(|s|, i requires 0 <= i < |s| => LowerAscii(s[i]))
  }

  predicate StartsWith(s: string, prefix: string)
  {
    |prefix| <= |s| && s[..|prefix|] == prefix
  }

  predicate OccursAt(s: string, pattern: string, i: nat)
  {
    i + |pattern| <= |s| && s[i..i + |pattern|] == pattern
  }

  /** The first position at or after `i` where `pattern` occurs. */
  function IndexFrom(s: string, pattern: string, i: nat): (r: Option<nat>)
    requires i <= |s|
    decreases |s| - i
    ensures r.Some? ==> i <= r.value && OccursAt(s, pattern, r.value)
    ensures r.Some? ==> forall j: nat :: i <= j < r.value ==> !OccursAt(s, pattern, j)
    ensures r.None? ==> forall j: nat :: i <= j <= |s| ==> !OccursAt(s, pattern, j)
  {
    if OccursAt(s, pattern, i) then Some(i)
    else if i == |s| then None
    else IndexFrom(s, pattern, i + 1)
  }

  /** String replacement with a string pattern: only the first occurrence is replaced. */
  function ReplaceFirst(s: string, pattern: string, replacement: string): (r: string)
    ensures (forall j: nat :: j <= |s| ==> !OccursAt(s, pattern, j)) ==> r == s
    ensures forall i: nat {:trigger OccursAt(s, pattern, i)} ::
      OccursAt(s, pattern, i) && (forall j: nat :: j < i ==> !OccursAt(s, pattern, j)) ==>
        r == s[..i] + replacement + s[i + |pattern|..]
  {
    match IndexFrom(s, pattern, 0)
    case None => s
    case Some(i) => s[..i] + replacement + s[i + |pattern|..]
  }

  /** The scheme test: the lower-cased header starts with "bearer ". */
  predicate HasBearerScheme(header: string)
  {
    StartsWith(ToLower(header), "bearer ")
  }

  // ---------------------------------------------------------------------------
  // Token extraction

  /** The token as the extractor computes it: the scheme test ignores case, but the strip
      removes the first case-sensitive occurrence of "Bearer " wherever it is. None: not set. */
  function BearerTokenAsWritten(header: Option<string>): (t: Option<string>)
    ensures t.Some? <==> BearerToken(header).Some?
    ensures header.Some? && StartsWith(header.value, "Bearer ") ==> t == BearerToken(header)
  {
    if !Missing(header) && HasBearerScheme(header.value) then
      var h := header.value;
      assert StartsWith(h, "Bearer ") ==> OccursAt(h, "Bearer ", 0) && h[..0] + "" + h[7..] == h[7..];
      Some(ReplaceFirst(h, "Bearer ", ""))
    else None
  }

  /** The token as the scheme test intends it: the header without its seven-character scheme
      prefix, whatever the case of the scheme. None: not set. */
  function BearerToken(header: Option<string>): (t: Option<string>)
    ensures t.Some? <==> header.Some? && HasBearerScheme(header.value)
    ensures t.Some? ==> header.value == header.value[..7] + t.value
  {
    if !Missing(header) && HasBearerScheme(header.value) then Some(header.value[7..])
    else None
  }

  lemma SchemeOfConcatenation(scheme: string, t: string)
    requires |scheme| == 7
    ensures HasBearerScheme(scheme + t) <==> ToLower(scheme) == "bearer "
  {
    assert ToLower(scheme + t)[..7] == ToLower(scheme);
  }

  /** Every spelling of the scheme followed by a token gives back exactly that token. */
  lemma BearerTokenRoundTrip(scheme: string, t: string)
    requires |scheme| == 7 && ToLower(scheme) == "bearer "
    ensures BearerToken(Some(scheme + t)) == Some(t)
  {
    SchemeOfConcatenation(scheme, t);
    assert (scheme + t)[7..] == t;
  }

  lemma CapitalSchemeIsBearer()
    ensures ToLower("Bearer ") == "bearer "
  {
  }

  /** With the scheme spelt exactly "Bearer ", the extractor as written strips those seven
      characters and nothing else, as intended. */
  lemma AsWrittenExactScheme(t: string)
    ensures BearerTokenAsWritten(Some("Bearer " + t)) == Some(t)
    ensures BearerToken(Some("Bearer " + t)) == Some(t)
  {
    var h := "Bearer " + t;
    CapitalSchemeIsBearer();
    SchemeOfConcatenation("Bearer ", t);
    assert OccursAt(h, "Bearer ", 0);
    assert IndexFrom(h, "Bearer ", 0) == Some(0);
    assert ReplaceFirst(h, "Bearer ", "") == h[..0] + "" + h[7..];
    assert h[..0] + "" + h[7..] == t;
  }

  /** A string with no capital B contains no "Bearer ": the strip leaves it as it is. */
  lemma NoCapitalNoStrip(s: string)
    requires forall i :: 0 <= i < |s| ==> s[i] != 'B'
    ensures ReplaceFirst(s, "Bearer ", "") == s
  {
    forall j: nat | j + 7 <= |s|
      ensures !OccursAt(s, "Bearer ", j)
    {
      assert s[j..j + 7][0] == s[j] != 'B';
    }
    assert IndexFrom(s, "Bearer ", 0).None?;
  }

  /** For every token, the scheme spelt in lower case passes the scheme test, yet the token the
      strip leaves still starts with that scheme. */
  lemma AsWrittenLowercaseKeepsPrefix(t: string)
    ensures BearerTokenAsWritten(Some("bearer " + t)).Some?
    ensures StartsWith(BearerTokenAsWritten(Some("bearer " + t)).value, "bearer ")
  {
    var h := "bearer " + t;
    assert ToLower("bearer ") == "bearer ";
    SchemeOfConcatenation("bearer ", t);
    var r := ReplaceFirst(h, "Bearer ", "");
    match IndexFrom(h, "Bearer ", 0)
    case None =>
      assert r == h;
      assert h[..7] == "bearer ";
    case Some(i) =>
      assert h[i..i + 7][0] == 'B';
      assert i >= 7;
      assert r == h[..i] + "" + h[i + 7..];
      assert r[..7] == h[..7] == "bearer ";
  }

  /** The scheme spelt in lower case passes the scheme test, yet the strip does not remove it:
      for a token with no capital B, the token is the whole header and differs from the
      intended one. */
  lemma AsWrittenLowercaseScheme(t: string)
    requires forall i :: 0 <= i < |t| ==> t[i] != 'B'
    ensures BearerTokenAsWritten(Some("bearer " + t)) == Some("bearer " + t)
    ensures BearerToken(Some("bearer " + t)) == Some(t)
  {
    var h := "bearer " + t;
    assert ToLower("bearer ") == "bearer ";
    SchemeOfConcatenation("bearer ", t);
    assert forall i :: 0 <= i < |h| ==> h[i] != 'B' by {
      forall i | 0 <= i < |h| ensures h[i] != 'B' {
        if i >= 7 { assert h[i] == t[i - 7]; }
      }
    }
    NoCapitalNoStrip(h);
    BearerTokenRoundTrip("bearer ", t);
  }

  // ---------------------------------------------------------------------------
  // The request as the middleware sees and changes it

  /** The outcome of verifying a signed token with the server secret: its decoded payload's `id`
      claim, or the error the verifier throws. */
  datatype Verification = Verified(id: Option<string>) | Malformed(message: string) | Expired | NotYetActive

  function VerificationFailure(v: Verification): Failure
    requires !v.Verified?
  {
    match v
    case Malformed(message) => Failure("JsonWebTokenError", message, None)
    case Expired => Failure("TokenExpiredError", "jwt expired", None)
    case NotYetActive => Failure("NotBeforeError", "jwt not active", None)
  }

  class Request {
    /** The Authorization header, if any. */
    const authorization: Option<string>
    /** Set by TokenExtractor. */
    var token: Option<string>
    /** The id of the user document UserExtractor found; None also when the lookup found nothing. */
    var user: Option<UserId>

    constructor (authorization: Option<string>)
      ensures this.authorization == authorization && token == None && user == None
    {
      this.authorization := authorization;
      token := None;
      user := None;
    }

    /** Sets the token when the header carries the bearer scheme and otherwise leaves it as it
        was; it never answers, so the request always continues. */
    method TokenExtractor()
      modifies this`token
      ensures token == if BearerToken(authorization).Some? then BearerToken(authorization) else old(token)
      ensures authorization.Some? && StartsWith(authorization.value, "Bearer ") ==> token == BearerTokenAsWritten(authorization)
    {
      var extracted := BearerToken(authorization);
      if extracted.Some? {
        token := extracted;
      }
    }

    /** Resolves the token to a user: no token answers 401 "token missing"; a token the verifier
        rejects raises its error; a payload without an id answers 401 "token invalid"; otherwise
        the user is looked up (and may be absent) and the request continues. */
    method UserExtractor(users: map<UserId, User>, verify: string -> Verification) returns (step: Step)
      modifies this`user
      ensures Missing(token) ==> step == Respond(Response(401, Error("token missing"))) && user == old(user)
      ensures !Missing(token) && !verify(token.value).Verified? ==>
        step == Raise(VerificationFailure(verify(token.value))) && user == old(user)
      ensures !Missing(token) && verify(token.value).Verified? ==>
        var id := verify(token.value).id;
        && (Missing(id) ==> step == Respond(Response(401, Error("token invalid"))) && user == old(user))
        && (!Missing(id) && !IsObjectId(id.value) ==> step == Raise(CastError()) && user == old(user))
        && (!Missing(id) && IsObjectId(id.value) ==>
              step == Continue && user == if id.value in users then Some(id.value) else None)
    {
      if Missing(token) {
        return Respond(Response(401, Error("token missing")));
      }
      var decoded := verify(token.value);
      if !decoded.Verified? {
        return Raise(VerificationFailure(decoded));
      }
      if Missing(decoded.id) {
        return Respond(Response(401, Error("token invalid")));
      }
      if !IsObjectId(decoded.id.value) {
        return Raise(CastError());
      }
      user := if decoded.id.value in users then Some(decoded.id.value) else None;
      step := Continue;
    }
  }
}
