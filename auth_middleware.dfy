/** `userMiddleware`: where the token is looked for, how it is cleaned, and how a
    verification failure becomes a 401 answer. Token verification is a library call;
    its outcome is an input. */
module AuthMiddleware {
  import opened Text

  /** The header values the middleware reads, `None` when absent, in the order it
      reads them: `headers.token`, `headers.authorization`, `headers.Authorization`
      and `header('x-auth-token')`. Its fourth place, `header('token')`, reads the same
      `token` entry as the first, so it is not a header of its own. */
  datatype Headers = Headers(
    token: Option<string>,
    authorization: Option<string>,
    authorizationCapital: Option<string>,
    xAuthToken: Option<string>)

  /** The claims of a verified token the middleware reads: `userId` and `UserId`, each
      `None` when the payload lacks it. The backend signs `{ userId }`, so `UserId` is
      absent from its own tokens. */
  datatype Claims = Claims(userId: Option<string>, capitalUserId: Option<string>)

  /** The payload `generateToken` signs for a user. */
  function SignedClaims(id: string): Claims {
    Claims(Some(id), None)
  }

  /** What `Jwt.verify` does with the token: decode it, or throw an error of some name. */
  datatype Verification = Decoded(claims: Claims) | Thrown(name: string)

  datatype Response = Response(status: int, message: string)

  function ValueOf(h: Option<string>): string {
    if h.Some? then h.value else ""
  }

  /** The candidates for the token, in lookup order; the two authorization headers
      lose their first `Bearer `, and `header('token')` repeats `headers.token`. */
  function Candidates(h: Headers): (cs: seq<string>)
    ensures |cs| == 5 && cs[3] == cs[0]
  {
    [ValueOf(h.token),
     RemoveFirst(ValueOf(h.authorization), "Bearer "),
     RemoveFirst(ValueOf(h.authorizationCapital), "Bearer "),
     ValueOf(h.token),
     ValueOf(h.xAuthToken)]
  }

  /** The `||` chain: the first candidate that is not empty. */
  function FindToken(h: Headers): (t: Option<string>)
    ensures t.Some? ==> t.value != [] && t.value in Candidates(h)
    ensures t.None? <==> forall k | 0 <= k < 5 :: Candidates(h)[k] == []
  {
    FirstNonEmpty(Candidates(h))
  }

  /** A `token` header wins over every other place. */
  lemma TokenHeaderFirst(h: Headers)
    requires h.token.Some? && h.token.value != []
    ensures FindToken(h) == h.token
  {
    FirstNonEmptyAt(Candidates(h), 0);
  }

  /** Without a `token` header, `Authorization: Bearer <t>` yields `t`. */
  lemma BearerSecond(h: Headers, t: string)
    requires ValueOf(h.token) == [] && h.authorization == Some("Bearer " + t) && t != []
    ensures FindToken(h) == Some(t)
  {
    RemoveFirstPrefix(t, "Bearer ");
    FirstNonEmptyAt(Candidates(h), 1);
  }

  /** `x-auth-token` is read only when the token and both authorization headers give
      nothing. */
  lemma AuthTokenLast(h: Headers)
    requires forall k | 0 <= k < 3 :: Candidates(h)[k] == []
    requires ValueOf(h.xAuthToken) != []
    ensures FindToken(h) == h.xAuthToken
  {
    FirstNonEmptyAt(Candidates(h), 4);
  }

  predicate IsQuote(c: char) { c == '"' || c == '\'' }

  /** `token.trim().replace(/^["']|["']$/g, '')`: trim, then drop one opening quote and
      one closing quote; a lone quote is dropped only once. */
  function Cleanup(token: string): (r: string)
    ensures var s := Trim(token);
      r == s || (s != [] && (r == s[1..] || r == s[..|s| - 1])) || (|s| >= 2 && r == s[1..|s| - 1])
    ensures var s := Trim(token);
      s != [] && IsQuote(s[0]) ==> r == s[1..] || (|s| >= 2 && r == s[1..|s| - 1])
    ensures Trim(token) != [] && !IsQuote(Trim(token)[0]) && !IsQuote(Trim(token)[|Trim(token)| - 1])
      ==> r == Trim(token)
    ensures var s := Trim(token);
      s != [] && IsQuote(s[0]) && !IsQuote(s[|s| - 1]) ==> r == s[1..]
    ensures var s := Trim(token);
      s != [] && !IsQuote(s[0]) && IsQuote(s[|s| - 1]) ==> r == s[..|s| - 1]
    ensures var s := Trim(token);
      |s| >= 2 && IsQuote(s[0]) && IsQuote(s[|s| - 1]) ==> r == s[1..|s| - 1]
    ensures var s := Trim(token);
      |s| == 1 && IsQuote(s[0]) ==> r == []
  {
    var s := Trim(token);
    var i := if s != [] && IsQuote(s[0]) then 1 else 0;
    var body := s[i..];
    var j := if body != [] && IsQuote(body[|body| - 1]) then 1 else 0;
    s[i..|s| - j]
  }

  /** A quoted token loses exactly its quotes. */
  lemma CleanupQuoted(t: string, q1: char, q2: char)
    requires IsQuote(q1) && IsQuote(q2)
    ensures Cleanup([q1] + t + [q2]) == t
  {
    var s := [q1] + t + [q2];
    assert !IsSpace(q1) && !IsSpace(q2);
    assert s[0] == q1 && s[|s| - 1] == q2;
    TrimOfTrimmed(s);
    assert s[1..][|s| - 2] == q2;
    assert s[1..|s| - 1] == t;
  }

  /** The 401 message for a failed verification. */
  function VerifyMessage(errorName: string): (m: string)
    ensures errorName == "TokenExpiredError" ==> m == "Token has expired. Please sign in again."
    ensures errorName == "JsonWebTokenError" ==> m == "Invalid token format or signature"
    ensures errorName == "NotBeforeError" ==> m == "Token not active yet"
    ensures errorName !in {"TokenExpiredError", "JsonWebTokenError", "NotBeforeError"} ==> m == "Invalid token"
  {
    if errorName == "TokenExpiredError" then "Token has expired. Please sign in again."
    else if errorName == "JsonWebTokenError" then "Invalid token format or signature"
    else if errorName == "NotBeforeError" then "Token not active yet"
    else "Invalid token"
  }

  class Request {
    var headers: Headers
    var userId: Option<string>
    var user: Option<Claims>

    constructor (headers: Headers)
      ensures this.headers == headers && userId.None? && user.None?
    {
      this.headers := headers;
      userId := None;
      user := None;
    }

    /** The token that reaches verification, if any. */
    function Token(): (t: Option<string>)
      reads this
    {
      match FindToken(headers)
      case None => None
      case Some(raw) => if Cleanup(raw) == [] then None else Some(Cleanup(raw))
    }
  }

  /** `userMiddleware(req, res, next)`: `None` means `next()` was called. A request
      without a usable token is refused before verification; a verified token sets
      `req.user` to its claims and `req.userId` to its `UserId` claim, which is
      `None` for the payload the backend signs; any verification error is a 401 whose
      message depends on the error name. */
  method UserMiddleware(req: Request, verify: string -> Verification) returns (answer: Option<Response>)
    modifies req
    ensures req.headers == old(req.headers)
    ensures req.Token().None? ==> answer == Some(Response(401, "Access denied. No token provided."))
    ensures answer.None? <==> req.Token().Some? && verify(req.Token().value).Decoded?
    ensures answer.Some? ==> answer.value.status == 401
    ensures answer.None? ==> req.user == Some(verify(req.Token().value).claims) &&
                             req.userId == req.user.value.capitalUserId
    ensures answer.None? && (exists id :: verify(req.Token().value).claims == SignedClaims(id)) ==>
      req.userId.None?
    ensures answer.Some? ==> req.userId == old(req.userId) && req.user == old(req.user)
    ensures req.Token().Some? && verify(req.Token().value).Thrown? ==>
      answer == Some(Response(401, VerifyMessage(verify(req.Token().value).name)))
  {
    var found := FindToken(req.headers);
    var token := "";
    if found.Some? {
      token := Cleanup(found.value);
    }
    if token == [] {
      return Some(Response(401, "Access denied. No token provided."));
    }
    match verify(token) {
      case Decoded(claims) =>
        req.userId := claims.capitalUserId;
        req.user := Some(claims);
        answer := None;
      case Thrown(name) =>
        answer := Some(Response(401, VerifyMessage(name)));
    }
  }
}
