/** The bearer-token gate in front of every project and task route
    (routes/jwtMiddleware.js). */
module JwtMiddleware {
  import opened Records
  import opened External

  const BearerPrefix: string := "Bearer "

  /** `pat` occurs in `s` at index `i`. */
  predicate OccursAt(s: string, pat: string, i: int)
  {
    0 <= i && i + |pat| <= |s| && s[i..i + |pat|] == pat
  }

  /** `s.indexOf(pat, from)`: the first occurrence of `pat` at or after `from`. */
  function IndexFrom(s: string, pat: string, from: nat): (r: Option<nat>)
    ensures r.Some? ==> from <= r.value && OccursAt(s, pat, r.value)
    ensures forall j :: from <= j && OccursAt(s, pat, j) ==> r.Some? && r.value <= j
    decreases |s| - from
  {
    if from + |pat| > |s| then None
    else if OccursAt(s, pat, from) then Some(from)
    else IndexFrom(s, pat, from + 1)
  }

  /** `s.replace(pat, rep)` with a string pattern: only the first occurrence
      of `pat` is replaced, and `s` is returned as it is when there is none. */
  function ReplaceFirst(s: string, pat: string, rep: string): (r: string)
    ensures (forall j :: !OccursAt(s, pat, j)) ==> r == s
    ensures forall i :: OccursAt(s, pat, i) && (forall j :: 0 <= j < i ==> !OccursAt(s, pat, j)) ==>
              r == s[..i] + rep + s[i + |pat|..]
  {
    match IndexFrom(s, pat, 0)
    case None => s
    case Some(i) => s[..i] + rep + s[i + |pat|..]
  }

  /** The header with its first `Bearer ` removed. */
  function StripBearer(header: string): string
  {
    ReplaceFirst(header, BearerPrefix, "")
  }

  /** A header that starts with the prefix loses exactly that prefix. */
  lemma StripBearerOfPrefixed(token: string)
    ensures StripBearer(BearerPrefix + token) == token
  {
  }

  /** The three ways the middleware can end. */
  datatype Outcome =
    | Reject(response: Response)  // a response is sent; `next` is not called
    | Next(user: Claims)          // `req.user` is set and `next` is called

  /** What the middleware decides for an `Authorization` header (None when
      the request has none) at clock time `now`. */
  function Gate(authorization: Option<string>, services: Services, now: int): (o: Outcome)
    ensures (o.Reject? && o.response.status == 401) <==> (authorization.None? || authorization.value == "")
    ensures (o.Reject? && o.response.status == 400) <==>
              (authorization.Some? && authorization.value != ""
               && services.verify(StripBearer(authorization.value), now).None?)
    ensures o.Next? <==>
              (authorization.Some? && authorization.value != ""
               && services.verify(StripBearer(authorization.value), now).Some?)
    ensures o.Next? ==> services.verify(StripBearer(authorization.value), now) == Some(o.user)
    ensures o.Reject? ==> o.response.status in {400, 401}
  {
    if authorization.None? || authorization.value == "" then
      Reject(Response(401, Message("Access denied, no token provided")))
    else
      match services.verify(StripBearer(authorization.value), now)
      case None => Reject(Response(400, Message("Invalid token")))
      case Some(decoded) => Next(decoded)
  }

  /** The gate accepts a token the same way with or without the prefix. */
  lemma GateIgnoresBearerPrefix(token: string, services: Services, now: int)
    requires token != ""
    requires forall j :: !OccursAt(token, BearerPrefix, j)
    ensures Gate(Some(BearerPrefix + token), services, now) == Gate(Some(token), services, now)
  {
    StripBearerOfPrefixed(token);
  }

  /** The incoming request: its `Authorization` header and the `req.user`
      field the middleware fills in. */
  class Request {
    const authorization: Option<string>
    var user: Option<Claims>

    constructor (authorization: Option<string>)
      ensures this.authorization == authorization && user == None
    {
      this.authorization := authorization;
      user := None;
    }
  }

  /** The response object: what has been sent on it, if anything. */
  class ResponseWriter {
    var sent: Option<Response>

    constructor ()
      ensures sent == None
    {
      sent := None;
    }
  }

  /** The exported middleware. Returns whether `next` was called. */
  method Authenticate(req: Request, res: ResponseWriter, services: Services, now: int)
      returns (calledNext: bool)
    modifies req, res
    ensures match Gate(req.authorization, services, now)
            case Reject(response) =>
              && res.sent == Some(response) && req.user == old(req.user) && !calledNext
            case Next(decoded) =>
              && req.user == Some(decoded) && res.sent == old(res.sent) && calledNext
  {
    var token := req.authorization;
    if token.None? || token.value == "" {
      res.sent := Some(Response(401, Message("Access denied, no token provided")));
      return false;
    }
    var decoded := services.verify(StripBearer(token.value), now);
    if decoded.None? {
      res.sent := Some(Response(400, Message("Invalid token")));
      return false;
    }
    req.user := decoded;
    calledNext := true;
  }
}
