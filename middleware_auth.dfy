/**
 * The `authenticate` middleware (backend/src/middleware/auth.js): reads a
 * bearer token (the `Authorization: Bearer <token>` scheme of section 2.1
 * of RFC 6750, with the scheme name matched case-sensitively), verifies it,
 * and either answers 401 or records the claims on the request and passes it
 * on.
 */
module AuthMiddleware {
  import opened Wrappers
  import opened Types
  import opened Identity
  import opened Http

  const Scheme := "Bearer "

  const MissingToken := Response(401, ErrorBody("Missing token"))
  const InvalidToken := Response(401, ErrorBody("Invalid or expired token"))

  /** The token carried by an `Authorization` header, if it has the exact `"Bearer "` prefix. */
  function BearerToken(header: Option<string>): (r: Option<string>)
    ensures r.Some? <==> header.Some? && |header.value| >= 7 && header.value[..7] == Scheme
  {
    if header.Some? && |header.value| >= 7 && header.value[..7] == Scheme then
      Some(header.value[7..])
    else
      None
  }

  /** The token is everything after the scheme: the header is the scheme followed by the token. */
  lemma HeaderIsSchemeThenToken(header: Option<string>)
    ensures BearerToken(header).Some? ==> header.value == Scheme + BearerToken(header).value
  {
    if BearerToken(header).Some? {
      assert header.value == header.value[..7] + header.value[7..];
    }
  }

  /** Prefixing the scheme and parsing the header back yields the token. */
  lemma BearerRoundTrip(token: string)
    ensures BearerToken(Some(Scheme + token)) == Some(token)
  {
    assert (Scheme + token)[..7] == Scheme;
    assert (Scheme + token)[7..] == token;
  }

  datatype AuthOutcome = Rejected(response: Response) | Authenticated(claims: JwtPayload)

  /** What `authenticate` decides for a request with this `Authorization` header. */
  function Decide(header: Option<string>, jwt: Jwt): (r: AuthOutcome)
    ensures BearerToken(header).None? ==> r == Rejected(MissingToken)
    ensures BearerToken(header).Some? && jwt.verify(BearerToken(header).value).None? ==> r == Rejected(InvalidToken)
    ensures r.Authenticated? <==> BearerToken(header).Some? && jwt.verify(BearerToken(header).value).Some?
    ensures r.Authenticated? ==> jwt.verify(BearerToken(header).value) == Some(r.claims)
  {
    match BearerToken(header)
    case None => Rejected(MissingToken)
    case Some(token) =>
      match jwt.verify(token)
      case None => Rejected(InvalidToken)
      case Some(claims) => Authenticated(claims)
  }

  /** "Bearer " followed by nothing is refused as an invalid token, not as a missing one. */
  lemma EmptyBearerIsInvalid(jwt: Jwt)
    requires SoundJwt(jwt)
    ensures Decide(Some(Scheme), jwt) == Rejected(InvalidToken)
  {
    assert Scheme == Scheme + "";
    BearerRoundTrip("");
  }

  /** A token the server signed passes the middleware with exactly its claims. */
  lemma SignedTokenAuthenticates(jwt: Jwt, claims: JwtPayload, lifetime: string)
    requires SoundJwt(jwt)
    ensures Decide(Some(Scheme + jwt.sign(claims, lifetime)), jwt) == Authenticated(claims)
  {
    BearerRoundTrip(jwt.sign(claims, lifetime));
  }

  /**
   * A route that runs `authenticate` first, given what it decided: `input`
   * reaches the next step only with verified claims, and a rejection is
   * the reply.
   */
  function AuthenticateThen<T>(auth: AuthOutcome, input: T): (r: Gate<T>)
    ensures r.Proceed? <==> auth.Authenticated?
    ensures r.Proceed? ==> r.claims == Some(auth.claims) && r.input == input
    ensures !r.Proceed? ==> r == Halt(auth.response)
  {
    match auth
    case Rejected(response) => Halt(response)
    case Authenticated(claims) => Proceed(Some(claims), input)
  }

  /**
   * A route guarded by `authenticate` alone, with no role and no body
   * checks: `GET /:groupId/messages` and `GET /` of the groups router.
   */
  function AuthenticatedOnly(auth: AuthOutcome): (r: Gate<()>)
    ensures !r.RoleDenied?
    ensures r.Proceed? <==> auth.Authenticated?
    ensures r.Proceed? ==> r.claims == Some(auth.claims)
  {
    AuthenticateThen(auth, ())
  }

  /**
   * `requireRole(role)` after `authenticate`: the request goes on only when
   * the verified claims carry `role`. The reply it sends otherwise is not
   * part of this model.
   */
  function RequireRole<T>(gate: Gate<T>, role: Role): (r: Gate<T>)
    ensures gate.Proceed? && gate.claims.Some? && gate.claims.value.role == role ==> r == gate
    ensures gate.Proceed? && gate.claims.Some? && gate.claims.value.role != role ==> r == RoleDenied(role)
    ensures !gate.Proceed? ==> r == gate
    ensures r.Proceed? ==> gate.claims.Some? && gate.claims.value.role == role
  {
    if gate.Proceed? && (gate.claims.None? || gate.claims.value.role != role) then RoleDenied(role) else gate
  }

  /** The parts of an Express request the middleware reads and writes. */
  class Request {
    const authorization: Option<string>
    var user: Option<JwtPayload>
    var response: Option<Response>
    var nextCalls: nat

    constructor (authorization: Option<string>)
      ensures this.authorization == authorization
      ensures user == None && response == None && nextCalls == 0
    {
      this.authorization := authorization;
      user, response, nextCalls := None, None, 0;
    }
  }

  /**
   * `authenticate(req, res, next)`: on success `req.user` is the verified
   * payload and `next` is called once; otherwise the 401 reply is sent and
   * neither `req.user` nor `next` is touched.
   */
  method Authenticate(req: Request, jwt: Jwt)
    modifies req
    ensures Decide(req.authorization, jwt).Rejected? ==>
      && req.response == Some(Decide(req.authorization, jwt).response)
      && req.user == old(req.user) && req.nextCalls == old(req.nextCalls)
    ensures Decide(req.authorization, jwt).Authenticated? ==>
      && req.user == Some(Decide(req.authorization, jwt).claims)
      && req.nextCalls == old(req.nextCalls) + 1 && req.response == old(req.response)
  {
    match Decide(req.authorization, jwt)
    case Rejected(response) =>
      req.response := Some(response);
    case Authenticated(claims) =>
      req.user := Some(claims);
      req.nextCalls := req.nextCalls + 1;
  }
}
