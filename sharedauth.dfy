/** The shared authentication helper every scheduling service mounts: the
    secret chosen at load time, bearer-token extraction, `verifyToken`
    over an abstract JWT library, and the two Express middlewares. */
module SharedAuth {
  import opened Common

  const BEARER := "Bearer "
  const DEV_SECRET := "dev-secret-insecure-do-not-use-in-production"
  const PRODUCTION := "production"
  const MISSING_SECRET := "JWT_SECRET environment variable is required in production"
  const VERIFY_FAILED := "Invalid or expired token"
  const NO_HEADER := "No authorization header"
  const AUTH_FAILED := "Authentication failed"

  /** The payload the auth service signs into a token. */
  datatype Claims = Claims(userId: int, username: string, role: string, relatedId: Option<int>)

  /** What `jwt.verify` does with a token: return its payload, or throw
      one of its errors. The library itself is not modelled; the result is
      given by a function from token to outcome. */
  datatype JwtResult = JwtOk(claims: Claims) | JwtExpired | JwtMalformed

  /** Loading the module either fixes the secret or throws. */
  datatype SecretResult = Secret(value: string) | LoadError(message: string)

  /** `JWT_SECRET`, and the insecure development fallback when it is unset
      or empty outside production. */
  function EffectiveSecret(jwtSecret: Option<string>, nodeEnv: Option<string>): (r: SecretResult)
    ensures r.LoadError? <==> !TextGiven(jwtSecret) && nodeEnv == Some(PRODUCTION)
    ensures r.LoadError? ==> r.message == MISSING_SECRET
    ensures TextGiven(jwtSecret) ==> r == Secret(jwtSecret.value)
    ensures !TextGiven(jwtSecret) && nodeEnv != Some(PRODUCTION) ==> r == Secret(DEV_SECRET)
    ensures r.Secret? ==> r.value != ""
  {
    if !TextGiven(jwtSecret) then
      if nodeEnv == Some(PRODUCTION) then LoadError(MISSING_SECRET) else Secret(DEV_SECRET)
    else Secret(jwtSecret.value)
  }

  predicate StartsWith(s: string, prefix: string)
  {
    |prefix| <= |s| && s[..|prefix|] == prefix
  }

  /** `authHeader.startsWith('Bearer ') ? authHeader.substring(7) : authHeader`. */
  function ExtractToken(header: string): (t: string)
    ensures StartsWith(header, BEARER) ==> BEARER + t == header
    ensures !StartsWith(header, BEARER) ==> t == header
    ensures |t| <= |header|
  {
    if StartsWith(header, BEARER) then header[|BEARER|..] else header
  }

  /** The header a client builds from a token is taken apart again into
      that token. */
  lemma ExtractBearerRoundTrip(token: string)
    ensures ExtractToken(BEARER + token) == token
  {
    assert (BEARER + token)[..|BEARER|] == BEARER;
  }

  /** Only one prefix is removed: a doubled prefix leaves one behind. */
  lemma ExtractRemovesOnePrefix(token: string)
    ensures ExtractToken(BEARER + BEARER + token) == BEARER + token
  {
    ExtractBearerRoundTrip(BEARER + token);
    assert BEARER + BEARER + token == BEARER + (BEARER + token);
  }

  /** `verifyToken`: the payload, or one error whatever went wrong. */
  datatype Verified = Decoded(claims: Claims) | VerifyError(message: string)

  function VerifyToken(jwt: string -> JwtResult, token: string): (r: Verified)
    ensures r.Decoded? <==> jwt(token).JwtOk?
    ensures r.Decoded? ==> r.claims == jwt(token).claims
    ensures r.VerifyError? ==> r.message == VERIFY_FAILED
  {
    match jwt(token)
    case JwtOk(c) => Decoded(c)
    case JwtExpired => VerifyError(VERIFY_FAILED)
    case JwtMalformed => VerifyError(VERIFY_FAILED)
  }

  /** An expired token and a malformed one are indistinguishable to the
      caller. */
  lemma FailuresLookAlike(jwt: string -> JwtResult, t1: string, t2: string)
    requires !jwt(t1).JwtOk? && !jwt(t2).JwtOk?
    ensures VerifyToken(jwt, t1) == VerifyToken(jwt, t2)
  {
  }

  /** A middleware's decision: answer with an error, or call `next` with
      `req.user` as given (`None` leaves it untouched). */
  datatype Gate = Reject(code: int, error: string) | Pass(user: Option<Claims>)

  /** `authMiddleware`. */
  function AuthGate(jwt: string -> JwtResult, header: Option<string>): (g: Gate)
    ensures !TextGiven(header) ==> g == Reject(401, NO_HEADER)
    ensures TextGiven(header) && !jwt(ExtractToken(header.value)).JwtOk? ==> g == Reject(401, AUTH_FAILED)
    ensures g.Pass? <==> TextGiven(header) && jwt(ExtractToken(header.value)).JwtOk?
    ensures g.Pass? ==> g.user == Some(jwt(ExtractToken(header.value)).claims)
  {
    if !TextGiven(header) then Reject(401, NO_HEADER)
    else
      match VerifyToken(jwt, ExtractToken(header.value))
      case Decoded(c) => Pass(Some(c))
      case VerifyError(_) => Reject(401, AUTH_FAILED)
  }

  /** `optionalAuthMiddleware`. */
  function OptionalGate(jwt: string -> JwtResult, header: Option<string>): (g: Gate)
    ensures g.Pass?
    ensures g.user.Some? <==> TextGiven(header) && jwt(ExtractToken(header.value)).JwtOk?
    ensures g.user.Some? ==> g.user.value == jwt(ExtractToken(header.value)).claims
  {
    if !TextGiven(header) then Pass(None)
    else
      match VerifyToken(jwt, ExtractToken(header.value))
      case Decoded(c) => Pass(Some(c))
      case VerifyError(_) => Pass(None)
  }

  /** The optional middleware lets through everything the strict one does,
      with the same user, and lets the rest through anonymously. */
  lemma OptionalExtendsAuth(jwt: string -> JwtResult, header: Option<string>)
    ensures AuthGate(jwt, header).Pass? ==> OptionalGate(jwt, header) == AuthGate(jwt, header)
    ensures AuthGate(jwt, header).Reject? ==> OptionalGate(jwt, header) == Pass(None)
  {
  }

  /** One request as the middleware sees it: `req.user`, the number of
      times `next` was called, and the response written, if any. */
  class Exchange {
    var user: Option<Claims>
    var nextCalls: nat
    var response: Option<(int, string)>

    constructor ()
      ensures user == None && nextCalls == 0 && response == None
    {
      user := None;
      nextCalls := 0;
      response := None;
    }

    method AuthMiddleware(jwt: string -> JwtResult, header: Option<string>)
      modifies this
      ensures AuthGate(jwt, header).Reject? ==>
        response == Some((AuthGate(jwt, header).code, AuthGate(jwt, header).error))
        && nextCalls == old(nextCalls) && user == old(user)
      ensures AuthGate(jwt, header).Pass? ==>
        user == AuthGate(jwt, header).user && nextCalls == old(nextCalls) + 1 && response == old(response)
    {
      if !TextGiven(header) {
        response := Some((401, NO_HEADER));
        return;
      }
      var token := ExtractToken(header.value);
      var v := VerifyToken(jwt, token);
      if v.VerifyError? {
        response := Some((401, AUTH_FAILED));
        return;
      }
      user := Some(v.claims);
      nextCalls := nextCalls + 1;
    }

    method OptionalAuthMiddleware(jwt: string -> JwtResult, header: Option<string>)
      modifies this
      ensures nextCalls == old(nextCalls) + 1 && response == old(response)
      ensures OptionalGate(jwt, header).user.Some? ==> user == OptionalGate(jwt, header).user
      ensures OptionalGate(jwt, header).user.None? ==> user == old(user)
    {
      if TextGiven(header) {
        var token := ExtractToken(header.value);
        var v := VerifyToken(jwt, token);
        if v.Decoded? {
          user := Some(v.claims);
        }
      }
      nextCalls := nextCalls + 1;
    }
  }
}
