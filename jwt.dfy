/** Token construction: the claims NewToken writes into a fresh MapClaims
    and the fallible signing call that follows.  The clock is an argument
    (nanoseconds since the Unix epoch) and the ES256 signer with its JSON and
    base64url serialisation is an uninterpreted function. */
module Jwt {
  import opened Errors
  import opened Models

  const NanosPerSecond: int := 1_000_000_000

  /** The signing method NewToken asks jwt.New for. */
  const ES256: string := "ES256"

  /** A claim value as golang-jwt serialises it: a JSON number or string. */
  datatype ClaimValue = Number(n: int) | Text(s: string)

  type Claims = map<string, ClaimValue>

  /** An unsigned token: the signing method in its header and its claims. */
  datatype Token = Token(alg: string, claims: Claims)

  /** token.SignedString(key): signs the token with the key, or fails. */
  type Signer = (Token, Bytes) -> Result<string>

  /** Time.Unix(): whole seconds since the epoch, rounded down (also before
      the epoch, where Go keeps a non-negative nanosecond part). */
  function UnixSeconds(nanos: int): (s: int)
    ensures s * NanosPerSecond <= nanos < s * NanosPerSecond + NanosPerSecond
  {
    nanos / NanosPerSecond
  }

  /** The claims NewToken promises: exactly the four keys uid, email, exp and
      app_id, holding the user's id and email, the expiry and the app's id. */
  ghost predicate ClaimsFor(c: Claims, user: User, app: App, exp: int) {
    && c.Keys == {"uid", "email", "exp", "app_id"}
    && c["uid"] == Number(user.id)
    && c["email"] == Text(user.email)
    && c["exp"] == Number(exp)
    && c["app_id"] == Number(app.id)
  }

  /** The four-key description leaves no freedom: it fixes the claims map. */
  lemma ClaimsForIsUnique(c1: Claims, c2: Claims, user: User, app: App, exp: int)
    requires ClaimsFor(c1, user, app, exp) && ClaimsFor(c2, user, app, exp)
    ensures c1 == c2
  {
    assert forall k | k in c1 :: k in c2 && c1[k] == c2[k];
  }

  /** ... and there is always a map that meets it. */
  lemma ClaimsForExists(user: User, app: App, exp: int)
    ensures exists c :: ClaimsFor(c, user, app, exp)
  {
    var c := map["uid" := Number(user.id), "email" := Text(user.email),
                 "exp" := Number(exp), "app_id" := Number(app.id)];
    assert ClaimsFor(c, user, app, exp);
  }

  /** NewToken: fill a fresh claims map with four writes, then sign the token
      with the app's secret.  A signing failure yields ("", err); a success
      yields the signed string and no error. */
  method NewToken(user: User, app: App, duration: int, nowNanos: int, sign: Signer)
    returns (tokenString: string, err: Option<Error>)
    ensures forall c | ClaimsFor(c, user, app, UnixSeconds(nowNanos + duration)) ::
      match sign(Token(ES256, c), app.secret)
      case Ok(s) => tokenString == s && err == None
      case Err(e) => tokenString == "" && err == Some(e)
  {
    var claims: Claims := map[];
    claims := claims["uid" := Number(user.id)];
    claims := claims["email" := Text(user.email)];
    claims := claims["exp" := Number(UnixSeconds(nowNanos + duration))];
    claims := claims["app_id" := Number(app.id)];
    var token := Token(ES256, claims);

    var signed := sign(token, app.secret);
    if signed.Err? {
      tokenString, err := "", Some(signed.error);
    } else {
      tokenString, err := signed.value, None;
    }

    ghost var exp := UnixSeconds(nowNanos + duration);
    assert ClaimsFor(claims, user, app, exp);
    forall c | ClaimsFor(c, user, app, exp)
      ensures c == claims
    {
      ClaimsForIsUnique(c, claims, user, app, exp);
    }
  }

  /** A longer token lifetime never gives an earlier expiry. */
  lemma ExpiryIsMonotone(nowNanos: int, d1: int, d2: int)
    requires d1 <= d2
    ensures UnixSeconds(nowNanos + d1) <= UnixSeconds(nowNanos + d2)
  {
  }

  /** A non-negative lifetime never gives an expiry before the current second. */
  lemma ExpiryNotBeforeNow(nowNanos: int, duration: int)
    requires duration >= 0
    ensures UnixSeconds(nowNanos + duration) >= UnixSeconds(nowNanos)
  {
    ExpiryIsMonotone(nowNanos, 0, duration);
  }

  /** A lifetime of whole seconds moves the expiry by exactly that many
      seconds past the current second. */
  lemma ExpiryAddsWholeSeconds(nowNanos: int, seconds: int)
    ensures UnixSeconds(nowNanos + seconds * NanosPerSecond) == UnixSeconds(nowNanos) + seconds
  {
  }
}
