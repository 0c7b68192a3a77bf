/** Token claim construction and checking (api/utils/auth_utils.py). Times
    are whole seconds since the epoch; the clock is read by the caller. */
module Auth {
  import opened Wrappers
  import opened Errors
  import opened JwtCodec

  /** The values the service reads from its environment. */
  datatype Settings = Settings(
    accessMinutes: int,   // ACCESS_TOKEN_EXPIRE_MINUTES
    refreshMinutes: int,  // REFRESH_TOKEN_EXPIRE_MINUTES
    secretKey: string,    // SECRET_KEY
    algorithm: string)    // ALGORITHM

  const AccessTag: string := "access_token"
  const RefreshTag: string := "refresh_token"

  const ExpiredOrInvalid: string := "Token has expired or is invalid"
  const RefreshNotAllowed: string := "Refresh token cannot be used for protected routes"
  const InvalidToken: string := "Invalid token"

  /** The expiry instant: `now + expires_delta` when a delta is given and is
      non-zero (a zero timedelta is falsy), otherwise `now` plus the
      configured number of minutes. */
  function ExpiresAt(now: int, delta: Option<int>, defaultMinutes: int): (exp: int)
    ensures delta.Some? && delta.value != 0 ==> exp == now + delta.value
    ensures delta.None? || delta.value == 0 ==> exp == now + 60 * defaultMinutes
  {
    if delta.Some? && delta.value != 0 then now + delta.value else now + 60 * defaultMinutes
  }

  /** A copy of the caller's claims with `exp` and `token_type` set,
      overriding any values the caller gave for those two keys. */
  function TokenClaims(data: Claims, exp: int, tokenType: string): (c: Claims)
    ensures c.Keys == data.Keys + {"exp", "token_type"}
    ensures c["exp"] == Num(exp) && c["token_type"] == Str(tokenType)
    ensures forall k :: k in data && k != "exp" && k != "token_type" ==> c[k] == data[k]
  {
    data["exp" := Num(exp)]["token_type" := Str(tokenType)]
  }

  /** `create_access_token`: the token decodes, until its expiry, to the
      caller's claims plus `exp` and `token_type = "access_token"`; a `sub`
      that is not a string makes it undecodable. */
  function CreateAccessToken(data: Claims, delta: Option<int>, now: int, s: Settings): (t: Token)
    ensures forall at :: Decode(t, s.secretKey, s.algorithm, at) ==
                         if at <= ExpiresAt(now, delta, s.accessMinutes) && ("sub" !in data || data["sub"].Str?)
                         then Some(TokenClaims(data, ExpiresAt(now, delta, s.accessMinutes), AccessTag))
                         else None
  {
    Encode(TokenClaims(data, ExpiresAt(now, delta, s.accessMinutes), AccessTag), s.secretKey, s.algorithm)
  }

  /** `create_refresh_token`: as `CreateAccessToken`, with the refresh
      lifetime and `token_type = "refresh_token"`. */
  function CreateRefreshToken(data: Claims, delta: Option<int>, now: int, s: Settings): (t: Token)
    ensures forall at :: Decode(t, s.secretKey, s.algorithm, at) ==
                         if at <= ExpiresAt(now, delta, s.refreshMinutes) && ("sub" !in data || data["sub"].Str?)
                         then Some(TokenClaims(data, ExpiresAt(now, delta, s.refreshMinutes), RefreshTag))
                         else None
  {
    Encode(TokenClaims(data, ExpiresAt(now, delta, s.refreshMinutes), RefreshTag), s.secretKey, s.algorithm)
  }

  /** Python's `payload.get(key)`: the stored value for a present key, None
      for a missing one. */
  function Get(c: Claims, key: string): (v: Value)
    ensures key in c ==> v == c[key]
    ensures key !in c ==> v == Null
  {
    if key in c then c[key] else Null
  }

  /** `verify_token`: the subject of a valid access token, or a 401 error. */
  function VerifyToken(token: Token, s: Settings, now: int): (r: Result<Value, Failure>)
    ensures Decode(token, s.secretKey, s.algorithm, now).None? ==>
      r == Err(Http(401, ExpiredOrInvalid))
    ensures (Decode(token, s.secretKey, s.algorithm, now).Some?
             && Get(Decode(token, s.secretKey, s.algorithm, now).value, "token_type") != Str(AccessTag))
            ==> r == Err(Http(401, RefreshNotAllowed))
    ensures (Decode(token, s.secretKey, s.algorithm, now).Some?
             && Get(Decode(token, s.secretKey, s.algorithm, now).value, "token_type") == Str(AccessTag)
             && Get(Decode(token, s.secretKey, s.algorithm, now).value, "sub") == Null)
            ==> r == Err(Http(401, InvalidToken))
    ensures r.Ok? <==>
      Decode(token, s.secretKey, s.algorithm, now).Some?
      && Get(Decode(token, s.secretKey, s.algorithm, now).value, "token_type") == Str(AccessTag)
      && Get(Decode(token, s.secretKey, s.algorithm, now).value, "sub") != Null
    ensures r.Ok? ==> r.value == Decode(token, s.secretKey, s.algorithm, now).value["sub"] && r.value.Str?
    ensures r.Err? ==> r.error.Http? && r.error.status == 401
  {
    match Decode(token, s.secretKey, s.algorithm, now)
    case None => Err(Http(401, ExpiredOrInvalid))
    case Some(payload) =>
      var username := Get(payload, "sub");
      var tokenType := Get(payload, "token_type");
      if tokenType != Str(AccessTag) then Err(Http(401, RefreshNotAllowed))
      else if username == Null then Err(Http(401, InvalidToken))
      else Ok(username)
  }

  /** An access token made for the string subject `u` verifies to `u` until
      it expires, and is refused as expired afterwards. */
  lemma AccessTokenRoundTrip(data: Claims, u: Value, delta: Option<int>, now: int, at: int, s: Settings)
    requires "sub" in data && data["sub"] == u && u.Str?
    ensures VerifyToken(CreateAccessToken(data, delta, now, s), s, at) ==
      if at <= ExpiresAt(now, delta, s.accessMinutes) then Ok(u) else Err(Http(401, ExpiredOrInvalid))
  {
  }

  /** An access token made without a subject is refused as invalid. */
  lemma AccessTokenWithoutSubject(data: Claims, delta: Option<int>, now: int, at: int, s: Settings)
    requires "sub" !in data
    ensures VerifyToken(CreateAccessToken(data, delta, now, s), s, at) ==
      if at <= ExpiresAt(now, delta, s.accessMinutes) then Err(Http(401, InvalidToken))
      else Err(Http(401, ExpiredOrInvalid))
  {
  }

  /** An access token whose `sub` is present but not a string (JSON null
      included) fails the decoder's subject check, so it is refused as
      expired or invalid, not as "Invalid token". */
  lemma AccessTokenNonStringSubject(data: Claims, delta: Option<int>, now: int, at: int, s: Settings)
    requires "sub" in data && !data["sub"].Str?
    ensures VerifyToken(CreateAccessToken(data, delta, now, s), s, at) == Err(Http(401, ExpiredOrInvalid))
  {
  }

  /** A refresh token is never accepted by `verify_token`, whatever its
      claims, including one without a subject: the token-type check comes
      first. A refresh token that does not decode (expired, or a `sub` that is
      not a string) gets the decoder's message. */
  lemma RefreshTokenRejected(data: Claims, delta: Option<int>, now: int, at: int, s: Settings)
    ensures VerifyToken(CreateRefreshToken(data, delta, now, s), s, at) ==
      if at <= ExpiresAt(now, delta, s.refreshMinutes) && ("sub" !in data || data["sub"].Str?)
      then Err(Http(401, RefreshNotAllowed))
      else Err(Http(401, ExpiredOrInvalid))
  {
  }
}
