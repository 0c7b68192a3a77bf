/** The signed-token codec the service uses (jose's `jwt.encode` and
    `jwt.decode`), kept abstract: a token carries its claims and the key and
    algorithm that signed it, and no cryptography is modelled. */
module JwtCodec {
  import opened Wrappers

  /** The claim values the model covers: null, strings, integers and
      booleans. */
  datatype Value = Null | Str(s: string) | Num(n: int) | Flag(b: bool)

  type Claims = map<string, Value>

  /** An encoded token: one this codec signed, or any other text. */
  datatype Token = Signed(claims: Claims, key: string, algorithm: string) | Malformed(text: string)

  /** The claim checks of the decoder at time `now` (seconds): a token without
      `exp` does not expire, an `exp` that is not an integer is rejected, a
      token is accepted up to and including its `exp` second, and a `sub`
      claim, when present, must be a string. */
  predicate Acceptable(claims: Claims, now: int) {
    ("exp" !in claims || (claims["exp"].Num? && now <= claims["exp"].n))
    && ("sub" !in claims || claims["sub"].Str?)
  }

  /** Decoding at time `now`: None stands for the decoder's error (bad
      signature, other algorithm, malformed token, or a failed claim check). */
  function Decode(token: Token, key: string, algorithm: string, now: int): (r: Option<Claims>)
    ensures token.Malformed? ==> r.None?
    ensures r.Some? ==> token.Signed? && token.key == key && token.algorithm == algorithm
    ensures r.Some? ==> r.value == token.claims && Acceptable(r.value, now)
  {
    if token.Signed? && token.key == key && token.algorithm == algorithm && Acceptable(token.claims, now)
    then Some(token.claims)
    else None
  }

  /** Encoding: decoding with the same key and algorithm gives the claims
      back exactly while they pass the decoder's claim checks, and another
      key or algorithm never decodes the token. */
  function Encode(claims: Claims, key: string, algorithm: string): (t: Token)
    ensures forall now :: Decode(t, key, algorithm, now) == if Acceptable(claims, now) then Some(claims) else None
    ensures forall k, a, now :: (k != key || a != algorithm) ==> Decode(t, k, a, now).None?
  {
    Signed(claims, key, algorithm)
  }
}
