/** Password hashing and JSON Web Tokens (RFC 7519).

    A token is modelled by what it carries: the claim set it was encoded
    from and the key it was signed with (an HS256 signature verifies
    exactly under that key), or a string that is not a well-formed token.
    Decoding checks the signature key and the registered claims the JOSE
    library checks when present: `exp` must be a number not in the past
    and `sub` must be a string. */
module Security {
  import opened Wrappers
  import opened Models

  datatype ClaimValue = Text(text: string) | Instant(seconds: int)

  type Claims = map<string, ClaimValue>

  datatype Jwt = Signed(claims: Claims, key: string) | Malformed(raw: string)

  /** `hash_password`: argon2 under a fresh random salt. */
  function HashPassword(salt: string, password: string): (h: PasswordHash)
    ensures h.salt == salt
  {
    Argon2(salt, password)
  }

  /** `verify_password`: a mismatch answers false rather than raising. */
  function VerifyPassword(plain: string, hashed: PasswordHash): bool {
    hashed.password == plain
  }

  /** A password verifies against its own hash, whatever the salt, and no
      other password does. */
  lemma HashThenVerify(salt: string, password: string, other: string)
    ensures VerifyPassword(password, HashPassword(salt, password))
    ensures other != password ==> !VerifyPassword(other, HashPassword(salt, password))
  {
  }

  /** The claim checks decoding applies: an `exp`, when present, is a
      number and is not earlier than `now`; a `sub`, when present, is a
      string. */
  predicate ClaimsAcceptable(claims: Claims, now: int) {
    && ("exp" in claims ==> claims["exp"].Instant? && claims["exp"].seconds >= now)
    && ("sub" in claims ==> claims["sub"].Text?)
  }

  /** `jwt.encode(claims, key)`. */
  function Encode(claims: Claims, key: string): Jwt {
    Signed(claims, key)
  }

  /** `jwt.decode(token, key)`: the claims when the token is well formed,
      signed with `key` and its claims are acceptable at `now`; None where
      the library raises `JWTError`. */
  function Decode(token: Jwt, key: string, now: int): (r: Option<Claims>)
    ensures r.Some? <==> token.Signed? && token.key == key && ClaimsAcceptable(token.claims, now)
    ensures r.Some? ==> r.value == token.claims
  {
    match token
    case Malformed(_) => None
    case Signed(claims, k) =>
      if k == key && ClaimsAcceptable(claims, now) then Some(claims) else None
  }

  /** Decoding undoes encoding while the claims are acceptable. */
  lemma DecodeEncode(claims: Claims, key: string, now: int)
    requires ClaimsAcceptable(claims, now)
    ensures Decode(Encode(claims, key), key, now) == Some(claims)
  {
  }

  /** Default lifetimes, in seconds. */
  const AccessTokenLifetime: nat := AccessTokenExpireMinutes * SecondsPerMinute
  const RefreshTokenLifetime: nat := RefreshTokenExpireDays * SecondsPerDay

  /** `data.copy()` updated with `exp` and `type`. */
  function Stamp(data: Claims, exp: int, tokenType: string): (c: Claims)
    ensures c.Keys == data.Keys + {"exp", "type"}
    ensures c["exp"] == Instant(exp) && c["type"] == Text(tokenType)
    ensures forall k | k in data && k != "exp" && k != "type" :: c[k] == data[k]
  {
    data["exp" := Instant(exp)]["type" := Text(tokenType)]
  }

  /** `create_access_token`: the lifetime is `expiresDelta` when one is given
      and non-zero (a zero `timedelta` is falsy), otherwise 30 minutes. */
  function CreateAccessToken(data: Claims, expiresDelta: Option<int>, key: string, now: nat): (t: Jwt)
    ensures t.Signed? && t.key == key
    ensures t.claims == Stamp(data, now + (if expiresDelta.Some? && expiresDelta.value != 0 then expiresDelta.value else AccessTokenLifetime), "access")
  {
    var exp := if expiresDelta.Some? && expiresDelta.value != 0 then now + expiresDelta.value else now + AccessTokenLifetime;
    Encode(Stamp(data, exp, "access"), key)
  }

  /** `create_refresh_token`: seven days from `now`. */
  function CreateRefreshToken(data: Claims, key: string, now: nat): (t: Jwt)
    ensures t.Signed? && t.key == key
    ensures t.claims == Stamp(data, now + RefreshTokenLifetime, "refresh")
  {
    Encode(Stamp(data, now + RefreshTokenLifetime, "refresh"), key)
  }

  /** `verify_token`: the payload when it decodes and its `type` claim is
      `tokenType`; None otherwise, never an exception. */
  function VerifyToken(token: Jwt, key: string, now: int, tokenType: string): (r: Option<Claims>)
    ensures r.Some? ==> Decode(token, key, now) == r
    ensures r.Some? ==> "type" in r.value && r.value["type"] == Text(tokenType)
    ensures r.None? ==>
      Decode(token, key, now).None? || "type" !in token.claims || token.claims["type"] != Text(tokenType)
  {
    match Decode(token, key, now)
    case None => None
    case Some(payload) =>
      if "type" in payload && payload["type"] == Text(tokenType) then Some(payload) else None
  }

  /** `get_token_subject`: the `sub` claim of a valid access token. */
  function GetTokenSubject(token: Jwt, key: string, now: int): (r: Option<ClaimValue>)
    ensures r.Some? <==> VerifyToken(token, key, now, "access").Some? && "sub" in VerifyToken(token, key, now, "access").value
    ensures r.Some? ==> r.value == VerifyToken(token, key, now, "access").value["sub"] && r.value.Text?
  {
    match VerifyToken(token, key, now, "access")
    case None => None
    case Some(payload) => if "sub" in payload then Some(payload["sub"]) else None
  }

  /** The claims `data` may carry for the stamped token to decode: a `sub`
      that is a string (the routers always pass `str(user.id)`). */
  predicate DataAcceptable(data: Claims) {
    "sub" in data ==> data["sub"].Text?
  }

  /** An access token verifies as an access token, with its data intact,
      from its creation until the end of its lifetime, and from then on it
      is rejected. */
  lemma {:induction false} AccessTokenLifetimeWindow(data: Claims, key: string, now: nat, t: int)
    requires DataAcceptable(data)
    ensures var token := CreateAccessToken(data, None, key, now);
            (VerifyToken(token, key, t, "access").Some? <==> t <= now + AccessTokenLifetime)
            && (t <= now + AccessTokenLifetime ==>
                  forall k | k in data && k != "exp" && k != "type" ::
                    VerifyToken(token, key, t, "access").value[k] == data[k])
  {
    var token := CreateAccessToken(data, None, key, now);
    var c := Stamp(data, now + AccessTokenLifetime, "access");
    assert token.claims == c;
    assert "sub" in c ==> c["sub"].Text? by {
      if "sub" in c {
        assert "sub" in data;
      }
    }
    assert ClaimsAcceptable(c, t) <==> t <= now + AccessTokenLifetime;
  }

  /** The subject of an access token is the `sub` it was created with,
      for as long as the token lives; a refresh token has no subject as
      far as `get_token_subject` is concerned. */
  lemma {:induction false} IssuedTokenSubject(data: Claims, key: string, now: nat, t: int)
    requires DataAcceptable(data) && "sub" in data
    requires t <= now + AccessTokenLifetime
    ensures GetTokenSubject(CreateAccessToken(data, None, key, now), key, t) == Some(data["sub"])
    ensures GetTokenSubject(CreateRefreshToken(data, key, now), key, t).None?
  {
    AccessTokenLifetimeWindow(data, key, now, t);
    TokenTypesDisjoint(data, None, key, now, t);
  }

  /** A refresh token verifies as a refresh token for seven days and
      expires afterwards. */
  lemma {:induction false} RefreshTokenLifetimeWindow(data: Claims, key: string, now: nat, t: int)
    requires DataAcceptable(data)
    ensures var token := CreateRefreshToken(data, key, now);
            VerifyToken(token, key, t, "refresh").Some? <==> t <= now + RefreshTokenLifetime
  {
    var c := Stamp(data, now + RefreshTokenLifetime, "refresh");
    assert "sub" in c ==> c["sub"].Text? by {
      if "sub" in c {
        assert "sub" in data;
      }
    }
    assert ClaimsAcceptable(c, t) <==> t <= now + RefreshTokenLifetime;
  }

  /** The type tag separates the two kinds: a refresh token never passes
      as an access token and an access token never as a refresh token. */
  lemma TokenTypesDisjoint(data: Claims, delta: Option<int>, key: string, now: nat, t: int)
    ensures VerifyToken(CreateRefreshToken(data, key, now), key, t, "access").None?
    ensures VerifyToken(CreateAccessToken(data, delta, key, now), key, t, "refresh").None?
  {
  }

  /** A token signed with another key never verifies. */
  lemma ForeignKeyRejected(claims: Claims, signer: string, key: string, now: int, tokenType: string)
    requires signer != key
    ensures VerifyToken(Encode(claims, signer), key, now, tokenType).None?
  {
  }
}
