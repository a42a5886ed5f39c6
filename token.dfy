/** The token authority of internal/lib/token: HS256-signed JWTs (RFC 7519;
    HMAC SHA-256 as in section 3.2 of RFC 7518) carrying the user's login and
    an expiry.

    The JWT library is foreign code. It is the value `Jwt` (signing, reading
    a token's header, and `ParseWithClaims` with a key function at a given
    time), and `Laws` states what the model relies on; `LawsAreConsistent`
    shows that some library obeys them. */
module Token {
  import opened Wrappers
  import opened Strings
  import opened Errors

  /** `time.Duration` units, in nanoseconds. */
  const Second := 1_000_000_000
  const Minute := 60 * Second
  const Hour := 60 * Minute
  /** `defaultTokenExp` */
  const DefaultTokenExp := 60 * Hour
  /** the lifetime the server configuration passes when none is set */
  const ConfiguredTokenExp := 10 * Minute

  datatype Token = Token(secretKey: Bytes, exp: int)

  /** `token.New`: an empty secret is refused; a zero lifetime means the default. */
  function New(sk: Bytes, exp: int): (r: Result<Token, Error>)
    ensures r.Err? <==> sk == []
    ensures r.Err? ==> r.error == Sentinel(TokenEmptySecretKey)
    ensures r.Ok? ==> r.value.secretKey == sk && r.value.exp != 0
    ensures r.Ok? ==> r.value.exp == (if exp == 0 then DefaultTokenExp else exp)
  {
    if sk == [] then Err(Sentinel(TokenEmptySecretKey))
    else Ok(Token(sk, if exp == 0 then DefaultTokenExp else exp))
  }

  datatype SigningMethod = HS256 | OtherMethod(alg: string)

  /** `token.Claims`: the `Login` field and the registered `exp` claim, in
      whole Unix seconds. */
  datatype Claims = Claims(login: Bytes, expiresAt: int)

  /** The claims `BuildNewJWTToken` signs at time `now` (Unix nanoseconds):
      `jwt.NewNumericDate(now + exp)` keeps whole seconds, rounding down. */
  function IssuedClaims(t: Token, login: Bytes, now: int): (c: Claims)
    ensures c.login == login
    ensures c.expiresAt * Second <= now + t.exp < (c.expiresAt + 1) * Second
  {
    Claims(login, (now + t.exp) / Second)
  }

  /** What `jwt.ParseWithClaims` hands back: the token's `Valid` flag, the
      claims it filled in, and its error. */
  datatype Outcome = Outcome(valid: bool, claims: Claims, err: Option<Error>)

  datatype Jwt = Jwt(
    /** `jwt.NewWithClaims(method, claims).SignedString(key)` */
    signedString: (SigningMethod, Claims, Bytes) -> Result<Bytes, Error>,
    /** the signing method a token's header names; `None` if it does not parse */
    header: Bytes -> Option<SigningMethod>,
    /** `jwt.ParseWithClaims(token, &claims, keyFunc)` at time `now` */
    parseWithClaims: (Bytes, SigningMethod -> Result<Bytes, Error>, int) -> Outcome)

  /** An error that `errors.Is` matches with no sentinel at all. */
  ghost predicate MatchesNoSentinel(e: Error) {
    forall s :: !Is(e, s)
  }

  /** The library laws: a token it signed names HS256 and, checked with the
      same key, is valid with the signed claims until its expiry and reports
      `jwt.ErrTokenExpired` from then on; a token whose method the key function
      refuses is an error that matches no sentinel; and no library error
      matches a sentinel declared outside the library. */
  ghost predicate Laws(lib: Jwt) {
    && (forall c, key :: lib.signedString(HS256, c, key).Ok? ==>
          lib.header(lib.signedString(HS256, c, key).value) == Some(HS256))
    && (forall c, key, kf: SigningMethod -> Result<Bytes, Error>, now ::
          lib.signedString(HS256, c, key).Ok? && kf(HS256) == Ok(key) && now < c.expiresAt * Second ==>
          lib.parseWithClaims(lib.signedString(HS256, c, key).value, kf, now) == Outcome(true, c, None))
    && (forall c, key, kf: SigningMethod -> Result<Bytes, Error>, now ::
          lib.signedString(HS256, c, key).Ok? && kf(HS256) == Ok(key) && now >= c.expiresAt * Second ==>
          var o := lib.parseWithClaims(lib.signedString(HS256, c, key).value, kf, now);
          !o.valid && o.err.Some? && Is(o.err.value, JwtTokenExpired))
    && (forall tok, kf: SigningMethod -> Result<Bytes, Error>, now ::
          lib.header(tok).Some? && kf(lib.header(tok).value).Err? ==>
          lib.parseWithClaims(tok, kf, now).err.Some? &&
          MatchesNoSentinel(lib.parseWithClaims(tok, kf, now).err.value))
    && (forall tok, kf: SigningMethod -> Result<Bytes, Error>, now ::
          lib.parseWithClaims(tok, kf, now).err.Some? ==>
          OnlyFrom(lib.parseWithClaims(tok, kf, now).err.value, JwtLib))
  }

  /** The laws do not contradict each other. */
  lemma LawsAreConsistent()
    ensures exists lib :: Laws(lib)
  {
    var lib := Jwt(
      (m: SigningMethod, c: Claims, key: Bytes) => Err(Opaque("signing is unavailable")),
      (tok: Bytes) => None,
      (tok: Bytes, kf: SigningMethod -> Result<Bytes, Error>, now: int) => Outcome(false, Claims([], 0), None));
    assert Laws(lib);
  }

  /** `(*Token).BuildNewJWTToken` at time `now`. */
  function BuildNewJWTToken(t: Token, lib: Jwt, login: Bytes, now: int): (r: Result<Bytes, Error>)
    ensures r.Ok? <==> lib.signedString(HS256, IssuedClaims(t, login, now), t.secretKey).Ok?
    ensures r.Ok? ==> r.value == lib.signedString(HS256, IssuedClaims(t, login, now), t.secretKey).value
  {
    match lib.signedString(HS256, IssuedClaims(t, login, now), t.secretKey)
    case Ok(s) => Ok(s)
    case Err(e) => Err(Wrap("failed to get signed string", e))
  }

  /** The key function `ParseJWTToken` hands the library: the secret for
      HS256, a refusal that wraps nothing for any other method. */
  function Key(t: Token, m: SigningMethod): (r: Result<Bytes, Error>)
    ensures r.Ok? <==> m == HS256
    ensures r.Ok? ==> r.value == t.secretKey
    ensures r.Err? ==> MatchesNoSentinel(r.error)
  {
    if m != HS256 then Err(Opaque("unexpected signing method: " + m.alg)) else Ok(t.secretKey)
  }

  /** `Key` as the function value the library calls back. */
  function KeyFunc(t: Token): SigningMethod -> Result<Bytes, Error> {
    m => Key(t, m)
  }

  /** How `ParseJWTToken` turns the library's outcome into its own. */
  function Classify(o: Outcome): (r: Result<Claims, Error>)
    ensures r == Err(Sentinel(TokenTokenExpired)) <==> o.err.Some? && Is(o.err.value, JwtTokenExpired)
    ensures r == Err(Sentinel(TokenInvalidToken)) <==> o.err.None? && !o.valid
    ensures r.Ok? <==> o.err.None? && o.valid
    ensures r.Ok? ==> r.value == o.claims
    ensures o.err.Some? && !Is(o.err.value, JwtTokenExpired) ==>
              r.Err? && r.error.Wrapped? && forall s :: Is(r.error, s) <==> Is(o.err.value, s)
  {
    if o.err.Some? && !Is(o.err.value, JwtTokenExpired) then Err(Wrap("failed to parse jwt", o.err.value))
    else if o.err.Some? then Err(Sentinel(TokenTokenExpired))
    else if !o.valid then Err(Sentinel(TokenInvalidToken))
    else Ok(o.claims)
  }

  /** `(*Token).ParseJWTToken` at time `now`. */
  function ParseJWTToken(t: Token, lib: Jwt, token: Bytes, now: int): (r: Result<Claims, Error>)
    ensures var o := lib.parseWithClaims(token, KeyFunc(t), now);
            && (r.Ok? <==> o.err.None? && o.valid)
            && (r.Ok? ==> r.value == o.claims)
            && (r.Err? ==> r.error == Sentinel(TokenTokenExpired) || r.error == Sentinel(TokenInvalidToken) || r.error.Wrapped?)
  {
    Classify(lib.parseWithClaims(token, KeyFunc(t), now))
  }

  /** Every error of ParseJWTToken is one of the two sentinels or a wrapped
      library error that matches no token sentinel. */
  lemma ParseErrors(t: Token, lib: Jwt, token: Bytes, now: int)
    requires Laws(lib)
    ensures var r := ParseJWTToken(t, lib, token, now);
      r.Err? ==> r.error == Sentinel(TokenTokenExpired) || r.error == Sentinel(TokenInvalidToken)
                 || (r.error.Wrapped? && OnlyFrom(r.error, JwtLib))
  {
    var o := lib.parseWithClaims(token, KeyFunc(t), now);
    if o.err.Some? {
      assert OnlyFrom(o.err.value, JwtLib);
    }
  }

  /** A token issued for `login`, checked before its expiry, gives back the
      issued claims, so its `Login` is that login. */
  lemma IssuedTokenParses(t: Token, lib: Jwt, login: Bytes, now: int, later: int)
    requires Laws(lib)
    requires BuildNewJWTToken(t, lib, login, now).Ok?
    requires later < IssuedClaims(t, login, now).expiresAt * Second
    ensures ParseJWTToken(t, lib, BuildNewJWTToken(t, lib, login, now).value, later) == Ok(IssuedClaims(t, login, now))
    ensures ParseJWTToken(t, lib, BuildNewJWTToken(t, lib, login, now).value, later).value.login == login
  {
    var kf := KeyFunc(t);
    assert kf(HS256) == Ok(t.secretKey);
  }

  /** The same token checked at or after its expiry gives `ErrTokenExpired`. */
  lemma IssuedTokenExpires(t: Token, lib: Jwt, login: Bytes, now: int, later: int)
    requires Laws(lib)
    requires BuildNewJWTToken(t, lib, login, now).Ok?
    requires later >= IssuedClaims(t, login, now).expiresAt * Second
    ensures ParseJWTToken(t, lib, BuildNewJWTToken(t, lib, login, now).value, later) == Err(Sentinel(TokenTokenExpired))
  {
    var kf := KeyFunc(t);
    assert kf(HS256) == Ok(t.secretKey);
  }

  /** Under the lifetime the server is configured with, a token is accepted
      until a second before ten minutes after its issue, and has expired at
      ten minutes. */
  lemma ConfiguredLifetime(sk: Bytes, lib: Jwt, login: Bytes, now: int)
    requires Laws(lib) && sk != []
    requires BuildNewJWTToken(New(sk, ConfiguredTokenExp).value, lib, login, now).Ok?
    ensures var t := New(sk, ConfiguredTokenExp).value;
            var tok := BuildNewJWTToken(t, lib, login, now).value;
            && t.exp == 10 * Minute
            && ParseJWTToken(t, lib, tok, now + ConfiguredTokenExp - Second) == Ok(IssuedClaims(t, login, now))
            && ParseJWTToken(t, lib, tok, now + ConfiguredTokenExp) == Err(Sentinel(TokenTokenExpired))
  {
    var t := New(sk, ConfiguredTokenExp).value;
    IssuedTokenParses(t, lib, login, now, now + ConfiguredTokenExp - Second);
    IssuedTokenExpires(t, lib, login, now, now + ConfiguredTokenExp);
  }

  /** A token whose header names any method but HS256 is refused by the key
      function and comes back as a wrapped "failed to parse jwt" error, which
      is neither `ErrInvalidToken` nor `ErrTokenExpired`. */
  lemma ForeignMethodRefused(t: Token, lib: Jwt, token: Bytes, now: int)
    requires Laws(lib)
    requires lib.header(token).Some? && lib.header(token).value != HS256
    ensures var r := ParseJWTToken(t, lib, token, now);
      r.Err? && r.error.Wrapped? && r.error.context == "failed to parse jwt" && MatchesNoSentinel(r.error)
  {
    var kf := KeyFunc(t);
    assert kf(lib.header(token).value).Err?;
    var o := lib.parseWithClaims(token, kf, now);
    assert o.err.Some? && MatchesNoSentinel(o.err.value);
    assert !Is(o.err.value, JwtTokenExpired);
  }
}
