/** The access gate of internal/transport/interceptor/auth.go: the unary
    interceptor that lets registration and login through, and otherwise
    admits a call only with a valid, unexpired JWT whose login it attaches to
    the outgoing metadata. */
module Interceptor {
  import opened Wrappers
  import opened Strings
  import opened Errors
  import opened Grpc
  import Entity
  import Token

  /** What the gate does with a call: run the handler on the unchanged
      context, refuse it with a status, or run the handler on a new context. */
  datatype Verdict = Bypass | Reject(status: Status) | Forward(ctx: Context)

  /** The message of the status a call without incoming metadata is refused with. */
  const MissingMetadata := "missing metadata"

  /** The names whose occurrence in a full method name lets a call through. */
  const RegisterUserName := "RegisterUser"
  const AuthUserName := "AuthUser"

  /** Methods that need no token: those whose full name contains one of the
      two names anywhere. */
  predicate IsOpenMethod(fullMethod: string)
    ensures IsOpenMethod(fullMethod) <==>
              exists i :: 0 <= i <= |fullMethod| && (RegisterUserName <= fullMethod[i..] || AuthUserName <= fullMethod[i..])
  {
    ContainsIff(fullMethod, RegisterUserName);
    ContainsIff(fullMethod, AuthUserName);
    Contains(fullMethod, RegisterUserName) || Contains(fullMethod, AuthUserName)
  }

  /** The gRPC transport never delivers a metadata key without a value. */
  predicate WellFormed(ctx: Context) {
    ctx.incoming.Some? ==> forall k :: k in ctx.incoming.value ==> |ctx.incoming.value[k]| > 0
  }

  /** The first `auth_token` value, the only one the gate reads. */
  function AuthToken(ctx: Context): (tok: Bytes)
    requires WellFormed(ctx) && ctx.incoming.Some? && Entity.AuthTokenHeader in ctx.incoming.value
    ensures tok in ctx.incoming.value[Entity.AuthTokenHeader]
  {
    ctx.incoming.value[Entity.AuthTokenHeader][0]
  }

  /** The second half of the chain: from the parse result to the verdict. */
  function Admit(parsed: Result<Token.Claims, Error>, ctx: Context): (v: Verdict)
    ensures v.Bypass? == false
    ensures v.Forward? <==> parsed.Ok? && parsed.value.login != []
    ensures v.Forward? ==> v.ctx == AppendToOutgoing(ctx, Entity.UserLoginHeaderName, parsed.value.login)
    ensures parsed.Err? ==>
              var invalid, expired := Is(parsed.error, TokenInvalidToken), Is(parsed.error, TokenTokenExpired);
              && (invalid ==> v == Reject(Status(InvalidArgument, InvalidTokenText)))
              && (!invalid && expired ==> v == Reject(Status(InvalidArgument, TokenExpiredText)))
              && (!invalid && !expired ==> v == Reject(Named(Internal)))
    ensures parsed.Ok? && parsed.value.login == [] ==> v == Reject(Named(Unauthenticated))
  {
    match parsed
    case Err(e) =>
      if Is(e, TokenInvalidToken) then Reject(Status(InvalidArgument, SentinelText(TokenInvalidToken)))
      else if Is(e, TokenTokenExpired) then Reject(Status(InvalidArgument, SentinelText(TokenTokenExpired)))
      else Reject(Named(Internal))
    case Ok(claims) =>
      if claims.login == [] then Reject(Named(Unauthenticated))
      else Forward(AppendToOutgoing(ctx, Entity.UserLoginHeaderName, claims.login))
  }

  /** `(*Auth).CheckAccess` for a call of `fullMethod` at time `now`. */
  function CheckAccess(t: Token.Token, lib: Token.Jwt, now: int, fullMethod: string, ctx: Context): (v: Verdict)
    requires WellFormed(ctx)
    ensures v.Bypass? <==> IsOpenMethod(fullMethod)
    ensures !IsOpenMethod(fullMethod) && ctx.incoming.None? ==> v == Reject(Status(InvalidArgument, MissingMetadata))
    ensures !IsOpenMethod(fullMethod) && ctx.incoming.Some? && Entity.AuthTokenHeader !in ctx.incoming.value ==>
              v == Reject(Status(PermissionDenied, CodeName(PermissionDenied) + ": missing auth token"))
    ensures v.Forward? ==>
              (ctx.incoming.Some? && Entity.AuthTokenHeader in ctx.incoming.value &&
               var parsed := Token.ParseJWTToken(t, lib, AuthToken(ctx), now);
               parsed.Ok? && parsed.value.login != [] &&
               v.ctx == AppendToOutgoing(ctx, Entity.UserLoginHeaderName, parsed.value.login))
  {
    if IsOpenMethod(fullMethod) then Bypass
    else if ctx.incoming.None? then Reject(Status(InvalidArgument, MissingMetadata))
    else if Entity.AuthTokenHeader !in ctx.incoming.value then
      Reject(Status(PermissionDenied, CodeName(PermissionDenied) + ": missing auth token"))
    else Admit(Token.ParseJWTToken(t, lib, AuthToken(ctx), now), ctx)
  }

  /** A call whose metadata carries, first under `auth_token`, a token the
      same authority issued for a non-empty login, made before that token
      expires, reaches the handler with the login appended under `User-Login`. */
  lemma IssuedTokenAdmitted(t: Token.Token, lib: Token.Jwt, login: Bytes, issuedAt: int, now: int,
                            fullMethod: string, ctx: Context)
    requires Token.Laws(lib) && WellFormed(ctx)
    requires Token.BuildNewJWTToken(t, lib, login, issuedAt).Ok? && login != []
    requires now < Token.IssuedClaims(t, login, issuedAt).expiresAt * Token.Second
    requires !IsOpenMethod(fullMethod)
    requires ctx.incoming.Some? && Entity.AuthTokenHeader in ctx.incoming.value
    requires AuthToken(ctx) == Token.BuildNewJWTToken(t, lib, login, issuedAt).value
    ensures CheckAccess(t, lib, now, fullMethod, ctx) == Forward(AppendToOutgoing(ctx, Entity.UserLoginHeaderName, login))
  {
    Token.IssuedTokenParses(t, lib, login, issuedAt, now);
  }

  /** The same call at or after the token's expiry is refused with
      InvalidArgument "token expired", and the handler does not run. */
  lemma ExpiredTokenRejected(t: Token.Token, lib: Token.Jwt, login: Bytes, issuedAt: int, now: int,
                             fullMethod: string, ctx: Context)
    requires Token.Laws(lib) && WellFormed(ctx)
    requires Token.BuildNewJWTToken(t, lib, login, issuedAt).Ok?
    requires now >= Token.IssuedClaims(t, login, issuedAt).expiresAt * Token.Second
    requires !IsOpenMethod(fullMethod)
    requires ctx.incoming.Some? && Entity.AuthTokenHeader in ctx.incoming.value
    requires AuthToken(ctx) == Token.BuildNewJWTToken(t, lib, login, issuedAt).value
    ensures CheckAccess(t, lib, now, fullMethod, ctx) == Reject(Status(InvalidArgument, TokenExpiredText))
  {
    Token.IssuedTokenExpires(t, lib, login, issuedAt, now);
  }

  /** A token issued for the empty login is refused as Unauthenticated while
      it is still valid. */
  lemma EmptyLoginRejected(t: Token.Token, lib: Token.Jwt, issuedAt: int, now: int, fullMethod: string, ctx: Context)
    requires Token.Laws(lib) && WellFormed(ctx)
    requires Token.BuildNewJWTToken(t, lib, [], issuedAt).Ok?
    requires now < Token.IssuedClaims(t, [], issuedAt).expiresAt * Token.Second
    requires !IsOpenMethod(fullMethod)
    requires ctx.incoming.Some? && Entity.AuthTokenHeader in ctx.incoming.value
    requires AuthToken(ctx) == Token.BuildNewJWTToken(t, lib, [], issuedAt).value
    ensures CheckAccess(t, lib, now, fullMethod, ctx) == Reject(Named(Unauthenticated))
  {
    Token.IssuedTokenParses(t, lib, [], issuedAt, now);
  }

  /** A token signed with any method but HS256 is an Internal error at the
      gate, not InvalidArgument: the key function's refusal is neither of the
      token sentinels. */
  lemma ForeignMethodIsInternal(t: Token.Token, lib: Token.Jwt, now: int, fullMethod: string, ctx: Context)
    requires Token.Laws(lib) && WellFormed(ctx)
    requires !IsOpenMethod(fullMethod)
    requires ctx.incoming.Some? && Entity.AuthTokenHeader in ctx.incoming.value
    requires lib.header(AuthToken(ctx)).Some? && lib.header(AuthToken(ctx)).value != Token.HS256
    ensures CheckAccess(t, lib, now, fullMethod, ctx) == Reject(Named(Internal))
  {
    Token.ForeignMethodRefused(t, lib, AuthToken(ctx), now);
  }
}
